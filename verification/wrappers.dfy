/** Failure-compatible datatypes shared by every stage of the engine. */
module Wrappers {

  /** An optional value: the source's `None` for "not recovered" payback periods. */
  datatype Option<+T> = None | Some(value: T) {

    /** The value, or `default` when there is none. */
    function GetOr(default: T): T {
      if Some? then value else default
    }
  }

  /** Why a stage gives up: the exception its `try` block would catch. */
  datatype Fault =
    /** `quantize` needs more than the 10 significant digits of the context */
    | PrecisionOverflow
    /** a Decimal division by zero, or `0 ** 0` */
    | DivisionByZero
    /** a Decimal multiplied by a binary float */
    | MixedDecimalFloat
    /** a dict that lost a key while it was being iterated */
    | DictResizedDuringIteration

  /** Either the stage's value or the fault that stopped it. */
  datatype Result<+T> = Success(value: T) | Failure(fault: Fault) {

    predicate IsFailure() {
      Failure?
    }

    function PropagateFailure<U>(): Result<U>
      requires Failure?
    {
      Failure(fault)
    }

    function Extract(): T
      requires Success?
    {
      value
    }
  }
}
