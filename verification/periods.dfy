/**
 * Construction and operation years (ProjectPeriod, financial_core.py:18-66).
 * Years are 1-based; the per-year result arrays are indexed by year - 1.
 */
module Periods {

  datatype Period = Period(construction: nat, operation: nat) {

    /** The calculation horizon in years. */
    function Total(): nat {
      construction + operation
    }

    /** The first operation year. */
    function OperationStart(): nat {
      construction + 1
    }

    predicate IsConstructionYear(year: int) {
      1 <= year <= construction
    }

    predicate IsOperationYear(year: int) {
      OperationStart() <= year <= Total()
    }

    /** The bounds the input form enforces. */
    predicate Valid() {
      1 <= construction <= 10 && 1 <= operation <= 50
    }
  }

  /**
   * The two predicates partition the horizon: every year in [1, total] is in
   * exactly one of them, and no year outside it is in either.
   */
  lemma YearsPartition(p: Period, year: int)
    ensures 1 <= year <= p.Total() ==> (p.IsConstructionYear(year) <==> !p.IsOperationYear(year))
    ensures !(1 <= year <= p.Total()) ==> !p.IsConstructionYear(year) && !p.IsOperationYear(year)
    ensures p.Total() == p.construction + p.operation && p.OperationStart() == p.construction + 1
  {
  }

  /** Exactly `operation` years are operation years, the last `operation` of the horizon. */
  lemma OperationYearsAreTheTail(p: Period, year: int)
    ensures p.IsOperationYear(year) <==> p.Total() - p.operation < year <= p.Total()
    ensures p.IsConstructionYear(year) <==> 0 < year <= p.Total() - p.operation
  {
  }
}
