/**
 * Decimal money held to two places. The engine rounds with ROUND_HALF_UP,
 * which for Python's decimal module means half AWAY from zero, in a context of
 * 10 significant digits (financial_core.py:7-15).
 */
module Money {
  import opened Wrappers

  /** With 10 significant digits and 2 places, a quantized value must stay below 10^8. */
  const Limit: real := 100000000.0

  function Abs(x: real): real {
    if x < 0.0 then -x else x
  }

  function Max(a: real, b: real): real {
    if a < b then b else a
  }

  /** Whole cents of `x`, ties away from zero. */
  function Cents(x: real): int {
    if x >= 0.0 then (x * 100.0 + 0.5).Floor else -((-x) * 100.0 + 0.5).Floor
  }

  /** `x` rounded to two decimal places, ties away from zero. */
  function Round2(x: real): real {
    Cents(x) as real / 100.0
  }

  /** `x` is a whole number of cents. */
  predicate IsCents(x: real) {
    (x * 100.0).Floor as real == x * 100.0
  }

  /** `quantize` succeeds: the rounded value fits the 10-digit context. */
  predicate Fits(x: real) {
    -Limit < Round2(x) < Limit
  }

  /**
   * `round_decimal(x)`: the value to the nearest cent, or the InvalidOperation
   * that `quantize` signals when the result does not fit the context.
   */
  function Round(x: real): (r: Result<real>)
    ensures r.Success? <==> -Limit < Round2(x) < Limit
    ensures r.Success? ==> r.value == Round2(x)
    ensures r.Success? ==> IsCents(r.value) && Abs(r.value - x) <= 0.005
    ensures r.Failure? ==> r.fault == PrecisionOverflow
  {
    Round2IsCents(x);
    Round2IsNearest(x);
    if Fits(x) then Success(Round2(x)) else Failure(PrecisionOverflow)
  }

  /** A whole number of cents is `n / 100` for an integer `n`. */
  lemma CentsAsInteger(x: real) returns (n: int)
    requires IsCents(x)
    ensures x == n as real / 100.0
  {
    n := (x * 100.0).Floor;
  }

  lemma IntegerIsCents(n: int)
    ensures IsCents(n as real / 100.0)
  {
    assert (n as real / 100.0) * 100.0 == n as real;
  }

  /** Every rounded value is a whole number of cents. */
  lemma Round2IsCents(x: real)
    ensures IsCents(Round2(x))
  {
    IntegerIsCents(Cents(x));
  }

  /** Rounding moves a value by at most half a cent. */
  lemma Round2IsNearest(x: real)
    ensures -0.005 <= Round2(x) - x <= 0.005
  {
    if x >= 0.0 {
      var f := (x * 100.0 + 0.5).Floor;
      assert f as real <= x * 100.0 + 0.5 < f as real + 1.0;
    } else {
      var f := ((-x) * 100.0 + 0.5).Floor;
      assert f as real <= (-x) * 100.0 + 0.5 < f as real + 1.0;
    }
  }

  /** A whole number of cents is left alone: rounding is idempotent. */
  lemma {:induction false} Round2OfCents(x: real)
    requires IsCents(x)
    ensures Round2(x) == x
  {
    var n := CentsAsInteger(x);
    assert x * 100.0 == n as real;
    if x >= 0.0 {
      assert (x * 100.0 + 0.5).Floor == n;
    } else {
      assert ((-x) * 100.0 + 0.5).Floor == -n;
    }
  }

  lemma Round2Idempotent(x: real)
    ensures Round2(Round2(x)) == Round2(x)
  {
    Round2IsCents(x);
    Round2OfCents(Round2(x));
  }

  /** Rounding commutes with negation: the rule is symmetric about zero. */
  lemma Round2Odd(x: real)
    ensures Round2(-x) == -Round2(x)
  {
    if x > 0.0 {
      assert Cents(-x) == -Cents(x);
    } else if x < 0.0 {
      assert -(-x) == x;
      assert Cents(-x) == -Cents(x);
    }
  }

  /** A value exactly halfway between two cent values goes to the one farther from zero. */
  lemma Round2TiesAwayFromZero(n: nat)
    ensures Round2((n as real + 0.5) / 100.0) == (n + 1) as real / 100.0
    ensures Round2(-(n as real + 0.5) / 100.0) == -((n + 1) as real / 100.0)
  {
    var x := (n as real + 0.5) / 100.0;
    assert x * 100.0 + 0.5 == (n + 1) as real;
    assert Cents(x) == n + 1;
    Round2Odd(x);
    assert -(n as real + 0.5) / 100.0 == -x;
  }

  /** The floor of a real never reverses order. */
  lemma FloorMonotone(a: real, b: real)
    requires a <= b
    ensures a.Floor <= b.Floor
  {
    assert a.Floor as real <= a <= b < b.Floor as real + 1.0;
  }

  /** Rounding never reverses the order of two values. */
  lemma Round2Monotone(x: real, y: real)
    requires x <= y
    ensures Round2(x) <= Round2(y)
  {
    if 0.0 <= x {
      FloorMonotone(x * 100.0 + 0.5, y * 100.0 + 0.5);
    } else if y < 0.0 {
      FloorMonotone((-y) * 100.0 + 0.5, (-x) * 100.0 + 0.5);
    } else {
      assert Cents(x) <= 0 <= Cents(y);
    }
    assert Cents(x) <= Cents(y);
  }

  /**
   * Independent characterisation: the cent value within half a cent of `x`,
   * and on an exact tie the one of larger magnitude, is what `Round2` returns.
   */
  lemma Round2Characterised(x: real, c: real)
    requires IsCents(c)
    requires Abs(c - x) < 0.005 || (Abs(c - x) == 0.005 && Abs(c) > Abs(x))
    ensures Round2(x) == c
  {
    var n := CentsAsInteger(c);
    Round2IsNearest(x);
    Round2IsCents(x);
    var m := CentsAsInteger(Round2(x));
    if Abs(c - x) < 0.005 {
      assert -1 < n - m < 1 by {
        assert -0.01 < c - Round2(x) < 0.01;
      }
    } else if x >= 0.0 {
      assert c - x == 0.005;
      assert x * 100.0 + 0.5 == n as real;
    } else {
      assert c - x == -0.005;
      assert (-x) * 100.0 + 0.5 == (-n) as real;
    }
  }

  /** Sums, differences and negations of cent values are cent values. */
  lemma CentsClosed(a: real, b: real)
    requires IsCents(a) && IsCents(b)
    ensures IsCents(a + b) && IsCents(a - b) && IsCents(-a)
  {
    var n := CentsAsInteger(a);
    var m := CentsAsInteger(b);
    IntegerIsCents(n + m);
    IntegerIsCents(n - m);
    IntegerIsCents(-n);
    assert a + b == (n + m) as real / 100.0;
    assert a - b == (n - m) as real / 100.0;
    assert -a == (-n) as real / 100.0;
  }

  /** Zero is a cent value that rounds to itself. */
  lemma ZeroIsCents()
    ensures IsCents(0.0) && Round2(0.0) == 0.0 && Fits(0.0)
  {
    IntegerIsCents(0);
  }
}
