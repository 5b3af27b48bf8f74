/**
 * Discounting of the net cash flows (financial_comprehensive_module.py:121-127
 * and 150-158; financial_calculator.py:430-436 and 456-462). Year index `i`
 * (0-based) is discounted by `(1 + rate)^i`; each discounted flow is rounded
 * to the cent before it is added up.
 */
module Discounting {
  import opened Wrappers
  import opened Money
  import opened YearTables

  /** `b` to the power `n`. */
  function Pow(b: real, n: nat): real {
    if n == 0 then 1.0 else b * Pow(b, n - 1)
  }

  /** A non-zero base has non-zero powers, so every discount factor is defined. */
  lemma {:induction false} PowNonzero(b: real, n: nat)
    requires b != 0.0
    ensures Pow(b, n) != 0.0
  {
    if n > 0 {
      PowNonzero(b, n - 1);
    }
  }

  /** A positive base has positive powers. */
  lemma {:induction false} PowPositive(b: real, n: nat)
    requires b > 0.0
    ensures Pow(b, n) > 0.0
  {
    if n > 0 {
      PowPositive(b, n - 1);
    }
  }

  /**
   * The flow of year index `i` at present value, to the cent. A zero flow is
   * skipped and counts as zero; otherwise a rate of -1 makes the discount
   * factor `1 / 0^i` undefined (`0 ** 0` for the first year, a division by zero
   * after it).
   */
  function DiscountedFlow(flow: real, rate: real, i: nat): (r: Result<real>)
    ensures flow == 0.0 ==> r == Success(0.0)
    ensures flow != 0.0 && 1.0 + rate == 0.0 ==> r == Failure(DivisionByZero)
    ensures flow != 0.0 && 1.0 + rate != 0.0 ==>
              && Pow(1.0 + rate, i) != 0.0
              && (r.Success? <==> Fits(flow / Pow(1.0 + rate, i)))
              && (r.Success? ==> IsCents(r.value) && Abs(r.value - flow / Pow(1.0 + rate, i)) <= 0.005)
  {
    if flow == 0.0 then Success(0.0)
    else if 1.0 + rate == 0.0 then Failure(DivisionByZero)
    else
      PowNonzero(1.0 + rate, i);
      Round(flow / Pow(1.0 + rate, i))
  }

  /** The discounted flow of every year, in year order. */
  function DiscountedFlows(net: seq<real>, rate: real): (r: Result<seq<real>>)
    ensures r.Success? <==> forall i :: 0 <= i < |net| ==> DiscountedFlow(net[i], rate, i).Success?
    ensures r.Success? ==> |r.value| == |net| && forall i :: 0 <= i < |net| ==> r.value[i] == DiscountedFlow(net[i], rate, i).value
  {
    var f := (i: nat) => if i < |net| then DiscountedFlow(net[i], rate, i) else Success(0.0);
    var r := Tabulate(|net|, f);
    assert forall i :: 0 <= i < |net| ==> f(i) == DiscountedFlow(net[i], rate, i);
    r
  }

  /** The net present value: the discounted flows added up, to the cent. */
  function Npv(net: seq<real>, rate: real): (r: Result<real>)
    ensures r.Success? <==> DiscountedFlows(net, rate).Success? && Fits(Sum(DiscountedFlows(net, rate).value))
    ensures r.Success? ==> IsCents(r.value) && Abs(r.value - Sum(DiscountedFlows(net, rate).value)) <= 0.005
  {
    var terms :- DiscountedFlows(net, rate);
    Round(Sum(terms))
  }

  /**
   * At a rate of -1 the discounting succeeds exactly when every flow is zero:
   * the first non-zero flow hits the undefined discount factor.
   */
  lemma RateMinusOneFails(net: seq<real>)
    ensures DiscountedFlows(net, -1.0).Success? <==> forall i :: 0 <= i < |net| ==> net[i] == 0.0
    ensures (exists i :: 0 <= i < |net| && net[i] != 0.0) ==> Npv(net, -1.0) == Failure(DivisionByZero)
  {
    if exists i :: 0 <= i < |net| && net[i] != 0.0 {
      var i :| 0 <= i < |net| && net[i] != 0.0;
      assert DiscountedFlow(net[i], -1.0, i).Failure?;
      var f := (j: nat) => if j < |net| then DiscountedFlow(net[j], -1.0, j) else Success(0.0);
      assert forall j :: 0 <= j < |net| ==> f(j) == DiscountedFlow(net[j], -1.0, j);
      assert forall j :: 0 <= j < |net| && f(j).Failure? ==> f(j).fault == DivisionByZero;
    }
  }

  /** At a zero rate every discount factor is 1, so stored (rounded) flows are their own present values. */
  lemma NpvAtZeroRate(net: seq<real>)
    requires forall i :: 0 <= i < |net| ==> IsCents(net[i]) && -Limit < net[i] < Limit
    ensures DiscountedFlows(net, 0.0) == Success(net)
    ensures Npv(net, 0.0) == Round(Sum(net))
  {
    forall i | 0 <= i < |net|
      ensures DiscountedFlow(net[i], 0.0, i) == Success(net[i])
    {
      PowOne(i);
      if net[i] != 0.0 {
        assert Pow(1.0 + 0.0, i) == 1.0;
        assert net[i] / Pow(1.0 + 0.0, i) == net[i];
        Round2OfCents(net[i]);
      }
    }
    assert DiscountedFlows(net, 0.0).value == net;
  }

  /** Every power of one is one. */
  lemma {:induction false} PowOne(n: nat)
    ensures Pow(1.0, n) == 1.0
  {
    if n > 0 {
      PowOne(n - 1);
    }
  }

  /**
   * The older engine's discounting for the dynamic payback period: it builds
   * the discount factor for every flow, zero or not, and rounds the product.
   */
  function VariantDiscountedFlow(flow: real, rate: real, i: nat): (r: Result<real>)
    ensures 1.0 + rate == 0.0 ==> r == Failure(DivisionByZero)
    ensures 1.0 + rate != 0.0 ==> r == DiscountedFlow(flow, rate, i)
  {
    if 1.0 + rate == 0.0 then Failure(DivisionByZero)
    else
      PowNonzero(1.0 + rate, i);
      ZeroIsCents();
      assert flow == 0.0 ==> flow / Pow(1.0 + rate, i) == 0.0;
      Round(flow / Pow(1.0 + rate, i))
  }

  /** The exact present value of `flow` in year index `i`. */
  function PresentValue(flow: real, rate: real, i: nat): real
    requires rate > -1.0
  {
    PowPositive(1.0 + rate, i);
    flow / Pow(1.0 + rate, i)
  }

  /** The exact present value of every year's flow. */
  function PresentValues(net: seq<real>, rate: real): (pv: seq<real>)
    requires rate > -1.0
    ensures |pv| == |net| && forall i :: 0 <= i < |net| ==> pv[i] == PresentValue(net[i], rate, i)
  {
    seq(|net|, i requires 0 <= i < |net| => PresentValue(net[i], rate, i))
  }

  /** The exact, unrounded net present value: what the IRR search evaluates. */
  function NpvAt(net: seq<real>, rate: real): real
    requires rate > -1.0
  {
    Sum(PresentValues(net, rate))
  }

  /**
   * The rounded NPV is within half a cent per flow, plus half a cent for the
   * final rounding, of the exact present value.
   */
  lemma NpvNearExact(net: seq<real>, rate: real)
    requires rate > -1.0
    requires Npv(net, rate).Success?
    ensures Abs(Npv(net, rate).value - NpvAt(net, rate)) <= (|net| + 1) as real * 0.005
  {
    var terms := DiscountedFlows(net, rate).value;
    var pv := PresentValues(net, rate);
    forall i | 0 <= i < |net|
      ensures Abs(terms[i] - pv[i]) <= 0.005
    {
      FlowNearExact(net[i], rate, i);
    }
    SumNear(terms, pv, 0.005);
    NearPlusHalfCent(Npv(net, rate).value, Sum(terms), Sum(pv), |net|);
  }

  /** One rounded discounted flow is within half a cent of its exact present value. */
  lemma FlowNearExact(flow: real, rate: real, i: nat)
    requires rate > -1.0 && DiscountedFlow(flow, rate, i).Success?
    ensures Abs(DiscountedFlow(flow, rate, i).value - PresentValue(flow, rate, i)) <= 0.005
  {
    PowPositive(1.0 + rate, i);
    if flow == 0.0 {
      assert PresentValue(flow, rate, i) == 0.0;
    }
  }

  /** Half a cent of final rounding on top of `n` half-cents of per-flow rounding. */
  lemma NearPlusHalfCent(rounded: real, total: real, exact: real, n: nat)
    requires Abs(rounded - total) <= 0.005 && Abs(total - exact) <= Repeated(0.005, n)
    ensures Abs(rounded - exact) <= (n + 1) as real * 0.005
  {
    RepeatedIsProduct(0.005, n);
  }

  /** At a zero rate the exact present value is the plain total. */
  lemma NpvAtZeroRateIsTotal(net: seq<real>)
    ensures NpvAt(net, 0.0) == Sum(net)
  {
    forall i | 0 <= i < |net|
      ensures PresentValues(net, 0.0)[i] == net[i]
    {
      PowOne(i);
    }
    assert PresentValues(net, 0.0) == net;
  }

  /** The exact present value of a prefix is the prefix of the present values. */
  lemma PresentValuesPrefix(net: seq<real>, rate: real, n: nat)
    requires rate > -1.0 && n <= |net|
    ensures PresentValues(net[..n], rate) == PresentValues(net, rate)[..n]
  {
  }
}
