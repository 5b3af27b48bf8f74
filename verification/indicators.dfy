/**
 * The investment indicators computed from the net cash flows
 * (financial_comprehensive_module.py:92-176): the internal rate of return by
 * bisection, and the static and dynamic payback periods. The older engine's
 * payback rules (financial_calculator.py:441-472) are modelled next to them.
 */
module Indicators {
  import opened Wrappers
  import opened Money
  import opened YearTables
  import opened Discounting

  // ---------------------------------------------------------------------
  // Internal rate of return
  // ---------------------------------------------------------------------

  const IrrLow: real := -0.9
  const IrrHigh: real := 1.0
  const IrrTolerance: real := 0.0001
  const IrrIterations: nat := 1000

  /**
   * The bisection from bracket `[lo, hi]` with `fuel` halvings left; `mid` is
   * the last midpoint tried. It stops at a midpoint whose exact NPV is within
   * the tolerance, moves the lower end up when the NPV is positive and the
   * upper end down otherwise, and returns the last midpoint when it runs out.
   */
  function Bisect(flows: seq<real>, lo: real, hi: real, fuel: nat, mid: real): (r: real)
    requires -1.0 < lo <= hi
    ensures fuel > 0 || lo <= mid <= hi ==> lo <= r <= hi
    ensures fuel == 0 ==> r == mid
    decreases fuel
  {
    if fuel == 0 then mid
    else
      var m := (lo + hi) / 2.0;
      var v := NpvAt(flows, m);
      if Abs(v) < IrrTolerance then m
      else if v > 0.0 then Bisect(flows, m, hi, fuel - 1, m)
      else Bisect(flows, lo, m, fuel - 1, m)
  }

  /** `calculate_irr`: the rate the search settles on always lies in [-0.9, 1.0]. */
  function CalculateIrr(flows: seq<real>): (r: real)
    ensures IrrLow <= r <= IrrHigh
  {
    Bisect(flows, IrrLow, IrrHigh, IrrIterations, 0.0)
  }

  /**
   * The bracket the bisection from `[lo, hi]` ends with: the one it last
   * halved, or the one it stopped in when a midpoint's NPV fell within the
   * tolerance.
   */
  function FinalBracket(flows: seq<real>, lo: real, hi: real, fuel: nat): (b: (real, real))
    requires -1.0 < lo <= hi
    ensures lo <= b.0 <= b.1 <= hi
    decreases fuel
  {
    if fuel == 0 then (lo, hi)
    else
      var m := (lo + hi) / 2.0;
      var v := NpvAt(flows, m);
      if Abs(v) < IrrTolerance then (lo, hi)
      else if v > 0.0 then FinalBracket(flows, m, hi, fuel - 1)
      else FinalBracket(flows, lo, m, fuel - 1)
  }

  /**
   * What the search keeps true of its bracket: an end that has moved away
   * from the initial bracket has a positive NPV at the lower end and an NPV
   * at or below minus the tolerance at the upper end.
   */
  predicate SignBracket(flows: seq<real>, lo: real, hi: real)
    requires -1.0 < lo && -1.0 < hi
  {
    && (lo == IrrLow || NpvAt(flows, lo) > 0.0)
    && (hi == IrrHigh || NpvAt(flows, hi) <= -IrrTolerance)
  }

  /** Moving `lo` up only past a positive NPV and `hi` down otherwise keeps the sign bracket. */
  lemma {:induction false} BisectKeepsSign(flows: seq<real>, lo: real, hi: real, fuel: nat)
    requires -1.0 < lo <= hi && SignBracket(flows, lo, hi)
    ensures var b := FinalBracket(flows, lo, hi, fuel); SignBracket(flows, b.0, b.1)
    decreases fuel
  {
    if fuel > 0 {
      var m := (lo + hi) / 2.0;
      var v := NpvAt(flows, m);
      if Abs(v) >= IrrTolerance {
        if v > 0.0 {
          BisectKeepsSign(flows, m, hi, fuel - 1);
        } else {
          BisectKeepsSign(flows, lo, m, fuel - 1);
        }
      }
    }
  }

  /**
   * The bisection returns early only at a midpoint whose NPV is within the
   * tolerance; otherwise it has used every step and returns the last
   * midpoint, which is an end of the final bracket.
   */
  lemma {:induction false} BisectReturnsEnd(flows: seq<real>, lo: real, hi: real, fuel: nat, mid: real)
    requires -1.0 < lo <= hi
    requires fuel > 0 || mid == lo || mid == hi
    ensures var b, r := FinalBracket(flows, lo, hi, fuel), Bisect(flows, lo, hi, fuel, mid);
      Abs(NpvAt(flows, r)) < IrrTolerance || r == b.0 || r == b.1
    decreases fuel
  {
    if fuel > 0 {
      var m := (lo + hi) / 2.0;
      var v := NpvAt(flows, m);
      if Abs(v) >= IrrTolerance {
        if v > 0.0 {
          BisectReturnsEnd(flows, m, hi, fuel - 1, m);
        } else {
          BisectReturnsEnd(flows, lo, m, fuel - 1, m);
        }
      }
    }
  }

  /** `width` halved `n` times. */
  function Halved(width: real, n: nat): real
    decreases n
  {
    if n == 0 then width else Halved(width / 2.0, n - 1)
  }

  /** A search that uses every step halves its bracket once per step. */
  lemma {:induction false} BisectHalves(flows: seq<real>, lo: real, hi: real, fuel: nat, mid: real)
    requires -1.0 < lo <= hi
    requires fuel > 0 || lo <= mid <= hi
    ensures var b, r := FinalBracket(flows, lo, hi, fuel), Bisect(flows, lo, hi, fuel, mid);
      Abs(NpvAt(flows, r)) >= IrrTolerance ==> b.1 - b.0 == Halved(hi - lo, fuel)
    decreases fuel
  {
    if fuel > 0 {
      var m := (lo + hi) / 2.0;
      var v := NpvAt(flows, m);
      if Abs(v) >= IrrTolerance {
        if v > 0.0 {
          BisectHalves(flows, m, hi, fuel - 1, m);
        } else {
          BisectHalves(flows, lo, m, fuel - 1, m);
        }
      }
    }
  }

  /** Halving `n` times is dividing by `2^n`. */
  lemma {:induction false} HalvedIsDivision(width: real, n: nat)
    ensures Halved(width, n) * Pow(2.0, n) == width
    decreases n
  {
    if n > 0 {
      HalvedIsDivision(width / 2.0, n - 1);
      HalvingDoubles(Halved(width / 2.0, n - 1), Pow(2.0, n - 1), width / 2.0);
    }
  }

  /** A bracket that is `p` times narrower than a half is `2p` times narrower than the whole. */
  lemma HalvingDoubles(width: real, p: real, half: real)
    requires width * p == half
    ensures width * (2.0 * p) == 2.0 * half
  {
  }

  /**
   * `calculate_irr` either returns a rate whose NPV is within the tolerance,
   * or has run all its iterations and returns an end of the final bracket:
   * the initial bracket halved 1000 times, whose lower end has a positive
   * NPV (or is -0.9) and whose upper end has an NPV at or below minus the
   * tolerance (or is 1.0).
   */
  lemma IrrOutcome(flows: seq<real>)
    ensures var b, r := FinalBracket(flows, IrrLow, IrrHigh, IrrIterations), CalculateIrr(flows);
      && SignBracket(flows, b.0, b.1)
      && (Abs(NpvAt(flows, r)) < IrrTolerance || r == b.0 || r == b.1)
      && (Abs(NpvAt(flows, r)) >= IrrTolerance ==> b.1 - b.0 == Halved(IrrHigh - IrrLow, IrrIterations))
  {
    BisectKeepsSign(flows, IrrLow, IrrHigh, IrrIterations);
    BisectReturnsEnd(flows, IrrLow, IrrHigh, IrrIterations, 0.0);
    BisectHalves(flows, IrrLow, IrrHigh, IrrIterations, 0.0);
  }

  /** The exact NPV at `rate`, accumulated year by year as the generator expression does. */
  method NpvAtLoop(flows: seq<real>, rate: real) returns (v: real)
    requires rate > -1.0
    ensures v == NpvAt(flows, rate)
  {
    var pv := PresentValues(flows, rate);
    v := 0.0;
    var i := 0;
    while i < |flows|
      invariant 0 <= i <= |flows|
      invariant v == Sum(pv[..i])
    {
      PowPositive(1.0 + rate, i);
      v := v + flows[i] / Pow(1.0 + rate, i);
      SumStep(pv, i);
      i := i + 1;
    }
    SumWhole(pv);
  }

  /** `calculate_irr` as the loop it is written as; it returns what `CalculateIrr` specifies. */
  method CalculateIrrLoop(flows: seq<real>) returns (rate: real)
    ensures rate == CalculateIrr(flows)
    ensures IrrLow <= rate <= IrrHigh
    ensures var b := FinalBracket(flows, IrrLow, IrrHigh, IrrIterations);
      Abs(NpvAt(flows, rate)) < IrrTolerance || rate == b.0 || rate == b.1
  {
    var lo, hi := IrrLow, IrrHigh;
    var mid := 0.0;
    var k := 0;
    while k < IrrIterations
      invariant 0 <= k <= IrrIterations
      invariant -1.0 < lo <= hi
      invariant Bisect(flows, lo, hi, IrrIterations - k, mid) == CalculateIrr(flows)
    {
      mid := (lo + hi) / 2.0;
      var v := NpvAtLoop(flows, mid);
      if Abs(v) < IrrTolerance {
        return mid;
      }
      if v > 0.0 {
        lo := mid;
      } else {
        hi := mid;
      }
      k := k + 1;
    }
    rate := mid;
    IrrOutcome(flows);
  }

  /**
   * An investment of 100 returning 105 a year later has an exact root at 5%,
   * the first midpoint the search tries, so that is the rate it reports.
   */
  lemma IrrFindsExactRoot()
    ensures CalculateIrr([-100.0, 105.0]) == 0.05
  {
    var flows := [-100.0, 105.0];
    var pv := PresentValues(flows, 0.05);
    assert pv[0] == -100.0;
    assert Pow(1.05, 1) == 1.05;
    assert pv[1] == 100.0;
    assert Sum(pv) == Sum(pv[..1]) + pv[1];
    assert pv[..1][..0] == [];
    assert NpvAt(flows, 0.05) == 0.0;
  }

  /**
   * With no cash flows the NPV is zero everywhere, so the search stops at its
   * first midpoint and reports 5%.
   */
  lemma IrrOfNoFlows()
    ensures CalculateIrr([]) == 0.05
  {
    assert NpvAt([], 0.05) == 0.0;
  }

  // ---------------------------------------------------------------------
  // Static payback period
  // ---------------------------------------------------------------------

  /**
   * Year index `i` is where the cumulative cash flow turns non-negative from
   * negative, with a non-zero net flow that year to interpolate over.
   */
  predicate StaticRecovery(net: seq<real>, cum: seq<real>, i: nat) {
    1 <= i < |cum| && i < |net| && cum[i] >= 0.0 && cum[i - 1] < 0.0 && net[i] != 0.0
  }

  /** The loop's search: the first recovery index from `i` on. */
  function StaticRecoveryFrom(net: seq<real>, cum: seq<real>, i: nat): (r: Option<nat>)
    ensures r.None? <==> forall j :: i <= j < |cum| ==> !StaticRecovery(net, cum, j)
    ensures r.Some? ==> i <= r.value < |cum| && StaticRecovery(net, cum, r.value)
                        && forall j :: i <= j < r.value ==> !StaticRecovery(net, cum, j)
    decreases |cum| - i
  {
    if i >= |cum| then None
    else if StaticRecovery(net, cum, i) then Some(i)
    else StaticRecoveryFrom(net, cum, i + 1)
  }

  /**
   * The static payback period: at the first recovery index `i`, `i` plus the
   * share of that year's flow needed to cover the deficit before it; none if
   * the cumulative cash flow never recovers.
   */
  function StaticPayback(net: seq<real>, cum: seq<real>): (r: Option<real>)
    ensures r.None? <==> forall i :: 1 <= i < |cum| ==> !StaticRecovery(net, cum, i)
    ensures r.Some? ==> exists i :: 1 <= i < |cum| && StaticRecovery(net, cum, i)
                          && (forall j :: 1 <= j < i ==> !StaticRecovery(net, cum, j))
                          && r.value == Interpolate(i, cum[i - 1], net[i])
  {
    match StaticRecoveryFrom(net, cum, 1)
    case None => None
    case Some(i) => Some(Interpolate(i, cum[i - 1], net[i]))
  }

  /**
   * Year index `i` plus the share of that year's flow `flow` needed to cover
   * the amount `before` standing before it, both taken in absolute value.
   */
  function Interpolate(i: nat, before: real, flow: real): real
    requires flow != 0.0
  {
    i as real + Abs(before) / Abs(flow)
  }

  /** The cumulative column is the running total of the net column. */
  predicate RunningTotal(net: seq<real>, cum: seq<real>) {
    && |net| == |cum|
    && (|cum| > 0 ==> cum[0] == net[0])
    && forall i :: 1 <= i < |cum| ==> cum[i] == cum[i - 1] + net[i]
  }

  /**
   * On a running total that starts in deficit, any non-negative cumulative
   * value at `k` is reached through a year that crosses from deficit to
   * surplus on a non-zero flow, at or before `k`.
   */
  lemma {:induction false} CrossingBefore(net: seq<real>, cum: seq<real>, k: nat)
    requires RunningTotal(net, cum) && |cum| > 0 && cum[0] < 0.0
    requires k < |cum| && cum[k] >= 0.0
    ensures exists j :: 1 <= j <= k && StaticRecovery(net, cum, j)
  {
    if cum[k - 1] < 0.0 {
      assert StaticRecovery(net, cum, k);
    } else {
      CrossingBefore(net, cum, k - 1);
    }
  }

  /**
   * On a running total that starts in deficit, a payback period exists exactly
   * when the cumulative cash flow ever becomes non-negative, and it falls
   * within the recovery year: after its start, no later than its end.
   */
  lemma StaticPaybackMeaning(net: seq<real>, cum: seq<real>)
    requires RunningTotal(net, cum) && |cum| > 0 && cum[0] < 0.0
    ensures StaticPayback(net, cum).Some? <==> exists i :: 0 <= i < |cum| && cum[i] >= 0.0
    ensures StaticPayback(net, cum).Some? ==>
              exists i :: 1 <= i < |cum| && cum[i - 1] < 0.0 <= cum[i]
                          && i as real < StaticPayback(net, cum).value <= i as real + 1.0
  {
    if k :| 0 <= k < |cum| && cum[k] >= 0.0 {
      CrossingBefore(net, cum, k);
    }
    var r := StaticPayback(net, cum);
    if r.Some? {
      var i :| 1 <= i < |cum| && StaticRecovery(net, cum, i)
               && (forall j :: 1 <= j < i ==> !StaticRecovery(net, cum, j))
               && r.value == Interpolate(i, cum[i - 1], net[i]);
      InterpolationWithinYear(i, cum[i - 1], net[i]);
    }
  }

  /** A deficit `before < 0` closed by a flow `flow` (`before + flow >= 0`) lands within year `i`. */
  lemma InterpolationWithinYear(i: nat, before: real, flow: real)
    requires before < 0.0 <= before + flow
    ensures i as real < Interpolate(i, before, flow) <= i as real + 1.0
  {
    assert Abs(before) <= Abs(flow) && Abs(flow) > 0.0;
    assert Abs(before) / Abs(flow) <= Abs(flow) / Abs(flow);
    assert 0.0 < Abs(before) / Abs(flow) <= 1.0;
  }

  /**
   * The older engine's rule: an index from 1 whose cumulative cash flow is
   * non-negative and whose net flow is non-zero, without asking that the year
   * before was in deficit.
   */
  predicate VariantStaticRecovery(net: seq<real>, cum: seq<real>, i: nat) {
    1 <= i < |cum| && i < |net| && cum[i] >= 0.0 && net[i] != 0.0
  }

  function VariantStaticRecoveryFrom(net: seq<real>, cum: seq<real>, i: nat): (r: Option<nat>)
    ensures r.None? <==> forall j :: i <= j < |cum| ==> !VariantStaticRecovery(net, cum, j)
    ensures r.Some? ==> i <= r.value < |cum| && VariantStaticRecovery(net, cum, r.value)
                        && forall j :: i <= j < r.value ==> !VariantStaticRecovery(net, cum, j)
    decreases |cum| - i
  {
    if i >= |cum| then None
    else if VariantStaticRecovery(net, cum, i) then Some(i)
    else VariantStaticRecoveryFrom(net, cum, i + 1)
  }

  /** The older engine's static payback period, interpolated the same way. */
  function VariantStaticPayback(net: seq<real>, cum: seq<real>): (r: Option<real>)
    ensures r.None? <==> forall i :: 1 <= i < |cum| ==> !VariantStaticRecovery(net, cum, i)
    ensures r.Some? ==> exists i :: 1 <= i < |cum| && VariantStaticRecovery(net, cum, i)
                          && (forall j :: 1 <= j < i ==> !VariantStaticRecovery(net, cum, j))
                          && r.value == Interpolate(i, cum[i - 1], net[i])
  {
    match VariantStaticRecoveryFrom(net, cum, 1)
    case None => None
    case Some(i) => Some(Interpolate(i, cum[i - 1], net[i]))
  }

  /**
   * On a running total that starts in deficit, the two searches stop at the
   * same index from any point before the first crossing.
   */
  lemma {:induction false} VariantStaticSearchAgrees(net: seq<real>, cum: seq<real>, i: nat)
    requires RunningTotal(net, cum) && |cum| > 0 && cum[0] < 0.0
    requires 1 <= i
    requires forall j :: 1 <= j < i ==> !VariantStaticRecovery(net, cum, j)
    ensures VariantStaticRecoveryFrom(net, cum, i) == StaticRecoveryFrom(net, cum, i)
    decreases |cum| - i
  {
    if i < |cum| {
      if VariantStaticRecovery(net, cum, i) && cum[i - 1] >= 0.0 {
        CrossingBefore(net, cum, i - 1);
        var j :| 1 <= j <= i - 1 && StaticRecovery(net, cum, j);
        assert VariantStaticRecovery(net, cum, j);
        assert false;
      }
      if !VariantStaticRecovery(net, cum, i) {
        VariantStaticSearchAgrees(net, cum, i + 1);
      }
    }
  }

  /** On a running total that starts in deficit, both rules give the same payback period. */
  lemma VariantStaticAgrees(net: seq<real>, cum: seq<real>)
    requires RunningTotal(net, cum) && |cum| > 0 && cum[0] < 0.0
    ensures VariantStaticPayback(net, cum) == StaticPayback(net, cum)
  {
    VariantStaticSearchAgrees(net, cum, 1);
  }

  /**
   * Where the first year is already in surplus the rules part: the older one
   * reports a payback of 3 years, the live one none.
   */
  lemma VariantStaticWithoutDeficit()
    ensures VariantStaticPayback([10.0, 5.0], [10.0, 15.0]) == Some(3.0)
    ensures StaticPayback([10.0, 5.0], [10.0, 15.0]) == None
  {
    assert VariantStaticRecovery([10.0, 5.0], [10.0, 15.0], 1);
    assert !StaticRecovery([10.0, 5.0], [10.0, 15.0], 1);
  }

  // ---------------------------------------------------------------------
  // Dynamic payback period
  // ---------------------------------------------------------------------

  /**
   * Year index `i` (from 1) where the cumulative discounted flow is
   * non-negative and that year's discounted flow is non-zero. Unlike the
   * static rule, nothing asks that the total before it was negative.
   */
  predicate DynamicRecovery(terms: seq<real>, i: nat) {
    1 <= i < |terms| && Sum(terms[..i + 1]) >= 0.0 && terms[i] != 0.0
  }

  function DynamicRecoveryFrom(terms: seq<real>, i: nat): (r: Option<nat>)
    ensures r.None? <==> forall j :: i <= j < |terms| ==> !DynamicRecovery(terms, j)
    ensures r.Some? ==> i <= r.value < |terms| && DynamicRecovery(terms, r.value)
                        && forall j :: i <= j < r.value ==> !DynamicRecovery(terms, j)
    decreases |terms| - i
  {
    if i >= |terms| then None
    else if DynamicRecovery(terms, i) then Some(i)
    else DynamicRecoveryFrom(terms, i + 1)
  }

  /**
   * The dynamic payback period over the discounted flows: at the first
   * recovery index `i`, `i` plus the cumulative value before it over that
   * year's discounted flow, both taken in absolute value.
   */
  function DynamicPayback(terms: seq<real>): (r: Option<real>)
    ensures r.None? <==> forall i :: 1 <= i < |terms| ==> !DynamicRecovery(terms, i)
    ensures r.Some? ==> exists i :: 1 <= i < |terms| && DynamicRecovery(terms, i)
                          && (forall j :: 1 <= j < i ==> !DynamicRecovery(terms, j))
                          && r.value == Interpolate(i, Sum(terms[..i]), terms[i])
  {
    match DynamicRecoveryFrom(terms, 1)
    case None => None
    case Some(i) => Some(Interpolate(i, Sum(terms[..i]), terms[i]))
  }

  /**
   * Where the discounted total was in deficit before the recovery year, the
   * dynamic payback falls within that year.
   */
  lemma DynamicPaybackWithinYear(terms: seq<real>)
    requires DynamicPayback(terms).Some?
    requires Sum(terms[..DynamicRecoveryFrom(terms, 1).value]) < 0.0
    ensures var i := DynamicRecoveryFrom(terms, 1).value;
      i as real < DynamicPayback(terms).value <= i as real + 1.0
  {
    var i := DynamicRecoveryFrom(terms, 1).value;
    SumStep(terms, i);
    InterpolationWithinYear(i, Sum(terms[..i]), terms[i]);
  }

  /**
   * Without a deficit the rule still reports a payback, past the year it
   * names: discounted flows of 100 and 50 give 1 + 100/50 = 3 years.
   */
  lemma DynamicPaybackWithoutDeficit()
    ensures DynamicPayback([100.0, 50.0]) == Some(3.0)
  {
    var t := [100.0, 50.0];
    assert t[..1] == [100.0] && t[..2] == t;
    assert Sum([100.0]) == 100.0 by {
      assert [100.0][..0] == [];
    }
    assert Sum(t) == Sum(t[..1]) + 50.0;
    assert DynamicRecovery(t, 1);
  }
}
