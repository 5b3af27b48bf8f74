/**
 * Straight-line depreciation of fixed assets and amortization of intangible
 * and other assets (cost_module.py:141-217, financial_calculator.py:125-160).
 * The charges are level over the operation years and zero during construction.
 */
module Depreciation {
  import opened Wrappers
  import opened Money
  import opened Periods
  import opened YearTables
  import opened Ledger

  /** The depreciable base: fixed assets with interest less the salvage value. */
  function DepreciableBase(a: Assets): real {
    a.fixedAssetsWithInterest * (1.0 - a.salvageRate)
  }

  /** The yearly depreciation charge; a non-positive life means no depreciation. */
  function AnnualDepreciation(a: Assets): (r: Result<real>)
    ensures a.depreciationYears <= 0 ==> r == Success(0.0)
    ensures a.depreciationYears > 0 ==>
              (r.Success? <==> Fits(DepreciableBase(a) / a.depreciationYears as real))
    ensures a.depreciationYears > 0 && r.Success? ==>
              IsCents(r.value) && Abs(r.value - DepreciableBase(a) / a.depreciationYears as real) <= 0.005
  {
    if a.depreciationYears > 0 then Round(DepreciableBase(a) / a.depreciationYears as real) else Success(0.0)
  }

  /** The yearly amortization of the intangible assets. */
  function IntangibleAmortization(a: Assets): (r: Result<real>)
    ensures a.amortizationYears <= 0 ==> r == Success(0.0)
    ensures a.amortizationYears > 0 ==> (r.Success? <==> Fits(a.intangibleAssets / a.amortizationYears as real))
    ensures a.amortizationYears > 0 && r.Success? ==>
              IsCents(r.value) && Abs(r.value - a.intangibleAssets / a.amortizationYears as real) <= 0.005
  {
    if a.amortizationYears > 0 then Round(a.intangibleAssets / a.amortizationYears as real) else Success(0.0)
  }

  /** The yearly amortization of the other assets. */
  function OtherAmortization(a: Assets): (r: Result<real>)
    ensures a.otherAssetsYears <= 0 ==> r == Success(0.0)
    ensures a.otherAssetsYears > 0 ==> (r.Success? <==> Fits(a.otherAssets / a.otherAssetsYears as real))
    ensures a.otherAssetsYears > 0 && r.Success? ==>
              IsCents(r.value) && Abs(r.value - a.otherAssets / a.otherAssetsYears as real) <= 0.005
  {
    if a.otherAssetsYears > 0 then Round(a.otherAssets / a.otherAssetsYears as real) else Success(0.0)
  }

  /**
   * The depreciation array: the yearly charge in each operation year, zero in
   * each construction year. The charge is computed before the loop, so it can
   * fail even when there are no operation years.
   */
  function DepreciationTable(p: Period, a: Assets): (r: Result<seq<real>>)
    ensures r.Success? <==> AnnualDepreciation(a).Success?
    ensures r.Failure? ==> r.fault == PrecisionOverflow
    ensures r.Success? ==>
              && |r.value| == p.Total()
              && forall i :: 0 <= i < p.Total() ==>
                   r.value[i] == if p.IsOperationYear(i + 1) then AnnualDepreciation(a).value else 0.0
  {
    var charge :- AnnualDepreciation(a);
    Tabulate(p.Total(), i => if p.IsOperationYear(i + 1) then Success(charge) else Success(0.0))
  }

  /**
   * The amortization array: intangible plus other amortization, rounded again,
   * in each operation year; zero in each construction year. The re-rounding
   * happens inside the loop, so it can only fail when there is an operation year.
   */
  function AmortizationTable(p: Period, a: Assets): (r: Result<seq<real>>)
    ensures r.Success? <==>
              && IntangibleAmortization(a).Success? && OtherAmortization(a).Success?
              && (p.operation > 0 ==> Fits(IntangibleAmortization(a).value + OtherAmortization(a).value))
    ensures r.Failure? ==> r.fault == PrecisionOverflow
    ensures r.Success? ==>
              && |r.value| == p.Total()
              && forall i :: 0 <= i < p.Total() ==>
                   r.value[i] == if p.IsOperationYear(i + 1)
                                 then Round2(IntangibleAmortization(a).value + OtherAmortization(a).value)
                                 else 0.0
  {
    var intangible :- IntangibleAmortization(a);
    var other :- OtherAmortization(a);
    var r := Tabulate(p.Total(), i => if p.IsOperationYear(i + 1) then Round(intangible + other) else Success(0.0));
    assert p.operation > 0 ==> p.IsOperationYear(p.Total());
    r
  }

  /**
   * Over the whole horizon the depreciation charged is the yearly charge once
   * per operation year; when the operation period equals the asset life, that
   * recovers the depreciable base to within half a cent per year.
   */
  lemma DepreciationTotal(p: Period, a: Assets)
    requires DepreciationTable(p, a).Success?
    ensures Sum(DepreciationTable(p, a).value) == Repeated(AnnualDepreciation(a).value, p.operation)
    ensures a.depreciationYears > 0 && p.operation == a.depreciationYears ==>
              Abs(Sum(DepreciationTable(p, a).value) - DepreciableBase(a)) <= p.operation as real * 0.005
  {
    var d := AnnualDepreciation(a).value;
    LevelChargeTotal(DepreciationTable(p, a).value, p, d);
    if a.depreciationYears > 0 && p.operation == a.depreciationYears {
      LevelSharesRecover(p.operation, d, DepreciableBase(a));
    }
  }

  /** A charge of `d` in each operation year and nothing else adds up to `d` per operation year. */
  lemma LevelChargeTotal(t: seq<real>, p: Period, d: real)
    requires |t| == p.Total()
    requires forall i :: 0 <= i < |t| ==> t[i] == (if p.IsOperationYear(i + 1) then d else 0.0)
    ensures Sum(t) == Repeated(d, p.operation)
  {
    SumOfTail(t, p.construction, p.operation, d);
  }

  /** Amortization charged over the horizon: the yearly charge once per operation year. */
  lemma AmortizationTotal(p: Period, a: Assets)
    requires AmortizationTable(p, a).Success?
    ensures Sum(AmortizationTable(p, a).value)
            == Repeated(Round2(IntangibleAmortization(a).value + OtherAmortization(a).value), p.operation)
  {
    var t := AmortizationTable(p, a).value;
    var d := Round2(IntangibleAmortization(a).value + OtherAmortization(a).value);
    assert forall i :: 0 <= i < |t| ==> t[i] == (if p.IsOperationYear(i + 1) then d else 0.0);
    LevelChargeTotal(t, p, d);
  }

  /**
   * The worked example: three construction and two operation years, 1000 of
   * fixed assets, 5% salvage and a ten-year life give 95 a year once operation
   * starts.
   */
  lemma DepreciationExample()
    ensures var a := Assets(0.0, 1000.0, 10, 0.05, 0.0, 50, 0.0, 5, 0.0);
      DepreciationTable(Period(3, 2), a) == Success([0.0, 0.0, 0.0, 95.0, 95.0])
  {
    var a := Assets(0.0, 1000.0, 10, 0.05, 0.0, 50, 0.0, 5, 0.0);
    assert DepreciableBase(a) / 10.0 == 95.0;
    IntegerIsCents(9500);
    assert 9500 as real / 100.0 == 95.0;
    Round2OfCents(95.0);
    var t := DepreciationTable(Period(3, 2), a).value;
    assert t == [0.0, 0.0, 0.0, 95.0, 95.0];
  }
}
