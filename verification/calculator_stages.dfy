/**
 * The first five stages of the older engine (financial_calculator.py:29-284):
 * asset derivation with the investment schedule, depreciation and
 * amortization, revenue with output VAT, cost with input VAT, and the VAT
 * netting with its two surcharges. Unlike the live modules, this engine
 * derives the asset bases itself, applies one configurable VAT rate to the
 * whole revenue or cost, and computes the surcharges.
 */
module CalculatorStages {
  import opened Wrappers
  import opened Money
  import opened Periods
  import opened YearTables
  import opened Ledger
  import opened Depreciation
  import InvestmentModule
  import CostModule
  import RevenueModule

  // ---------------------------------------------------------------------
  // Asset derivation (InvestmentCalculator)
  // ---------------------------------------------------------------------

  /** The twelve items that make up the fixed assets' original value; the land-use fee is not one of them. */
  function OriginalValueItems(inv: Investment): real {
    inv.buildingCost + inv.equipmentProcurementCost + inv.equipmentInstallationCost
    + inv.publicEquipmentProcurementCost + inv.publicEquipmentInstallationCost
    + inv.constructionManagementFee + inv.technicalConsultingFee + inv.infrastructureFee
    + inv.patentFee + inv.otherPreparationFee + inv.basicContingencyReserve + inv.priceContingencyReserve
  }

  /** The building and equipment items whose input VAT is deductible. */
  function DeductibleBase(inv: Investment): real {
    inv.buildingCost + inv.equipmentProcurementCost + inv.equipmentInstallationCost
    + inv.publicEquipmentProcurementCost + inv.publicEquipmentInstallationCost
  }

  /** The 9% VAT contained in a VAT-inclusive amount. */
  function NineInHundredNine(x: real): real {
    x * 0.09 / 1.09
  }

  /**
   * The asset bases, as evidently intended: the original value, the same
   * with construction interest, the land-use and patent fees as intangible
   * assets, half the other preparation fee as other assets, and the
   * deductible input VAT at 9% of the building and equipment items; each to
   * the cent. The depreciation and amortization terms are kept.
   */
  function DeriveAssets(inv: Investment, a: Assets): (r: Result<Assets>)
    ensures r.Success? <==>
              && Fits(OriginalValueItems(inv))
              && Fits(Round2(OriginalValueItems(inv)) + inv.constructionInterest)
              && Fits(inv.landUseFee + inv.patentFee)
              && Fits(inv.otherPreparationFee / 2.0)
              && Fits(NineInHundredNine(DeductibleBase(inv)))
    ensures r.Failure? ==> r.fault == PrecisionOverflow
    ensures r.Success? ==>
              && r.value.fixedAssetsOriginalValue == Round2(OriginalValueItems(inv))
              && r.value.fixedAssetsWithInterest == Round2(r.value.fixedAssetsOriginalValue + inv.constructionInterest)
              && r.value.intangibleAssets == Round2(inv.landUseFee + inv.patentFee)
              && r.value.otherAssets == Round2(inv.otherPreparationFee / 2.0)
              && r.value.deductibleTax == Round2(NineInHundredNine(DeductibleBase(inv)))
              && r.value.depreciationYears == a.depreciationYears && r.value.salvageRate == a.salvageRate
              && r.value.amortizationYears == a.amortizationYears && r.value.otherAssetsYears == a.otherAssetsYears
  {
    var original :- Round(OriginalValueItems(inv));
    var withInterest :- Round(original + inv.constructionInterest);
    var intangible :- Round(inv.landUseFee + inv.patentFee);
    var other :- Round(inv.otherPreparationFee / 2.0);
    var deductible :- Round(NineInHundredNine(DeductibleBase(inv)));
    Success(a.(fixedAssetsOriginalValue := original, fixedAssetsWithInterest := withInterest,
               intangibleAssets := intangible, otherAssets := other, deductibleTax := deductible))
  }

  /**
   * The derivation as written: the other-assets step multiplies a Decimal by
   * the binary float `0.5`, which Python refuses, so once the first three
   * roundings succeed the derivation always fails.
   */
  function DeriveAssetsAsWritten(inv: Investment, a: Assets): (r: Result<Assets>)
    ensures r.Failure?
    ensures r.fault == MixedDecimalFloat <==>
              && Fits(OriginalValueItems(inv))
              && Fits(Round2(OriginalValueItems(inv)) + inv.constructionInterest)
              && Fits(inv.landUseFee + inv.patentFee)
  {
    var original :- Round(OriginalValueItems(inv));
    var withInterest :- Round(original + inv.constructionInterest);
    var intangible :- Round(inv.landUseFee + inv.patentFee);
    Failure(MixedDecimalFloat)
  }

  /**
   * Each derived base is within rounding of the exact amount it stands for:
   * the fixed assets with interest within a cent of the items plus interest,
   * the other assets within half a cent of half the fee, the deductible tax
   * within half a cent of the 9% VAT share.
   */
  lemma DerivedAssetsNearExact(inv: Investment, a: Assets)
    requires DeriveAssets(inv, a).Success?
    ensures var d := DeriveAssets(inv, a).value;
      && Abs(d.fixedAssetsWithInterest - (OriginalValueItems(inv) + inv.constructionInterest)) <= 0.01
      && Abs(d.otherAssets - inv.otherPreparationFee / 2.0) <= 0.005
      && Abs(d.deductibleTax - DeductibleBase(inv) * 9.0 / 109.0) <= 0.005
  {
    var original := Round2(OriginalValueItems(inv));
    Round2IsNearest(OriginalValueItems(inv));
    Round2IsNearest(original + inv.constructionInterest);
    Round2IsNearest(inv.otherPreparationFee / 2.0);
    Round2IsNearest(NineInHundredNine(DeductibleBase(inv)));
    assert NineInHundredNine(DeductibleBase(inv)) == DeductibleBase(inv) * 9.0 / 109.0;
  }

  /**
   * The land-use fee reaches the intangible assets only: changing it leaves
   * the original value and the fixed assets with interest as they were.
   */
  lemma LandUseFeeOnlyIntangible(inv: Investment, a: Assets, fee: real)
    requires DeriveAssets(inv, a).Success? && DeriveAssets(inv.(landUseFee := fee), a).Success?
    ensures var d, e := DeriveAssets(inv, a).value, DeriveAssets(inv.(landUseFee := fee), a).value;
      && e.fixedAssetsOriginalValue == d.fixedAssetsOriginalValue
      && e.fixedAssetsWithInterest == d.fixedAssetsWithInterest
      && e.intangibleAssets == Round2(fee + inv.patentFee)
  {
  }

  /** An investment whose only item is an other-preparation fee of one cent. */
  const OneCentFee := Investment(0.0, 0.0, 0.0, 0.0, 0.0, 0.0, 0.0, 0.0, 0.0, 0.0, 0.01, 0.0, 0.0, 0.0, 0.0)

  /** Zero, half a cent and one cent round to exact cent values well inside the context. */
  lemma SmallAmountsFit(x: real)
    requires x == 0.0 || x == 0.005 || x == 0.01
    ensures Fits(x) && Round2(x) == (if x == 0.0 then 0.0 else 0.01)
  {
    ZeroIsCents();
    IntegerIsCents(1);
    Round2OfCents(0.01);
    Round2TiesAwayFromZero(0);
    assert (0 as real + 0.5) / 100.0 == 0.005;
  }

  /**
   * The discrepancy on one input: an other-preparation fee of one cent gives
   * other assets of one cent (half a cent rounds away from zero) as intended,
   * while the derivation as written fails on the mixed multiplication.
   */
  lemma OtherAssetsOfOneCent(a: Assets)
    ensures DeriveAssetsAsWritten(OneCentFee, a) == Failure(MixedDecimalFloat)
    ensures DeriveAssets(OneCentFee, a).Success? && DeriveAssets(OneCentFee, a).value.otherAssets == 0.01
  {
    var inv := OneCentFee;
    var items := OriginalValueItems(inv);
    assert items == 0.01;
    SmallAmountsFit(items);
    var withInterest := Round2(items) + inv.constructionInterest;
    assert withInterest == 0.01;
    SmallAmountsFit(withInterest);
    var intangible := inv.landUseFee + inv.patentFee;
    assert intangible == 0.0;
    SmallAmountsFit(intangible);
    var half := inv.otherPreparationFee / 2.0;
    assert half == 0.005;
    SmallAmountsFit(half);
    var deductible := NineInHundredNine(DeductibleBase(inv));
    assert deductible == 0.0;
    SmallAmountsFit(deductible);
  }

  // ---------------------------------------------------------------------
  // Investment schedule (InvestmentCalculator)
  // ---------------------------------------------------------------------

  /**
   * The older schedule of `total` (fixed assets with interest, intangible and
   * other assets) over `c` construction years, written over `base`: with
   * three or more years 40%, 30% and 30% in the first three, any further
   * years left as they were; with fewer, an equal share to the cent in each
   * construction year; with none, the share divides by zero.
   */
  function VariantSchedule(base: seq<real>, total: real, c: nat): (r: Result<seq<real>>)
    requires c <= |base|
    ensures c == 0 ==> r == Failure(DivisionByZero)
    ensures r.Failure? && c > 0 ==> r.fault == PrecisionOverflow
    ensures c >= 3 ==> (r.Success? <==> Fits(total * 0.4) && Fits(total * 0.3))
    ensures 0 < c < 3 ==> (r.Success? <==> Fits(total / c as real))
    ensures r.Success? ==> |r.value| == |base|
    ensures r.Success? && c >= 3 ==>
              && r.value[0] == Round2(total * 0.4) && r.value[1] == Round2(total * 0.3) && r.value[2] == Round2(total * 0.3)
              && forall i :: 3 <= i < |base| ==> r.value[i] == base[i]
    ensures r.Success? && c < 3 ==>
              forall i :: 0 <= i < |base| ==> r.value[i] == if i < c then Round2(total / c as real) else base[i]
  {
    if c >= 3 then
      var first :- Round(total * 0.4);
      var second :- Round(total * 0.3);
      // the third share is computed exactly as the second
      Success(Overwrite(base, [first, second, second]))
    else if c == 0 then Failure(DivisionByZero)
    else
      var share :- Round(total / c as real);
      Success(Overwrite(base, seq(c, i => share)))
  }

  /**
   * Written over zeros, the older schedule spends the total to within a few
   * cents however long construction lasts, unlike the live schedule; from
   * the fourth construction year on it spends nothing.
   */
  lemma VariantScheduleSpendsTotal(n: nat, total: real, c: nat)
    requires c <= n && VariantSchedule(Zeros(n), total, c).Success?
    ensures var s := VariantSchedule(Zeros(n), total, c).value;
      && (c >= 3 ==> Abs(Sum(s) - total) <= 0.015 && forall i :: 3 <= i < n ==> s[i] == 0.0)
      && (c < 3 ==> Abs(Sum(s) - total) <= c as real * 0.005)
  {
    var s := VariantSchedule(Zeros(n), total, c).value;
    if c >= 3 {
      var a, b := Round2(total * 0.4), Round2(total * 0.3);
      assert s == [a, b, b] + s[3..];
      SumAppend([a, b, b], s[3..]);
      SumOfZeros(s[3..]);
      assert [a, b, b] == [a] + [b, b] && [b, b] == [b] + [b];
      SumCons(a, [b, b]);
      SumCons(b, [b]);
      SumCons(b, []);
      Round2IsNearest(total * 0.4);
      Round2IsNearest(total * 0.3);
    } else {
      var d := Round2(total / c as real);
      assert s == seq(c, i => d) + s[c..];
      SumAppend(seq(c, i => d), s[c..]);
      SumOfZeros(s[c..]);
      SumOfTail(seq(c, i => d), 0, c, d);
      Round2IsNearest(total / c as real);
      LevelSharesRecover(c, d, total);
    }
  }

  /**
   * Against the live schedule of the same amount: with up to three
   * construction years the two succeed together and agree entry for entry;
   * beyond three they still agree on the 40/30/30 head. The live schedule
   * then spreads a further 30% over the later years, where the older one
   * leaves the array as it was.
   */
  lemma VariantScheduleAgainstLive(base: seq<real>, total: real, c: nat)
    requires 0 < c <= |base|
    ensures c <= 3 ==> (VariantSchedule(base, total, c).Success? <==> InvestmentModule.Schedule(total, c).Success?)
    ensures VariantSchedule(base, total, c).Success? && InvestmentModule.Schedule(total, c).Success? ==>
              var k := if c < 3 then c else 3;
              VariantSchedule(base, total, c).value[..k] == InvestmentModule.Schedule(total, c).value[..k]
  {
    if VariantSchedule(base, total, c).Success? && InvestmentModule.Schedule(total, c).Success? {
      var k := if c < 3 then c else 3;
      var older, live := VariantSchedule(base, total, c).value, InvestmentModule.Schedule(total, c).value;
      assert forall i :: 0 <= i < k ==> older[i] == live[i];
    }
  }

  /**
   * The two engines schedule different amounts: the older one spreads the
   * fixed assets with interest together with the intangible and other
   * assets, the live one the fixed assets with interest alone. With 100 of
   * the first and 50 of the others over three years:
   */
  lemma SchedulesSpreadDifferentAmounts()
    ensures VariantSchedule([0.0, 0.0, 0.0], 100.0 + 50.0, 3) == Success([60.0, 45.0, 45.0])
    ensures InvestmentModule.Schedule(100.0, 3) == Success([40.0, 30.0, 30.0])
  {
    assert (100.0 + 50.0) * 0.4 == 60.0 && (100.0 + 50.0) * 0.3 == 45.0;
    Round2OfCents(60.0);
    Round2OfCents(45.0);
    Round2OfCents(40.0);
    Round2OfCents(30.0);
    var older := Overwrite([0.0, 0.0, 0.0], [60.0, 45.0, 45.0]);
    assert older == [60.0, 45.0, 45.0];
  }

  /**
   * On a valid period the older investment stage never divides by zero, and
   * when it succeeds the working capital sits at the first operation year.
   */
  lemma ValidPeriodInvestsVariant(m: Model)
    requires m.Shaped()
    ensures InvestmentStage(m).Failure? && InvestmentStage(m).fault == DivisionByZero ==> m.period.construction == 0
    ensures m.period.Valid() && InvestmentStage(m).Success? ==>
              InvestmentStage(m).value.results.workingCapitalInvestment[m.period.construction]
              == Round2(m.investment.workingCapital)
  {
  }

  /**
   * The working capital goes into index `c`, the first operation year, when
   * the horizon has one; otherwise nothing is written.
   */
  function VariantWorkingCapital(base: seq<real>, c: nat, amount: real): (r: Result<seq<real>>)
    ensures c < |base| ==> (r.Success? <==> Fits(amount))
    ensures c >= |base| ==> r == Success(base)
    ensures r.Failure? ==> r.fault == PrecisionOverflow
    ensures r.Success? ==> |r.value| == |base|
    ensures r.Success? ==> forall i :: 0 <= i < |base| && i != c ==> r.value[i] == base[i]
    ensures r.Success? && c < |base| ==> r.value[c] == Round2(amount)
  {
    if c < |base| then
      var v :- Round(amount);
      Success(base[c := v])
    else Success(base)
  }

  /**
   * InvestmentCalculator with a given asset derivation: the derived assets,
   * the total investment, the schedule and the working capital; nothing
   * else changes.
   */
  function InvestmentFrom(m: Model, derived: Result<Assets>): (r: Result<Model>)
    requires m.Shaped()
    ensures derived.Failure? ==> r == Failure(derived.fault)
    ensures r.Success? ==>
              var a := derived.value;
              var res := r.value.results;
              && derived.Success?
              && r.value.Shaped()
              && r.value == m.(assets := a,
                               results := m.results.(totalInvestment := res.totalInvestment,
                                                     fixedAssetsInvestment := res.fixedAssetsInvestment,
                                                     workingCapitalInvestment := res.workingCapitalInvestment))
              && res.totalInvestment
                 == Round2(a.fixedAssetsWithInterest + a.intangibleAssets + a.otherAssets + m.investment.workingCapital)
              && Success(res.fixedAssetsInvestment)
                 == VariantSchedule(m.results.fixedAssetsInvestment,
                                    a.fixedAssetsWithInterest + a.intangibleAssets + a.otherAssets, m.period.construction)
              && Success(res.workingCapitalInvestment)
                 == VariantWorkingCapital(m.results.workingCapitalInvestment, m.period.construction,
                                          m.investment.workingCapital)
  {
    var a :- derived;
    var total :- Round(a.fixedAssetsWithInterest + a.intangibleAssets + a.otherAssets + m.investment.workingCapital);
    var fixed :- VariantSchedule(m.results.fixedAssetsInvestment,
                                 a.fixedAssetsWithInterest + a.intangibleAssets + a.otherAssets, m.period.construction);
    var wc :- VariantWorkingCapital(m.results.workingCapitalInvestment, m.period.construction,
                                    m.investment.workingCapital);
    Success(m.(assets := a, results := m.results.(totalInvestment := total, fixedAssetsInvestment := fixed,
                                                  workingCapitalInvestment := wc)))
  }

  /** InvestmentCalculator with the evidently intended derivation. */
  function InvestmentStage(m: Model): (r: Result<Model>)
    requires m.Shaped()
    ensures DeriveAssets(m.investment, m.assets).Failure? ==> r == Failure(PrecisionOverflow)
    ensures m.period.construction == 0 ==> r.Failure?
    ensures r.Success? ==> r.value.Shaped() && r.value.assets == DeriveAssets(m.investment, m.assets).value
  {
    InvestmentFrom(m, DeriveAssets(m.investment, m.assets))
  }

  /** InvestmentCalculator as written: it never gets past the asset derivation. */
  function InvestmentStageAsWritten(m: Model): (r: Result<Model>)
    requires m.Shaped()
    ensures r.Failure?
  {
    InvestmentFrom(m, DeriveAssetsAsWritten(m.investment, m.assets))
  }

  // ---------------------------------------------------------------------
  // Depreciation and amortization (DepreciationCalculator)
  // ---------------------------------------------------------------------

  /**
   * DepreciationCalculator: writes the depreciation and amortization arrays;
   * nothing else changes.
   */
  function DepreciationStage(m: Model): (r: Result<Model>)
    requires m.Shaped()
    ensures r.Success? <==> DepreciationTable(m.period, m.assets).Success? && AmortizationTable(m.period, m.assets).Success?
    ensures r.Failure? ==> r.fault == PrecisionOverflow
    ensures r.Success? ==>
              && r.value.Shaped()
              && r.value == m.(results := m.results.(annualDepreciation := DepreciationTable(m.period, m.assets).value,
                                                     annualAmortization := AmortizationTable(m.period, m.assets).value))
  {
    var depreciation :- DepreciationTable(m.period, m.assets);
    var amortization :- AmortizationTable(m.period, m.assets);
    Success(m.(results := m.results.(annualDepreciation := depreciation, annualAmortization := amortization)))
  }

  /**
   * The older depreciation stage writes exactly what the live cost module's
   * depreciation and amortization calculators write, run one after the other.
   */
  lemma DepreciationStageIsLive(m: Model)
    requires m.Shaped()
    ensures var live := CostModule.DepreciationCost(m);
      && (DepreciationStage(m).Success? <==> live.Success? && CostModule.AmortizationCost(live.value).Success?)
      && (DepreciationStage(m).Success? ==> DepreciationStage(m) == CostModule.AmortizationCost(live.value))
  {
  }

  // ---------------------------------------------------------------------
  // Revenue and cost with one VAT rate (RevenueCalculator, CostCalculator)
  // ---------------------------------------------------------------------

  /** An amount and the VAT it contains. */
  datatype Booked = Booked(amount: real, vat: real)

  /** The VAT share `amount * rate / (1 + rate)` of a VAT-inclusive amount. */
  function VatShareOf(amount: real, rate: real): real
    requires rate > 0.0
  {
    amount * rate / (1.0 + rate)
  }

  /**
   * The VAT contained in a VAT-inclusive amount at `rate`, to the cent; none
   * when the rate is not positive.
   */
  function ContainedVat(amount: real, rate: real): (r: Result<real>)
    ensures rate <= 0.0 ==> r == Success(0.0)
    ensures rate > 0.0 ==> (r.Success? <==> Fits(VatShareOf(amount, rate)))
    ensures r.Failure? ==> r.fault == PrecisionOverflow
    ensures r.Success? ==> IsCents(r.value)
  {
    ZeroIsCents();
    if rate > 0.0 then Round(VatShareOf(amount, rate)) else Success(0.0)
  }

  /**
   * The contained VAT is the rate applied to the amount net of it, up to the
   * rounding: `vat ≈ (amount - vat) * rate`.
   */
  lemma ContainedVatIsRateOnNet(amount: real, rate: real)
    requires rate > 0.0 && ContainedVat(amount, rate).Success?
    ensures var vat := ContainedVat(amount, rate).value;
      Abs(vat - (amount - vat) * rate) <= 0.005 * (1.0 + rate)
  {
    var vat := ContainedVat(amount, rate).value;
    Round2IsNearest(VatShareOf(amount, rate));
    NearShareOnNet(amount, rate, vat);
  }

  /** Any `vat` within half a cent of the exact share is the rate on its net amount, up to that error scaled. */
  lemma NearShareOnNet(amount: real, rate: real, vat: real)
    requires rate > 0.0 && Abs(vat - VatShareOf(amount, rate)) <= 0.005
    ensures Abs(vat - (amount - vat) * rate) <= 0.005 * (1.0 + rate)
  {
    var exact := VatShareOf(amount, rate);
    NetIdentity(amount, rate, vat);
    ScaleBound(vat - exact, 1.0 + rate);
  }

  /** `vat - (amount - vat) * rate` is the rounding error of `vat` scaled by `1 + rate`. */
  lemma NetIdentity(amount: real, rate: real, vat: real)
    requires rate > 0.0
    ensures vat - (amount - vat) * rate == (vat - VatShareOf(amount, rate)) * (1.0 + rate)
  {
    var exact := VatShareOf(amount, rate);
    assert exact * (1.0 + rate) == amount * rate;
  }

  /** A non-negative amount in cents contains between none and all of itself as VAT. */
  lemma ContainedVatWithinAmount(amount: real, rate: real)
    requires ContainedVat(amount, rate).Success? && amount >= 0.0 && IsCents(amount)
    ensures 0.0 <= ContainedVat(amount, rate).value <= amount
  {
    if rate > 0.0 {
      var exact := VatShareOf(amount, rate);
      ZeroIsCents();
      ShareWithin(amount, rate);
      Round2Monotone(0.0, exact);
      Round2Monotone(exact, amount);
      Round2OfCents(amount);
    }
  }

  /** A share `rate / (1 + rate)` of a non-negative amount lies between zero and the amount. */
  lemma ShareWithin(amount: real, rate: real)
    requires amount >= 0.0 && rate > 0.0
    ensures 0.0 <= VatShareOf(amount, rate) <= amount
  {
    var q := rate / (1.0 + rate);
    assert 0.0 < q < 1.0 by {
      assert q * (1.0 + rate) == rate;
    }
    assert VatShareOf(amount, rate) == amount * q;
    assert amount * q + amount * (1.0 - q) == amount;
    assert amount * (1.0 - q) >= 0.0;
  }

  /** An error of at most half a cent, scaled by a positive factor. */
  lemma ScaleBound(e: real, f: real)
    requires Abs(e) <= 0.005 && f > 0.0
    ensures Abs(e * f) <= 0.005 * f
  {
    if e >= 0.0 {
      assert e * f <= 0.005 * f;
    } else {
      assert (-e) * f <= 0.005 * f;
      assert e * f == -((-e) * f);
    }
  }

  /** A revenue year: the rounded revenue and its VAT in operation years, nothing in construction years. */
  function RevenueYear(m: Model, i: nat): (r: Result<Booked>)
  {
    if m.period.IsOperationYear(i + 1) then
      var revenue :- m.revenue.TotalRevenue(i + 1);
      var vat :- ContainedVat(revenue, m.tax.vatOutputRate);
      Success(Booked(revenue, vat))
    else Success(Booked(0.0, 0.0))
  }

  /** The amount and VAT columns of a booked table. */
  function Amounts(t: seq<Booked>): (c: seq<real>)
    ensures |c| == |t| && forall i :: 0 <= i < |t| ==> c[i] == t[i].amount
  {
    seq(|t|, i requires 0 <= i < |t| => t[i].amount)
  }

  function Vats(t: seq<Booked>): (c: seq<real>)
    ensures |c| == |t| && forall i :: 0 <= i < |t| ==> c[i] == t[i].vat
  {
    seq(|t|, i requires 0 <= i < |t| => t[i].vat)
  }

  /** RevenueCalculator: writes the revenue and output-VAT arrays for every year; nothing else changes. */
  function RevenueStage(m: Model): (r: Result<Model>)
    requires m.Shaped()
    ensures r.Success? <==> forall i :: 0 <= i < m.period.Total() ==> RevenueYear(m, i).Success?
    ensures r.Failure? ==> r.fault == PrecisionOverflow
    ensures r.Success? ==>
              var res := r.value.results;
              && r.value.Shaped()
              && r.value == m.(results := m.results.(annualRevenue := res.annualRevenue, annualVatOutput := res.annualVatOutput))
              && forall i :: 0 <= i < m.period.Total() ==>
                   RevenueYear(m, i) == Success(Booked(res.annualRevenue[i], res.annualVatOutput[i]))
  {
    var f := (i: nat) => RevenueYear(m, i);
    assert forall i :: 0 <= i < m.period.Total() ==> f(i) == RevenueYear(m, i);
    var t :- Tabulate(m.period.Total(), f);
    Success(m.(results := m.results.(annualRevenue := Amounts(t), annualVatOutput := Vats(t))))
  }

  /**
   * The older revenue array is the live one: the six streams to the cent in
   * operation years, zero in construction years.
   */
  lemma RevenueStageMatchesLive(m: Model)
    requires m.Shaped() && RevenueStage(m).Success?
    ensures RevenueModule.RevenueTable(m.period, m.revenue) == Success(RevenueStage(m).value.results.annualRevenue)
  {
    var n := m.period.Total();
    forall y | m.period.IsOperationYear(y)
      ensures Fits(m.revenue.StreamSum(y))
    {
      assert RevenueYear(m, y - 1).Success?;
    }
    var live := RevenueModule.RevenueTable(m.period, m.revenue).value;
    var older := RevenueStage(m).value.results.annualRevenue;
    forall i | 0 <= i < n
      ensures live[i] == older[i]
    {
      assert RevenueYear(m, i) == Success(Booked(older[i], RevenueStage(m).value.results.annualVatOutput[i]));
    }
    assert live == older;
  }

  /** The repair charge, half a percent of the fixed assets with interest. */
  function RepairCharge(a: Assets): real {
    a.fixedAssetsWithInterest * 0.005
  }

  /**
   * A cost year: the rounded five streams plus the rounded repair charge,
   * rounded again, and its VAT in operation years; nothing in construction
   * years.
   */
  function CostYear(m: Model, i: nat): (r: Result<Booked>)
  {
    if m.period.IsOperationYear(i + 1) then
      var streams :- m.cost.TotalCost(i + 1);
      var repair :- Round(RepairCharge(m.assets));
      var cost :- Round(streams + repair);
      var vat :- ContainedVat(cost, m.tax.vatInputRate);
      Success(Booked(cost, vat))
    else Success(Booked(0.0, 0.0))
  }

  /** CostCalculator: writes the cost and input-VAT arrays for every year; nothing else changes. */
  function CostStage(m: Model): (r: Result<Model>)
    requires m.Shaped()
    ensures r.Success? <==> forall i :: 0 <= i < m.period.Total() ==> CostYear(m, i).Success?
    ensures r.Failure? ==> r.fault == PrecisionOverflow
    ensures r.Success? ==>
              var res := r.value.results;
              && r.value.Shaped()
              && r.value == m.(results := m.results.(annualCost := res.annualCost, annualVatInput := res.annualVatInput))
              && forall i :: 0 <= i < m.period.Total() ==>
                   CostYear(m, i) == Success(Booked(res.annualCost[i], res.annualVatInput[i]))
  {
    var f := (i: nat) => CostYear(m, i);
    assert forall i :: 0 <= i < m.period.Total() ==> f(i) == CostYear(m, i);
    var t :- Tabulate(m.period.Total(), f);
    Success(m.(results := m.results.(annualCost := Amounts(t), annualVatInput := Vats(t))))
  }

  /**
   * An operation year's cost is the five streams plus the repair charge to
   * within a cent and a half (three roundings); a construction year costs
   * nothing.
   */
  lemma CostYearNearExact(m: Model, i: nat)
    requires CostYear(m, i).Success?
    ensures !m.period.IsOperationYear(i + 1) ==> CostYear(m, i).value == Booked(0.0, 0.0)
    ensures m.period.IsOperationYear(i + 1) ==>
              Abs(CostYear(m, i).value.amount - (m.cost.StreamSum(i + 1) + RepairCharge(m.assets))) <= 0.015
  {
    if m.period.IsOperationYear(i + 1) {
      var streams := Round2(m.cost.StreamSum(i + 1));
      var repair := Round2(RepairCharge(m.assets));
      Round2IsNearest(m.cost.StreamSum(i + 1));
      Round2IsNearest(RepairCharge(m.assets));
      Round2IsNearest(streams + repair);
    }
  }

  /**
   * Against the live cost module, whose entry for an operation year is the
   * streams rounded once after the repair stream has been overwritten with
   * the rounded charge (`LiveCostParts`). The older year reads the model's
   * own repair stream and adds the charge on top. With nothing in the repair
   * stream the two agree to within a cent and a half, exactly when the other
   * four streams add up to whole cents; when the stream already holds the
   * charge, as after a live cost run, the older year counts it twice.
   */
  lemma CostYearAgainstLive(m: Model, i: nat)
    requires m.period.IsOperationYear(i + 1) && CostYear(m, i).Success?
    ensures var fee := Round2(m.assets.fixedAssetsWithInterest * 0.005);
            CostsAgree(Get(m.cost.material, i + 1) + Get(m.cost.fuelPower, i + 1) + Get(m.cost.labor, i + 1)
                       + Get(m.cost.other, i + 1),
                       Get(m.cost.repair, i + 1), fee, CostYear(m, i).value.amount,
                       Round2(m.cost.(repair := CostModule.RepairMap(m.period, m.cost.repair, fee)).StreamSum(i + 1)))
  {
    var fee := Round2(m.assets.fixedAssetsWithInterest * 0.005);
    var charged := m.cost.(repair := CostModule.RepairMap(m.period, m.cost.repair, fee));
    OlderCostParts(m, i);
    ChargedStreamSum(m.cost, charged, fee, i + 1);
    CostGap(Get(m.cost.material, i + 1) + Get(m.cost.fuelPower, i + 1) + Get(m.cost.labor, i + 1) + Get(m.cost.other, i + 1),
            Get(m.cost.repair, i + 1), m.assets.fixedAssetsWithInterest * 0.005, m.cost.StreamSum(i + 1),
            charged.StreamSum(i + 1), CostYear(m, i).value.amount, Round2(charged.StreamSum(i + 1)));
  }

  /**
   * How an older cost year `older` and a live one `live` compare, given the
   * other four streams `others`, the model's own repair entry `r0` and the
   * rounded charge `fee`: with no repair entry they are within a cent and a
   * half, and equal when `others` is whole cents; with the charge already in
   * the repair entry the older year is higher by the charge.
   */
  predicate CostsAgree(others: real, r0: real, fee: real, older: real, live: real) {
    && (r0 == 0.0 ==> Abs(older - live) <= 0.015)
    && (r0 == 0.0 && IsCents(others) ==> older == live)
    && (r0 == fee && IsCents(others) ==> older == live + fee)
  }

  /** What the live cost run charges for operation year `i + 1`. */
  lemma LiveCostParts(m: Model, i: nat)
    requires m.Shaped() && m.period.IsOperationYear(i + 1) && CostModule.CalculateAll(m).Success?
    ensures var after := CostModule.CalculateAll(m).value;
            && after.results.annualCost[i] == Round2(after.cost.StreamSum(i + 1))
            && after.cost.StreamSum(i + 1)
               == Get(m.cost.material, i + 1) + Get(m.cost.fuelPower, i + 1) + Get(m.cost.labor, i + 1)
                  + Get(m.cost.other, i + 1) + Round2(m.assets.fixedAssetsWithInterest * 0.005)
  {
    LiveChargedCosts(m, i);
    var after := CostModule.CalculateAll(m).value;
    ChargedStreamSum(m.cost, after.cost, Round2(m.assets.fixedAssetsWithInterest * 0.005), i + 1);
  }

  /** The live cost run changes only the repair stream, which holds the rounded charge in operation years. */
  lemma LiveChargedCosts(m: Model, i: nat)
    requires m.Shaped() && m.period.IsOperationYear(i + 1) && CostModule.CalculateAll(m).Success?
    ensures var after := CostModule.CalculateAll(m).value;
            && after.cost == m.cost.(repair := after.cost.repair)
            && Get(after.cost.repair, i + 1) == Round2(m.assets.fixedAssetsWithInterest * 0.005)
  {
  }

  /** What the older cost year charges for operation year `i + 1`. */
  lemma OlderCostParts(m: Model, i: nat)
    requires m.period.IsOperationYear(i + 1) && CostYear(m, i).Success?
    ensures CostYear(m, i).value.amount
            == Round2(Round2(m.cost.StreamSum(i + 1)) + Round2(m.assets.fixedAssetsWithInterest * 0.005))
  {
  }

  /** With the charge in the repair stream, a year's streams add up to the other four plus the charge. */
  lemma ChargedStreamSum(c: Costs, charged: Costs, fee: real, y: int)
    requires charged == c.(repair := charged.repair) && Get(charged.repair, y) == fee
    ensures charged.StreamSum(y) == Get(c.material, y) + Get(c.fuelPower, y) + Get(c.labor, y) + Get(c.other, y) + fee
  {
  }

  /**
   * The older year rounds the streams with repair `r0`, `olderSum`, and then
   * adds the rounded charge; the live year rounds the other streams plus the
   * rounded charge, `liveSum`, once.
   */
  lemma CostGap(others: real, r0: real, charge: real, olderSum: real, liveSum: real, older: real, live: real)
    requires olderSum == others + r0 && liveSum == others + Round2(charge)
    requires older == Round2(Round2(olderSum) + Round2(charge)) && live == Round2(liveSum)
    ensures CostsAgree(others, r0, Round2(charge), older, live)
  {
    var fee := Round2(charge);
    Round2IsCents(charge);
    if r0 == 0.0 {
      Round2IsNearest(olderSum);
      Round2IsNearest(liveSum);
      Round2IsNearest(Round2(olderSum) + fee);
      if IsCents(others) {
        Round2OfCents(olderSum);
      }
    } else if r0 == fee && IsCents(others) {
      CentsClosed(others, fee);
      Round2OfCents(olderSum);
      CentsClosed(olderSum, fee);
      Round2OfCents(olderSum + fee);
    }
  }

  // ---------------------------------------------------------------------
  // VAT netting and surcharges (TaxCalculator)
  // ---------------------------------------------------------------------

  /** A tax at `rate` on `base`, to the cent. */
  function Levy(base: real, rate: real): (r: Result<real>)
    ensures r.Success? <==> Fits(base * rate)
    ensures r.Success? ==> r.value == Round2(base * rate)
    ensures r.Failure? ==> r.fault == PrecisionOverflow
  {
    Round(base * rate)
  }

  /** One year's VAT payable and the two surcharges levied on it. */
  datatype Surcharge = Surcharge(vatPaid: real, cityTax: real, educationSurtax: real)

  /**
   * The VAT payable is the output VAT less the input VAT, never below zero,
   * to the cent; the city-maintenance tax and the education surtax are
   * their rates applied to it. It is exactly the excess of output over input
   * VAT when both are in cents, and it and both surcharges are zero when the
   * input VAT covers the output VAT.
   */
  function SurchargeYear(output: real, input: real, cityRate: real, educationRate: real): (r: Result<Surcharge>)
    ensures r.Failure? ==> r.fault == PrecisionOverflow
    ensures r.Success? ==>
              && r.value.vatPaid == Round2(Max(output - input, 0.0))
              && Levy(r.value.vatPaid, cityRate) == Success(r.value.cityTax)
              && Levy(r.value.vatPaid, educationRate) == Success(r.value.educationSurtax)
    ensures r.Success? ==>
              && r.value.vatPaid >= 0.0
              && (IsCents(output) && IsCents(input) ==> r.value.vatPaid == Max(output - input, 0.0))
              && (output <= input ==> r.value == Surcharge(0.0, 0.0, 0.0))
              && (cityRate >= 0.0 ==> r.value.cityTax >= 0.0)
              && (educationRate >= 0.0 ==> r.value.educationSurtax >= 0.0)
  {
    var paid :- Round(Max(output - input, 0.0));
    var city :- Levy(paid, cityRate);
    var education :- Levy(paid, educationRate);
    SurchargeParts(output, input, cityRate, educationRate, paid, city, education);
    Success(Surcharge(paid, city, education))
  }

  /** The meaning of a year's surcharges, for the three amounts one at a time. */
  lemma SurchargeParts(output: real, input: real, cityRate: real, educationRate: real, paid: real, city: real, education: real)
    requires paid == Round2(Max(output - input, 0.0))
    requires Levy(paid, cityRate) == Success(city) && Levy(paid, educationRate) == Success(education)
    ensures paid >= 0.0
    ensures IsCents(output) && IsCents(input) ==> paid == Max(output - input, 0.0)
    ensures output <= input ==> paid == 0.0 && city == 0.0 && education == 0.0
    ensures cityRate >= 0.0 ==> city >= 0.0
    ensures educationRate >= 0.0 ==> education >= 0.0
  {
    PaidMeaning(output, input);
    if output <= input {
      LevyOnNothing(cityRate);
      LevyOnNothing(educationRate);
    }
    if cityRate >= 0.0 {
      LevyNonNegative(paid, cityRate);
    }
    if educationRate >= 0.0 {
      LevyNonNegative(paid, educationRate);
    }
  }

  /** The VAT payable, rounded, is never negative and is the exact excess on cents. */
  lemma PaidMeaning(output: real, input: real)
    ensures Round2(Max(output - input, 0.0)) >= 0.0
    ensures IsCents(output) && IsCents(input) ==> Round2(Max(output - input, 0.0)) == Max(output - input, 0.0)
    ensures output <= input ==> Round2(Max(output - input, 0.0)) == 0.0
  {
    ZeroIsCents();
    Round2Monotone(0.0, Max(output - input, 0.0));
    if IsCents(output) && IsCents(input) {
      CentsClosed(output, input);
      Round2OfCents(Max(output - input, 0.0));
    }
  }

  /** A levy on nothing is nothing. */
  lemma LevyOnNothing(rate: real)
    ensures Round2(0.0 * rate) == 0.0
  {
    ZeroIsCents();
  }

  /** A levy at a non-negative rate on a non-negative base is never negative. */
  lemma LevyNonNegative(base: real, rate: real)
    requires base >= 0.0 && rate >= 0.0
    ensures Round2(base * rate) >= 0.0
  {
    ZeroIsCents();
    assert base * rate >= 0.0;
    Round2Monotone(0.0, base * rate);
  }

  /** The surcharges of year index `i`, from the output and input VAT stored for it. */
  function SurchargeOf(m: Model, i: nat): (r: Result<Surcharge>)
    requires m.Shaped() && i < m.period.Total()
  {
    SurchargeYear(m.results.annualVatOutput[i], m.results.annualVatInput[i],
                  m.tax.cityMaintenanceTaxRate, m.tax.educationSurtaxRate)
  }

  /**
   * TaxCalculator: writes the VAT-payable, city-maintenance-tax and
   * education-surtax arrays for every year; nothing else changes.
   */
  function TaxStage(m: Model): (r: Result<Model>)
    requires m.Shaped()
    ensures r.Success? <==> forall i :: 0 <= i < m.period.Total() ==> SurchargeOf(m, i).Success?
    ensures r.Failure? ==> r.fault == PrecisionOverflow
    ensures r.Success? ==>
              var res := r.value.results;
              && r.value.Shaped()
              && r.value == m.(results := m.results.(annualVatPaid := res.annualVatPaid,
                                                     annualCityMaintenanceTax := res.annualCityMaintenanceTax,
                                                     annualEducationSurtax := res.annualEducationSurtax))
              && forall i :: 0 <= i < m.period.Total() ==>
                   SurchargeOf(m, i)
                   == Success(Surcharge(res.annualVatPaid[i], res.annualCityMaintenanceTax[i], res.annualEducationSurtax[i]))
  {
    var n := m.period.Total();
    var f := (i: nat) => if i < n then SurchargeOf(m, i) else Success(Surcharge(0.0, 0.0, 0.0));
    var t :- Tabulate(n, f);
    assert forall i :: 0 <= i < n ==> f(i) == SurchargeOf(m, i);
    var paid := seq(n, i requires 0 <= i < n => t[i].vatPaid);
    var city := seq(n, i requires 0 <= i < n => t[i].cityTax);
    var education := seq(n, i requires 0 <= i < n => t[i].educationSurtax);
    Success(m.(results := m.results.(annualVatPaid := paid, annualCityMaintenanceTax := city,
                                     annualEducationSurtax := education)))
  }
}
