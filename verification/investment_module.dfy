/**
 * The live investment module (investment_module.py): the project investment
 * total, the working-capital injection, the construction-year schedule of the
 * fixed-asset investment and the (empty) loan step, run in that order.
 */
module InvestmentModule {
  import opened Wrappers
  import opened Money
  import opened Periods
  import opened YearTables
  import opened Ledger

  // ---------------------------------------------------------------------
  // Project investment summary
  // ---------------------------------------------------------------------

  /** The five engineering items, unrounded. */
  function EngineeringItems(inv: Investment): real {
    inv.buildingCost + inv.equipmentProcurementCost + inv.equipmentInstallationCost
    + inv.publicEquipmentProcurementCost + inv.publicEquipmentInstallationCost
  }

  /** The six other construction items, land use among them, unrounded. */
  function OtherConstructionItems(inv: Investment): real {
    inv.constructionManagementFee + inv.technicalConsultingFee + inv.infrastructureFee
    + inv.landUseFee + inv.patentFee + inv.otherPreparationFee
  }

  /** The two contingency reserves, unrounded. */
  function ContingencyItems(inv: Investment): real {
    inv.basicContingencyReserve + inv.priceContingencyReserve
  }

  /** Every one of the fifteen investment items added up exactly. */
  function ItemTotal(inv: Investment): real {
    EngineeringItems(inv) + OtherConstructionItems(inv) + ContingencyItems(inv)
    + inv.constructionInterest + inv.workingCapital
  }

  /**
   * The project's total investment: engineering cost, other construction cost
   * and contingency reserve, each rounded, plus construction interest and
   * working capital, rounded again. It is whole cents and within four half
   * cents of the exact total of the fifteen items.
   */
  function ProjectTotal(inv: Investment): (r: Result<real>)
    ensures r.Success? <==>
              && Fits(EngineeringItems(inv)) && Fits(OtherConstructionItems(inv)) && Fits(ContingencyItems(inv))
              && Fits(Round2(EngineeringItems(inv)) + Round2(OtherConstructionItems(inv))
                      + Round2(ContingencyItems(inv)) + inv.constructionInterest + inv.workingCapital)
    ensures r.Failure? ==> r.fault == PrecisionOverflow
    ensures r.Success? ==> IsCents(r.value) && Abs(r.value - ItemTotal(inv)) <= 0.02
  {
    var engineering :- Round(EngineeringItems(inv));
    var other :- Round(OtherConstructionItems(inv));
    var contingency :- Round(ContingencyItems(inv));
    Round(engineering + other + contingency + inv.constructionInterest + inv.workingCapital)
  }

  /** When every item is whole cents, no rounding moves anything: the total is exact. */
  lemma ProjectTotalOfCents(inv: Investment)
    requires IsCents(inv.buildingCost) && IsCents(inv.equipmentProcurementCost)
    requires IsCents(inv.equipmentInstallationCost) && IsCents(inv.publicEquipmentProcurementCost)
    requires IsCents(inv.publicEquipmentInstallationCost) && IsCents(inv.constructionManagementFee)
    requires IsCents(inv.technicalConsultingFee) && IsCents(inv.infrastructureFee)
    requires IsCents(inv.landUseFee) && IsCents(inv.patentFee) && IsCents(inv.otherPreparationFee)
    requires IsCents(inv.basicContingencyReserve) && IsCents(inv.priceContingencyReserve)
    requires IsCents(inv.constructionInterest) && IsCents(inv.workingCapital)
    requires ProjectTotal(inv).Success?
    ensures ProjectTotal(inv).value == ItemTotal(inv)
  {
    var e, o, c := EngineeringItems(inv), OtherConstructionItems(inv), ContingencyItems(inv);
    EngineeringOfCents(inv);
    OtherConstructionOfCents(inv);
    CentsClosed(inv.basicContingencyReserve, inv.priceContingencyReserve);
    Round2OfCents(e);
    Round2OfCents(o);
    Round2OfCents(c);
    CentsClosed(e, o);
    CentsClosed(e + o, c);
    CentsClosed(e + o + c, inv.constructionInterest);
    CentsClosed(e + o + c + inv.constructionInterest, inv.workingCapital);
    Round2OfCents(ItemTotal(inv));
  }

  /** Five whole-cent engineering items add up to whole cents. */
  lemma EngineeringOfCents(inv: Investment)
    requires IsCents(inv.buildingCost) && IsCents(inv.equipmentProcurementCost)
    requires IsCents(inv.equipmentInstallationCost) && IsCents(inv.publicEquipmentProcurementCost)
    requires IsCents(inv.publicEquipmentInstallationCost)
    ensures IsCents(EngineeringItems(inv))
  {
    var a := inv.buildingCost + inv.equipmentProcurementCost;
    CentsClosed(inv.buildingCost, inv.equipmentProcurementCost);
    CentsClosed(a, inv.equipmentInstallationCost);
    CentsClosed(a + inv.equipmentInstallationCost, inv.publicEquipmentProcurementCost);
    CentsClosed(a + inv.equipmentInstallationCost + inv.publicEquipmentProcurementCost,
                inv.publicEquipmentInstallationCost);
  }

  /** Six whole-cent other construction items add up to whole cents. */
  lemma OtherConstructionOfCents(inv: Investment)
    requires IsCents(inv.constructionManagementFee) && IsCents(inv.technicalConsultingFee)
    requires IsCents(inv.infrastructureFee) && IsCents(inv.landUseFee) && IsCents(inv.patentFee)
    requires IsCents(inv.otherPreparationFee)
    ensures IsCents(OtherConstructionItems(inv))
  {
    var a := inv.constructionManagementFee + inv.technicalConsultingFee;
    CentsClosed(inv.constructionManagementFee, inv.technicalConsultingFee);
    CentsClosed(a, inv.infrastructureFee);
    CentsClosed(a + inv.infrastructureFee, inv.landUseFee);
    CentsClosed(a + inv.infrastructureFee + inv.landUseFee, inv.patentFee);
    CentsClosed(a + inv.infrastructureFee + inv.landUseFee + inv.patentFee, inv.otherPreparationFee);
  }

  /** ProjectInvestmentSummaryCalculator: records the project total; nothing else changes. */
  function Summary(m: Model): (r: Result<Model>)
    ensures r.Success? <==> ProjectTotal(m.investment).Success?
    ensures r.Failure? ==> r.fault == PrecisionOverflow
    ensures r.Success? ==> r.value == m.(results := m.results.(totalInvestment := ProjectTotal(m.investment).value))
  {
    var total :- ProjectTotal(m.investment);
    Success(m.(results := m.results.(totalInvestment := total)))
  }

  // ---------------------------------------------------------------------
  // Working capital
  // ---------------------------------------------------------------------

  /**
   * The working-capital array after the injection: the rounded working capital
   * at the first operation year's index, when the horizon reaches it; every
   * other entry as it was.
   */
  function InjectWorkingCapital(p: Period, wc: seq<real>, amount: real): (r: Result<seq<real>>)
    requires |wc| == p.Total()
    ensures r.Success? <==> p.operation == 0 || Fits(amount)
    ensures r.Failure? ==> r.fault == PrecisionOverflow
    ensures r.Success? ==>
              && |r.value| == |wc|
              && forall i :: 0 <= i < |wc| ==> r.value[i] == if i == p.construction then Round2(amount) else wc[i]
  {
    if p.OperationStart() - 1 < |wc| then
      var w :- Round(amount);
      Success(wc[p.construction := w])
    else
      Success(wc)
  }

  /** WorkingCapitalCalculator: only the working-capital array changes. */
  function WorkingCapital(m: Model): (r: Result<Model>)
    requires m.Shaped()
    ensures r.Success? <==> m.period.operation == 0 || Fits(m.investment.workingCapital)
    ensures r.Failure? ==> r.fault == PrecisionOverflow
    ensures r.Success? ==>
              && r.value.Shaped()
              && r.value == m.(results := m.results.(workingCapitalInvestment := r.value.results.workingCapitalInvestment))
              && forall i :: 0 <= i < m.period.Total() ==>
                   r.value.results.workingCapitalInvestment[i]
                   == if i == m.period.construction then Round2(m.investment.workingCapital)
                      else m.results.workingCapitalInvestment[i]
  {
    var wc :- InjectWorkingCapital(m.period, m.results.workingCapitalInvestment, m.investment.workingCapital);
    Success(m.(results := m.results.(workingCapitalInvestment := wc)))
  }

  // ---------------------------------------------------------------------
  // Investment plan
  // ---------------------------------------------------------------------

  /**
   * `_create_investment_schedule` for the fixed assets `fixed` over `c`
   * construction years. From three years on: 40%, 30% and 30% of `fixed`, then
   * a further 30% of `fixed` shared evenly over the years after the third.
   * Below three years: `fixed / c` in each. No construction year at all is a
   * division by zero.
   */
  function Schedule(fixed: real, c: nat): (r: Result<seq<real>>)
    ensures c == 0 ==> r == Failure(DivisionByZero)
    ensures c >= 3 ==> (r.Success? <==> Fits(fixed * 0.4) && Fits(fixed * 0.3) && (c > 3 ==> Fits(fixed * 0.3 / (c - 3) as real)))
    ensures 0 < c < 3 ==> (r.Success? <==> Fits(fixed / c as real))
    ensures r.Failure? && c > 0 ==> r.fault == PrecisionOverflow
    ensures r.Success? ==> |r.value| == c && forall i :: 0 <= i < c ==> IsCents(r.value[i]) && -Limit < r.value[i] < Limit
    ensures r.Success? && c >= 3 ==>
              && r.value[0] == Round2(fixed * 0.4) && r.value[1] == Round2(fixed * 0.3) && r.value[2] == Round2(fixed * 0.3)
              && forall i :: 3 <= i < c ==> r.value[i] == Round2(fixed * 0.3 / (c - 3) as real)
    ensures r.Success? && 0 < c < 3 ==> forall i :: 0 <= i < c ==> r.value[i] == Round2(fixed / c as real)
  {
    if c >= 3 then
      var first :- Round(fixed * 0.4);
      // the second and third years round the same 30% share
      var second :- Round(fixed * 0.3);
      if c > 3 then
        var share :- Round(fixed * 0.3 / (c - 3) as real);
        Success([first, second, second] + seq(c - 3, _ => share))
      else
        Success([first, second, second])
    else if c == 0 then
      Failure(DivisionByZero)
    else
      var share :- Round(fixed / c as real);
      Success(seq(c, _ => share))
  }

  /**
   * What the schedule spreads: the fixed assets themselves for up to three
   * construction years, but 130% of them beyond three, since the 30% for the
   * later years comes on top of the 40/30/30 split. Each entry is off by at
   * most half a cent.
   */
  lemma ScheduleTotal(fixed: real, c: nat)
    requires Schedule(fixed, c).Success?
    ensures c <= 3 ==> Abs(Sum(Schedule(fixed, c).value) - fixed) <= c as real * 0.005
    ensures c > 3 ==> Abs(Sum(Schedule(fixed, c).value) - 1.3 * fixed) <= c as real * 0.005
  {
    var s := Schedule(fixed, c).value;
    if c > 3 {
      OverAllocatedTotal(fixed, c, s);
    } else if c == 3 {
      SplitHeadTotal(fixed, s);
    } else if c > 0 {
      SumOfTail(s, 0, c, s[0]);
      LevelSharesRecover(c, s[0], fixed);
    }
  }

  /** Beyond three years: the 40/30/30 head plus a tail of level shares of another 30%. */
  lemma OverAllocatedTotal(fixed: real, c: nat, s: seq<real>)
    requires c > 3 && |s| == c
    requires s[0] == Round2(fixed * 0.4) && s[1] == Round2(fixed * 0.3) && s[2] == Round2(fixed * 0.3)
    requires forall i :: 3 <= i < c ==> s[i] == Round2(fixed * 0.3 / (c - 3) as real)
    ensures Abs(Sum(s) - 1.3 * fixed) <= c as real * 0.005
  {
    var k := c - 3;
    var share := Round2(fixed * 0.3 / k as real);
    var head, tail := s[..3], s[3..];
    assert s == head + tail;
    SumAppend(head, tail);
    SplitHeadTotal(fixed, head);
    SumOfTail(tail, 0, k, share);
    Round2IsNearest(fixed * 0.3 / k as real);
    LevelSharesRecover(k, share, fixed * 0.3);
    assert c as real * 0.005 == 0.015 + k as real * 0.005;
  }

  /** The 40/30/30 split adds up to the whole to within three half cents. */
  lemma SplitHeadTotal(fixed: real, head: seq<real>)
    requires |head| == 3
    requires head[0] == Round2(fixed * 0.4) && head[1] == Round2(fixed * 0.3) && head[2] == Round2(fixed * 0.3)
    ensures Abs(Sum(head) - fixed) <= 0.015
  {
    Round2IsNearest(fixed * 0.4);
    Round2IsNearest(fixed * 0.3);
    assert head == [head[0]] + [head[1], head[2]];
    SumCons(head[0], [head[1], head[2]]);
    assert [head[1], head[2]] == [head[1]] + [head[2]];
    SumCons(head[1], [head[2]]);
    SumCons(head[2], []);
  }

  /** Three construction years split 100 as 40, 30 and 30. */
  lemma ScheduleOfThreeYears()
    ensures Schedule(100.0, 3) == Success([40.0, 30.0, 30.0])
  {
    Round2OfCents(40.0);
    Round2OfCents(30.0);
  }

  /** Five construction years spread 130 of a fixed-asset base of 100. */
  lemma ScheduleOfFiveYears()
    ensures Schedule(100.0, 5) == Success([40.0, 30.0, 30.0, 15.0, 15.0])
    ensures Sum(Schedule(100.0, 5).value) == 130.0
  {
    Round2OfCents(40.0);
    Round2OfCents(30.0);
    Round2OfCents(15.0);
    var s := [40.0, 30.0, 30.0, 15.0, 15.0];
    assert 100.0 * 0.3 / 2.0 == 15.0;
    assert seq(2, _ => 15.0) == [15.0, 15.0];
    assert [40.0, 30.0, 30.0] + [15.0, 15.0] == s;
    assert Schedule(100.0, 5) == Success(s);
    assert s == [40.0] + [30.0, 30.0, 15.0, 15.0];
    SumCons(40.0, [30.0, 30.0, 15.0, 15.0]);
    assert [30.0, 30.0, 15.0, 15.0] == [30.0] + [30.0, 15.0, 15.0];
    SumCons(30.0, [30.0, 15.0, 15.0]);
    assert [30.0, 15.0, 15.0] == [30.0] + [15.0, 15.0];
    SumCons(30.0, [15.0, 15.0]);
    assert [15.0, 15.0] == [15.0] + [15.0];
    SumCons(15.0, [15.0]);
    assert [15.0] == [15.0] + [];
    SumCons(15.0, []);
  }

  /**
   * InvestmentPlanCalculator. The breakdown total is computed (and can fail)
   * but discarded; the schedule of the fixed assets with interest is rounded
   * once more into the first `construction` entries of the fixed-asset
   * investment array, and the working capital is injected as above. Nothing
   * else changes.
   */
  function Plan(m: Model): (r: Result<Model>)
    requires m.Shaped()
    ensures r.Success? <==>
              && Fits(m.assets.fixedAssetsWithInterest + m.assets.intangibleAssets + m.assets.otherAssets
                      + m.investment.workingCapital)
              && Schedule(m.assets.fixedAssetsWithInterest, m.period.construction).Success?
              && (m.period.operation == 0 || Fits(m.investment.workingCapital))
    ensures r.Success? ==>
              && r.value.Shaped()
              && r.value == m.(results := m.results.(
                                 fixedAssetsInvestment := r.value.results.fixedAssetsInvestment,
                                 workingCapitalInvestment := r.value.results.workingCapitalInvestment))
              && (forall i :: 0 <= i < m.period.construction ==>
                    r.value.results.fixedAssetsInvestment[i]
                    == Schedule(m.assets.fixedAssetsWithInterest, m.period.construction).value[i])
              && (forall i :: m.period.construction <= i < m.period.Total() ==>
                    r.value.results.fixedAssetsInvestment[i] == m.results.fixedAssetsInvestment[i])
              && forall i :: 0 <= i < m.period.Total() ==>
                   r.value.results.workingCapitalInvestment[i]
                   == if i == m.period.construction then Round2(m.investment.workingCapital)
                      else m.results.workingCapitalInvestment[i]
  {
    var breakdown :- Round(m.assets.fixedAssetsWithInterest + m.assets.intangibleAssets + m.assets.otherAssets
                           + m.investment.workingCapital);
    var schedule :- Schedule(m.assets.fixedAssetsWithInterest, m.period.construction);
    RoundAllOfCents(schedule);
    var fixed := RoundAll(schedule).value;
    var withFixed := m.(results := m.results.(
                          fixedAssetsInvestment := Overwrite(m.results.fixedAssetsInvestment, fixed)));
    WorkingCapital(withFixed)
  }

  /** LoanRepaymentCalculator: construction interest is already in the fixed assets, so nothing changes. */
  function LoanRepayment(m: Model): (r: Result<Model>)
    ensures r == Success(m)
  {
    Success(m)
  }

  // ---------------------------------------------------------------------
  // The module
  // ---------------------------------------------------------------------

  /**
   * `InvestmentModule.calculate_all`: re-initialises the results, then runs
   * the summary, working capital, plan and loan steps, stopping at the first
   * failure. On success the fixed-asset array holds the schedule in the
   * construction years and zeros after it, the working-capital array holds
   * the rounded working capital at the first operation year and zeros
   * elsewhere, every other array is zero and no input changes.
   */
  function CalculateAll(m: Model): (r: Result<Model>)
    ensures r.Success? <==>
              && ProjectTotal(m.investment).Success?
              && (m.period.operation == 0 || Fits(m.investment.workingCapital))
              && Fits(m.assets.fixedAssetsWithInterest + m.assets.intangibleAssets + m.assets.otherAssets
                      + m.investment.workingCapital)
              && Schedule(m.assets.fixedAssetsWithInterest, m.period.construction).Success?
    ensures r.Success? ==>
              var res := r.value.results;
              && r.value.Shaped()
              && r.value.(results := m.results) == m
              && res.totalInvestment == ProjectTotal(m.investment).value
              && res.constructionPeriod == m.period.construction && res.operationPeriod == m.period.operation
              && (forall i :: 0 <= i < m.period.construction ==>
                    res.fixedAssetsInvestment[i] == Schedule(m.assets.fixedAssetsWithInterest, m.period.construction).value[i])
              && (forall i :: m.period.construction <= i < m.period.Total() ==> res.fixedAssetsInvestment[i] == 0.0)
              && (forall i :: 0 <= i < m.period.Total() ==>
                    res.workingCapitalInvestment[i] == if i == m.period.construction then Round2(m.investment.workingCapital) else 0.0)
              && res.annualDepreciation == Zeros(m.period.Total()) && res.annualRevenue == Zeros(m.period.Total())
              && res.annualCost == Zeros(m.period.Total()) && res.annualNetCashFlow == Zeros(m.period.Total())
              && res.annualCityMaintenanceTax == Zeros(m.period.Total())
              && res.annualEducationSurtax == Zeros(m.period.Total())
  {
    var initialised := m.InitializeResults();
    var summarised :- Summary(initialised);
    var funded :- WorkingCapital(summarised);
    var planned :- Plan(funded);
    LoanRepayment(planned)
  }

  /**
   * After the module runs, the working capital appears exactly once: the
   * working-capital array adds up to the rounded working capital when there
   * is an operation year, and to zero when there is none.
   */
  lemma WorkingCapitalInjectedOnce(m: Model)
    requires CalculateAll(m).Success?
    ensures Sum(CalculateAll(m).value.results.workingCapitalInvestment)
            == if m.period.operation > 0 then Round2(m.investment.workingCapital) else 0.0
  {
    var wc := CalculateAll(m).value.results.workingCapitalInvestment;
    if m.period.operation > 0 {
      SingleEntryTotal(wc, m.period.construction, Round2(m.investment.workingCapital));
    } else {
      SumOfZeros(wc);
    }
  }

  /**
   * What `validate` rules out: only a period without construction years makes
   * the module divide by zero, so on a valid period it fails only on
   * precision, and when it succeeds it books the working capital in full.
   */
  lemma ValidPeriodInvests(m: Model)
    ensures CalculateAll(m).Failure? && CalculateAll(m).fault == DivisionByZero ==> m.period.construction == 0
    ensures m.period.Valid() && CalculateAll(m).Failure? ==> CalculateAll(m).fault == PrecisionOverflow
    ensures m.period.Valid() && CalculateAll(m).Success? ==>
              Sum(CalculateAll(m).value.results.workingCapitalInvestment) == Round2(m.investment.workingCapital)
  {
    if CalculateAll(m).Success? {
      WorkingCapitalInjectedOnce(m);
    }
  }
}
