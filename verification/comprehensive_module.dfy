/**
 * The live comprehensive module (financial_comprehensive_module.py): the
 * cash-flow statement with its running cumulative total, then NPV, IRR and
 * the static and dynamic payback periods.
 */
module ComprehensiveModule {
  import opened Wrappers
  import opened Money
  import opened Periods
  import opened YearTables
  import opened Ledger
  import opened Discounting
  import opened Indicators

  // ---------------------------------------------------------------------
  // Cash-flow statement
  // ---------------------------------------------------------------------

  /** One year of the cash-flow statement. */
  datatype Flow = Flow(inflow: real, outflow: real, net: real)

  /** The stored values one operation year's cash flow is computed from. */
  datatype YearInputs = YearInputs(
    revenue: real,
    assetSale: real,
    cost: real,
    depreciation: real,
    amortization: real,
    incomeTax: real,
    cityTax: real,
    educationSurtax: real,
    workingCapital: real)

  /** The inputs of year index `i`, read from the result arrays and the asset-sale stream. */
  function InputsOf(m: Model, i: nat): YearInputs
    requires m.Shaped() && i < m.period.Total()
  {
    var res := m.results;
    YearInputs(res.annualRevenue[i], Get(m.revenue.assetSale, i + 1), res.annualCost[i],
               res.annualDepreciation[i], res.annualAmortization[i], res.annualIncomeTax[i],
               res.annualCityMaintenanceTax[i], res.annualEducationSurtax[i], res.workingCapitalInvestment[i])
  }

  /** The operating cost: total cost less the non-cash depreciation and amortization. */
  function OperatingCost(x: YearInputs): real {
    x.cost - x.depreciation - x.amortization
  }

  /**
   * A construction year: nothing comes in, the year's fixed investment goes
   * out, and the net flow is its negation to the cent.
   */
  function ConstructionFlow(fixed: real): (r: Result<Flow>)
    ensures r.Success? <==> Fits(-fixed)
    ensures r.Failure? ==> r.fault == PrecisionOverflow
    ensures r.Success? ==> r.value.inflow == 0.0 && r.value.outflow == fixed && r.value.net == Round2(-fixed)
  {
    var net :- Round(0.0 - fixed);
    Success(Flow(0.0, fixed, net))
  }

  /**
   * An operation year: the inflow is the stored revenue plus the year's
   * asset-sale stream; the outflow is the operating cost (rounded) plus
   * income tax, both surcharges and the working capital put in that year;
   * each rounded to the cent, and the net flow is their difference.
   */
  function OperationFlow(x: YearInputs): (r: Result<Flow>)
    ensures r.Failure? ==> r.fault == PrecisionOverflow
    ensures r.Success? <==>
              && Fits(x.revenue + x.assetSale)
              && Fits(OperatingCost(x))
              && Fits(Round2(OperatingCost(x)) + x.incomeTax + x.cityTax + x.educationSurtax + x.workingCapital)
              && Fits(Round2(x.revenue + x.assetSale)
                      - Round2(Round2(OperatingCost(x)) + x.incomeTax + x.cityTax + x.educationSurtax + x.workingCapital))
    ensures r.Success? ==>
              && r.value.inflow == Round2(x.revenue + x.assetSale)
              && r.value.outflow
                 == Round2(Round2(OperatingCost(x)) + x.incomeTax + x.cityTax + x.educationSurtax + x.workingCapital)
              && r.value.net == Round2(r.value.inflow - r.value.outflow)
    ensures r.Success? ==> IsCents(r.value.inflow) && IsCents(r.value.outflow) && IsCents(r.value.net)
  {
    var inflow :- Round(x.revenue + x.assetSale);
    var operating :- Round(OperatingCost(x));
    var outflow :- Round(operating + x.incomeTax + x.cityTax + x.educationSurtax + x.workingCapital);
    var net :- Round(inflow - outflow);
    Success(Flow(inflow, outflow, net))
  }

  /** The cash flow of year index `i`. */
  function YearFlow(m: Model, i: nat): (r: Result<Flow>)
    requires m.Shaped() && i < m.period.Total()
  {
    if m.period.IsConstructionYear(i + 1) then ConstructionFlow(m.results.fixedAssetsInvestment[i])
    else OperationFlow(InputsOf(m, i))
  }

  /** Every year's cash flow, in year order; it fails at the first year that overflows. */
  function FlowTable(m: Model): (r: Result<seq<Flow>>)
    requires m.Shaped()
    ensures r.Success? <==> forall i :: 0 <= i < m.period.Total() ==> YearFlow(m, i).Success?
    ensures r.Failure? ==> r.fault == PrecisionOverflow
    ensures r.Success? ==>
              && |r.value| == m.period.Total()
              && forall i :: 0 <= i < m.period.Total() ==> YearFlow(m, i) == Success(r.value[i])
  {
    var f := (i: nat) => if i < m.period.Total() then YearFlow(m, i) else Success(Flow(0.0, 0.0, 0.0));
    var r := Tabulate(m.period.Total(), f);
    assert forall i :: 0 <= i < m.period.Total() ==> f(i) == YearFlow(m, i);
    r
  }

  /** Every flow of the statement is a whole number of cents, and its net is inflow less outflow exactly. */
  lemma FlowIsBalanced(m: Model, i: nat, flow: Flow)
    requires m.Shaped() && i < m.period.Total() && YearFlow(m, i) == Success(flow)
    requires IsCents(m.results.fixedAssetsInvestment[i])
    ensures IsCents(flow.inflow) && IsCents(flow.outflow) && IsCents(flow.net)
    ensures flow.net == flow.inflow - flow.outflow
  {
    ZeroIsCents();
    if m.period.IsConstructionYear(i + 1) {
      var fixed := m.results.fixedAssetsInvestment[i];
      CentsClosed(0.0, fixed);
      Round2OfCents(-fixed);
    } else {
      Round2IsCents(flow.inflow);
      Round2IsCents(flow.outflow);
      BalancedOperationFlow(InputsOf(m, i), flow);
    }
  }

  /** In an operation year the inflow and outflow are whole cents, so the rounding of their difference is exact. */
  lemma BalancedOperationFlow(x: YearInputs, flow: Flow)
    requires OperationFlow(x) == Success(flow)
    ensures IsCents(flow.inflow) && IsCents(flow.outflow) && IsCents(flow.net)
    ensures flow.net == flow.inflow - flow.outflow
  {
    Round2IsCents(x.revenue + x.assetSale);
    Round2IsCents(Round2(OperatingCost(x)) + x.incomeTax + x.cityTax + x.educationSurtax + x.workingCapital);
    CentsClosed(flow.inflow, flow.outflow);
    Round2OfCents(flow.inflow - flow.outflow);
    Round2IsCents(flow.inflow - flow.outflow);
  }

  /** The net column of a statement. */
  function NetColumn(flows: seq<Flow>): (c: seq<real>)
    ensures |c| == |flows| && forall i :: 0 <= i < |flows| ==> c[i] == flows[i].net
  {
    seq(|flows|, i requires 0 <= i < |flows| => flows[i].net)
  }

  /** The exact total of the net flows up to and including year index `i`. */
  function RunningSum(net: seq<real>, i: nat): real
    requires i < |net|
  {
    Sum(net[..i + 1])
  }

  /** The running totals `net[0]`, `net[0] + net[1]`, ... before rounding. */
  function RunningSums(net: seq<real>): (s: seq<real>)
    ensures |s| == |net| && forall i :: 0 <= i < |net| ==> s[i] == RunningSum(net, i)
  {
    seq(|net|, i requires 0 <= i < |net| => RunningSum(net, i))
  }

  /** The cumulative column: each running total of the net flows, stored to the cent. */
  function Cumulative(net: seq<real>): (r: Result<seq<real>>)
    ensures r.Success? <==> forall i :: 0 <= i < |net| ==> Fits(RunningSum(net, i))
    ensures r.Failure? ==> r.fault == PrecisionOverflow
    ensures r.Success? ==> |r.value| == |net| && forall i :: 0 <= i < |net| ==> r.value[i] == Round2(RunningSum(net, i))
  {
    RoundAll(RunningSums(net))
  }

  /**
   * Net flows in whole cents have running totals in whole cents, so the
   * stored cumulative column starts at the first net flow and grows by
   * exactly each year's net flow.
   */
  lemma CumulativeIsRunningTotal(net: seq<real>)
    requires forall i :: 0 <= i < |net| ==> IsCents(net[i])
    requires Cumulative(net).Success?
    ensures RunningTotal(net, Cumulative(net).value)
  {
    var cum := Cumulative(net).value;
    forall i | 0 <= i < |net|
      ensures cum[i] == RunningSum(net, i)
    {
      var prefix := net[..i + 1];
      assert forall j :: 0 <= j < |prefix| ==> IsCents(prefix[j]);
      SumOfCents(prefix);
      Round2OfCents(Sum(prefix));
    }
    if |net| > 0 {
      assert net[..1] == [net[0]];
      SumCons(net[0], []);
    }
    forall i | 1 <= i < |net|
      ensures cum[i] == cum[i - 1] + net[i]
    {
      SumStep(net, i);
    }
  }

  /**
   * CashFlowStatementCalculator: writes the inflow, outflow, net and
   * cumulative arrays; nothing else changes.
   */
  function CashFlow(m: Model): (r: Result<Model>)
    requires m.Shaped()
    ensures r.Success? <==> FlowTable(m).Success? && Cumulative(NetColumn(FlowTable(m).value)).Success?
    ensures r.Failure? ==> r.fault == PrecisionOverflow
    ensures r.Success? ==>
              var flows := FlowTable(m).value;
              var res := r.value.results;
              && r.value.Shaped()
              && r.value == m.(results := m.results.(annualCashFlowIn := res.annualCashFlowIn,
                                                     annualCashFlowOut := res.annualCashFlowOut,
                                                     annualNetCashFlow := res.annualNetCashFlow,
                                                     cumulativeCashFlow := res.cumulativeCashFlow))
              && res.annualNetCashFlow == NetColumn(flows)
              && res.cumulativeCashFlow == Cumulative(NetColumn(flows)).value
              && forall i :: 0 <= i < m.period.Total() ==>
                   res.annualCashFlowIn[i] == flows[i].inflow && res.annualCashFlowOut[i] == flows[i].outflow
  {
    var flows :- FlowTable(m);
    var net := NetColumn(flows);
    var cum :- Cumulative(net);
    var n := |flows|;
    var inflow := seq(n, i requires 0 <= i < n => flows[i].inflow);
    var outflow := seq(n, i requires 0 <= i < n => flows[i].outflow);
    Success(m.(results := m.results.(annualCashFlowIn := inflow, annualCashFlowOut := outflow,
                                     annualNetCashFlow := net, cumulativeCashFlow := cum)))
  }

  /**
   * With the construction-year investments stored in whole cents (as the
   * investment module leaves them), the stored cumulative column is the
   * running total of the stored net column.
   */
  lemma CashFlowCumulates(m: Model, after: Model)
    requires m.Shaped() && CashFlow(m) == Success(after)
    requires forall i :: 0 <= i < m.period.Total() ==> IsCents(m.results.fixedAssetsInvestment[i])
    ensures RunningTotal(after.results.annualNetCashFlow, after.results.cumulativeCashFlow)
    ensures forall i :: 0 <= i < m.period.Total() ==>
              after.results.annualNetCashFlow[i] == after.results.annualCashFlowIn[i] - after.results.annualCashFlowOut[i]
  {
    var flows := FlowTable(m).value;
    var net := NetColumn(flows);
    forall i | 0 <= i < m.period.Total()
      ensures IsCents(net[i]) && net[i] == flows[i].inflow - flows[i].outflow
    {
      FlowIsBalanced(m, i, flows[i]);
    }
    CumulativeIsRunningTotal(net);
  }

  /** In a construction year the statement pays out the year's fixed investment and takes nothing in. */
  lemma ConstructionYearFlow(m: Model, after: Model, i: nat)
    requires m.Shaped() && CashFlow(m) == Success(after)
    requires i < m.period.Total() && m.period.IsConstructionYear(i + 1)
    ensures after.results.annualCashFlowIn[i] == 0.0
    ensures after.results.annualCashFlowOut[i] == m.results.fixedAssetsInvestment[i]
    ensures after.results.annualNetCashFlow[i] == Round2(-m.results.fixedAssetsInvestment[i])
  {
    var flows := FlowTable(m).value;
    assert YearFlow(m, i) == Success(flows[i]);
  }

  /**
   * In an operation year the statement takes in the stored revenue plus the
   * year's asset sale, and pays out the operating cost, the taxes and the
   * working capital, each rounded as `OperationFlow` rounds them.
   */
  lemma OperationYearFlow(m: Model, after: Model, i: nat)
    requires m.Shaped() && CashFlow(m) == Success(after)
    requires i < m.period.Total() && m.period.IsOperationYear(i + 1)
    ensures var x := InputsOf(m, i);
      && after.results.annualCashFlowIn[i] == Round2(m.results.annualRevenue[i] + Get(m.revenue.assetSale, i + 1))
      && after.results.annualCashFlowOut[i]
         == Round2(Round2(OperatingCost(x)) + x.incomeTax + x.cityTax + x.educationSurtax + x.workingCapital)
      && after.results.annualNetCashFlow[i] == Round2(after.results.annualCashFlowIn[i] - after.results.annualCashFlowOut[i])
  {
    var flows := FlowTable(m).value;
    YearsPartition(m.period, i + 1);
    assert YearFlow(m, i) == OperationFlow(InputsOf(m, i));
    assert YearFlow(m, i) == Success(flows[i]);
  }

  /**
   * The asset-sale stream is counted twice in an operation year's inflow:
   * the revenue module stores the rounded total of all six streams, the sale
   * among them, and the statement adds the sale again. With the streams in
   * whole cents the inflow is the five other streams plus twice the sale.
   * `OperationYearFlow` places these inputs in the statement: its revenue is
   * the stored revenue and its sale is the year's asset-sale entry.
   */
  lemma AssetSaleCountedTwice(x: YearInputs, r: Revenue, y: int)
    requires OperationFlow(x).Success?
    requires x.revenue == Round2(r.StreamSum(y)) && x.assetSale == Get(r.assetSale, y)
    requires IsCents(r.StreamSum(y)) && IsCents(Get(r.assetSale, y))
    ensures OperationFlow(x).value.inflow
            == Get(r.factoryBuilding, y) + Get(r.supportingFacility, y) + Get(r.propertyService, y)
               + Get(r.parking, y) + Get(r.advertising, y) + 2.0 * Get(r.assetSale, y)
  {
    SaleAddedTwice(r, y, x.revenue);
  }

  /** Adding the asset sale to the rounded six-stream total `stored`, on cent amounts. */
  lemma SaleAddedTwice(r: Revenue, y: int, stored: real)
    requires stored == Round2(r.StreamSum(y))
    requires IsCents(r.StreamSum(y)) && IsCents(Get(r.assetSale, y))
    ensures Round2(stored + Get(r.assetSale, y))
            == Get(r.factoryBuilding, y) + Get(r.supportingFacility, y) + Get(r.propertyService, y)
               + Get(r.parking, y) + Get(r.advertising, y) + 2.0 * Get(r.assetSale, y)
  {
    var total, sale := r.StreamSum(y), Get(r.assetSale, y);
    Round2OfCents(total);
    CentsClosed(total, sale);
    Round2OfCents(total + sale);
  }

  // ---------------------------------------------------------------------
  // Indicators
  // ---------------------------------------------------------------------

  /** The IRR from the bisection, stored to the cent; the bracket keeps it well inside the context. */
  function StoredIrr(net: seq<real>): (r: real)
    ensures IsCents(r) && -0.9 <= r <= 1.0
    ensures Abs(r - CalculateIrr(net)) <= 0.005
  {
    var irr := CalculateIrr(net);
    Round2IsCents(irr);
    Round2IsNearest(irr);
    IrrStaysInBracket(irr);
    Round2(irr)
  }

  /** Rounding a rate of the bracket `[-0.9, 1]` to the cent stays in the bracket. */
  lemma IrrStaysInBracket(irr: real)
    requires IrrLow <= irr <= IrrHigh
    ensures -0.9 <= Round2(irr) <= 1.0
  {
    Round2Monotone(IrrLow, irr);
    Round2Monotone(irr, IrrHigh);
    assert (-0.9 * 100.0).Floor == -90;
    Round2OfCents(-0.9);
    assert (1.0 * 100.0).Floor == 100;
    Round2OfCents(1.0);
  }

  /**
   * FinancialIndicatorsCalculator: the NPV at the discount rate, the IRR, the
   * static payback from the stored net and cumulative columns and the
   * dynamic payback from the discounted flows; it fails only when the NPV
   * does, and then writes nothing.
   */
  function ComputeIndicators(m: Model): (r: Result<Model>)
    requires m.Shaped()
    ensures r.Success? <==> Npv(m.results.annualNetCashFlow, m.parameters.discountRate).Success?
    ensures r.Failure? ==> r.fault == Npv(m.results.annualNetCashFlow, m.parameters.discountRate).fault
    ensures r.Success? ==>
              var net := m.results.annualNetCashFlow;
              var rate := m.parameters.discountRate;
              && DiscountedFlows(net, rate).Success?
              && r.value == m.(results := m.results.(npv := Npv(net, rate).value,
                                                     irr := StoredIrr(net),
                                                     staticPayback := StaticPayback(net, m.results.cumulativeCashFlow),
                                                     dynamicPayback := DynamicPayback(DiscountedFlows(net, rate).value)))
  {
    var net := m.results.annualNetCashFlow;
    var rate := m.parameters.discountRate;
    var npv :- Npv(net, rate);
    var terms := DiscountedFlows(net, rate).value;
    Success(m.(results := m.results.(npv := npv, irr := StoredIrr(net),
                                     staticPayback := StaticPayback(net, m.results.cumulativeCashFlow),
                                     dynamicPayback := DynamicPayback(terms))))
  }

  /**
   * At a zero discount rate the NPV is the final cumulative cash flow: both
   * are the plain total of the net flows.
   */
  lemma NpvAtZeroRateIsFinalCumulative(net: seq<real>)
    requires |net| > 0
    requires forall i :: 0 <= i < |net| ==> IsCents(net[i]) && -Limit < net[i] < Limit
    requires Cumulative(net).Success?
    ensures Npv(net, 0.0) == Success(Cumulative(net).value[|net| - 1])
  {
    NpvAtZeroRate(net);
    assert net[..|net|] == net;
  }

  /**
   * After the cash-flow statement, a project that starts in deficit has a
   * static payback exactly when its cumulative cash flow ever turns
   * non-negative, and the period falls within the year it turns.
   */
  lemma StaticPaybackAfterStatement(m: Model, after: Model, last: Model)
    requires m.Shaped() && CashFlow(m) == Success(after) && ComputeIndicators(after) == Success(last)
    requires forall i :: 0 <= i < m.period.Total() ==> IsCents(m.results.fixedAssetsInvestment[i])
    requires m.period.Total() > 0 && after.results.cumulativeCashFlow[0] < 0.0
    ensures var cum := after.results.cumulativeCashFlow;
      && (last.results.staticPayback.Some? <==> exists i :: 0 <= i < |cum| && cum[i] >= 0.0)
      && (last.results.staticPayback.Some? ==>
            exists i :: 1 <= i < |cum| && cum[i - 1] < 0.0 <= cum[i]
                        && i as real < last.results.staticPayback.value <= i as real + 1.0)
  {
    CashFlowCumulates(m, after);
    StoredStaticPayback(after, last);
    StaticPaybackMeaning(after.results.annualNetCashFlow, after.results.cumulativeCashFlow);
  }

  /** The indicators store the static payback of the statement's own net and cumulative columns. */
  lemma StoredStaticPayback(after: Model, last: Model)
    requires after.Shaped() && ComputeIndicators(after) == Success(last)
    ensures last.results.staticPayback == StaticPayback(after.results.annualNetCashFlow, after.results.cumulativeCashFlow)
  {
  }

  // ---------------------------------------------------------------------
  // The module
  // ---------------------------------------------------------------------

  /** `FinancialComprehensiveModule.calculate_all`: the statement, then the indicators. */
  function CalculateAll(m: Model): (r: Result<Model>)
    requires m.Shaped()
    ensures r.Success? ==> CashFlow(m).Success? && ComputeIndicators(CashFlow(m).value) == r
    ensures CashFlow(m).Failure? ==> r == Failure(PrecisionOverflow)
    ensures r.Success? ==>
              var res := r.value.results;
              && r.value.Shaped()
              && r.value == m.(results := m.results.(annualCashFlowIn := res.annualCashFlowIn,
                                                     annualCashFlowOut := res.annualCashFlowOut,
                                                     annualNetCashFlow := res.annualNetCashFlow,
                                                     cumulativeCashFlow := res.cumulativeCashFlow,
                                                     npv := res.npv, irr := res.irr,
                                                     staticPayback := res.staticPayback,
                                                     dynamicPayback := res.dynamicPayback))
  {
    var stated :- CashFlow(m);
    ComputeIndicators(stated)
  }

  /** What `get_financial_indicators` reports. */
  datatype IndicatorReport = IndicatorReport(npv: real, irr: real, staticPayback: real, dynamicPayback: real)

  /** `get_financial_indicators`: the stored indicators, a missing payback period reported as zero. */
  function GetFinancialIndicators(m: Model): (r: IndicatorReport)
    ensures r.npv == m.results.npv && r.irr == m.results.irr
    ensures m.results.staticPayback.None? ==> r.staticPayback == 0.0
    ensures m.results.staticPayback.Some? ==> r.staticPayback == m.results.staticPayback.value
    ensures m.results.dynamicPayback.None? ==> r.dynamicPayback == 0.0
    ensures m.results.dynamicPayback.Some? ==> r.dynamicPayback == m.results.dynamicPayback.value
  {
    IndicatorReport(m.results.npv, m.results.irr,
                    m.results.staticPayback.GetOr(0.0), m.results.dynamicPayback.GetOr(0.0))
  }
}
