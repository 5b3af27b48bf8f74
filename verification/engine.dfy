/**
 * The live engine (app.py:492-514): the results are initialised, then the
 * investment, cost, revenue and comprehensive modules run in that order,
 * each reading what the earlier ones stored.
 */
module Engine {
  import opened Wrappers
  import opened Money
  import opened Periods
  import opened YearTables
  import opened Ledger
  import InvestmentModule
  import CostModule
  import RevenueModule
  import ComprehensiveModule

  /** The results initialised, then the investment module: nothing but the results changes. */
  function Invested(m: Model): (r: Result<Model>)
    ensures r.Success? ==> r.value.Shaped() && r.value == m.(results := r.value.results)
  {
    InvestmentModule.CalculateAll(m.InitializeResults())
  }

  /** Then the cost module, which also writes the repair stream. */
  function Costed(m: Model): (r: Result<Model>)
    ensures r.Success? ==> r.value.Shaped()
    ensures r.Success? ==> r.value == m.(cost := m.cost.(repair := r.value.cost.repair), results := r.value.results)
  {
    var invested :- Invested(m);
    CostModule.CalculateAll(invested)
  }

  /** Then the revenue module: revenue, output VAT and profit. */
  function Earned(m: Model): (r: Result<Model>)
    ensures r.Success? ==> r.value.Shaped()
    ensures r.Success? ==> r.value == m.(cost := m.cost.(repair := r.value.cost.repair), results := r.value.results)
  {
    var costed :- Costed(m);
    RevenueModule.CalculateAll(costed)
  }

  /**
   * One live calculation: the four modules in order after initialising the
   * results, stopping at the first module that fails. Only the results and
   * the repair stream the cost module writes differ from the inputs.
   */
  function CalculateAll(m: Model): (r: Result<Model>)
    ensures Invested(m).Failure? ==> r.Failure?
    ensures Costed(m).Failure? ==> r.Failure?
    ensures Earned(m).Failure? ==> r.Failure?
    ensures r.Success? ==>
              && r.value.Shaped()
              && r.value == m.(cost := m.cost.(repair := r.value.cost.repair), results := r.value.results)
  {
    var earned :- Earned(m);
    ComprehensiveModule.CalculateAll(earned)
  }

  /**
   * The city-maintenance tax and the education surtax are computed only by
   * the older engine: after a live calculation they are zero in every year.
   */
  lemma SurchargesStayZero(m: Model, after: Model)
    requires CalculateAll(m) == Success(after)
    ensures after.results.annualCityMaintenanceTax == Zeros(m.period.Total())
    ensures after.results.annualEducationSurtax == Zeros(m.period.Total())
  {
    var earned := Earned(m).value;
    var stated := ComprehensiveModule.CashFlow(earned).value;
    assert after == ComprehensiveModule.ComputeIndicators(stated).value;
  }

  /**
   * After a live calculation an operation year's stored revenue is the
   * rounded total of its six streams, the asset sale among them: the revenue
   * `ComprehensiveModule.AssetSaleCountedTwice` starts from.
   */
  lemma StoredRevenueIncludesAssetSale(m: Model, after: Model, i: nat)
    requires CalculateAll(m) == Success(after)
    requires i < m.period.Total() && m.period.IsOperationYear(i + 1)
    ensures after.results.annualRevenue[i] == Round2(m.revenue.StreamSum(i + 1))
  {
    var e := Earned(m).value;
    EarnedRevenue(m, e, i);
  }

  lemma EarnedRevenue(m: Model, e: Model, i: nat)
    requires Earned(m) == Success(e)
    requires i < m.period.Total() && m.period.IsOperationYear(i + 1)
    ensures e.results.annualRevenue[i] == Round2(m.revenue.StreamSum(i + 1))
  {
    var costed := Costed(m).value;
    assert e == RevenueModule.CalculateAll(costed).value;
  }

  /**
   * In a construction year the live cash outflow is the investment
   * schedule's entry for that year, which the investment module computed
   * from the fixed assets with interest.
   */
  lemma ConstructionOutflowIsSchedule(m: Model, after: Model, i: nat)
    requires CalculateAll(m) == Success(after)
    requires i < m.period.construction
    ensures InvestmentModule.Schedule(m.assets.fixedAssetsWithInterest, m.period.construction).Success?
    ensures after.results.annualCashFlowIn[i] == 0.0
    ensures after.results.annualCashFlowOut[i]
            == InvestmentModule.Schedule(m.assets.fixedAssetsWithInterest, m.period.construction).value[i]
  {
    var earned := Earned(m).value;
    var stated := ComprehensiveModule.CashFlow(earned).value;
    assert after == ComprehensiveModule.ComputeIndicators(stated).value;
    assert m.period.IsConstructionYear(i + 1);
    ComprehensiveModule.ConstructionYearFlow(earned, stated, i);
  }
}
