/**
 * The project ledger (financial_core.py:79-357): fixed investment inputs,
 * derived asset values, per-year revenue and cost maps, tax and financial
 * parameters, and the per-year result arrays every stage writes into.
 */
module Ledger {
  import opened Wrappers
  import opened Money
  import opened Periods
  import opened YearTables

  /** A per-year input keyed by 1-based year; an absent year reads as zero. */
  type YearMap = map<int, real>

  function Get(m: YearMap, year: int): real {
    if year in m then m[year] else 0.0
  }

  /** A stream read for every year of the horizon, absent years as zero. */
  function YearColumn(stream: YearMap, n: nat): (r: seq<real>)
    ensures |r| == n && forall i :: 0 <= i < n ==> r[i] == Get(stream, i + 1)
  {
    seq(n, i => Get(stream, i + 1))
  }

  /** Fixed (not per-year) investment inputs, InvestmentData. */
  datatype Investment = Investment(
    buildingCost: real,
    equipmentProcurementCost: real,
    equipmentInstallationCost: real,
    publicEquipmentProcurementCost: real,
    publicEquipmentInstallationCost: real,
    constructionManagementFee: real,
    technicalConsultingFee: real,
    infrastructureFee: real,
    landUseFee: real,
    patentFee: real,
    otherPreparationFee: real,
    basicContingencyReserve: real,
    priceContingencyReserve: real,
    constructionInterest: real,
    workingCapital: real)

  /** Asset bases (derived) and their depreciation and amortization terms, AssetData. */
  datatype Assets = Assets(
    fixedAssetsOriginalValue: real,
    fixedAssetsWithInterest: real,
    depreciationYears: int,
    salvageRate: real,
    intangibleAssets: real,
    amortizationYears: int,
    otherAssets: real,
    otherAssetsYears: int,
    deductibleTax: real)

  /** The six revenue streams, RevenueData. */
  datatype Revenue = Revenue(
    factoryBuilding: YearMap,
    supportingFacility: YearMap,
    propertyService: YearMap,
    parking: YearMap,
    advertising: YearMap,
    assetSale: YearMap)
  {
    /** The six streams of `year`, added exactly. */
    function StreamSum(year: int): real {
      Get(factoryBuilding, year) + Get(supportingFacility, year) + Get(propertyService, year)
      + Get(parking, year) + Get(advertising, year) + Get(assetSale, year)
    }

    /** `get_total_revenue`: the year's revenue to the nearest cent. */
    function TotalRevenue(year: int): (r: Result<real>)
      ensures r.Success? <==> Fits(StreamSum(year))
      ensures r.Success? ==> r.value == Round2(StreamSum(year))
      ensures r.Success? ==> IsCents(r.value) && Abs(r.value - StreamSum(year)) <= 0.005
    {
      Round(StreamSum(year))
    }
  }

  /** The five cost streams, CostData; `repair` is written by the engine. */
  datatype Costs = Costs(
    material: YearMap,
    fuelPower: YearMap,
    labor: YearMap,
    repair: YearMap,
    other: YearMap)
  {
    function StreamSum(year: int): real {
      Get(material, year) + Get(fuelPower, year) + Get(labor, year) + Get(repair, year) + Get(other, year)
    }

    /** `get_total_cost`: the year's cost to the nearest cent. */
    function TotalCost(year: int): (r: Result<real>)
      ensures r.Success? <==> Fits(StreamSum(year))
      ensures r.Success? ==> r.value == Round2(StreamSum(year))
      ensures r.Success? ==> IsCents(r.value) && Abs(r.value - StreamSum(year)) <= 0.005
    {
      Round(StreamSum(year))
    }
  }

  /** TaxData. */
  datatype Tax = Tax(
    vatOutputRate: real,
    vatInputRate: real,
    cityMaintenanceTaxRate: real,
    educationSurtaxRate: real,
    incomeTaxRate: real,
    landValueTaxRate: real,
    subsidyIncome: YearMap)

  /** FinancialParameters. */
  datatype Parameters = Parameters(
    taxRate: real,
    surplusReserveRate: real,
    discountRate: real,
    lossOffsetYears: int)

  /** CalculationResults: 18 per-year arrays and the scalar indicators. */
  datatype Results = Results(
    constructionPeriod: int,
    operationPeriod: int,
    totalPeriod: int,
    totalInvestment: real,
    fixedAssetsInvestment: seq<real>,
    workingCapitalInvestment: seq<real>,
    annualDepreciation: seq<real>,
    annualAmortization: seq<real>,
    annualRevenue: seq<real>,
    annualCost: seq<real>,
    annualProfitBeforeTax: seq<real>,
    annualIncomeTax: seq<real>,
    annualProfitAfterTax: seq<real>,
    annualVatOutput: seq<real>,
    annualVatInput: seq<real>,
    annualVatPaid: seq<real>,
    annualCityMaintenanceTax: seq<real>,
    annualEducationSurtax: seq<real>,
    annualCashFlowIn: seq<real>,
    annualCashFlowOut: seq<real>,
    annualNetCashFlow: seq<real>,
    cumulativeCashFlow: seq<real>,
    npv: real,
    irr: real,
    staticPayback: Option<real>,
    dynamicPayback: Option<real>)
  {
    /** The 18 per-year arrays, in declaration order. */
    function Arrays(): seq<seq<real>> {
      [fixedAssetsInvestment, workingCapitalInvestment, annualDepreciation, annualAmortization,
       annualRevenue, annualCost, annualProfitBeforeTax, annualIncomeTax, annualProfitAfterTax,
       annualVatOutput, annualVatInput, annualVatPaid, annualCityMaintenanceTax, annualEducationSurtax,
       annualCashFlowIn, annualCashFlowOut, annualNetCashFlow, cumulativeCashFlow]
    }

    /** Every per-year array has `n` entries. */
    predicate HasLength(n: nat) {
      && |fixedAssetsInvestment| == n && |workingCapitalInvestment| == n
      && |annualDepreciation| == n && |annualAmortization| == n
      && |annualRevenue| == n && |annualCost| == n
      && |annualProfitBeforeTax| == n && |annualIncomeTax| == n && |annualProfitAfterTax| == n
      && |annualVatOutput| == n && |annualVatInput| == n && |annualVatPaid| == n
      && |annualCityMaintenanceTax| == n && |annualEducationSurtax| == n
      && |annualCashFlowIn| == n && |annualCashFlowOut| == n
      && |annualNetCashFlow| == n && |cumulativeCashFlow| == n
    }

    /**
     * `initialize_arrays(n)`: all 18 arrays become `n` zeros; the scalar
     * fields (period, total investment, indicators) are not touched.
     */
    function InitializeArrays(n: nat): (r: Results)
      ensures r.HasLength(n)
      ensures forall a :: a in r.Arrays() ==> a == Zeros(n)
      ensures r.constructionPeriod == constructionPeriod && r.operationPeriod == operationPeriod
      ensures r.totalPeriod == totalPeriod && r.totalInvestment == totalInvestment
      ensures r.npv == npv && r.irr == irr
      ensures r.staticPayback == staticPayback && r.dynamicPayback == dynamicPayback
    {
      var z := Zeros(n);
      this.(fixedAssetsInvestment := z, workingCapitalInvestment := z,
            annualDepreciation := z, annualAmortization := z,
            annualRevenue := z, annualCost := z,
            annualProfitBeforeTax := z, annualIncomeTax := z, annualProfitAfterTax := z,
            annualVatOutput := z, annualVatInput := z, annualVatPaid := z,
            annualCityMaintenanceTax := z, annualEducationSurtax := z,
            annualCashFlowIn := z, annualCashFlowOut := z,
            annualNetCashFlow := z, cumulativeCashFlow := z)
    }
  }

  /** FinancialModel: the whole ledger of one project. */
  datatype Model = Model(
    period: Period,
    investment: Investment,
    assets: Assets,
    revenue: Revenue,
    cost: Costs,
    tax: Tax,
    parameters: Parameters,
    results: Results)
  {
    /** The result arrays cover the horizon, as `initialize_results` leaves them. */
    predicate Shaped() {
      results.HasLength(period.Total())
    }

    /**
     * `initialize_results`: records the period in the results and resets every
     * array to `total_period` zeros; nothing outside the results changes.
     */
    function InitializeResults(): (r: Model)
      ensures r.Shaped()
      ensures r == this.(results := r.results)
      ensures r.results.constructionPeriod == period.construction
      ensures r.results.operationPeriod == period.operation
      ensures r.results.totalPeriod == period.Total()
      ensures forall a :: a in r.results.Arrays() ==> a == Zeros(period.Total())
      ensures r.results.npv == results.npv && r.results.irr == results.irr
      ensures r.results.totalInvestment == results.totalInvestment
      ensures r.results.staticPayback == results.staticPayback
      ensures r.results.dynamicPayback == results.dynamicPayback
    {
      var stamped := results.(constructionPeriod := period.construction,
                              operationPeriod := period.operation,
                              totalPeriod := period.Total());
      this.(results := stamped.InitializeArrays(period.Total()))
    }
  }

  /** The dataclass defaults of a fresh FinancialModel. */
  function DefaultModel(): Model {
    Model(
      Period(3, 17),
      Investment(67062.86, 2360.38, 18299.19, 0.0, 0.0, 0.0, 6036.83, 1737.79, 6505.72, 0.0, 323.19,
                 10532.08, 0.0, 5721.185772330424, 90.0),
      Assets(0.0, 0.0, 20, 0.05, 0.0, 50, 0.0, 5, 8716.8199),
      Revenue(map[], map[], map[], map[], map[], map[]),
      Costs(map[], map[], map[], map[], map[]),
      Tax(0.09, 0.13, 0.07, 0.05, 0.25, 0.0, map[]),
      Parameters(0.25, 0.1, 0.06, 5),
      Results(3, 17, 20, 0.0, [], [], [], [], [], [], [], [], [], [], [], [], [], [], [], [], [], [],
              0.0, 0.0, None, None))
  }

  /** The years of `m` up to `last`, with their values. */
  function KeepYearsUpTo(m: YearMap, last: int): (r: YearMap)
    ensures forall y :: y in r <==> y in m && y <= last
    ensures forall y :: y in r ==> r[y] == m[y]
  {
    map y | y in m && y <= last :: m[y]
  }

  /** `m` has an entry for a year after `last`. */
  predicate HasYearAfter(m: YearMap, last: int) {
    exists y :: y in m && y > last
  }

  /**
   * `update_period` with `_migrate_year_data` read as the filter it intends:
   * factory-building and supporting-facility revenue and material and labor
   * cost lose the years after the new horizon, keep the others unchanged, and
   * the results are re-initialised for the new period.
   */
  function UpdatePeriod(m: Model, construction: nat, operation: nat): (r: Model)
    ensures r.period == Period(construction, operation)
    ensures var last := construction + operation;
      && (forall y :: y in r.revenue.factoryBuilding <==> y in m.revenue.factoryBuilding && y <= last)
      && (forall y :: y in r.revenue.supportingFacility <==> y in m.revenue.supportingFacility && y <= last)
      && (forall y :: y in r.cost.material <==> y in m.cost.material && y <= last)
      && (forall y :: y in r.cost.labor <==> y in m.cost.labor && y <= last)
    ensures forall y :: y in r.revenue.factoryBuilding ==> r.revenue.factoryBuilding[y] == m.revenue.factoryBuilding[y]
    ensures forall y :: y in r.revenue.supportingFacility ==> r.revenue.supportingFacility[y] == m.revenue.supportingFacility[y]
    ensures forall y :: y in r.cost.material ==> r.cost.material[y] == m.cost.material[y]
    ensures forall y :: y in r.cost.labor ==> r.cost.labor[y] == m.cost.labor[y]
    ensures r.revenue.propertyService == m.revenue.propertyService && r.revenue.parking == m.revenue.parking
    ensures r.revenue.advertising == m.revenue.advertising && r.revenue.assetSale == m.revenue.assetSale
    ensures r.cost.fuelPower == m.cost.fuelPower && r.cost.repair == m.cost.repair && r.cost.other == m.cost.other
    ensures r.investment == m.investment && r.assets == m.assets && r.tax == m.tax && r.parameters == m.parameters
    ensures r.Shaped() && forall a :: a in r.results.Arrays() ==> a == Zeros(construction + operation)
    ensures r.results.constructionPeriod == construction && r.results.operationPeriod == operation
  {
    var last := construction + operation;
    var revenue := m.revenue.(factoryBuilding := KeepYearsUpTo(m.revenue.factoryBuilding, last),
                              supportingFacility := KeepYearsUpTo(m.revenue.supportingFacility, last));
    var cost := m.cost.(material := KeepYearsUpTo(m.cost.material, last),
                        labor := KeepYearsUpTo(m.cost.labor, last));
    m.(period := Period(construction, operation), revenue := revenue, cost := cost).InitializeResults()
  }

  /**
   * `update_period` as written: the loop deletes from the dict it is iterating,
   * so the first year it drops makes the next step raise RuntimeError (which
   * `update_period` does not catch). It completes only when there is nothing
   * to drop, and then every map keeps all its entries.
   */
  function UpdatePeriodAsWritten(m: Model, construction: nat, operation: nat): (r: Result<Model>)
    ensures var last := construction + operation;
      r.Success? <==> && !HasYearAfter(m.revenue.factoryBuilding, last) && !HasYearAfter(m.revenue.supportingFacility, last)
                      && !HasYearAfter(m.cost.material, last) && !HasYearAfter(m.cost.labor, last)
    ensures r.Success? ==> r.value == UpdatePeriod(m, construction, operation)
    ensures r.Failure? ==> r.fault == DictResizedDuringIteration
  {
    var last := construction + operation;
    if HasYearAfter(m.revenue.factoryBuilding, last) || HasYearAfter(m.revenue.supportingFacility, last)
       || HasYearAfter(m.cost.material, last) || HasYearAfter(m.cost.labor, last)
    then Failure(DictResizedDuringIteration)
    else
      KeepAllYears(m.revenue.factoryBuilding, last);
      KeepAllYears(m.revenue.supportingFacility, last);
      KeepAllYears(m.cost.material, last);
      KeepAllYears(m.cost.labor, last);
      Success(m.(period := Period(construction, operation)).InitializeResults())
  }

  /** Filtering a map that has nothing after `last` gives the map back. */
  lemma KeepAllYears(m: YearMap, last: int)
    requires !HasYearAfter(m, last)
    ensures KeepYearsUpTo(m, last) == m
  {
  }

  /**
   * The discrepancy, on one input: a single factory-building revenue entry for
   * year 21 and a new 3 + 17 year horizon. The as-written migration raises; the
   * intended one drops year 21.
   */
  lemma MigrationAsWrittenRaisesOnDroppedYear()
    ensures var m := DefaultModel().(revenue := DefaultModel().revenue.(factoryBuilding := map[21 := 1.0]));
      && UpdatePeriodAsWritten(m, 3, 17) == Failure(DictResizedDuringIteration)
      && UpdatePeriod(m, 3, 17).revenue.factoryBuilding == map[]
  {
    var m := DefaultModel().(revenue := DefaultModel().revenue.(factoryBuilding := map[21 := 1.0]));
    assert 21 in m.revenue.factoryBuilding && 21 > 20;
    var r := UpdatePeriod(m, 3, 17).revenue.factoryBuilding;
    assert r.Keys == {};
  }

  /**
   * The scripted migration check: revenue for years 4..20 and a move to a
   * 5 + 15 year horizon keeps every entry, in both readings.
   */
  lemma MigrationKeepsYearsWithinHorizon()
    ensures var fb := map y | y in YearRange(4, 20) :: y as real * 1000.0;
      var m := DefaultModel().(revenue := DefaultModel().revenue.(factoryBuilding := fb));
      && UpdatePeriodAsWritten(m, 5, 15) == Success(UpdatePeriod(m, 5, 15))
      && UpdatePeriod(m, 5, 15).revenue.factoryBuilding == fb
  {
    var fb := map y | y in YearRange(4, 20) :: y as real * 1000.0;
    var m := DefaultModel().(revenue := DefaultModel().revenue.(factoryBuilding := fb));
    assert !HasYearAfter(fb, 20);
    KeepAllYears(fb, 20);
  }

  /** The years `first..last`, both included. */
  function YearRange(first: int, last: int): (r: set<int>)
    ensures forall y :: y in r <==> first <= y <= last
    decreases last - first
  {
    if first > last then {} else {first} + YearRange(first + 1, last)
  }

  /** A year no stream mentions has zero revenue and zero cost. */
  lemma AbsentYearReadsAsZero(rev: Revenue, cost: Costs, year: int)
    requires year !in rev.factoryBuilding && year !in rev.supportingFacility && year !in rev.propertyService
    requires year !in rev.parking && year !in rev.advertising && year !in rev.assetSale
    requires year !in cost.material && year !in cost.fuelPower && year !in cost.labor
    requires year !in cost.repair && year !in cost.other
    ensures rev.TotalRevenue(year) == Success(0.0) && cost.TotalCost(year) == Success(0.0)
  {
    ZeroIsCents();
  }
}
