/**
 * The live cost module (cost_module.py): the repair charge, depreciation,
 * amortization and the yearly total cost, run after three input-VAT
 * calculators whose values are not kept.
 */
module CostModule {
  import opened Wrappers
  import opened Money
  import opened Periods
  import opened YearTables
  import opened Ledger
  import opened Depreciation

  // ---------------------------------------------------------------------
  // Material, fuel and power, labor
  // ---------------------------------------------------------------------

  /** The input-VAT share `x * rate / (1 + rate)` of a gross amount. */
  function VatShare(x: real, rate: real): real
    requires rate > -1.0
  {
    x * rate / (1.0 + rate)
  }

  /**
   * The input VAT of `stream` in each operation year, rounded and then thrown
   * away: it changes nothing, but a year whose share does not fit the context
   * stops the calculator.
   */
  function DiscardedInputVat(p: Period, stream: YearMap, rate: real): (r: Result<seq<real>>)
    requires rate > -1.0
    ensures r.Success? <==> forall y :: p.IsOperationYear(y) ==> Fits(VatShare(Get(stream, y), rate))
    ensures r.Failure? ==> r.fault == PrecisionOverflow
  {
    var f := (i: nat) => if p.IsOperationYear(i + 1) then Round(VatShare(Get(stream, i + 1), rate)) else Success(0.0);
    var r := Tabulate(p.Total(), f);
    assert forall y :: p.IsOperationYear(y) ==> f(y - 1) == Round(VatShare(Get(stream, y), rate));
    r
  }

  /** MaterialCostCalculator: the 13% input VAT of materials, computed and dropped. */
  function Material(m: Model): (r: Result<Model>)
    ensures r.Success? <==> forall y :: m.period.IsOperationYear(y) ==> Fits(VatShare(Get(m.cost.material, y), 0.13))
    ensures r.Failure? ==> r.fault == PrecisionOverflow
    ensures r.Success? ==> r.value == m
  {
    var dropped :- DiscardedInputVat(m.period, m.cost.material, 0.13);
    Success(m)
  }

  /** FuelPowerCostCalculator: the 9% input VAT of fuel and power, computed and dropped. */
  function FuelPower(m: Model): (r: Result<Model>)
    ensures r.Success? <==> forall y :: m.period.IsOperationYear(y) ==> Fits(VatShare(Get(m.cost.fuelPower, y), 0.09))
    ensures r.Failure? ==> r.fault == PrecisionOverflow
    ensures r.Success? ==> r.value == m
  {
    var dropped :- DiscardedInputVat(m.period, m.cost.fuelPower, 0.09);
    Success(m)
  }

  /** LaborCostCalculator: reads the labor cost and writes nothing. */
  function Labor(m: Model): (r: Result<Model>)
    ensures r == Success(m)
  {
    Success(m)
  }

  // ---------------------------------------------------------------------
  // Repair
  // ---------------------------------------------------------------------

  /** The yearly repair charge: 0.5% of the fixed assets with interest, to the cent. */
  function RepairFee(a: Assets): (r: Result<real>)
    ensures r.Success? <==> Fits(a.fixedAssetsWithInterest * 0.005)
    ensures r.Success? ==> IsCents(r.value) && Abs(r.value - a.fixedAssetsWithInterest * 0.005) <= 0.005
  {
    Round(a.fixedAssetsWithInterest * 0.005)
  }

  /**
   * The repair-cost map after the charge is written: every year of the horizon
   * gets an entry, `fee` in operation years and zero in construction years;
   * years outside the horizon keep whatever they had.
   */
  function RepairMap(p: Period, before: YearMap, fee: real): (r: YearMap)
    ensures forall y :: y in r <==> y in before || 1 <= y <= p.Total()
    ensures forall y :: 1 <= y <= p.Total() ==> r[y] == if p.IsOperationYear(y) then fee else 0.0
    ensures forall y :: y in before && !(1 <= y <= p.Total()) ==> r[y] == before[y]
  {
    map y | y in before.Keys + YearRange(1, p.Total()) ::
      if 1 <= y <= p.Total() then (if p.IsOperationYear(y) then fee else 0.0) else before[y]
  }

  /** RepairCostCalculator: writes the repair-cost map; nothing else changes. */
  function Repair(m: Model): (r: Result<Model>)
    ensures r.Success? <==> Fits(m.assets.fixedAssetsWithInterest * 0.005)
    ensures r.Failure? ==> r.fault == PrecisionOverflow
    ensures r.Success? ==>
              r.value.cost.repair == RepairMap(m.period, m.cost.repair, Round2(m.assets.fixedAssetsWithInterest * 0.005))
    ensures r.Success? ==>
              && r.value == m.(cost := m.cost.(repair := r.value.cost.repair))
              && (forall y :: 1 <= y <= m.period.Total() ==>
                    Get(r.value.cost.repair, y)
                    == if m.period.IsOperationYear(y) then Round2(m.assets.fixedAssetsWithInterest * 0.005) else 0.0)
              && forall y :: !(1 <= y <= m.period.Total()) ==>
                   (y in r.value.cost.repair <==> y in m.cost.repair) && Get(r.value.cost.repair, y) == Get(m.cost.repair, y)
  {
    var fee :- RepairFee(m.assets);
    Success(m.(cost := m.cost.(repair := RepairMap(m.period, m.cost.repair, fee))))
  }

  // ---------------------------------------------------------------------
  // Depreciation and amortization
  // ---------------------------------------------------------------------

  /** DepreciationCostCalculator: writes the depreciation array; nothing else changes. */
  function DepreciationCost(m: Model): (r: Result<Model>)
    requires m.Shaped()
    ensures r.Success? <==> AnnualDepreciation(m.assets).Success?
    ensures r.Failure? ==> r.fault == PrecisionOverflow
    ensures r.Success? ==>
              && r.value.Shaped()
              && r.value == m.(results := m.results.(annualDepreciation := r.value.results.annualDepreciation))
              && forall i :: 0 <= i < m.period.Total() ==>
                   r.value.results.annualDepreciation[i]
                   == if m.period.IsOperationYear(i + 1) then AnnualDepreciation(m.assets).value else 0.0
  {
    var table :- DepreciationTable(m.period, m.assets);
    Success(m.(results := m.results.(annualDepreciation := table)))
  }

  /** AmortizationCostCalculator: writes the amortization array; nothing else changes. */
  function AmortizationCost(m: Model): (r: Result<Model>)
    requires m.Shaped()
    ensures r.Success? <==> AmortizationTable(m.period, m.assets).Success?
    ensures r.Failure? ==> r.fault == PrecisionOverflow
    ensures r.Success? ==>
              && r.value.Shaped()
              && r.value == m.(results := m.results.(annualAmortization := r.value.results.annualAmortization))
              && forall i :: 0 <= i < m.period.Total() ==>
                   r.value.results.annualAmortization[i]
                   == if m.period.IsOperationYear(i + 1)
                      then Round2(IntangibleAmortization(m.assets).value + OtherAmortization(m.assets).value)
                      else 0.0
  {
    var table :- AmortizationTable(m.period, m.assets);
    Success(m.(results := m.results.(annualAmortization := table)))
  }

  // ---------------------------------------------------------------------
  // Total cost
  // ---------------------------------------------------------------------

  /**
   * The total-cost array: each operation year's five cost streams, absent
   * ones read as zero, added up to the cent; zero in construction years.
   */
  function AnnualCostTable(p: Period, c: Costs): (r: Result<seq<real>>)
    ensures r.Success? <==> forall y :: p.IsOperationYear(y) ==> Fits(c.StreamSum(y))
    ensures r.Failure? ==> r.fault == PrecisionOverflow
    ensures r.Success? ==>
              && |r.value| == p.Total()
              && forall i :: 0 <= i < p.Total() ==>
                   r.value[i] == if p.IsOperationYear(i + 1) then Round2(c.StreamSum(i + 1)) else 0.0
  {
    var f := (i: nat) => if p.IsOperationYear(i + 1) then c.TotalCost(i + 1) else Success(0.0);
    var r := Tabulate(p.Total(), f);
    assert forall y :: p.IsOperationYear(y) ==> f(y - 1) == c.TotalCost(y);
    r
  }

  /** TotalCostCalculator: writes the total-cost array; nothing else changes. */
  function AnnualCost(m: Model): (r: Result<Model>)
    requires m.Shaped()
    ensures r.Success? <==> AnnualCostTable(m.period, m.cost).Success?
    ensures r.Failure? ==> r.fault == PrecisionOverflow
    ensures r.Success? ==>
              && r.value.Shaped()
              && r.value == m.(results := m.results.(annualCost := AnnualCostTable(m.period, m.cost).value))
  {
    var table :- AnnualCostTable(m.period, m.cost);
    Success(m.(results := m.results.(annualCost := table)))
  }

  // ---------------------------------------------------------------------
  // The module
  // ---------------------------------------------------------------------

  /**
   * The first four calculators: the two input-VAT checks, labor and repair.
   * Together they change only the repair-cost map.
   */
  function Charges(m: Model): (r: Result<Model>)
    ensures r.Success? <==>
              && (forall y :: m.period.IsOperationYear(y) ==> Fits(VatShare(Get(m.cost.material, y), 0.13)))
              && (forall y :: m.period.IsOperationYear(y) ==> Fits(VatShare(Get(m.cost.fuelPower, y), 0.09)))
              && Fits(m.assets.fixedAssetsWithInterest * 0.005)
    ensures r.Failure? ==> r.fault == PrecisionOverflow
    ensures r.Success? ==>
              r.value == m.(cost := m.cost.(repair := RepairMap(m.period, m.cost.repair,
                                                                Round2(m.assets.fixedAssetsWithInterest * 0.005))))
  {
    var afterMaterial :- Material(m);
    assert afterMaterial == m;
    var afterFuel :- FuelPower(afterMaterial);
    assert afterFuel == m;
    var afterLabor := Labor(afterFuel).value;
    Repair(afterLabor)
  }

  /** With the repair map written, an operation year's cost streams carry the charge `fee`. */
  lemma RepairedStreamSums(p: Period, c: Costs, fee: real)
    ensures forall y :: p.IsOperationYear(y) ==>
              c.(repair := RepairMap(p, c.repair, fee)).StreamSum(y)
              == Get(c.material, y) + Get(c.fuelPower, y) + Get(c.labor, y) + fee + Get(c.other, y)
  {
  }

  /**
   * The last three calculators: depreciation, amortization and total cost.
   * Together they write those three arrays and nothing else.
   */
  function Totals(m: Model): (r: Result<Model>)
    requires m.Shaped()
    ensures r.Success? <==>
              && AnnualDepreciation(m.assets).Success?
              && AmortizationTable(m.period, m.assets).Success?
              && AnnualCostTable(m.period, m.cost).Success?
    ensures r.Failure? ==> r.fault == PrecisionOverflow
    ensures r.Success? ==>
              && r.value.Shaped()
              && r.value == m.(results := m.results.(annualDepreciation := DepreciationTable(m.period, m.assets).value,
                                                     annualAmortization := AmortizationTable(m.period, m.assets).value,
                                                     annualCost := AnnualCostTable(m.period, m.cost).value))
  {
    var afterDepreciation :- DepreciationCost(m);
    var afterAmortization :- AmortizationCost(afterDepreciation);
    AnnualCost(afterAmortization)
  }

  /**
   * `CostModule.calculate_all`: material, fuel and power, labor, repair,
   * depreciation, amortization and total, stopping at the first failure.
   * Because repair runs before the total, each operation year's total cost
   * already carries this run's repair charge.
   */
  function CalculateAll(m: Model): (r: Result<Model>)
    requires m.Shaped()
    ensures r.Success? ==>
              && Fits(m.assets.fixedAssetsWithInterest * 0.005)
              && AnnualDepreciation(m.assets).Success?
              && AmortizationTable(m.period, m.assets).Success?
    ensures r.Failure? ==> r.fault == PrecisionOverflow
    ensures r.Success? ==>
              var fee := Round2(m.assets.fixedAssetsWithInterest * 0.005);
              var res := r.value.results;
              && r.value.Shaped()
              && r.value == m.(cost := m.cost.(repair := r.value.cost.repair),
                               results := m.results.(annualDepreciation := res.annualDepreciation,
                                                     annualAmortization := res.annualAmortization,
                                                     annualCost := res.annualCost))
              && (forall y :: 1 <= y <= m.period.Total() ==>
                    Get(r.value.cost.repair, y) == if m.period.IsOperationYear(y) then fee else 0.0)
              && res.annualDepreciation == DepreciationTable(m.period, m.assets).value
              && res.annualAmortization == AmortizationTable(m.period, m.assets).value
              && forall i :: 0 <= i < m.period.Total() ==>
                   res.annualCost[i]
                   == if m.period.IsOperationYear(i + 1) then Round2(r.value.cost.StreamSum(i + 1)) else 0.0
  {
    var charged :- Charges(m);
    Totals(charged)
  }

  /**
   * The module runs through only when no operation year's input VAT, the
   * repair charge, the depreciation and amortization charges, nor any
   * operation year's total cost (with this run's repair charge in it)
   * overflows the context ...
   */
  lemma CalculateAllNeeds(m: Model)
    requires m.Shaped()
    ensures CalculateAll(m).Success? ==>
              && (forall y :: m.period.IsOperationYear(y) ==> Fits(VatShare(Get(m.cost.material, y), 0.13)))
              && (forall y :: m.period.IsOperationYear(y) ==> Fits(VatShare(Get(m.cost.fuelPower, y), 0.09)))
              && Fits(m.assets.fixedAssetsWithInterest * 0.005)
              && AnnualDepreciation(m.assets).Success?
              && AmortizationTable(m.period, m.assets).Success?
              && ChargedTotalsFit(m.period, m.cost, Round2(m.assets.fixedAssetsWithInterest * 0.005))
  {
    var fee := Round2(m.assets.fixedAssetsWithInterest * 0.005);
    if Charges(m).Success? {
      ChargesThenTotals(m);
      var charged := Charges(m).value.cost;
      assert charged == m.cost.(repair := RepairMap(m.period, m.cost.repair, fee));
      ChargedCostsFit(m.period, m.cost, fee);
      assert AnnualCostTable(m.period, charged).Success?
             == AnnualCostTable(m.period, m.cost.(repair := RepairMap(m.period, m.cost.repair, fee))).Success?;
    } else {
      ChargesFailing(m);
    }
  }

  /** ... and whenever none of them does, it runs through. */
  lemma CalculateAllSucceeds(m: Model)
    requires m.Shaped()
    requires forall y :: m.period.IsOperationYear(y) ==> Fits(VatShare(Get(m.cost.material, y), 0.13))
    requires forall y :: m.period.IsOperationYear(y) ==> Fits(VatShare(Get(m.cost.fuelPower, y), 0.09))
    requires Fits(m.assets.fixedAssetsWithInterest * 0.005)
    requires AnnualDepreciation(m.assets).Success?
    requires AmortizationTable(m.period, m.assets).Success?
    requires ChargedTotalsFit(m.period, m.cost, Round2(m.assets.fixedAssetsWithInterest * 0.005))
    ensures CalculateAll(m).Success?
  {
    var fee := Round2(m.assets.fixedAssetsWithInterest * 0.005);
    assert Charges(m).Success?;
    var charged := Charges(m).value.cost;
    assert charged == m.cost.(repair := RepairMap(m.period, m.cost.repair, fee));
    ChargedCostsFit(m.period, m.cost, fee);
    assert AnnualCostTable(m.period, m.cost.(repair := RepairMap(m.period, m.cost.repair, fee))).Success?;
    assert AnnualCostTable(m.period, charged).Success?;
    ChargesThenTotals(m);
  }

  /** Once the charges are through, the module succeeds exactly when the totals do. */
  lemma ChargesThenTotals(m: Model)
    requires m.Shaped() && Charges(m).Success?
    ensures CalculateAll(m).Success? <==>
              && AnnualDepreciation(m.assets).Success?
              && AmortizationTable(m.period, m.assets).Success?
              && AnnualCostTable(m.period, Charges(m).value.cost).Success?
  {
  }

  /** A failing charge stops the module. */
  lemma ChargesFailing(m: Model)
    requires m.Shaped() && Charges(m).Failure?
    ensures CalculateAll(m).Failure?
  {
  }

  /** Every operation year's five streams, with `fee` as the repair charge, fit the context. */
  ghost predicate ChargedTotalsFit(p: Period, c: Costs, fee: real) {
    forall y :: p.IsOperationYear(y) ==>
      Fits(Get(c.material, y) + Get(c.fuelPower, y) + Get(c.labor, y) + fee + Get(c.other, y))
  }

  /** With the repair map written, the total-cost table succeeds when every operation year's streams fit. */
  lemma ChargedCostsFit(p: Period, c: Costs, fee: real)
    ensures AnnualCostTable(p, c.(repair := RepairMap(p, c.repair, fee))).Success? <==> ChargedTotalsFit(p, c, fee)
  {
    var charged := c.(repair := RepairMap(p, c.repair, fee));
    RepairedStreamSums(p, c, fee);
    assert (forall y :: p.IsOperationYear(y) ==> Fits(charged.StreamSum(y))) <==> ChargedTotalsFit(p, c, fee);
  }

  /** What `get_cost_summary` reports. */
  datatype CostSummary = CostSummary(
    material: seq<real>,
    fuelPower: seq<real>,
    labor: seq<real>,
    repair: seq<real>,
    other: seq<real>,
    depreciation: seq<real>,
    amortization: seq<real>,
    totalCost: seq<real>)

  /**
   * `get_cost_summary`: each cost stream read for years 1..total (absent years
   * as zero) next to the depreciation, amortization and total-cost arrays.
   */
  function GetCostSummary(m: Model): (r: CostSummary)
    ensures |r.material| == |r.fuelPower| == |r.labor| == |r.repair| == |r.other| == m.period.Total()
    ensures forall i :: 0 <= i < m.period.Total() ==>
              && r.material[i] == Get(m.cost.material, i + 1) && r.fuelPower[i] == Get(m.cost.fuelPower, i + 1)
              && r.labor[i] == Get(m.cost.labor, i + 1) && r.repair[i] == Get(m.cost.repair, i + 1)
              && r.other[i] == Get(m.cost.other, i + 1)
    ensures r.depreciation == m.results.annualDepreciation && r.amortization == m.results.annualAmortization
    ensures r.totalCost == m.results.annualCost
  {
    var n := m.period.Total();
    CostSummary(YearColumn(m.cost.material, n), YearColumn(m.cost.fuelPower, n), YearColumn(m.cost.labor, n),
                YearColumn(m.cost.repair, n), YearColumn(m.cost.other, n),
                m.results.annualDepreciation, m.results.annualAmortization, m.results.annualCost)
  }

  /**
   * After the module runs, the summary's repair column is the charge in every
   * operation year and zero in every construction year, and its columns add
   * up, year by year, to what the total-cost array holds.
   */
  lemma SummaryAfterRun(m: Model, after: Model)
    requires m.Shaped() && CalculateAll(m) == Success(after)
    ensures var s := GetCostSummary(after);
      && (forall i :: 0 <= i < m.period.Total() ==>
            s.repair[i] == if m.period.IsOperationYear(i + 1) then Round2(m.assets.fixedAssetsWithInterest * 0.005) else 0.0)
      && forall i :: 0 <= i < m.period.Total() && m.period.IsOperationYear(i + 1) ==>
           s.totalCost[i] == Round2(s.material[i] + s.fuelPower[i] + s.labor[i] + s.repair[i] + s.other[i])
  {
    assert after.period == m.period;
    SummaryOfCosts(after, Round2(m.assets.fixedAssetsWithInterest * 0.005));
  }

  /** The summary of a ledger whose repair column holds `fee` and whose totals add the five streams. */
  lemma SummaryOfCosts(after: Model, fee: real)
    requires after.Shaped()
    requires forall y :: 1 <= y <= after.period.Total() ==>
               Get(after.cost.repair, y) == if after.period.IsOperationYear(y) then fee else 0.0
    requires forall i :: 0 <= i < after.period.Total() ==>
               after.results.annualCost[i]
               == if after.period.IsOperationYear(i + 1) then Round2(after.cost.StreamSum(i + 1)) else 0.0
    ensures var s := GetCostSummary(after);
      && (forall i :: 0 <= i < after.period.Total() ==>
            s.repair[i] == if after.period.IsOperationYear(i + 1) then fee else 0.0)
      && forall i :: 0 <= i < after.period.Total() && after.period.IsOperationYear(i + 1) ==>
           s.totalCost[i] == Round2(s.material[i] + s.fuelPower[i] + s.labor[i] + s.repair[i] + s.other[i])
  {
  }
}
