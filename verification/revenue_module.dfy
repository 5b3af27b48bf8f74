/**
 * The live revenue module (revenue_module.py): yearly revenue and output VAT,
 * then profit before tax, the loss carry-forward, income tax and profit
 * after tax.
 */
module RevenueModule {
  import opened Wrappers
  import opened Money
  import opened Periods
  import opened YearTables
  import opened Ledger
  import opened LossCarryforward

  // ---------------------------------------------------------------------
  // Revenue and output VAT
  // ---------------------------------------------------------------------

  /** The streams taxed at 9%: factory building, supporting facility, parking, advertising, asset sale. */
  function NineGroup(r: Revenue, year: int): real {
    Get(r.factoryBuilding, year) + Get(r.supportingFacility, year) + Get(r.parking, year)
    + Get(r.advertising, year) + Get(r.assetSale, year)
  }

  /**
   * The year's output VAT: the 9% group and the 6% property-service stream
   * each priced out of the gross amount and rounded, then added and rounded
   * again. The rates are fixed; the ledger's output-VAT rate is not read.
   */
  function OutputVat(r: Revenue, year: int): (v: Result<real>)
    ensures v.Success? <==>
              && Fits(NineGroup(r, year) * 0.09 / 1.09)
              && Fits(Get(r.propertyService, year) * 0.06 / 1.06)
              && Fits(Round2(NineGroup(r, year) * 0.09 / 1.09) + Round2(Get(r.propertyService, year) * 0.06 / 1.06))
    ensures v.Failure? ==> v.fault == PrecisionOverflow
    ensures v.Success? ==>
              v.value == Round2(Round2(NineGroup(r, year) * 0.09 / 1.09) + Round2(Get(r.propertyService, year) * 0.06 / 1.06))
  {
    var nine :- Round(NineGroup(r, year) * 0.09 / 1.09);
    var six :- Round(Get(r.propertyService, year) * 0.06 / 1.06);
    Round(nine + six)
  }

  /**
   * The three roundings keep the output VAT within one and a half cents of
   * the exact tax content of the year's revenue.
   */
  lemma OutputVatNearExact(r: Revenue, year: int)
    requires OutputVat(r, year).Success?
    ensures Abs(OutputVat(r, year).value
                - (NineGroup(r, year) * 0.09 / 1.09 + Get(r.propertyService, year) * 0.06 / 1.06)) <= 0.015
  {
    var a := NineGroup(r, year) * 0.09 / 1.09;
    var b := Get(r.propertyService, year) * 0.06 / 1.06;
    Round2IsNearest(a);
    Round2IsNearest(b);
    Round2IsNearest(Round2(a) + Round2(b));
  }

  /** Revenue streams that are not negative carry output VAT that is not negative. */
  lemma OutputVatNotNegative(r: Revenue, year: int)
    requires OutputVat(r, year).Success?
    requires NineGroup(r, year) >= 0.0 && Get(r.propertyService, year) >= 0.0
    ensures OutputVat(r, year).value >= 0.0
  {
    var a := NineGroup(r, year) * 0.09 / 1.09;
    var b := Get(r.propertyService, year) * 0.06 / 1.06;
    ZeroIsCents();
    Round2Monotone(0.0, a);
    Round2Monotone(0.0, b);
    Round2Monotone(0.0, Round2(a) + Round2(b));
  }

  /** The revenue array: each operation year's six streams added up to the cent; zero in construction years. */
  function RevenueTable(p: Period, r: Revenue): (t: Result<seq<real>>)
    ensures t.Success? <==> forall y :: p.IsOperationYear(y) ==> Fits(r.StreamSum(y))
    ensures t.Failure? ==> t.fault == PrecisionOverflow
    ensures t.Success? ==>
              && |t.value| == p.Total()
              && forall i :: 0 <= i < p.Total() ==>
                   t.value[i] == if p.IsOperationYear(i + 1) then Round2(r.StreamSum(i + 1)) else 0.0
  {
    var f := (i: nat) => if p.IsOperationYear(i + 1) then r.TotalRevenue(i + 1) else Success(0.0);
    var t := Tabulate(p.Total(), f);
    assert forall y :: p.IsOperationYear(y) ==> f(y - 1) == r.TotalRevenue(y);
    t
  }

  /** The output-VAT array: `OutputVat` in operation years, zero in construction years. */
  function VatTable(p: Period, r: Revenue): (t: Result<seq<real>>)
    ensures t.Success? <==> forall y :: p.IsOperationYear(y) ==> OutputVat(r, y).Success?
    ensures t.Failure? ==> t.fault == PrecisionOverflow
    ensures t.Success? ==>
              && |t.value| == p.Total()
              && forall i :: 0 <= i < p.Total() ==>
                   t.value[i] == if p.IsOperationYear(i + 1) then OutputVat(r, i + 1).value else 0.0
  {
    var f := (i: nat) => VatEntry(p, r, i);
    var t := Tabulate(p.Total(), f);
    assert forall y :: p.IsOperationYear(y) ==> f(y - 1) == OutputVat(r, y);
    t
  }

  /** One entry of the output-VAT array, for the year after `i`. */
  function VatEntry(p: Period, r: Revenue, i: nat): (v: Result<real>)
    ensures v.Failure? ==> v.fault == PrecisionOverflow
  {
    if p.IsOperationYear(i + 1) then OutputVat(r, i + 1) else Success(0.0)
  }

  /** RevenueTaxCalculator: writes the revenue and output-VAT arrays; nothing else changes. */
  function RevenueTax(m: Model): (r: Result<Model>)
    requires m.Shaped()
    ensures r.Success? <==> RevenueTable(m.period, m.revenue).Success? && VatTable(m.period, m.revenue).Success?
    ensures r.Failure? ==> r.fault == PrecisionOverflow
    ensures r.Success? ==>
              && r.value.Shaped()
              && r.value == m.(results := m.results.(annualRevenue := RevenueTable(m.period, m.revenue).value,
                                                     annualVatOutput := VatTable(m.period, m.revenue).value))
  {
    var revenue :- RevenueTable(m.period, m.revenue);
    var vat :- VatTable(m.period, m.revenue);
    Success(m.(results := m.results.(annualRevenue := revenue, annualVatOutput := vat)))
  }

  // ---------------------------------------------------------------------
  // Profit and the loss carry-forward
  // ---------------------------------------------------------------------

  /**
   * One year of the profit table. `taxable` is the profit left after the
   * carried losses are offset; the engine uses it for the income tax but
   * does not store it.
   */
  datatype ProfitRow = ProfitRow(beforeTax: real, taxable: real, incomeTax: real, afterTax: real)

  /** An operation year's row and the carry-forward queue after it. */
  datatype YearOutcome = YearOutcome(row: ProfitRow, queue: seq<real>)

  /** The income tax: on what the offset leaves in a profitable year, none in a loss year. */
  function IncomeTax(pbt: real, taxable: real, taxRate: real): (r: Result<real>)
    ensures pbt < 0.0 ==> r == Success(0.0)
    ensures pbt >= 0.0 ==> (r.Success? <==> Fits(taxable * taxRate))
    ensures pbt >= 0.0 && r.Success? ==> r.value == Round2(taxable * taxRate)
    ensures r.Failure? ==> r.fault == PrecisionOverflow
  {
    if pbt >= 0.0 then Round(taxable * taxRate) else Success(0.0)
  }

  /**
   * The profit after tax, less the surplus reserve at `reserveRate`, to the
   * cent: the distributable profit. Both roundings can overflow.
   */
  function Distributable(pat: real, reserveRate: real): (r: Result<real>)
    ensures r.Success? <==> Fits(pat * reserveRate) && Fits(pat - Round2(pat * reserveRate))
    ensures r.Failure? ==> r.fault == PrecisionOverflow
  {
    var surplus :- Round(pat * reserveRate);
    Round(pat - surplus)
  }

  /** The distributable profit is within a cent of the share `1 - reserveRate` of the profit after tax. */
  lemma DistributableNearShare(pat: real, reserveRate: real)
    requires Distributable(pat, reserveRate).Success?
    ensures Abs(Distributable(pat, reserveRate).value - pat * (1.0 - reserveRate)) <= 0.01
  {
    var surplus := Round2(pat * reserveRate);
    Round2IsNearest(pat * reserveRate);
    Round2IsNearest(pat - surplus);
    assert pat * (1.0 - reserveRate) == pat - pat * reserveRate;
  }

  /** The taxes of an operation year whose rounded profit is `pbt`, once the offset `c` is made. */
  function TaxYear(c: Carry, pbt: real, taxRate: real, reserveRate: real): (r: Result<YearOutcome>)
    ensures r.Failure? ==> r.fault == PrecisionOverflow
    ensures r.Success? ==>
              && r.value.row.beforeTax == pbt
              && r.value.row.taxable == c.taxable
              && r.value.queue == c.queue
              && IncomeTax(pbt, c.taxable, taxRate) == Success(r.value.row.incomeTax)
              && r.value.row.afterTax == Round2(pbt - r.value.row.incomeTax)
              && Distributable(r.value.row.afterTax, reserveRate).Success?
  {
    var tax := IncomeTax(pbt, c.taxable, taxRate);
    if tax.Failure? then Failure(PrecisionOverflow)
    else
      var pat := Round(pbt - tax.value);
      if pat.Failure? then Failure(PrecisionOverflow)
      else if Distributable(pat.value, reserveRate).Failure? then Failure(PrecisionOverflow)
      else Success(YearOutcome(ProfitRow(pbt, c.taxable, tax.value, pat.value), c.queue))
  }

  /**
   * One operation year whose unrounded profit is `raw`, with the queue `q`
   * of carried losses. The income tax is charged on what the offset leaves;
   * the profit after tax subtracts it from the profit before the offset.
   * The surplus reserve and the distributable profit are rounded too and may
   * overflow, but their values are not kept.
   */
  function OperationYear(q: seq<real>, k: int, raw: real, taxRate: real, reserveRate: real): (r: Result<YearOutcome>)
    ensures !Fits(raw) ==> r.Failure?
    ensures r.Failure? ==> r.fault == PrecisionOverflow
    ensures r.Success? ==>
              var pbt := Round2(raw);
              var c := Step(q, k, pbt);
              && r.value.row.beforeTax == pbt
              && r.value.row.taxable == c.taxable
              && r.value.queue == c.queue
              && IncomeTax(pbt, c.taxable, taxRate) == Success(r.value.row.incomeTax)
              && r.value.row.afterTax == Round2(pbt - r.value.row.incomeTax)
  {
    var pbt :- Round(raw);
    TaxYear(Step(q, k, pbt), pbt, taxRate, reserveRate)
  }

  /** The row of a construction year: everything zero. */
  const IdleRow := ProfitRow(0.0, 0.0, 0.0, 0.0)

  /** The profit-before-tax column of a run. */
  function BeforeTaxColumn(rows: seq<ProfitRow>): (c: seq<real>)
    ensures |c| == |rows| && forall i :: 0 <= i < |rows| ==> c[i] == rows[i].beforeTax
  {
    seq(|rows|, i requires 0 <= i < |rows| => rows[i].beforeTax)
  }

  lemma BeforeTaxColumnPrefix(rows: seq<ProfitRow>, i: nat)
    requires i <= |rows|
    ensures BeforeTaxColumn(rows)[..i] == BeforeTaxColumn(rows[..i])
  {
  }

  /** The profit rows and the carry-forward queue after a run. */
  datatype ProfitRun = ProfitRun(rows: seq<ProfitRow>, queue: seq<real>)

  /**
   * What a row of the profit table says, given the carried losses before
   * its year: an idle row in construction years; in operation years the
   * rounded profit, the offset that `Step` makes against the queue, the tax
   * on what the offset leaves, and the profit after tax taken from the profit
   * before the offset.
   */
  ghost predicate RowAgrees(p: Period, raw: seq<real>, k: int, taxRate: real, rows: seq<ProfitRow>, i: nat)
    requires i < |rows| && i < |raw|
  {
    if !p.IsOperationYear(i + 1) then rows[i] == IdleRow
    else
      var pbt := rows[i].beforeTax;
      var c := Step(Carried(BeforeTaxColumn(rows[..i]), k), k, pbt);
      && pbt == Round2(raw[i])
      && rows[i].taxable == c.taxable
      && IncomeTax(pbt, c.taxable, taxRate) == Success(rows[i].incomeTax)
      && rows[i].afterTax == Round2(pbt - rows[i].incomeTax)
  }

  /**
   * A run agrees with the profits `raw` when every row does and its queue is
   * the carry-forward of its profits before tax, construction years included
   * (a zero profit leaves the queue alone).
   */
  ghost predicate RunAgrees(p: Period, raw: seq<real>, k: int, taxRate: real, run: ProfitRun)
    requires |run.rows| <= |raw|
  {
    && run.queue == Carried(BeforeTaxColumn(run.rows), k)
    && forall i :: 0 <= i < |run.rows| ==> RowAgrees(p, raw, k, taxRate, run.rows, i)
  }

  /**
   * The profit table for the first `n` years whose unrounded profits are
   * `raw`, built year by year with the loss queue carried from one year to
   * the next.
   */
  function ProfitRows(p: Period, raw: seq<real>, k: int, taxRate: real, reserveRate: real, n: nat): (r: Result<ProfitRun>)
    requires n <= |raw|
    ensures r.Failure? ==> r.fault == PrecisionOverflow
    ensures r.Success? ==> |r.value.rows| == n && RunAgrees(p, raw, k, taxRate, r.value)
    ensures (exists i :: 0 <= i < n && p.IsOperationYear(i + 1) && !Fits(raw[i])) ==> r.Failure?
  {
    if n == 0 then Success(ProfitRun([], []))
    else
      var before :- ProfitRows(p, raw, k, taxRate, reserveRate, n - 1);
      if !p.IsOperationYear(n) then
        IdleYearExtends(p, raw, k, taxRate, before);
        Success(ProfitRun(before.rows + [IdleRow], before.queue))
      else
        var year :- OperationYear(before.queue, k, raw[n - 1], taxRate, reserveRate);
        OperationYearExtends(p, raw, k, taxRate, before, year);
        Success(ProfitRun(before.rows + [year.row], year.queue))
  }

  /** A construction year adds an idle row and keeps the queue. */
  lemma IdleYearExtends(p: Period, raw: seq<real>, k: int, taxRate: real, before: ProfitRun)
    requires |before.rows| < |raw| && !p.IsOperationYear(|before.rows| + 1)
    requires RunAgrees(p, raw, k, taxRate, before)
    ensures RunAgrees(p, raw, k, taxRate, ProfitRun(before.rows + [IdleRow], before.queue))
  {
    var n := |before.rows| + 1;
    var rows := before.rows + [IdleRow];
    assert rows[..n - 1] == before.rows;
    assert BeforeTaxColumn(rows)[..n - 1] == BeforeTaxColumn(before.rows);
    CarriedWellFormed(BeforeTaxColumn(before.rows), k);
    BreakEvenYearKeepsQueue(before.queue, k);
    PriorRowsAgree(p, raw, k, taxRate, before.rows, rows);
    assert RowAgrees(p, raw, k, taxRate, rows, n - 1);
  }

  /** An operation year adds the row `OperationYear` computed and its queue. */
  lemma OperationYearExtends(p: Period, raw: seq<real>, k: int, taxRate: real, before: ProfitRun, year: YearOutcome)
    requires |before.rows| < |raw| && p.IsOperationYear(|before.rows| + 1)
    requires RunAgrees(p, raw, k, taxRate, before)
    requires var pbt := Round2(raw[|before.rows|]);
      var c := Step(before.queue, k, pbt);
      && year.row.beforeTax == pbt
      && year.row.taxable == c.taxable
      && year.queue == c.queue
      && IncomeTax(pbt, c.taxable, taxRate) == Success(year.row.incomeTax)
      && year.row.afterTax == Round2(pbt - year.row.incomeTax)
    ensures RunAgrees(p, raw, k, taxRate, ProfitRun(before.rows + [year.row], year.queue))
  {
    var n := |before.rows| + 1;
    var rows := before.rows + [year.row];
    assert rows[..n - 1] == before.rows;
    assert BeforeTaxColumn(rows)[..n - 1] == BeforeTaxColumn(before.rows);
    PriorRowsAgree(p, raw, k, taxRate, before.rows, rows);
    assert RowAgrees(p, raw, k, taxRate, rows, n - 1);
  }

  /** Extending a run by one row leaves what the earlier rows say unchanged. */
  lemma PriorRowsAgree(p: Period, raw: seq<real>, k: int, taxRate: real, before: seq<ProfitRow>, rows: seq<ProfitRow>)
    requires |before| < |rows| <= |raw| && rows[..|before|] == before
    requires forall i :: 0 <= i < |before| ==> RowAgrees(p, raw, k, taxRate, before, i)
    ensures forall i :: 0 <= i < |before| ==> RowAgrees(p, raw, k, taxRate, rows, i)
  {
    forall i | 0 <= i < |before|
      ensures RowAgrees(p, raw, k, taxRate, rows, i)
    {
      assert rows[..i] == before[..i];
      RowAgreesOnSamePrefix(p, raw, k, taxRate, before, rows, i);
    }
  }

  /** Whether row `i` agrees depends only on the rows up to and including it. */
  lemma RowAgreesOnSamePrefix(p: Period, raw: seq<real>, k: int, taxRate: real,
                              a: seq<ProfitRow>, b: seq<ProfitRow>, i: nat)
    requires i < |a| && i < |b| && i < |raw|
    requires a[..i] == b[..i] && a[i] == b[i]
    ensures RowAgrees(p, raw, k, taxRate, a, i) == RowAgrees(p, raw, k, taxRate, b, i)
  {
  }

  /**
   * The taxable base of an operation year lies between zero and its profit
   * before tax; a loss year has none, and its income tax is zero.
   */
  lemma TaxableBaseWithinProfit(p: Period, raw: seq<real>, k: int, taxRate: real, rows: seq<ProfitRow>, i: nat)
    requires i < |rows| && i < |raw| && RowAgrees(p, raw, k, taxRate, rows, i)
    requires p.IsOperationYear(i + 1)
    ensures rows[i].beforeTax < 0.0 ==> rows[i].taxable == 0.0 && rows[i].incomeTax == 0.0
    ensures rows[i].beforeTax >= 0.0 ==> 0.0 <= rows[i].taxable <= rows[i].beforeTax
  {
    var q := Carried(BeforeTaxColumn(rows[..i]), k);
    CarriedWellFormed(BeforeTaxColumn(rows[..i]), k);
    if rows[i].beforeTax >= 0.0 {
      ProfitYearConserves(q, k, rows[i].beforeTax);
    }
  }

  /**
   * With a rate that is not negative, the income tax is not negative and is
   * at most what the year would owe with no losses carried: offsetting never
   * raises it.
   */
  lemma IncomeTaxBounded(p: Period, raw: seq<real>, k: int, taxRate: real, rows: seq<ProfitRow>, i: nat)
    requires i < |rows| && i < |raw| && RowAgrees(p, raw, k, taxRate, rows, i)
    requires taxRate >= 0.0
    ensures 0.0 <= rows[i].incomeTax
    ensures var whole := IncomeTax(rows[i].beforeTax, rows[i].beforeTax, taxRate);
      whole.Success? ==> rows[i].incomeTax <= whole.value
  {
    var row := rows[i];
    if !p.IsOperationYear(i + 1) {
      assert row == IdleRow;
      IdleRowOwesNothing(taxRate);
    } else {
      TaxableBaseWithinProfit(p, raw, k, taxRate, rows, i);
      if row.beforeTax >= 0.0 {
        OffsetTaxBounded(row.beforeTax, row.taxable, taxRate, row.incomeTax);
      }
    }
  }

  /** A zero profit owes no tax. */
  lemma IdleRowOwesNothing(taxRate: real)
    ensures IncomeTax(0.0, 0.0, taxRate) == Success(0.0)
  {
    ZeroIsCents();
    assert 0.0 * taxRate == 0.0;
  }

  /**
   * The tax on what the offset leaves of a profit is between zero and the
   * tax on all of it, when that fits.
   */
  lemma OffsetTaxBounded(pbt: real, taxable: real, taxRate: real, tax: real)
    requires 0.0 <= taxable <= pbt && taxRate >= 0.0
    requires IncomeTax(pbt, taxable, taxRate) == Success(tax)
    ensures 0.0 <= tax <= Round2(pbt * taxRate)
    ensures IncomeTax(pbt, pbt, taxRate).Success? ==> tax <= IncomeTax(pbt, pbt, taxRate).value
  {
    TaxOnPartOfProfit(pbt, taxable, taxRate);
  }

  /** The tax on part of a profit is between zero and the tax on all of it. */
  lemma TaxOnPartOfProfit(pbt: real, taxable: real, taxRate: real)
    requires 0.0 <= taxable <= pbt && taxRate >= 0.0
    ensures 0.0 <= Round2(taxable * taxRate) <= Round2(pbt * taxRate)
  {
    ZeroIsCents();
    assert (pbt - taxable) * taxRate >= 0.0;
    assert 0.0 <= taxable * taxRate <= pbt * taxRate;
    Round2Monotone(0.0, taxable * taxRate);
    Round2Monotone(taxable * taxRate, pbt * taxRate);
  }

  /** The queue a run leaves holds at most `k` losses, all positive. */
  lemma RunQueueWellFormed(p: Period, raw: seq<real>, k: int, taxRate: real, reserveRate: real, n: nat)
    requires n <= |raw| && ProfitRows(p, raw, k, taxRate, reserveRate, n).Success?
    ensures WellFormed(ProfitRows(p, raw, k, taxRate, reserveRate, n).value.queue, k)
  {
    CarriedWellFormed(BeforeTaxColumn(ProfitRows(p, raw, k, taxRate, reserveRate, n).value.rows), k);
  }

  /** The unrounded profit of year index `i`, from the arrays the earlier stages wrote. */
  function PretaxSum(m: Model, i: nat): real
    requires m.Shaped() && i < m.period.Total()
  {
    var res := m.results;
    res.annualRevenue[i] + Get(m.tax.subsidyIncome, i + 1) - res.annualCost[i] - res.annualDepreciation[i]
    - res.annualAmortization[i] - res.annualCityMaintenanceTax[i] - res.annualEducationSurtax[i]
  }

  function PretaxSums(m: Model): (s: seq<real>)
    requires m.Shaped()
    ensures |s| == m.period.Total() && forall i :: 0 <= i < |s| ==> s[i] == PretaxSum(m, i)
  {
    seq(m.period.Total(), i requires 0 <= i < m.period.Total() => PretaxSum(m, i))
  }

  /** The run of the profit calculator over the whole horizon of `m`. */
  function ProfitRunOf(m: Model): Result<ProfitRun>
    requires m.Shaped()
  {
    ProfitRows(m.period, PretaxSums(m), m.parameters.lossOffsetYears, m.tax.incomeTaxRate,
               m.parameters.surplusReserveRate, m.period.Total())
  }

  /**
   * ProfitCalculator: writes the profit-before-tax, income-tax and
   * profit-after-tax arrays from the run; nothing else changes.
   */
  function Profit(m: Model): (r: Result<Model>)
    requires m.Shaped()
    ensures r.Success? <==> ProfitRunOf(m).Success?
    ensures r.Failure? ==> r.fault == PrecisionOverflow
    ensures r.Success? ==>
              var rows := ProfitRunOf(m).value.rows;
              var res := r.value.results;
              && r.value.Shaped()
              && r.value == m.(results := m.results.(annualProfitBeforeTax := res.annualProfitBeforeTax,
                                                     annualIncomeTax := res.annualIncomeTax,
                                                     annualProfitAfterTax := res.annualProfitAfterTax))
              && forall i :: 0 <= i < m.period.Total() ==>
                   && res.annualProfitBeforeTax[i] == rows[i].beforeTax
                   && res.annualIncomeTax[i] == rows[i].incomeTax
                   && res.annualProfitAfterTax[i] == rows[i].afterTax
  {
    var run :- ProfitRunOf(m);
    var rows := run.rows;
    var n := m.period.Total();
    var pbt := seq(n, i requires 0 <= i < n => rows[i].beforeTax);
    var tax := seq(n, i requires 0 <= i < n => rows[i].incomeTax);
    var pat := seq(n, i requires 0 <= i < n => rows[i].afterTax);
    Success(m.(results := m.results.(annualProfitBeforeTax := pbt, annualIncomeTax := tax, annualProfitAfterTax := pat)))
  }

  /** A construction year's three profit entries are zero after the calculator runs. */
  lemma ConstructionYearsHaveNoProfit(m: Model, after: Model, i: nat)
    requires m.Shaped() && Profit(m) == Success(after)
    requires i < m.period.Total() && m.period.IsConstructionYear(i + 1)
    ensures after.results.annualProfitBeforeTax[i] == 0.0
    ensures after.results.annualIncomeTax[i] == 0.0
    ensures after.results.annualProfitAfterTax[i] == 0.0
  {
    var rows := ProfitRunOf(m).value.rows;
    assert RowAgrees(m.period, PretaxSums(m), m.parameters.lossOffsetYears, m.tax.incomeTaxRate, rows, i);
  }

  /**
   * An operation year's stored profit before tax is the rounded sum of the
   * year's revenue and subsidy less its cost, depreciation, amortization and
   * surcharges, and the profit after tax subtracts the stored income tax from
   * it, not from what the loss offset leaves.
   */
  lemma OperationYearProfit(m: Model, after: Model, i: nat)
    requires m.Shaped() && Profit(m) == Success(after)
    requires i < m.period.Total() && m.period.IsOperationYear(i + 1)
    ensures after.results.annualProfitBeforeTax[i] == Round2(PretaxSum(m, i))
    ensures after.results.annualProfitAfterTax[i]
            == Round2(after.results.annualProfitBeforeTax[i] - after.results.annualIncomeTax[i])
    ensures after.results.annualProfitBeforeTax[i] < 0.0 ==> after.results.annualIncomeTax[i] == 0.0
  {
    var row := ProfitRunOf(m).value.rows[i];
    OperationRow(m, i);
    assert after.results.annualProfitBeforeTax[i] == row.beforeTax;
    assert after.results.annualIncomeTax[i] == row.incomeTax;
    assert after.results.annualProfitAfterTax[i] == row.afterTax;
  }

  /** `OperationYearProfit` for the row of the run itself. */
  lemma OperationRow(m: Model, i: nat)
    requires m.Shaped() && ProfitRunOf(m).Success?
    requires i < m.period.Total() && m.period.IsOperationYear(i + 1)
    ensures i < |ProfitRunOf(m).value.rows|
    ensures var row := ProfitRunOf(m).value.rows[i];
      && row.beforeTax == Round2(PretaxSum(m, i))
      && row.afterTax == Round2(row.beforeTax - row.incomeTax)
      && (row.beforeTax < 0.0 ==> row.incomeTax == 0.0)
  {
    var rows := ProfitRunOf(m).value.rows;
    var raw := PretaxSums(m);
    assert RowAgrees(m.period, raw, m.parameters.lossOffsetYears, m.tax.incomeTaxRate, rows, i);
    TaxableBaseWithinProfit(m.period, raw, m.parameters.lossOffsetYears, m.tax.incomeTaxRate, rows, i);
  }

  // ---------------------------------------------------------------------
  // The module
  // ---------------------------------------------------------------------

  /**
   * `RevenueModule.calculate_all`: revenue and output VAT, then profit,
   * stopping at the first failure. The profit stage reads the revenue the
   * first stage has just written.
   */
  function CalculateAll(m: Model): (r: Result<Model>)
    requires m.Shaped()
    ensures r.Success? ==> RevenueTax(m).Success? && Profit(RevenueTax(m).value) == r
    ensures RevenueTax(m).Failure? ==> r == Failure(PrecisionOverflow)
    ensures r.Failure? ==> r.fault == PrecisionOverflow
    ensures r.Success? ==>
              var res := r.value.results;
              && r.value.Shaped()
              && r.value == m.(results := m.results.(annualRevenue := res.annualRevenue,
                                                     annualVatOutput := res.annualVatOutput,
                                                     annualProfitBeforeTax := res.annualProfitBeforeTax,
                                                     annualIncomeTax := res.annualIncomeTax,
                                                     annualProfitAfterTax := res.annualProfitAfterTax))
              && res.annualRevenue == RevenueTable(m.period, m.revenue).value
              && res.annualVatOutput == VatTable(m.period, m.revenue).value
  {
    var priced :- RevenueTax(m);
    Profit(priced)
  }

  /**
   * The unrounded profit of an operation year computed from the inputs: the
   * six revenue streams added and rounded, plus the subsidy, less the cost,
   * depreciation, amortization and surcharges the earlier modules left.
   */
  function StreamPretax(m: Model, i: nat): real
    requires m.Shaped() && i < m.period.Total()
  {
    var res := m.results;
    Round2(m.revenue.StreamSum(i + 1)) + Get(m.tax.subsidyIncome, i + 1)
    - res.annualCost[i] - res.annualDepreciation[i] - res.annualAmortization[i]
    - res.annualCityMaintenanceTax[i] - res.annualEducationSurtax[i]
  }

  /**
   * After the module runs, an operation year's profit before tax is computed
   * from the revenue of the same run, not from an annual revenue stored by
   * an earlier run.
   */
  lemma ProfitReadsThisRunsRevenue(m: Model, after: Model, i: nat)
    requires m.Shaped() && CalculateAll(m) == Success(after)
    requires i < m.period.Total() && m.period.IsOperationYear(i + 1)
    ensures after.results.annualProfitBeforeTax[i] == Round2(StreamPretax(m, i))
  {
    OperationYearProfit(RevenueTax(m).value, after, i);
    PricedPretaxSum(m, i);
  }

  /** Once the revenue is priced, a year's unrounded profit starts from this run's rounded revenue. */
  lemma PricedPretaxSum(m: Model, i: nat)
    requires m.Shaped() && RevenueTax(m).Success?
    requires i < m.period.Total() && m.period.IsOperationYear(i + 1)
    ensures PretaxSum(RevenueTax(m).value, i) == StreamPretax(m, i)
  {
    var priced := RevenueTax(m).value;
    assert priced.results.annualRevenue[i] == Round2(m.revenue.StreamSum(i + 1));
  }

  /** What `get_revenue_summary` reports: the six streams per year, the revenue and the output VAT. */
  datatype RevenueSummary = RevenueSummary(
    factoryBuilding: seq<real>,
    supportingFacility: seq<real>,
    propertyService: seq<real>,
    parking: seq<real>,
    advertising: seq<real>,
    assetSale: seq<real>,
    totalRevenue: seq<real>,
    vatOutput: seq<real>)

  /** `get_revenue_summary`: each stream read for years 1..total, absent years as zero, next to the stored arrays. */
  function GetRevenueSummary(m: Model): (r: RevenueSummary)
    ensures |r.factoryBuilding| == |r.supportingFacility| == |r.propertyService| == m.period.Total()
    ensures |r.parking| == |r.advertising| == |r.assetSale| == m.period.Total()
    ensures forall i :: 0 <= i < m.period.Total() ==>
              && r.factoryBuilding[i] == Get(m.revenue.factoryBuilding, i + 1)
              && r.supportingFacility[i] == Get(m.revenue.supportingFacility, i + 1)
              && r.propertyService[i] == Get(m.revenue.propertyService, i + 1)
              && r.parking[i] == Get(m.revenue.parking, i + 1)
              && r.advertising[i] == Get(m.revenue.advertising, i + 1)
              && r.assetSale[i] == Get(m.revenue.assetSale, i + 1)
    ensures r.totalRevenue == m.results.annualRevenue && r.vatOutput == m.results.annualVatOutput
  {
    var n := m.period.Total();
    RevenueSummary(YearColumn(m.revenue.factoryBuilding, n), YearColumn(m.revenue.supportingFacility, n),
                   YearColumn(m.revenue.propertyService, n), YearColumn(m.revenue.parking, n),
                   YearColumn(m.revenue.advertising, n), YearColumn(m.revenue.assetSale, n),
                   m.results.annualRevenue, m.results.annualVatOutput)
  }

  /**
   * After the module runs, the summary's revenue column is, year by year,
   * its six stream columns added up and rounded in operation years, and zero
   * in construction years.
   */
  lemma RevenueSummaryAfterRun(m: Model, after: Model)
    requires m.Shaped() && CalculateAll(m) == Success(after)
    ensures var s := GetRevenueSummary(after);
      forall i :: 0 <= i < m.period.Total() ==>
        s.totalRevenue[i]
        == if m.period.IsOperationYear(i + 1)
           then Round2(s.factoryBuilding[i] + s.supportingFacility[i] + s.propertyService[i]
                       + s.parking[i] + s.advertising[i] + s.assetSale[i])
           else 0.0
  {
    assert after.period == m.period && after.revenue == m.revenue;
    assert after.results.annualRevenue == RevenueTable(m.period, m.revenue).value;
    SummaryOfRevenue(after);
  }

  /** The summary of a ledger whose revenue array holds the rounded stream totals. */
  lemma SummaryOfRevenue(after: Model)
    requires RevenueTable(after.period, after.revenue).Success?
    requires after.results.annualRevenue == RevenueTable(after.period, after.revenue).value
    ensures var s := GetRevenueSummary(after);
      forall i :: 0 <= i < after.period.Total() ==>
        s.totalRevenue[i]
        == if after.period.IsOperationYear(i + 1)
           then Round2(s.factoryBuilding[i] + s.supportingFacility[i] + s.propertyService[i]
                       + s.parking[i] + s.advertising[i] + s.assetSale[i])
           else 0.0
  {
  }
}
