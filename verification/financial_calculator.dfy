/**
 * The rest of the older engine (financial_calculator.py:287-527): its profit
 * calculator, cash-flow calculator and indicators calculator, and
 * `FinancialCalculator.calculate_all`, which runs all eight stages in order.
 * Each stage is related to its live counterpart.
 */
module FinancialCalculator {
  import opened Wrappers
  import opened Money
  import opened Periods
  import opened YearTables
  import opened Ledger
  import opened LossCarryforward
  import opened Discounting
  import opened Indicators
  import opened CalculatorStages
  import Live = RevenueModule
  import Statement = ComprehensiveModule

  // ---------------------------------------------------------------------
  // Profit (ProfitCalculator)
  // ---------------------------------------------------------------------

  /**
   * The profit the older engine subtracts the income tax from: what the loss
   * offset leaves in a profitable year, the loss itself in a loss year.
   */
  function KeptProfit(pbt: real, taxable: real): real {
    if pbt >= 0.0 then taxable else pbt
  }

  /**
   * One operation year of the older profit calculator, whose unrounded
   * profit is `raw`, with the queue `q` of carried losses: the older offset
   * loop, the income tax on what it leaves, and the profit after tax taken
   * from what it leaves too.
   */
  function VariantOperationYear(q: seq<real>, k: int, raw: real, taxRate: real): (r: Result<Live.YearOutcome>)
    ensures !Fits(raw) ==> r.Failure?
    ensures r.Failure? ==> r.fault == PrecisionOverflow
    ensures r.Success? ==>
              var pbt := Round2(raw);
              var c := VariantStep(q, k, pbt);
              && r.value.row.beforeTax == pbt
              && r.value.row.taxable == c.taxable
              && r.value.queue == c.queue
              && Live.IncomeTax(pbt, c.taxable, taxRate) == Success(r.value.row.incomeTax)
              && r.value.row.afterTax == Round2(KeptProfit(pbt, c.taxable) - r.value.row.incomeTax)
  {
    var pbt :- Round(raw);
    var c := VariantStep(q, k, pbt);
    var tax := Live.IncomeTax(pbt, c.taxable, taxRate);
    if tax.Failure? then Failure(PrecisionOverflow)
    else
      var pat := Round(KeptProfit(pbt, c.taxable) - tax.value);
      if pat.Failure? then Failure(PrecisionOverflow)
      else Success(Live.YearOutcome(Live.ProfitRow(pbt, c.taxable, tax.value, pat.value), c.queue))
  }

  /**
   * What a row of the older profit table says: as for the live table, with
   * the offset made by the live carry-forward step, except that the profit
   * after tax is taken from the profit the offset leaves.
   */
  ghost predicate VariantRowAgrees(p: Period, raw: seq<real>, k: int, taxRate: real, rows: seq<Live.ProfitRow>, i: nat)
    requires i < |rows| && i < |raw|
  {
    if !p.IsOperationYear(i + 1) then rows[i] == Live.IdleRow
    else
      var pbt := rows[i].beforeTax;
      var c := Step(Carried(Live.BeforeTaxColumn(rows[..i]), k), k, pbt);
      && pbt == Round2(raw[i])
      && rows[i].taxable == c.taxable
      && Live.IncomeTax(pbt, c.taxable, taxRate) == Success(rows[i].incomeTax)
      && rows[i].afterTax == Round2(KeptProfit(pbt, c.taxable) - rows[i].incomeTax)
  }

  ghost predicate VariantRunAgrees(p: Period, raw: seq<real>, k: int, taxRate: real, run: Live.ProfitRun)
    requires |run.rows| <= |raw|
  {
    && run.queue == Carried(Live.BeforeTaxColumn(run.rows), k)
    && forall i :: 0 <= i < |run.rows| ==> VariantRowAgrees(p, raw, k, taxRate, run.rows, i)
  }

  /** The older profit table for the first `n` years whose unrounded profits are `raw`. */
  function VariantProfitRows(p: Period, raw: seq<real>, k: int, taxRate: real, n: nat): (r: Result<Live.ProfitRun>)
    requires n <= |raw|
    ensures r.Failure? ==> r.fault == PrecisionOverflow
    ensures r.Success? ==> |r.value.rows| == n && VariantRunAgrees(p, raw, k, taxRate, r.value)
    ensures (exists i :: 0 <= i < n && p.IsOperationYear(i + 1) && !Fits(raw[i])) ==> r.Failure?
  {
    if n == 0 then Success(Live.ProfitRun([], []))
    else
      var before :- VariantProfitRows(p, raw, k, taxRate, n - 1);
      if !p.IsOperationYear(n) then
        VariantIdleYearExtends(p, raw, k, taxRate, before);
        Success(Live.ProfitRun(before.rows + [Live.IdleRow], before.queue))
      else
        var year :- VariantOperationYear(before.queue, k, raw[n - 1], taxRate);
        VariantOperationYearExtends(p, raw, k, taxRate, before, year);
        Success(Live.ProfitRun(before.rows + [year.row], year.queue))
  }

  /** A construction year adds an idle row and keeps the queue. */
  lemma VariantIdleYearExtends(p: Period, raw: seq<real>, k: int, taxRate: real, before: Live.ProfitRun)
    requires |before.rows| < |raw| && !p.IsOperationYear(|before.rows| + 1)
    requires VariantRunAgrees(p, raw, k, taxRate, before)
    ensures VariantRunAgrees(p, raw, k, taxRate, Live.ProfitRun(before.rows + [Live.IdleRow], before.queue))
  {
    var n := |before.rows| + 1;
    var rows := before.rows + [Live.IdleRow];
    assert rows[..n - 1] == before.rows;
    assert Live.BeforeTaxColumn(rows)[..n - 1] == Live.BeforeTaxColumn(before.rows);
    CarriedWellFormed(Live.BeforeTaxColumn(before.rows), k);
    BreakEvenYearKeepsQueue(before.queue, k);
    VariantPriorRowsAgree(p, raw, k, taxRate, before.rows, rows);
    assert VariantRowAgrees(p, raw, k, taxRate, rows, n - 1);
  }

  /**
   * An operation year adds the row the older step computed; on the
   * well-formed queue a run carries, the older offset loop is the live one.
   */
  lemma VariantOperationYearExtends(p: Period, raw: seq<real>, k: int, taxRate: real, before: Live.ProfitRun,
                                    year: Live.YearOutcome)
    requires |before.rows| < |raw| && p.IsOperationYear(|before.rows| + 1)
    requires VariantRunAgrees(p, raw, k, taxRate, before)
    requires var pbt := Round2(raw[|before.rows|]);
      var c := VariantStep(before.queue, k, pbt);
      && year.row.beforeTax == pbt
      && year.row.taxable == c.taxable
      && year.queue == c.queue
      && Live.IncomeTax(pbt, c.taxable, taxRate) == Success(year.row.incomeTax)
      && year.row.afterTax == Round2(KeptProfit(pbt, c.taxable) - year.row.incomeTax)
    ensures VariantRunAgrees(p, raw, k, taxRate, Live.ProfitRun(before.rows + [year.row], year.queue))
  {
    var n := |before.rows| + 1;
    var rows := before.rows + [year.row];
    CarriedWellFormed(Live.BeforeTaxColumn(before.rows), k);
    VariantStepAgrees(before.queue, k, year.row.beforeTax);
    assert rows[..n - 1] == before.rows;
    assert Live.BeforeTaxColumn(rows)[..n - 1] == Live.BeforeTaxColumn(before.rows);
    VariantPriorRowsAgree(p, raw, k, taxRate, before.rows, rows);
    assert VariantRowAgrees(p, raw, k, taxRate, rows, n - 1);
  }

  /** Extending a run by one row leaves what the earlier rows say unchanged. */
  lemma VariantPriorRowsAgree(p: Period, raw: seq<real>, k: int, taxRate: real,
                              before: seq<Live.ProfitRow>, rows: seq<Live.ProfitRow>)
    requires |before| < |rows| <= |raw| && rows[..|before|] == before
    requires forall i :: 0 <= i < |before| ==> VariantRowAgrees(p, raw, k, taxRate, before, i)
    ensures forall i :: 0 <= i < |before| ==> VariantRowAgrees(p, raw, k, taxRate, rows, i)
  {
    forall i | 0 <= i < |before|
      ensures VariantRowAgrees(p, raw, k, taxRate, rows, i)
    {
      assert VariantRowAgrees(p, raw, k, taxRate, before, i);
      assert rows[..i] == before[..i];
      assert rows[i] == before[i];
    }
  }

  /** The column of profits before tax both tables hold: the rounded profit in operation years, zero otherwise. */
  lemma BeforeTaxColumnsAgree(p: Period, raw: seq<real>, k: int, taxRate: real,
                              live: seq<Live.ProfitRow>, older: seq<Live.ProfitRow>)
    requires |live| == |older| <= |raw|
    requires forall i :: 0 <= i < |live| ==> Live.RowAgrees(p, raw, k, taxRate, live, i)
    requires forall i :: 0 <= i < |older| ==> VariantRowAgrees(p, raw, k, taxRate, older, i)
    ensures Live.BeforeTaxColumn(live) == Live.BeforeTaxColumn(older)
  {
    forall i | 0 <= i < |live|
      ensures live[i].beforeTax == older[i].beforeTax
    {
      assert Live.RowAgrees(p, raw, k, taxRate, live, i);
      assert VariantRowAgrees(p, raw, k, taxRate, older, i);
    }
  }

  /**
   * On the same unrounded profits, the older table agrees with the live one
   * on the profit before tax, the taxable base and the income tax; its
   * profit after tax is never larger, and is the same in every year no loss
   * is offset.
   */
  lemma VariantProfitMatchesLive(p: Period, raw: seq<real>, k: int, taxRate: real, reserveRate: real, n: nat)
    requires n <= |raw|
    requires Live.ProfitRows(p, raw, k, taxRate, reserveRate, n).Success?
    requires VariantProfitRows(p, raw, k, taxRate, n).Success?
    ensures var live, older := Live.ProfitRows(p, raw, k, taxRate, reserveRate, n).value.rows,
                               VariantProfitRows(p, raw, k, taxRate, n).value.rows;
      forall i :: 0 <= i < n ==>
        && older[i].beforeTax == live[i].beforeTax
        && older[i].taxable == live[i].taxable
        && older[i].incomeTax == live[i].incomeTax
        && older[i].afterTax <= live[i].afterTax
        && (older[i].taxable == older[i].beforeTax ==> older[i].afterTax == live[i].afterTax)
  {
    var live := Live.ProfitRows(p, raw, k, taxRate, reserveRate, n).value.rows;
    var older := VariantProfitRows(p, raw, k, taxRate, n).value.rows;
    forall i | 0 <= i < n
      ensures older[i].beforeTax == live[i].beforeTax && older[i].taxable == live[i].taxable
      ensures older[i].incomeTax == live[i].incomeTax && older[i].afterTax <= live[i].afterTax
      ensures older[i].taxable == older[i].beforeTax ==> older[i].afterTax == live[i].afterTax
    {
      RowsMatch(p, raw, k, taxRate, live, older, i);
    }
  }

  /** One row of `VariantProfitMatchesLive`. */
  lemma RowsMatch(p: Period, raw: seq<real>, k: int, taxRate: real,
                  live: seq<Live.ProfitRow>, older: seq<Live.ProfitRow>, i: nat)
    requires i < |live| == |older| <= |raw|
    requires forall j :: 0 <= j < |live| ==> Live.RowAgrees(p, raw, k, taxRate, live, j)
    requires forall j :: 0 <= j < |older| ==> VariantRowAgrees(p, raw, k, taxRate, older, j)
    ensures older[i].beforeTax == live[i].beforeTax && older[i].taxable == live[i].taxable
    ensures older[i].incomeTax == live[i].incomeTax && older[i].afterTax <= live[i].afterTax
    ensures older[i].taxable == older[i].beforeTax ==> older[i].afterTax == live[i].afterTax
  {
    BeforeTaxColumnsAgree(p, raw, k, taxRate, live, older);
    Live.BeforeTaxColumnPrefix(live, i);
    Live.BeforeTaxColumnPrefix(older, i);
    assert Live.BeforeTaxColumn(live[..i]) == Live.BeforeTaxColumn(older[..i]);
    assert Live.RowAgrees(p, raw, k, taxRate, live, i);
    assert VariantRowAgrees(p, raw, k, taxRate, older, i);
    if p.IsOperationYear(i + 1) {
      Live.TaxableBaseWithinProfit(p, raw, k, taxRate, live, i);
      var pbt, tax := live[i].beforeTax, live[i].incomeTax;
      Round2Monotone(KeptProfit(pbt, live[i].taxable) - tax, pbt - tax);
    }
  }

  /**
   * Where the two rules part: a profit that absorbs a single carried loss,
   * at a zero tax rate, is reported whole after tax by the live engine and
   * less the loss by the older one (a profit of 150 against a loss of 100:
   * 150 against 50).
   */
  lemma AfterTaxProfitsPart(loss: real, profit: real, k: int)
    requires k >= 1 && 0.0 < loss <= profit && IsCents(loss) && IsCents(profit) && Fits(profit)
    ensures Live.OperationYear([loss], k, profit, 0.0, 0.0)
            == Success(Live.YearOutcome(Live.ProfitRow(profit, profit - loss, 0.0, profit), []))
    ensures VariantOperationYear([loss], k, profit, 0.0)
            == Success(Live.YearOutcome(Live.ProfitRow(profit, profit - loss, 0.0, profit - loss), []))
  {
    CentsClosed(profit, loss);
    SingleLossAbsorbed(loss, profit, k);
    UntaxedLiveYear([loss], k, profit, Carry(profit - loss, []));
    UntaxedVariantYear([loss], k, profit, Carry(profit - loss, []));
  }

  /** A single loss no larger than the profit is cleared by both loops, leaving the rest taxable. */
  lemma SingleLossAbsorbed(loss: real, profit: real, k: int)
    requires k >= 1 && 0.0 < loss <= profit
    ensures Step([loss], k, profit) == Carry(profit - loss, [])
    ensures VariantStep([loss], k, profit) == Carry(profit - loss, [])
  {
    var q := [loss];
    assert SliceEnd(1, k) == 1;
    assert q[..1] == q && q[1..] == [];
    assert OffsetLosses(q, profit) == Offset(profit - loss, [0.0]) by {
      assert q[1..] == [];
    }
    assert KeepPositive([0.0] + []) == [] by {
      assert [0.0] + [] == [0.0];
      assert [0.0][..0] == [];
    }
    VariantStepAgrees(q, k, profit);
  }

  /** At zero tax and reserve rates the live engine keeps a profit in cents whole after tax. */
  lemma UntaxedLiveYear(q: seq<real>, k: int, pbt: real, c: Carry)
    requires Step(q, k, pbt) == c
    requires IsCents(pbt) && Fits(pbt) && pbt >= 0.0
    ensures Live.OperationYear(q, k, pbt, 0.0, 0.0)
            == Success(Live.YearOutcome(Live.ProfitRow(pbt, c.taxable, 0.0, pbt), c.queue))
  {
    ZeroIsCents();
    Round2OfCents(pbt);
    assert c.taxable * 0.0 == 0.0 && pbt * 0.0 == 0.0;
    assert Live.IncomeTax(pbt, c.taxable, 0.0) == Success(0.0);
    assert pbt - 0.0 == pbt;
    assert Live.Distributable(pbt, 0.0) == Success(pbt);
    assert Live.TaxYear(c, pbt, 0.0, 0.0) == Success(Live.YearOutcome(Live.ProfitRow(pbt, c.taxable, 0.0, pbt), c.queue));
  }

  /** At a zero tax rate the older calculator keeps, after tax, the profit its offset leaves. */
  lemma UntaxedVariantYear(q: seq<real>, k: int, pbt: real, c: Carry)
    requires VariantStep(q, k, pbt) == c
    requires IsCents(pbt) && Fits(pbt) && IsCents(c.taxable) && 0.0 <= c.taxable <= pbt
    ensures VariantOperationYear(q, k, pbt, 0.0)
            == Success(Live.YearOutcome(Live.ProfitRow(pbt, c.taxable, 0.0, c.taxable), c.queue))
  {
    ZeroIsCents();
    Round2OfCents(pbt);
    Round2OfCents(c.taxable);
    assert c.taxable * 0.0 == 0.0;
    assert Live.IncomeTax(pbt, c.taxable, 0.0) == Success(0.0);
    assert c.taxable - 0.0 == c.taxable;
  }

  /** The older profit calculator's unrounded profit: no subsidy is added. */
  function VariantPretaxSum(m: Model, i: nat): real
    requires m.Shaped() && i < m.period.Total()
  {
    var res := m.results;
    res.annualRevenue[i] - res.annualCost[i] - res.annualDepreciation[i] - res.annualAmortization[i]
    - res.annualCityMaintenanceTax[i] - res.annualEducationSurtax[i]
  }

  function VariantPretaxSums(m: Model): (s: seq<real>)
    requires m.Shaped()
    ensures |s| == m.period.Total() && forall i :: 0 <= i < |s| ==> s[i] == VariantPretaxSum(m, i)
  {
    seq(m.period.Total(), i requires 0 <= i < m.period.Total() => VariantPretaxSum(m, i))
  }

  function VariantProfitRunOf(m: Model): Result<Live.ProfitRun>
    requires m.Shaped()
  {
    VariantProfitRows(m.period, VariantPretaxSums(m), m.parameters.lossOffsetYears, m.tax.incomeTaxRate,
                      m.period.Total())
  }

  /**
   * ProfitCalculator of the older engine: writes the profit-before-tax,
   * income-tax and profit-after-tax arrays from its run; nothing else changes.
   */
  function ProfitStage(m: Model): (r: Result<Model>)
    requires m.Shaped()
    ensures r.Success? <==> VariantProfitRunOf(m).Success?
    ensures r.Failure? ==> r.fault == PrecisionOverflow
    ensures r.Success? ==>
              var rows := VariantProfitRunOf(m).value.rows;
              var res := r.value.results;
              && r.value.Shaped()
              && r.value == m.(results := m.results.(annualProfitBeforeTax := res.annualProfitBeforeTax,
                                                     annualIncomeTax := res.annualIncomeTax,
                                                     annualProfitAfterTax := res.annualProfitAfterTax))
              && forall i :: 0 <= i < m.period.Total() ==>
                   && res.annualProfitBeforeTax[i] == rows[i].beforeTax
                   && res.annualIncomeTax[i] == rows[i].incomeTax
                   && res.annualProfitAfterTax[i] == rows[i].afterTax
  {
    var run :- VariantProfitRunOf(m);
    var rows := run.rows;
    var n := m.period.Total();
    var pbt := seq(n, i requires 0 <= i < n => rows[i].beforeTax);
    var tax := seq(n, i requires 0 <= i < n => rows[i].incomeTax);
    var pat := seq(n, i requires 0 <= i < n => rows[i].afterTax);
    Success(m.(results := m.results.(annualProfitBeforeTax := pbt, annualIncomeTax := tax, annualProfitAfterTax := pat)))
  }

  /**
   * Without subsidy income the two profit calculators see the same profits,
   * so when both succeed they store the same profit before tax and income
   * tax, and the older one never a larger profit after tax.
   */
  lemma ProfitStageMatchesLive(m: Model)
    requires m.Shaped() && ProfitStage(m).Success? && Live.Profit(m).Success?
    requires forall y :: Get(m.tax.subsidyIncome, y) == 0.0
    ensures var older, live := ProfitStage(m).value.results, Live.Profit(m).value.results;
      && older.annualProfitBeforeTax == live.annualProfitBeforeTax
      && older.annualIncomeTax == live.annualIncomeTax
      && forall i :: 0 <= i < m.period.Total() ==> older.annualProfitAfterTax[i] <= live.annualProfitAfterTax[i]
  {
    var raw := VariantPretaxSums(m);
    assert raw == Live.PretaxSums(m) by {
      forall i | 0 <= i < m.period.Total()
        ensures raw[i] == Live.PretaxSums(m)[i]
      {
        assert Get(m.tax.subsidyIncome, i + 1) == 0.0;
      }
    }
    VariantProfitMatchesLive(m.period, raw, m.parameters.lossOffsetYears, m.tax.incomeTaxRate,
                             m.parameters.surplusReserveRate, m.period.Total());
  }

  // ---------------------------------------------------------------------
  // Cash flow (CashFlowCalculator)
  // ---------------------------------------------------------------------

  /**
   * An operation year of the older statement: the outflow takes the whole
   * cost, depreciation and amortization included, plus the taxes and the
   * working capital.
   */
  function VariantOperationFlow(x: Statement.YearInputs): (r: Result<Statement.Flow>)
    ensures r.Failure? ==> r.fault == PrecisionOverflow
    ensures r.Success? <==>
              && Fits(x.revenue + x.assetSale)
              && Fits(x.cost + x.incomeTax + x.cityTax + x.educationSurtax + x.workingCapital)
              && Fits(Round2(x.revenue + x.assetSale)
                      - Round2(x.cost + x.incomeTax + x.cityTax + x.educationSurtax + x.workingCapital))
    ensures r.Success? ==>
              && r.value.inflow == Round2(x.revenue + x.assetSale)
              && r.value.outflow == Round2(x.cost + x.incomeTax + x.cityTax + x.educationSurtax + x.workingCapital)
              && r.value.net == Round2(r.value.inflow - r.value.outflow)
  {
    var inflow :- Round(x.revenue + x.assetSale);
    var outflow :- Round(x.cost + x.incomeTax + x.cityTax + x.educationSurtax + x.workingCapital);
    var net :- Round(inflow - outflow);
    Success(Statement.Flow(inflow, outflow, net))
  }

  /** Every amount of a year's inputs is a whole number of cents. */
  predicate InputsInCents(x: Statement.YearInputs) {
    && IsCents(x.revenue) && IsCents(x.assetSale) && IsCents(x.cost) && IsCents(x.depreciation)
    && IsCents(x.amortization) && IsCents(x.incomeTax) && IsCents(x.cityTax) && IsCents(x.educationSurtax)
    && IsCents(x.workingCapital)
  }

  /**
   * On inputs in cents, the older outflow exceeds the live one by exactly
   * the depreciation and amortization, which are not cash, and the older net
   * flow falls short of the live one by the same amount.
   */
  lemma VariantOutflowCountsCharges(x: Statement.YearInputs)
    requires InputsInCents(x)
    requires VariantOperationFlow(x).Success? && Statement.OperationFlow(x).Success?
    ensures var older, live := VariantOperationFlow(x).value, Statement.OperationFlow(x).value;
      && older.inflow == live.inflow
      && older.outflow == live.outflow + x.depreciation + x.amortization
      && older.net == live.net - x.depreciation - x.amortization
  {
    var older, live := VariantOperationFlow(x).value, Statement.OperationFlow(x).value;
    InputsOutflowGap(x);
    GapGlue(older, live, x.depreciation, x.amortization);
  }

  /** `OutflowGap` on a year's inputs, in the terms both statements round. */
  lemma InputsOutflowGap(x: Statement.YearInputs)
    requires InputsInCents(x)
    ensures Round2(x.cost + x.incomeTax + x.cityTax + x.educationSurtax + x.workingCapital)
            == Round2(Round2(Statement.OperatingCost(x)) + x.incomeTax + x.cityTax + x.educationSurtax + x.workingCapital)
               + x.depreciation + x.amortization
  {
    OutflowGap(x.cost, x.depreciation, x.amortization, x.incomeTax, x.cityTax, x.educationSurtax, x.workingCapital);
  }

  /** Equal inflows and an outflow larger by the two charges: the net falls by them. */
  lemma GapGlue(older: Statement.Flow, live: Statement.Flow, dep: real, amort: real)
    requires older.inflow == live.inflow && older.outflow == live.outflow + dep + amort
    requires older.net == Round2(older.inflow - older.outflow) && live.net == Round2(live.inflow - live.outflow)
    requires IsCents(live.inflow) && IsCents(live.outflow) && IsCents(dep) && IsCents(amort)
    ensures older.net == live.net - dep - amort
  {
    NetGap(live.inflow, live.outflow, dep, amort);
  }

  /** Rounding the operating cost first changes nothing when every amount is in cents. */
  lemma OutflowGap(cost: real, dep: real, amort: real, tax: real, city: real, edu: real, wc: real)
    requires IsCents(cost) && IsCents(dep) && IsCents(amort)
    requires IsCents(tax) && IsCents(city) && IsCents(edu) && IsCents(wc)
    ensures Round2(cost + tax + city + edu + wc) == Round2(Round2(cost - dep - amort) + tax + city + edu + wc) + dep + amort
  {
    CentsClosed(cost, dep);
    CentsClosed(cost - dep, amort);
    Round2OfCents(cost - dep - amort);
    var rest := tax + city + edu + wc;
    CentsClosed(tax, city);
    CentsClosed(tax + city, edu);
    CentsClosed(tax + city + edu, wc);
    CentsClosed(cost, rest);
    CentsClosed(cost - dep - amort, rest);
    assert cost + tax + city + edu + wc == cost + rest;
    assert (cost - dep - amort) + tax + city + edu + wc == (cost - dep - amort) + rest;
    Round2OfCents(cost + rest);
    Round2OfCents(cost - dep - amort + rest);
  }

  /** The net flow falls by exactly what the outflow gains, on cent amounts. */
  lemma NetGap(inflow: real, outflow: real, dep: real, amort: real)
    requires IsCents(inflow) && IsCents(outflow) && IsCents(dep) && IsCents(amort)
    ensures Round2(inflow - (outflow + dep + amort)) == Round2(inflow - outflow) - dep - amort
  {
    CentsClosed(inflow, outflow);
    CentsClosed(inflow - outflow, dep);
    CentsClosed(inflow - outflow - dep, amort);
    assert inflow - (outflow + dep + amort) == inflow - outflow - dep - amort;
    Round2OfCents(inflow - outflow);
    Round2OfCents(inflow - outflow - dep - amort);
  }

  /** The older cash flow of year index `i`. */
  function VariantYearFlow(m: Model, i: nat): (r: Result<Statement.Flow>)
    requires m.Shaped() && i < m.period.Total()
  {
    if m.period.IsConstructionYear(i + 1) then Statement.ConstructionFlow(m.results.fixedAssetsInvestment[i])
    else VariantOperationFlow(Statement.InputsOf(m, i))
  }

  function VariantFlowTable(m: Model): (r: Result<seq<Statement.Flow>>)
    requires m.Shaped()
    ensures r.Success? <==> forall i :: 0 <= i < m.period.Total() ==> VariantYearFlow(m, i).Success?
    ensures r.Failure? ==> r.fault == PrecisionOverflow
    ensures r.Success? ==>
              && |r.value| == m.period.Total()
              && forall i :: 0 <= i < m.period.Total() ==> VariantYearFlow(m, i) == Success(r.value[i])
  {
    var f := (i: nat) => if i < m.period.Total() then VariantYearFlow(m, i) else Success(Statement.Flow(0.0, 0.0, 0.0));
    var r := Tabulate(m.period.Total(), f);
    assert forall i :: 0 <= i < m.period.Total() ==> f(i) == VariantYearFlow(m, i);
    r
  }

  /**
   * CashFlowCalculator: writes the inflow, outflow, net and cumulative
   * arrays; nothing else changes.
   */
  function CashFlowStage(m: Model): (r: Result<Model>)
    requires m.Shaped()
    ensures r.Success? <==>
              VariantFlowTable(m).Success? && Statement.Cumulative(Statement.NetColumn(VariantFlowTable(m).value)).Success?
    ensures r.Failure? ==> r.fault == PrecisionOverflow
    ensures r.Success? ==>
              var flows := VariantFlowTable(m).value;
              var res := r.value.results;
              && r.value.Shaped()
              && r.value == m.(results := m.results.(annualCashFlowIn := res.annualCashFlowIn,
                                                     annualCashFlowOut := res.annualCashFlowOut,
                                                     annualNetCashFlow := res.annualNetCashFlow,
                                                     cumulativeCashFlow := res.cumulativeCashFlow))
              && res.annualNetCashFlow == Statement.NetColumn(flows)
              && res.cumulativeCashFlow == Statement.Cumulative(Statement.NetColumn(flows)).value
              && forall i :: 0 <= i < m.period.Total() ==>
                   res.annualCashFlowIn[i] == flows[i].inflow && res.annualCashFlowOut[i] == flows[i].outflow
  {
    var flows :- VariantFlowTable(m);
    var net := Statement.NetColumn(flows);
    var cum :- Statement.Cumulative(net);
    var n := |flows|;
    var inflow := seq(n, i requires 0 <= i < n => flows[i].inflow);
    var outflow := seq(n, i requires 0 <= i < n => flows[i].outflow);
    Success(m.(results := m.results.(annualCashFlowIn := inflow, annualCashFlowOut := outflow,
                                     annualNetCashFlow := net, cumulativeCashFlow := cum)))
  }

  /** The older statement's cumulative column is the running total of its net column. */
  lemma CashFlowStageCumulates(m: Model, after: Model)
    requires m.Shaped() && CashFlowStage(m) == Success(after)
    ensures RunningTotal(after.results.annualNetCashFlow, after.results.cumulativeCashFlow)
  {
    var flows := VariantFlowTable(m).value;
    var net := Statement.NetColumn(flows);
    forall i | 0 <= i < m.period.Total()
      ensures IsCents(net[i])
    {
      assert VariantYearFlow(m, i) == Success(flows[i]);
      if m.period.IsConstructionYear(i + 1) {
        Round2IsCents(-m.results.fixedAssetsInvestment[i]);
      } else {
        Round2IsCents(flows[i].inflow - flows[i].outflow);
      }
    }
    Statement.CumulativeIsRunningTotal(net);
  }

  // ---------------------------------------------------------------------
  // Indicators (FinancialIndicatorsCalculator)
  // ---------------------------------------------------------------------

  /**
   * The stored IRR from the foreign IRR routine's outcome: its value to the
   * cent, or zero when the routine raised (`None`) or its value does not fit.
   */
  function VariantIrr(irr: Option<real>): (r: real)
    ensures irr.None? ==> r == 0.0
    ensures irr.Some? && Fits(irr.value) ==> r == Round2(irr.value)
    ensures irr.Some? && !Fits(irr.value) ==> r == 0.0
    ensures IsCents(r)
  {
    ZeroIsCents();
    match irr
    case None => 0.0
    case Some(v) =>
      Round2IsCents(v);
      if Fits(v) then Round2(v) else 0.0
  }

  /** The older engine's discounted flows for the dynamic payback: every flow, zero or not. */
  function VariantDiscountedFlows(net: seq<real>, rate: real): (r: Result<seq<real>>)
    ensures r.Success? <==> forall i :: 0 <= i < |net| ==> VariantDiscountedFlow(net[i], rate, i).Success?
    ensures r.Success? ==>
              |r.value| == |net| && forall i :: 0 <= i < |net| ==> r.value[i] == VariantDiscountedFlow(net[i], rate, i).value
  {
    var f := (i: nat) => if i < |net| then VariantDiscountedFlow(net[i], rate, i) else Success(0.0);
    var r := Tabulate(|net|, f);
    assert forall i :: 0 <= i < |net| ==> f(i) == VariantDiscountedFlow(net[i], rate, i);
    r
  }

  /**
   * Away from a rate of -1 the older discounting is the live one; at -1 it
   * fails on any horizon, even one whose flows are all zero, where the live
   * discounting succeeds.
   */
  lemma VariantDiscountingAgrees(net: seq<real>, rate: real)
    ensures 1.0 + rate != 0.0 ==> VariantDiscountedFlows(net, rate) == DiscountedFlows(net, rate)
    ensures 1.0 + rate == 0.0 && |net| > 0 ==> VariantDiscountedFlows(net, rate).Failure?
  {
    if 1.0 + rate != 0.0 {
      var older, live := VariantDiscountedFlows(net, rate), DiscountedFlows(net, rate);
      assert older.Success? <==> live.Success?;
      if older.Success? {
        assert older.value == live.value;
      } else {
        var f := (i: nat) => if i < |net| then VariantDiscountedFlow(net[i], rate, i) else Success(0.0);
        var g := (i: nat) => if i < |net| then DiscountedFlow(net[i], rate, i) else Success(0.0);
        TabulateExtensional(|net|, f, g);
        assert older == Tabulate(|net|, f) by {
          assert forall i :: 0 <= i < |net| ==> f(i) == VariantDiscountedFlow(net[i], rate, i);
        }
      }
    } else if |net| > 0 {
      assert VariantDiscountedFlow(net[0], rate, 0).Failure?;
    }
  }

  /**
   * FinancialIndicatorsCalculator of the older engine: the NPV as in the live
   * engine, the IRR from the foreign routine's outcome `irr`, the older
   * static rule, and the dynamic payback over discounted flows of every year.
   */
  function IndicatorsStage(m: Model, irr: Option<real>): (r: Result<Model>)
    requires m.Shaped()
    ensures r.Success? <==>
              && Npv(m.results.annualNetCashFlow, m.parameters.discountRate).Success?
              && VariantDiscountedFlows(m.results.annualNetCashFlow, m.parameters.discountRate).Success?
    ensures r.Success? ==>
              var net := m.results.annualNetCashFlow;
              var rate := m.parameters.discountRate;
              r.value == m.(results := m.results.(npv := Npv(net, rate).value,
                                                  irr := VariantIrr(irr),
                                                  staticPayback := VariantStaticPayback(net, m.results.cumulativeCashFlow),
                                                  dynamicPayback := DynamicPayback(VariantDiscountedFlows(net, rate).value)))
  {
    var net := m.results.annualNetCashFlow;
    var rate := m.parameters.discountRate;
    var npv :- Npv(net, rate);
    var terms :- VariantDiscountedFlows(net, rate);
    Success(m.(results := m.results.(npv := npv, irr := VariantIrr(irr),
                                     staticPayback := VariantStaticPayback(net, m.results.cumulativeCashFlow),
                                     dynamicPayback := DynamicPayback(terms))))
  }

  /**
   * On a statement whose cumulative column is the running total of its net
   * column and starts in deficit, and at a rate other than -1, the older
   * indicators are the live ones except for the IRR.
   */
  lemma IndicatorsStageMatchesLive(m: Model, irr: Option<real>)
    requires m.Shaped() && m.parameters.discountRate != -1.0
    requires RunningTotal(m.results.annualNetCashFlow, m.results.cumulativeCashFlow)
    requires m.period.Total() > 0 && m.results.cumulativeCashFlow[0] < 0.0
    ensures IndicatorsStage(m, irr).Success? <==> Statement.ComputeIndicators(m).Success?
    ensures IndicatorsStage(m, irr).Success? ==>
              IndicatorsStage(m, irr).value.results
              == Statement.ComputeIndicators(m).value.results.(irr := VariantIrr(irr))
  {
    var net := m.results.annualNetCashFlow;
    var rate := m.parameters.discountRate;
    VariantDiscountingAgrees(net, rate);
    VariantStaticAgrees(net, m.results.cumulativeCashFlow);
  }

  // ---------------------------------------------------------------------
  // The engine
  // ---------------------------------------------------------------------

  /**
   * The eight stages in order after re-initialising the results, stopping at
   * the first that fails; `asWritten` picks the investment stage as written
   * or as evidently intended. Only the investment stage touches the assets;
   * every stage writes only results, so the inputs come through unchanged.
   */
  function RunStages(m: Model, irr: Option<real>, asWritten: bool): (r: Result<Model>)
    ensures var m0 := m.InitializeResults();
      var invested := if asWritten then InvestmentStageAsWritten(m0) else InvestmentStage(m0);
      && (invested.Failure? ==> r == Failure(invested.fault))
      && (r.Success? ==> invested.Success? && r.value.Shaped())
      && (r.Success? ==> r.value == m.(assets := invested.value.assets, results := r.value.results))
  {
    var m0 := m.InitializeResults();
    var m1 :- if asWritten then InvestmentStageAsWritten(m0) else InvestmentStage(m0);
    var m2 :- DepreciationStage(m1);
    var m3 :- RevenueStage(m2);
    var m4 :- CostStage(m3);
    var m5 :- TaxStage(m4);
    var m6 :- ProfitStage(m5);
    var m7 :- CashFlowStage(m6);
    IndicatorsStage(m7, irr)
  }

  /** `FinancialCalculator.calculate_all`, as evidently intended. */
  function CalculateAll(m: Model, irr: Option<real>): (r: Result<Model>)
    ensures InvestmentStage(m.InitializeResults()).Failure? ==> r.Failure?
    ensures r.Success? ==>
              && r.value.Shaped()
              && r.value == m.(assets := DeriveAssets(m.investment, m.assets).value, results := r.value.results)
  {
    RunStages(m, irr, false)
  }

  /**
   * What a completed run leaves in the results: a cumulative column that is
   * the running total of the net column, the NPV of that net column at the
   * discount rate, the IRR routine's outcome to the cent, the older static
   * payback of the two columns (the live rule's whenever the first year is
   * in deficit) and the dynamic payback of every year's discounted flow.
   */
  lemma RunOutcome(m: Model, irr: Option<real>)
    requires CalculateAll(m, irr).Success?
    ensures var res := CalculateAll(m, irr).value.results;
            var net, cum, rate := res.annualNetCashFlow, res.cumulativeCashFlow, m.parameters.discountRate;
            && RunningTotal(net, cum)
            && Npv(net, rate) == Success(res.npv)
            && res.irr == VariantIrr(irr)
            && res.staticPayback == VariantStaticPayback(net, cum)
            && (|cum| > 0 && cum[0] < 0.0 ==> res.staticPayback == StaticPayback(net, cum))
            && VariantDiscountedFlows(net, rate).Success?
            && res.dynamicPayback == DynamicPayback(VariantDiscountedFlows(net, rate).value)
  {
    var m0 := m.InitializeResults();
    var m1 := InvestmentStage(m0).value;
    var m2 := DepreciationStage(m1).value;
    var m3 := RevenueStage(m2).value;
    var m4 := CostStage(m3).value;
    var m5 := TaxStage(m4).value;
    var m6 := ProfitStage(m5).value;
    var m7 := CashFlowStage(m6).value;
    CashFlowStageCumulates(m6, m7);
    var after := IndicatorsStage(m7, irr).value;
    assert CalculateAll(m, irr) == Success(after);
    var net, cum := m7.results.annualNetCashFlow, m7.results.cumulativeCashFlow;
    assert after.results.annualNetCashFlow == net && after.results.cumulativeCashFlow == cum;
    if |cum| > 0 && cum[0] < 0.0 {
      VariantStaticAgrees(net, cum);
    }
  }

  /** `FinancialCalculator.calculate_all` as written: no run ever completes. */
  function CalculateAllAsWritten(m: Model, irr: Option<real>): (r: Result<Model>)
    ensures r.Failure?
  {
    RunStages(m, irr, true)
  }
}
