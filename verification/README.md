# Economic evaluation engine of a construction project, in Dafny

This project models the calculation engine of a construction-project economic
evaluation. The engine starts from a ledger of investment, asset, revenue,
cost, tax and financing inputs. It fills per-year result arrays indexed
`0 .. total_period - 1`, where year = index + 1. Money is Python `Decimal`
rounded to the cent, half away from zero, in a 10-digit context.

The live engine runs four modules in order, each reading what the earlier
ones stored (`Engine`):

- investment (`InvestmentModule`): the project total, the working-capital
  injection, the schedule of the fixed-asset investment over the
  construction years, and a loan step that does nothing;
- cost (`CostModule`): three input-VAT calculators whose results are
  discarded, the repair charge, depreciation and amortization
  (`Depreciation`), and the yearly total cost;
- revenue (`RevenueModule`): revenue and output VAT, then profit before tax,
  the loss carry-forward queue (`LossCarryforward`), income tax and profit
  after tax;
- comprehensive (`ComprehensiveModule`): the cash-flow statement and its
  cumulative column, then NPV (`Discounting`), the bisection IRR, and the
  static and dynamic payback periods (`Indicators`).

The older engine in financial_calculator.py runs eight stages. It is modelled
as named variants next to the live modules:

- `CalculatorStages`: asset derivation, investment, depreciation, revenue,
  cost, and VAT with its surcharges;
- `FinancialCalculator`: profit, cash flow, indicators, and `calculate_all`.

Where a variant has a live counterpart, lemmas relate the two, including
where they part: the schedule, the cost year, the revenue, the loss
carry-forward, the profit, the cash flow and the indicators.

Shared pieces:

- `Money`: `Round2` and the failing `Round`.
- `Periods`: construction and operation years.
- `Ledger`: the inputs, the result arrays and the period migration.
- `YearTables`: per-year tables and sums.
- `Wrappers`: `Result` and `Option`.

Every stage is a pure function returning `Result<Model>`. A failure is
`PrecisionOverflow` when a rounded value leaves the 10-digit context,
`DivisionByZero`, `MixedDecimalFloat`, or `DictResizedDuringIteration`. A
wrapper stage says, by record update, that nothing but its own outputs
changes.

Some things are parameters rather than computed:

- the outcome of the foreign `np.irr` call of the older engine is a parameter
  `irr: Option<real>`, with `None` standing for the exception;
- the asset bases the live modules read are inputs, because no live module
  writes them.

## Model

| member | source | states |
|---|---|---|
| `Money.Round` | financial_core.py:7-15 | `round_decimal` succeeds exactly when the value rounded to the cent has magnitude below 10^8, so fits 10 digits with 2 places; the result is whole cents within half a cent of the input; otherwise it is the quantize error |
| `Money.Round2IsCents` | financial_core.py:11-15 | every rounded value has at most two fractional digits |
| `Money.Round2IsNearest` | financial_core.py:11-15 | rounding moves a value by at most half a cent |
| `Money.Round2Idempotent` | financial_core.py:11-15 | rounding an already rounded value changes nothing |
| `Money.Round2TiesAwayFromZero` | financial_core.py:8-15 | ROUND_HALF_UP sends an exact half cent away from zero, for positive and negative values alike |
| `Money.Round2Odd` | financial_core.py:8-15 | rounding is symmetric about zero |
| `Money.Round2Monotone` | financial_core.py:11-15 | rounding never reverses the order of two amounts |
| `Money.Round2Characterised` | financial_core.py:8-15 | independent characterisation: the cent value nearest to `x`, the farther from zero on an exact tie, is what rounding returns |
| `Periods.YearsPartition` | financial_core.py:24-55 | total = construction + operation and the operation start is construction + 1; every year 1..total is in exactly one of construction and operation, and no year outside that range is in either |
| `Periods.OperationYearsAreTheTail` | financial_core.py:29-55 | the operation years are exactly the last `operation` years of the horizon, the construction years the ones before |
| `Ledger.Revenue.TotalRevenue` | financial_core.py:146-155 | a year's total revenue is the six streams added, absent years counted as zero, then rounded; it fails exactly when that total does not fit |
| `Ledger.Costs.TotalCost` | financial_core.py:172-180 | a year's total cost is the five streams added, absent years counted as zero, then rounded; it fails exactly when that total does not fit |
| `Ledger.AbsentYearReadsAsZero` | financial_core.py:146-180 | a year with no entry in any stream totals zero revenue and zero cost |
| `Ledger.Results.InitializeArrays` | financial_core.py:250-270 | all eighteen result arrays get length n and are all zero; the scalar results are kept |
| `Ledger.Model.InitializeResults` | financial_core.py:303-308 | the results take the period's lengths and zero arrays; no input changes |
| `Ledger.KeepYearsUpTo` | financial_core.py:329-357 | the intended migration of one map keeps exactly the years up to the new total, with their values unchanged |
| `Ledger.UpdatePeriod` | financial_core.py:310-357 | the new period is set; the four migrated maps keep exactly their years up to the new total with unchanged values; the other maps and inputs are untouched; the results are re-initialised to the new length |
| `Ledger.UpdatePeriodAsWritten` | financial_core.py:310-357 | as written, the migration raises exactly when a migrated map holds a year beyond the new total, and otherwise gives the intended result |
| `Ledger.KeepAllYears` | financial_core.py:329-357 | a map with no year beyond the new total is kept whole |
| `Ledger.MigrationAsWrittenRaisesOnDroppedYear` | financial_core.py:329-341 | on one factory-building entry for year 21 and a 3 + 17 year horizon, the migration as written raises while the intended one drops the year |
| `Ledger.MigrationKeepsYearsWithinHorizon` | test_model.py:131-164 | the scripted migration test: revenue for years 4..20 moved to a 5 + 15 year horizon keeps every entry, in both readings |
| `InvestmentModule.ProjectTotal` | investment_module.py:165-203 | the project total rounds the engineering, other-construction and contingency sums, adds interest and working capital and rounds again; it is whole cents within two cents of the exact total of all fifteen items, and fails exactly when one of the four roundings overflows |
| `InvestmentModule.ProjectTotalOfCents` | investment_module.py:165-203 | when every item is whole cents, the total is exactly the sum of the fifteen items |
| `InvestmentModule.Summary` | investment_module.py:158-212 | the summary calculator stores the project total and changes nothing else |
| `InvestmentModule.InjectWorkingCapital` | investment_module.py:141-146 | the rounded working capital goes to the first operation year's index when the horizon reaches it; every other entry is kept |
| `InvestmentModule.WorkingCapital` | investment_module.py:130-152 | only the working-capital array changes, as `InjectWorkingCapital` says |
| `InvestmentModule.Schedule` | investment_module.py:73-98 | one entry per construction year. From three years on: 40%, 30%, 30%, then 30% shared evenly over the years after the third. Below three years: an even share in each. Zero construction years is a division by zero. Every entry is whole cents within the 10-digit context |
| `InvestmentModule.ScheduleTotal` | investment_module.py:77-97 | the schedule spreads the fixed assets for up to three years, but 130% of them beyond three, to within half a cent per year |
| `InvestmentModule.OverAllocatedTotal` | investment_module.py:78-90 | a 40/30/30 head followed by level shares of another 30% adds up to 130% of the base |
| `InvestmentModule.SplitHeadTotal` | investment_module.py:78-84 | the 40/30/30 split adds up to the whole to within three half cents |
| `InvestmentModule.ScheduleOfThreeYears` | investment_module.py:78-84 | three construction years split 100 as 40, 30 and 30 |
| `InvestmentModule.ScheduleOfFiveYears` | investment_module.py:78-90 | five construction years spread 130 of a base of 100 |
| `InvestmentModule.Plan` | investment_module.py:10-43 | the plan calculator succeeds exactly when the discarded breakdown total, the schedule and the working capital all fit. The schedule goes into the first construction entries, rounded once more. The working capital is injected. Nothing else changes |
| `InvestmentModule.LoanRepayment` | investment_module.py:105-124 | the loan step changes nothing |
| `InvestmentModule.CalculateAll` | investment_module.py:227-253 | after re-initialising: summary, working capital, plan and loan, stopping at the first failure. On success the project total is stored, the fixed-asset array is the schedule then zeros, the working capital sits at the first operation year, the depreciation, revenue, cost, net-flow and surcharge arrays are zero, and no input changes |
| `InvestmentModule.ValidPeriodInvests` | financial_core.py:61-66 | on a period `validate` accepts, the investment module cannot divide by zero, so it can only fail by overflow; a division by zero happens only with no construction year; and on success the working capital is injected once, in full |
| `InvestmentModule.WorkingCapitalInjectedOnce` | investment_module.py:141-146 | after the module the working-capital array adds up to the rounded working capital when there is an operation year, and to zero otherwise |
| `Depreciation.AnnualDepreciation` | cost_module.py:148-155 | the yearly charge is the depreciable base, net of salvage, over the asset life, to the cent; it is zero for a non-positive life |
| `Depreciation.IntangibleAmortization` | cost_module.py:185-190 | the intangible assets over their years, to the cent; zero for a non-positive number of years |
| `Depreciation.OtherAmortization` | cost_module.py:193-198 | the other assets over their years, to the cent; zero for a non-positive number of years |
| `Depreciation.DepreciationTable` | cost_module.py:141-172 | the yearly charge in every operation year and zero in every construction year; it fails exactly when the charge does, even with no operation year |
| `Depreciation.AmortizationTable` | cost_module.py:178-217 | the two amortizations added and rounded again in every operation year, zero in construction years; the re-rounding can fail only when there is an operation year |
| `Depreciation.DepreciationTotal` | cost_module.py:148-166 | over the horizon the depreciation charged is the yearly charge once per operation year; when the operation period equals the asset life it recovers the depreciable base to within half a cent per year |
| `Depreciation.LevelChargeTotal` | cost_module.py:158-166 | a charge in each operation year and nothing else adds up to that charge once per operation year |
| `Depreciation.AmortizationTotal` | cost_module.py:200-211 | the amortization charged over the horizon is the yearly charge once per operation year |
| `Depreciation.DepreciationExample` | cost_module.py:148-166 | a 3 + 2 year horizon with 1000 of fixed assets, 5% salvage and a ten-year life charges 0, 0, 0, 95, 95 |
| `CostModule.DiscardedInputVat` | cost_module.py:17-32 | the input VAT of each operation year is rounded and discarded; the step fails exactly when some year's share does not fit |
| `CostModule.Material` | cost_module.py:7-38 | the material calculator changes nothing, and fails exactly when some operation year's 13% input VAT overflows |
| `CostModule.FuelPower` | cost_module.py:41-72 | the fuel-and-power calculator changes nothing, and fails exactly when some operation year's 9% input VAT overflows |
| `CostModule.Labor` | cost_module.py:75-101 | the labor calculator changes nothing and cannot fail |
| `CostModule.RepairFee` | cost_module.py:114-118 | the repair charge is whole cents within half a cent of 0.5% of the fixed assets with interest |
| `CostModule.RepairMap` | cost_module.py:120-129 | every year of the horizon gets a repair entry: the charge in operation years, zero in construction years; years outside the horizon keep their entries |
| `CostModule.Repair` | cost_module.py:104-135 | the repair calculator writes only the repair map, and fails exactly when the charge overflows |
| `CostModule.DepreciationCost` | cost_module.py:138-172 | the depreciation calculator writes only the depreciation array |
| `CostModule.AmortizationCost` | cost_module.py:175-217 | the amortization calculator writes only the amortization array |
| `CostModule.AnnualCostTable` | cost_module.py:229-245 | each operation year's five cost streams added and rounded, absent streams read as zero; zero in construction years |
| `CostModule.AnnualCost` | cost_module.py:220-251 | the total-cost calculator writes only the total-cost array |
| `CostModule.Charges` | cost_module.py:269-287 | the first four calculators together change only the repair map |
| `CostModule.RepairedStreamSums` | cost_module.py:229-240 | once the repair map is written, an operation year's five streams carry this run's charge |
| `CostModule.Totals` | cost_module.py:269-287 | the last three calculators together write the depreciation, amortization and total-cost arrays and nothing else |
| `CostModule.CalculateAll` | cost_module.py:269-293 | the seven calculators in order, stopping at the first failure. Success needs the repair charge, depreciation and amortization to fit. Only the repair map and the depreciation, amortization and total-cost arrays change, and each operation year's total cost already includes this run's repair charge |
| `CostModule.CalculateAllNeeds` | cost_module.py:269-293 | if the module succeeds, then no input VAT, charge or total overflows |
| `CostModule.CalculateAllSucceeds` | cost_module.py:269-293 | if none of those amounts overflows, the module succeeds |
| `CostModule.ChargesThenTotals` | cost_module.py:269-293 | once the charges are through, the module succeeds exactly when the totals do |
| `CostModule.ChargesFailing` | cost_module.py:283-287 | a failing charge stops the module |
| `CostModule.ChargedCostsFit` | cost_module.py:229-245 | with the repair map written, the total-cost table succeeds exactly when every operation year's five streams fit |
| `CostModule.GetCostSummary` | cost_module.py:295-323 | the summary reads each cost stream for years 1..total, absent years as zero, next to the stored depreciation, amortization and total-cost arrays |
| `CostModule.SummaryAfterRun` | cost_module.py:269-323 | after the module, the summary's repair column is the charge in operation years and zero in construction years, and in every operation year the total-cost column is its five cost columns added and rounded |
| `CostModule.SummaryOfCosts` | cost_module.py:295-323 | the same for any ledger whose repair map and totals are as the module leaves them |
| `RevenueModule.OutputVat` | revenue_module.py:43-54 | the output VAT takes the VAT contained at 9% in five price-inclusive streams and at 6% in property service, rounds each, adds them and rounds again. The rates are fixed, and the ledger's output-VAT rate is not read. It fails exactly when one of the three roundings overflows |
| `RevenueModule.OutputVatNearExact` | revenue_module.py:43-54 | the stored output VAT is within one and a half cents of the exact VAT contained in the year's revenue |
| `RevenueModule.OutputVatNotNegative` | revenue_module.py:43-54 | streams that are not negative carry output VAT that is not negative |
| `RevenueModule.RevenueTable` | revenue_module.py:24-58 | each operation year's six streams added and rounded, zero in construction years; fails exactly when some operation year's total does not fit |
| `RevenueModule.VatTable` | revenue_module.py:24-58 | `OutputVat` in operation years and zero in construction years; fails exactly when some operation year's VAT does |
| `RevenueModule.VatEntry` | revenue_module.py:43-58 | an output-VAT entry can only fail by overflow |
| `RevenueModule.RevenueTax` | revenue_module.py:14-64 | the calculator writes the revenue and output-VAT arrays and nothing else |
| `RevenueModule.IncomeTax` | revenue_module.py:121-128 | a loss year owes no income tax; a profitable year owes the rate on what the offset leaves, to the cent |
| `RevenueModule.Distributable` | revenue_module.py:136-142 | the surplus reserve and distributable profit are rounded (and may overflow) though never stored |
| `RevenueModule.DistributableNearShare` | revenue_module.py:136-142 | the distributable profit is within a cent of the share `1 - reserve rate` of the profit after tax |
| `RevenueModule.TaxYear` | revenue_module.py:121-142 | after the offset: the tax on what it leaves; the profit after tax taken from the profit before the offset; the reserve and distributable amounts must fit |
| `RevenueModule.OperationYear` | revenue_module.py:85-142 | an operation year rounds its profit, makes the carry-forward step, taxes what the step leaves, and takes the profit after tax from the profit before the offset |
| `RevenueModule.ProfitRows` | revenue_module.py:78-147 | the profit table year by year, with the queue carried across years. Every row agrees with the rule: idle in construction years, and in operation years as `OperationYear` on the queue its earlier rows built. The run fails if some operation year's profit overflows |
| `RevenueModule.TaxableBaseWithinProfit` | revenue_module.py:103-128 | the taxable base lies between zero and the profit before tax; a loss year has none and owes no tax |
| `RevenueModule.IncomeTaxBounded` | revenue_module.py:103-128 | with a non-negative rate the income tax is never negative and never more than with no losses carried |
| `RevenueModule.OffsetTaxBounded` | revenue_module.py:103-122 | the tax on what the offset leaves is between zero and the tax on the whole profit |
| `RevenueModule.TaxOnPartOfProfit` | revenue_module.py:122 | the tax on part of a profit is between zero and the tax on all of it |
| `RevenueModule.RunQueueWellFormed` | revenue_module.py:103-128 | the queue a run leaves holds at most `loss_offset_years` losses, all positive |
| `RevenueModule.Profit` | revenue_module.py:67-153 | the profit calculator writes the profit-before-tax, income-tax and profit-after-tax arrays from the run, and nothing else |
| `RevenueModule.ConstructionYearsHaveNoProfit` | revenue_module.py:143-147 | construction years store zero profit before tax, income tax and profit after tax |
| `RevenueModule.OperationYearProfit` | revenue_module.py:87-133 | an operation year stores the rounded sum of revenue and subsidy less cost, depreciation, amortization and surcharges; its profit after tax subtracts the stored income tax from that, not from what the offset leaves; a loss year owes no tax |
| `RevenueModule.OperationRow` | revenue_module.py:87-133 | the same, for the row of the run itself |
| `RevenueModule.CalculateAll` | revenue_module.py:167-186 | revenue and VAT, then profit on this run's revenue, stopping at the first failure; only the five arrays change |
| `RevenueModule.ProfitReadsThisRunsRevenue` | revenue_module.py:28-41 | after the module, an operation year's profit before tax starts from the six streams added and rounded in the same run, not from a revenue stored earlier |
| `RevenueModule.PricedPretaxSum` | revenue_module.py:87-98 | once the revenue is priced, the unrounded profit is the rounded six-stream total plus subsidy less the earlier modules' arrays |
| `RevenueModule.GetRevenueSummary` | revenue_module.py:188-220 | the summary reads each stream for years 1..total, absent years as zero, next to the stored revenue and VAT arrays |
| `RevenueModule.RevenueSummaryAfterRun` | revenue_module.py:167-220 | after the module, the summary's revenue column is its six stream columns added and rounded in operation years, zero in construction years |
| `RevenueModule.SummaryOfRevenue` | revenue_module.py:188-220 | the same for any ledger whose revenue array is the rounded stream totals |
| `LossCarryforward.Window` | revenue_module.py:109 | the losses a profit may offset are Python's slice `loss_history[:loss_offset_years]`, negative bounds included |
| `LossCarryforward.OffsetLosses` | revenue_module.py:108-116 | the offset loop keeps one entry per loss; a profit that is not positive leaves the losses untouched, and a non-negative profit is never driven below zero |
| `LossCarryforward.LiveAbsorbs` | revenue_module.py:109-112 | a loss the remaining profit covers is cleared to zero and the rest of the profit goes on to the later losses |
| `LossCarryforward.LiveStops` | revenue_module.py:109-115 | the first loss the remaining profit does not cover is reduced by it, no profit is left, and the later losses are untouched |
| `LossCarryforward.OffsetBounds` | revenue_module.py:108-116 | offsetting non-negative losses never increases the profit or any loss; if profit is left over, every loss in the window was cleared |
| `LossCarryforward.OffsetConserves` | revenue_module.py:108-116 | what the offset takes off the losses is exactly what it takes off the taxable profit |
| `LossCarryforward.KeepPositive` | revenue_module.py:119 | the rebuilt queue holds exactly the values of the old one that are positive, and no more entries than before |
| `LossCarryforward.KeepPositiveSum` | revenue_module.py:119 | dropping cleared losses does not change the queue's total |
| `LossCarryforward.Step` | revenue_module.py:102-127 | a loss year has no taxable profit; a profitable or break-even year has a taxable profit that is not negative |
| `LossCarryforward.StepPreservesWellFormed` | revenue_module.py:102-127 | each year keeps the queue to at most `loss_offset_years` losses, all positive |
| `LossCarryforward.CarriedWellFormed` | revenue_module.py:80-127 | the queue carried through any sequence of years holds at most `loss_offset_years` positive losses |
| `LossCarryforward.ProfitYearConserves` | revenue_module.py:102-119 | in a profitable year the losses the queue gives up equal the profit that escapes tax, and the taxable profit lies between zero and the profit |
| `LossCarryforward.ProfitLeftOverClearsQueue` | revenue_module.py:102-119 | when profit is left to tax, the queue is empty |
| `LossCarryforward.WindowCoversQueue` | revenue_module.py:109 | on a well-formed queue the window is the whole queue |
| `LossCarryforward.BreakEvenYearKeepsQueue` | revenue_module.py:102-119 | a break-even year neither offsets nor ages a loss, so the limit counts loss entries rather than calendar years |
| `LossCarryforward.LossYearEvictsOldest` | revenue_module.py:123-127 | a loss on a full queue forfeits the oldest loss and queues the new one at the back, with no tax owed |
| `LossCarryforward.SingleLossExample` | revenue_module.py:102-127 | a loss of 100, then profits of 30 and 150: 70 is left after the first profit, and 50 is taxed in the second year |
| `LossCarryforward.VariantOffsetLosses` | financial_calculator.py:321-327 | the older loop keeps one entry per loss and stops offsetting once a loss was not absorbed or the index reaches `loss_offset_years` |
| `LossCarryforward.VariantAbsorbs` | financial_calculator.py:323-327 | the older loop clears a loss the profit covers and goes on with the rest of the profit |
| `LossCarryforward.VariantStops` | financial_calculator.py:323-327 | the older loop reduces the first loss the profit does not cover and leaves the later entries as they are |
| `LossCarryforward.VariantOffsetAgrees` | financial_calculator.py:321-328 | from any entry on, while the older loop is still offsetting, it reaches the live loop's remaining profit and losses, leaving entries beyond the window untouched |
| `LossCarryforward.VariantStepAgrees` | financial_calculator.py:317-337 | on a well-formed queue the older carry-forward step is the live one: same taxable profit, same queue |
| `Discounting.DiscountedFlow` | financial_comprehensive_module.py:125-128 | a zero flow is skipped and counts as zero; otherwise a rate of -1 is a division by zero, and any other rate gives the flow over `(1 + rate)^i` to the cent |
| `Discounting.DiscountedFlows` | financial_comprehensive_module.py:125-128 | every year's discounted flow in order; fails exactly when one does |
| `Discounting.Npv` | financial_comprehensive_module.py:122-129 | the NPV adds the discounted flows and rounds; it is whole cents within half a cent of their sum |
| `Discounting.RateMinusOneFails` | financial_comprehensive_module.py:125-128 | at a rate of -1 the discounting succeeds exactly when every flow is zero |
| `Discounting.NpvAtZeroRate` | financial_comprehensive_module.py:122-129 | at a zero rate, cent flows are their own present values and the NPV is their rounded total |
| `Discounting.NpvNearExact` | financial_comprehensive_module.py:122-129 | the stored NPV is within half a cent per year, plus half a cent, of the exact present value |
| `Discounting.FlowNearExact` | financial_comprehensive_module.py:125-128 | one discounted flow is within half a cent of its exact present value |
| `Discounting.VariantDiscountedFlow` | financial_calculator.py:467-470 | the older engine discounts every flow, zero or not; it divides by zero at a rate of -1 and otherwise agrees with the live rule |
| `Discounting.NpvAtZeroRateIsTotal` | financial_comprehensive_module.py:103 | at a zero rate the exact present value is the plain total |
| `Indicators.Bisect` | financial_comprehensive_module.py:101-113 | the bisection stays within its bracket and returns the last midpoint when its iterations run out |
| `Indicators.FinalBracket` | financial_comprehensive_module.py:101-113 | the bracket the search ends with is nested in the one it starts from |
| `Indicators.BisectKeepsSign` | financial_comprehensive_module.py:108-111 | the lower end only moves to a rate with a positive NPV and the upper end only to one with an NPV at or below minus the tolerance, so the final bracket keeps that sign pattern |
| `Indicators.BisectReturnsEnd` | financial_comprehensive_module.py:101-113 | the search returns either a midpoint whose NPV is within the tolerance, or, once its iterations run out, the last midpoint, which is an end of the final bracket |
| `Indicators.BisectHalves` | financial_comprehensive_module.py:101-113 | when no midpoint met the tolerance, every step halved the bracket, so its final width is the initial width halved once per iteration |
| `Indicators.HalvedIsDivision` | financial_comprehensive_module.py:101-111 | halving a width `n` times is dividing it by `2^n` |
| `Indicators.IrrOutcome` | financial_comprehensive_module.py:92-113 | `calculate_irr` returns a rate whose NPV is within 0.0001 of zero, or else an end of a bracket 1.9 / 2^1000 wide whose lower end has a positive NPV (or is -0.9) and whose upper end an NPV at or below minus the tolerance (or is 1.0) |
| `Indicators.CalculateIrr` | financial_comprehensive_module.py:92-113 | the rate the search settles on lies in [-0.9, 1.0] |
| `Indicators.NpvAtLoop` | financial_comprehensive_module.py:103 | the generator expression accumulates the exact NPV at the given rate |
| `Indicators.CalculateIrrLoop` | financial_comprehensive_module.py:92-113 | the loop as written returns what `CalculateIrr` specifies: a rate in [-0.9, 1.0] whose NPV is within the tolerance, or an end of the final bracket |
| `Indicators.IrrFindsExactRoot` | financial_comprehensive_module.py:101-106 | 100 invested and 105 returned a year later gives an exact root at 5%, the first midpoint, which is reported |
| `Indicators.IrrOfNoFlows` | financial_comprehensive_module.py:101-106 | with no flows the NPV is zero everywhere and the first midpoint, 5%, is reported |
| `Indicators.StaticRecoveryFrom` | financial_comprehensive_module.py:143-150 | the first index from `i` where the cumulative flow turns non-negative from negative on a non-zero flow; none if there is no such index |
| `Indicators.StaticPayback` | financial_comprehensive_module.py:140-151 | the payback is the first recovery index plus the share of that year's flow needed to cover the deficit before it; none exactly when nothing recovers |
| `Indicators.StaticPaybackMeaning` | financial_comprehensive_module.py:140-151 | on a running total that starts in deficit, a payback exists exactly when the cumulative flow ever becomes non-negative, and it falls within the recovery year |
| `Indicators.InterpolationWithinYear` | financial_comprehensive_module.py:148 | a deficit closed by a year's flow gives a payback after that year's start and no later than its end |
| `Indicators.VariantStaticRecoveryFrom` | financial_calculator.py:454-461 | the older rule stops at the first index from `i` with a non-negative cumulative flow and a non-zero flow, without asking for a deficit before |
| `Indicators.VariantStaticPayback` | financial_calculator.py:451-462 | the older static payback, interpolated the same way; none exactly when no index qualifies |
| `Indicators.VariantStaticAgrees` | financial_calculator.py:451-462 | on a running total that starts in deficit, both static rules give the same payback |
| `Indicators.VariantStaticWithoutDeficit` | financial_calculator.py:454-461 | on a project in surplus from year one the rules part: the older reports 3 years, the live one none |
| `Indicators.DynamicRecoveryFrom` | financial_comprehensive_module.py:156-169 | the first index from `i` where the running discounted total is non-negative and that year's discounted flow is non-zero |
| `Indicators.DynamicPayback` | financial_comprehensive_module.py:153-170 | the dynamic payback is the recovery index plus the cumulative value before it over that year's discounted flow; none exactly when no index qualifies |
| `Indicators.DynamicPaybackWithinYear` | financial_comprehensive_module.py:153-170 | where the discounted total was in deficit before the recovery year, the payback falls within that year |
| `Indicators.DynamicPaybackWithoutDeficit` | financial_comprehensive_module.py:164-169 | with no deficit the rule still reports a payback past the year it names: flows of 100 and 50 give 3 years |
| `ComprehensiveModule.ConstructionFlow` | financial_comprehensive_module.py:27-39 | a construction year takes nothing in, pays out the year's fixed investment, and nets its negation to the cent |
| `ComprehensiveModule.OperationFlow` | financial_comprehensive_module.py:41-69 | an operation year takes in the revenue plus the year's asset sale. It pays out the operating cost, which is the total cost less depreciation and amortization, rounded, plus income tax, surcharges and working capital. Each amount and the net are rounded, and all three are whole cents |
| `ComprehensiveModule.FlowTable` | financial_comprehensive_module.py:24-74 | every year's flow in order; fails exactly when some year's does |
| `ComprehensiveModule.FlowIsBalanced` | financial_comprehensive_module.py:24-74 | with cent investments, every flow is whole cents and its net is exactly inflow less outflow |
| `ComprehensiveModule.BalancedOperationFlow` | financial_comprehensive_module.py:41-69 | in an operation year the rounding of the net is exact |
| `ComprehensiveModule.Cumulative` | financial_comprehensive_module.py:76-80 | each entry of the cumulative column is the running total of the net flows, to the cent |
| `ComprehensiveModule.CumulativeIsRunningTotal` | financial_comprehensive_module.py:76-80 | on cent net flows the stored cumulative column starts at the first net flow and grows by exactly each year's net flow |
| `ComprehensiveModule.CashFlow` | financial_comprehensive_module.py:14-86 | the statement writes the inflow, outflow, net and cumulative arrays and nothing else |
| `ComprehensiveModule.CashFlowCumulates` | financial_comprehensive_module.py:24-80 | with cent investments, the stored cumulative column is the running total of the stored net column |
| `ComprehensiveModule.ConstructionYearFlow` | financial_comprehensive_module.py:27-39 | after the statement, a construction year shows zero inflow, the year's fixed investment as outflow, and its negation as net |
| `ComprehensiveModule.OperationYearFlow` | financial_comprehensive_module.py:41-69 | after the statement, an operation year shows the flow computed from the stored revenue, the asset sale, and the stored cost, charges, taxes and working capital |
| `ComprehensiveModule.AssetSaleCountedTwice` | financial_comprehensive_module.py:44-47 | the asset sale is counted twice: on cent streams, an inflow built on the stored six-stream revenue is the five other streams plus twice the sale |
| `ComprehensiveModule.SaleAddedTwice` | financial_comprehensive_module.py:44-47 | adding the sale to the rounded six-stream total, on cent amounts, gives the other streams plus twice the sale |
| `ComprehensiveModule.StoredIrr` | financial_comprehensive_module.py:131-138 | the stored IRR is whole cents in [-0.9, 1.0], within half a cent of the search's rate |
| `ComprehensiveModule.IrrStaysInBracket` | financial_comprehensive_module.py:131-135 | rounding a rate of the bracket to the cent stays in the bracket |
| `ComprehensiveModule.ComputeIndicators` | financial_comprehensive_module.py:115-176 | the indicators store the NPV, the IRR, and the static and dynamic paybacks. They fail exactly when the NPV does, with its fault, and then write nothing |
| `ComprehensiveModule.NpvAtZeroRateIsFinalCumulative` | financial_comprehensive_module.py:76-129 | at a zero rate the NPV is the last entry of the cumulative column |
| `ComprehensiveModule.StaticPaybackAfterStatement` | financial_comprehensive_module.py:76-151 | after the statement, a project that starts in deficit has a static payback exactly when its cumulative flow ever turns non-negative, and the payback falls within the year it turns |
| `ComprehensiveModule.CalculateAll` | financial_comprehensive_module.py:190-209 | the statement, then the indicators, stopping at the first failure; only the four cash-flow arrays and the four indicators change |
| `ComprehensiveModule.GetFinancialIndicators` | financial_comprehensive_module.py:223-232 | the report holds the stored NPV and IRR; a missing payback period is reported as zero |
| `Engine.Invested` | app.py:495-500 | results initialised, then the investment module; only the results change, and they have the horizon's length |
| `Engine.Costed` | app.py:495-504 | then the cost module; only the results and the repair map change |
| `Engine.Earned` | app.py:495-508 | then the revenue module; only the results and the repair map change |
| `Engine.CalculateAll` | app.py:492-514 | the four modules in order, stopping at the first failing one; only the results and the repair map differ from the inputs |
| `Engine.SurchargesStayZero` | app.py:492-514 | after a live calculation the city-maintenance tax and the education surtax are zero in every year |
| `Engine.StoredRevenueIncludesAssetSale` | app.py:492-514 | after a live calculation an operation year's stored revenue is the rounded six-stream total, the asset sale among them |
| `Engine.EarnedRevenue` | app.py:495-508 | the same, once the revenue module has run |
| `Engine.ConstructionOutflowIsSchedule` | app.py:492-514 | after a live calculation a construction year's outflow is the schedule entry the investment module computed, and its inflow is zero |
| `CalculatorStages.DeriveAssets` | financial_calculator.py:39-77 | the asset bases as evidently intended. The original value is twelve items, land use not among them. Interest is added to it. Intangible assets are land use plus patent. Other assets are exactly half the other-preparation fee. The deductible tax is the 9% VAT contained in the building and equipment items. Each is to the cent, and the depreciation and amortization terms are kept |
| `CalculatorStages.DeriveAssetsAsWritten` | financial_calculator.py:39-68 | as written the derivation always fails: once the first three roundings succeed, the Decimal times float product raises |
| `CalculatorStages.DerivedAssetsNearExact` | financial_calculator.py:39-77 | each derived base is within rounding of the exact amount it stands for |
| `CalculatorStages.LandUseFeeOnlyIntangible` | financial_calculator.py:40-63 | the land-use fee changes only the intangible assets, not the original value or the fixed assets with interest |
| `CalculatorStages.OtherAssetsOfOneCent` | financial_calculator.py:66-68 | a one-cent other-preparation fee gives one cent of other assets as intended, but the as-written derivation fails |
| `CalculatorStages.VariantSchedule` | financial_calculator.py:88-101 | from three years on: 40/30/30 of assets plus intangible plus other in the first three entries, later years untouched. Below three: an even share each. None is a division by zero |
| `CalculatorStages.VariantScheduleAgainstLive` | financial_calculator.py:88-101 | against the live `InvestmentModule.Schedule` of the same amount: up to three construction years both succeed together; whenever both succeed they agree on the first `min(c, 3)` entries |
| `CalculatorStages.SchedulesSpreadDifferentAmounts` | financial_calculator.py:88-95 | the older engine schedules fixed assets plus intangible and other assets, the live one the fixed assets alone: 100 and 50 over three years give 60/45/45 against 40/30/30 |
| `CalculatorStages.VariantScheduleSpendsTotal` | financial_calculator.py:88-101 | written over zeros, the older schedule spends the total to within a few cents however long construction lasts, and nothing from the fourth year on |
| `CalculatorStages.VariantWorkingCapital` | financial_calculator.py:103-106 | the working capital goes to index `construction` when the horizon has it; otherwise nothing is written |
| `CalculatorStages.InvestmentFrom` | financial_calculator.py:32-112 | given the derived assets, the stage writes the assets, the total investment, the schedule and the working capital, and nothing else |
| `CalculatorStages.InvestmentStage` | financial_calculator.py:32-112 | with the intended derivation; no construction year makes it fail |
| `CalculatorStages.ValidPeriodInvestsVariant` | financial_calculator.py:88-106 | the older investment stage divides by zero only with no construction year, and on a valid period its success puts the working capital at the first operation year |
| `CalculatorStages.InvestmentStageAsWritten` | financial_calculator.py:32-112 | as written the investment stage always fails |
| `CalculatorStages.DepreciationStage` | financial_calculator.py:118-166 | writes only the depreciation and amortization arrays |
| `CalculatorStages.DepreciationStageIsLive` | financial_calculator.py:118-166 | writes exactly what the live depreciation and amortization calculators write, run one after the other |
| `CalculatorStages.ContainedVat` | financial_calculator.py:188-193 | the VAT contained in an inclusive amount at a positive rate, to the cent; none at a rate that is not positive |
| `CalculatorStages.ContainedVatIsRateOnNet` | financial_calculator.py:188-193 | the contained VAT is the rate on the amount net of it, up to the rounding scaled by `1 + rate` |
| `CalculatorStages.ContainedVatWithinAmount` | financial_calculator.py:188-193 | a non-negative amount in cents contains between none and all of itself as VAT |
| `CalculatorStages.RevenueStage` | financial_calculator.py:172-205 | writes the revenue and output-VAT arrays for every year, and nothing else |
| `CalculatorStages.RevenueStageMatchesLive` | financial_calculator.py:179-199 | the older revenue array is the live one |
| `CalculatorStages.CostStage` | financial_calculator.py:211-250 | writes the cost and input-VAT arrays for every year, and nothing else |
| `CalculatorStages.CostYearNearExact` | financial_calculator.py:219-244 | an operation year's cost is the five streams plus the repair charge to within a cent and a half; a construction year costs nothing |
| `CalculatorStages.CostYearAgainstLive` | financial_calculator.py:219-244 | against the live total cost of the same year (`cost_module.py` adds the charge into the repair stream and rounds once): with an empty repair stream they are within a cent and a half, and equal when the other four streams are whole cents; with the charge already in the repair stream the older year is higher by exactly the charge |
| `CalculatorStages.LiveCostParts` | cost_module.py:229-245 | after the live cost module, an operation year's total cost is the other four streams plus this run's rounded repair charge, rounded once |
| `CalculatorStages.CostGap` | financial_calculator.py:223-228 | rounding the streams, adding the rounded charge and rounding again lands within a cent and a half of one rounding of the streams with the charge, and on the same amount when the streams are whole cents |
| `CalculatorStages.Levy` | financial_calculator.py:273-278 | a surcharge is its rate on the VAT paid, to the cent, failing only by overflow |
| `CalculatorStages.SurchargeYear` | financial_calculator.py:265-278 | the VAT paid is never negative. It is exactly output less input VAT when both are cents. It and both surcharges are zero when input covers output. The surcharges are not negative at non-negative rates |
| `CalculatorStages.SurchargeParts` | financial_calculator.py:265-278 | the same facts for the three amounts given one at a time |
| `CalculatorStages.PaidMeaning` | financial_calculator.py:268 | the rounded VAT paid is never negative, is the exact excess on cents, and is zero when input covers output |
| `CalculatorStages.LevyNonNegative` | financial_calculator.py:273-277 | a levy at a non-negative rate on a non-negative base is never negative |
| `CalculatorStages.TaxStage` | financial_calculator.py:256-284 | writes the VAT-paid and both surcharge arrays for every year, and nothing else |
| `FinancialCalculator.VariantOperationYear` | financial_calculator.py:304-343 | an older operation year: the older offset loop, the tax on what it leaves, and the profit after tax taken from what it leaves |
| `FinancialCalculator.VariantProfitRows` | financial_calculator.py:301-348 | the older profit table, every row agreeing with the older rule |
| `FinancialCalculator.VariantProfitMatchesLive` | financial_calculator.py:304-343 | on the same profits, the older table agrees with the live one on profit before tax, taxable base and income tax. Its profit after tax is never larger, and equal in any year with nothing offset |
| `FinancialCalculator.RowsMatch` | financial_calculator.py:304-343 | the same, one row at a time |
| `FinancialCalculator.AfterTaxProfitsPart` | financial_calculator.py:318-343 | at a zero tax rate, a profit absorbing a single loss is reported whole after tax by the live engine and less the loss by the older one |
| `FinancialCalculator.SingleLossAbsorbed` | financial_calculator.py:318-328 | a single loss no larger than the profit is cleared by both loops, leaving the rest taxable |
| `FinancialCalculator.ProfitStage` | financial_calculator.py:290-354 | writes the three profit arrays from the older run, and nothing else |
| `FinancialCalculator.ProfitStageMatchesLive` | financial_calculator.py:306-343 | without subsidy income both calculators store the same profit before tax and income tax, and the older never a larger profit after tax |
| `FinancialCalculator.VariantOperationFlow` | financial_calculator.py:380-403 | an older operation year pays out the whole cost, depreciation and amortization included, plus taxes and working capital |
| `FinancialCalculator.VariantOutflowCountsCharges` | financial_calculator.py:390-403 | on cent inputs the older outflow exceeds the live one by exactly the depreciation and amortization, and the older net falls short by the same amount |
| `FinancialCalculator.VariantFlowTable` | financial_calculator.py:365-408 | every year's older flow in order; fails exactly when some year's does |
| `FinancialCalculator.CashFlowStage` | financial_calculator.py:360-420 | writes the inflow, outflow, net and cumulative arrays, and nothing else |
| `FinancialCalculator.CashFlowStageCumulates` | financial_calculator.py:410-414 | the older cumulative column is the running total of its net column |
| `FinancialCalculator.VariantIrr` | financial_calculator.py:444-449 | the stored IRR is the foreign routine's value to the cent, or zero when it raised or does not fit |
| `FinancialCalculator.VariantDiscountedFlows` | financial_calculator.py:464-470 | every year's older discounted flow; fails exactly when one does |
| `FinancialCalculator.VariantDiscountingAgrees` | financial_calculator.py:464-470 | away from a rate of -1 the older discounting is the live one; at -1 it fails on any non-empty horizon |
| `FinancialCalculator.IndicatorsStage` | financial_calculator.py:426-484 | the NPV as live, the IRR from the foreign outcome, the older static rule and the dynamic payback over every year's discounted flow |
| `FinancialCalculator.IndicatorsStageMatchesLive` | financial_calculator.py:426-484 | on a statement that cumulates and starts in deficit, at a rate other than -1, the older indicators are the live ones except for the IRR |
| `FinancialCalculator.RunStages` | financial_calculator.py:503-527 | the run re-initialises the results first; a failing investment stage stops it with that stage's fault; a completed run leaves arrays of the horizon's length and changes only the results and the derived asset bases |
| `FinancialCalculator.CalculateAll` | financial_calculator.py:503-527 | the older engine with the intended asset derivation: it fails whenever the investment stage does; a completed run leaves arrays of the horizon's length, stores the derived asset bases and changes no input |
| `FinancialCalculator.RunOutcome` | financial_calculator.py:410-484 | a completed older run stores a cumulative column that is the running total of its net column, the NPV of that column at the discount rate, the IRR routine's outcome to the cent, the older static payback (the live one when the first year is in deficit) and the dynamic payback of every year's discounted flow |
| `FinancialCalculator.CalculateAllAsWritten` | financial_calculator.py:503-527 | as written, no older run ever completes |

## Left out

- The Streamlit UI, the Excel export, the sensitivity analysis, the float re-implementations of the engine, and JSON persistence (`to_dict`/`from_dict`) are not part of this model.
- Floating point is not modelled: neither the `float(...)` hops inside `round_decimal(float(...))` nor the 10-digit rounding of intermediate Decimal arithmetic. Amounts are exact rationals, rounded only where the code rounds to the cent, and overflow of the 10-digit context is modelled only at those roundings.
- The older engine's `np.irr` is a foreign call. Its outcome is the parameter `irr: Option<real>` of `FinancialCalculator.IndicatorsStage`. A NaN result is not modelled.
- The bisection IRR is computed over exact reals. Convergence to a true root and uniqueness are not claimed.
- A failing module leaves partial writes in the source, and the app ignores the modules' return values. The model stops at the first failure and returns no model.
- The stage wrappers require result arrays of the horizon's length (`Shaped`). Every `calculate_all` that reaches them re-initialises first.
- A zero divided by zero in the payback interpolation is reported as `DivisionByZero` with the other division faults. It cannot arise, because the interpolation needs a non-zero flow.
- The exception path around the live IRR (financial_comprehensive_module.py:136-138) is unreachable: the bisection only divides by `1 + rate` inside the bracket and the stored rate always fits.
- The branch for years outside the horizon in both cash-flow statements (financial_comprehensive_module.py:70-74, financial_calculator.py:404-408) is unreachable, because every index is a construction or an operation year.
- The surplus reserve and distributable profit are computed but never stored (revenue_module.py:137-142). Only their possible overflow is modelled (`RevenueModule.Distributable`).
- The ratio getters (financial_comprehensive_module.py:234-296), `get_profit_summary`, `get_cash_flow_statement`, `get_investment_summary` and `calculate_single` only report stored values and are not modelled.
- The period lengths are `nat` where the source holds Python `int`. The input form only offers values from 1 (app.py:40-54), and `Period.Valid` is the source's `validate`.
- CalculatorStages.ContainedVatWithinAmount: stated only for amounts in whole cents, the case the engine feeds it, where the rounded share cannot exceed the amount.
- ComprehensiveModule.AssetSaleCountedTwice: stated on cent streams. It is the flow-level half of the double count. `ComprehensiveModule.OperationYearFlow` places the stored revenue and the sale in the statement, and `Engine.StoredRevenueIncludesAssetSale` says the stored revenue is the six-stream total.
- RevenueModule.ProfitReadsThisRunsRevenue: the unrounded profit is named `StreamPretax`. The contract says the stored profit is its rounding.
- Discounting.NpvNearExact: stated for rates above -1, where every present value is defined.

## Findings

| source | as written | input that shows it | evidently intended | confidence | as-written member | corrected member |
|---|---|---|---|---|---|---|
| financial_calculator.py:66-68 | `inv.other_preparation_fee * 0.5` multiplies a Decimal by a float, which raises TypeError, so `InvestmentCalculator` and with it `FinancialCalculator.calculate_all` always fail | an other-preparation fee of 0.01 | other assets are exactly half the fee, to the cent (0.01 here) | not executed | `CalculatorStages.OtherAssetsOfOneCent` | `CalculatorStages.DeriveAssets` |
| financial_core.py:329-357 | `_migrate_year_data` deletes keys from a dict while iterating over it, which raises RuntimeError as soon as a migrated map holds a year beyond the new total | a factory-building entry for year 21 and a new 3 + 17 year horizon | drop the years beyond the new total and keep the rest | not executed | `Ledger.MigrationAsWrittenRaisesOnDroppedYear` | `Ledger.UpdatePeriod` |
