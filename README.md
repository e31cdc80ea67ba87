# Retirement projection engine — a Dafny model

This project models the calculation engine of a single-page retirement and
portfolio planner. The planner holds three portfolio seeds:

- Portefølje I;
- Portefølje II;
- a liquidity fund that is always fully in bonds.

It also holds allocation choices, annual savings, up to four one-off or
recurring events, return, cost and tax rates, and a payout phase. From
these it projects the portfolio year by year. It then answers questions
about the projection:

- the goal-seek solvers find the savings, payout or Portefølje I size that
  just exhausts the portfolio;
- a Monte Carlo part finds the payout and end value over 1000 sampled return
  paths and summarises them as a histogram and a frequency table;
- a chart splits each year into stock and bond principal and return, and
  tracks a compounded return index.

The model follows the program's own structure, one Dafny module per
concern:

| module | file | what it models |
|---|---|---|
| `Numeric` | numeric.dfy | `Math.round`, `Math.ceil`, `Math.min/max/abs` on reals; sums |
| `Parameters` | parameters.dfy | the application state record, events, `START_YEAR`, `MAX_EVENTS` |
| `Allocation` | allocation.dfy | `populateAnnualStockPercentages`, `computeInitialStockPct` |
| `AppState` | state.dfy | `handleStateChange`, the event-list updaters, the event-row year sliders |
| `EventFlows` | event_flows.dfy | the passes over the events of one year |
| `PrognosisYear` | prognosis_year.dfy | the phases of one year of `calculatePrognosis` |
| `Prognosis` | prognosis.dfy | the yearly loop of `calculatePrognosis`, and what holds over a whole run |
| `GoalSeek` | goalseek.dfy | `goalSeekAnnualSavings`, `goalSeekAnnualPayout`, `goalSeekPortfolio1` |
| `MonteCarlo` | montecarlo.dfy | `calculateMaxPayout`, `calculatePortfolioValue`, the 1000-trial aggregations |
| `Sorting` | sorting.dfy | the ascending numeric sort of the samples |
| `Statistics` | statistics.dfy | mean, variance, the 200-bucket histogram, the 10-row frequency table |
| `Split` | split.dfy | the principal/return split and the accumulated return index |

Money and rates are `real`. Percentages are on a 0–100 scale, as in the
program: 37.84 means 37.84 %. `Math.round(x)` is `Floor(x + 0.5)` and
`Math.ceil(x)` is `-Floor(-x)`.

The form of each part follows the program:

- The loops become `method`s with `while`/`for` loops and invariants:
  - the allocation schedule;
  - the yearly loop of the projection;
  - the passes over the events;
  - the goal-seek doubling and bisection;
  - the payout bisection;
  - the trial loops;
  - the binning;
  - the array-writing loops of the split chart.
- Each loop method is proved equal to a pure function of its inputs.
- The properties are proved about those functions as lemmas.
- The arrays that the split chart writes by index are Dafny `array`s.
- The state updaters are pure functions from the old state to the new one,
  because they are `setState(prev => ...)` callbacks that build a new
  record.

The goal-seek solvers call the whole projection for every candidate value.
Here that call is an abstract function `f: real -> real` from the candidate
value to the final portfolio value. A solver returns the updated state
instead of calling `setState`.

## Model

| member | source | states |
|---|---|---|
| Allocation.PopulateAnnualStockPercentages | script.js:248-266 | one entry per simulated year; accumulation entries are initialStockAllocation; payout entries repeat entry investmentYears-1, or initialStockAllocation without accumulation years; so every entry is initialStockAllocation |
| Allocation.WeightedAverageBounds | script.js:1073-1074 | an average with non-negative weights and a positive total weight lies between the smallest and largest value averaged |
| Allocation.InitialStockAverage | script.js:1050-1075 | the unrounded size-weighted stock percentage of Portefølje I, Portefølje II and the 0 % liquidity fund: (r1+r2+0)/3 when every size is at most 0, and 0 when only the liquidity fund holds money; bounds in InitialStockAverageBounds |
| Allocation.ComputeInitialStockPct | script.js:1050-1075 | the same percentage rounded: round((r1+r2+0)/3) when every size is at most 0, 0 when only the liquidity fund holds money, within 0..100 when both allocations are; general bounds in InitialStockPctBounds |
| Allocation.InitialStockAverageBounds | script.js:1050-1075 | the unrounded weighted stock percentage, and the plain average used when every portfolio is empty, lies between the smallest and largest of the two allocations and the liquidity fund's 0 % |
| Allocation.WeightedStockAverageBounds | script.js:1062-1074 | with non-negative sizes, both the weighted average and the plain-average fallback lie between bounds on the two allocations and the fund's 0 % |
| Allocation.InitialStockPctBounds | script.js:1050-1075 | the rounded weighted stock percentage lies between the rounded smallest and rounded largest of the three allocations |
| Allocation.StockPctDependsOnSizesAndAllocations | script.js:1050-1075 | the weighted stock percentage depends only on the three sizes and the two allocations |
| Allocation.OnlyPortfolioOneCounts | script.js:1051-1074 | when only Portefølje I holds money, the percentage is its own allocation, rounded |
| AppState.HandleStateChange | script.js:1077-1097 | the field is assigned; initialStockAllocation is recomputed from the new state; after a change of a portfolio size or of the invested capital, the invested capital is lowered to the combined portfolio size when it exceeds it, and is otherwise kept; no other field changes |
| AppState.HandleStateChangeKeepsCapitalBound | script.js:1077-1097 | once the invested capital is within the combined portfolio size, every state change keeps it there |
| AppState.AddEvent | script.js:1122-1137 | with MAX_EVENTS events present the state is unchanged; otherwise exactly one new zero-amount START_YEAR withdrawal is appended and nothing else changes |
| AppState.UpdateEvent | script.js:1139-1144 | only the event list changes, and keeps its length and ids; exactly the events with the given id get the key changed |
| AppState.FilterOut | script.js:1146-1148 | the remaining events are exactly the events whose id differs from the removed one, each kept as often as it occurred and none with the removed id |
| AppState.FilterOutAppend | script.js:1147 | filtering keeps the order of the list: the filter of a concatenation is the concatenation of the filtered parts |
| AppState.RemoveEvent | script.js:1146-1148 | only the event list changes; it becomes the filtered list, no longer than before, holding every event without the removed id and none with it |
| AppState.EventUpdatersKeepCount | script.js:1122-1148 | starting within MAX_EVENTS, add, update and remove all stay within MAX_EVENTS |
| AppState.HandleStartChange | script.js:902-908 | only the event list changes and keeps its length; every event with the shown id gets the new start year, and the new start year as end year when it passes the shown end year, else its own end year; other events are untouched |
| AppState.HandleEndChange | script.js:910-916 | only the event list changes and keeps its length; every event with the shown id gets the new end year, and the new end year as start year when it falls before the shown start year, else its own start year; other events are untouched |
| AppState.StartChangeKeepsOrder | script.js:902-908 | moving the shown event's start year sets it and raises the end year to it when passed, so the start stays at most the end; every other event is untouched |
| AppState.EndChangeKeepsOrder | script.js:910-916 | moving the shown event's end year sets it and lowers the start year to it when passed, so the start stays at most the end; every other event is untouched |
| EventFlows.PositiveEventSum | script.js:339-348 | the sum of the active positive event amounts is non-negative |
| EventFlows.NegativeEventSum | script.js:339-348 | the sum of the active non-positive event amounts is at most 0 |
| EventFlows.CapitalEventSum | script.js:396-405 | the flagged inflows lie between 0 and all active inflows |
| EventFlows.NetEventSplit | script.js:339-348 | the net event amount of the year is the inflows plus the withdrawals |
| EventFlows.ScanEvents | script.js:339-348 | the loop over the events yields the inflow, withdrawal and net sums of the year's active events |
| EventFlows.SumActiveInflows | script.js:356-405 | the loop yields the active inflows, or only the flagged ones |
| PrognosisYear.SettleDeferredTax | script.js:321-328 | with taxes on, last year's deferred event and bond tax are paid from the aggregate; with taxes off nothing is paid; both pools are reset and nothing else changes |
| PrognosisYear.GrowTaxFreeCapital | script.js:330-331 | only the tax-free capital changes, and it stays non-negative for a shielding rate of at least -100 % |
| PrognosisYear.YearEvents | script.js:334-405 | the inflow to Portefølje I is all positive events; the net event amount is inflows plus withdrawals; withdrawals are at most 0; flagged inflows are between 0 and all inflows, and 0 when the year has no inflow |
| PrognosisYear.ApplyInflows | script.js:349-364 | the aggregate gains exactly the year's total inflow, and apart from it only Portefølje I changes |
| PrognosisYear.SubPortfolioStockAverageBounds | script.js:366-374 | with non-negative sub-portfolios of positive sum and allocations in 0..100, their rounded weighted stock percentage lies in 0..100 |
| PrognosisYear.YearStockPercentage | script.js:366-378 | with empty sub-portfolios the year uses its scheduled percentage, otherwise the rounded size-weighted one; with non-negative sub-portfolios and every input percentage in 0..100 the result is in 0..100 |
| PrognosisYear.InvestedCapitalAddition | script.js:380-408 | the addition to the invested capital is non-negative for a non-negative Portefølje I allocation and non-negative flagged inflows |
| PrognosisYear.SplitReturns | script.js:430-441 | the net stock and bond returns add up to the value times the net rate; the gross bond return is the bond sleeve's |
| PrognosisYear.GrowSubPortfolios | script.js:459-483 | only the three sub-portfolios change, and only when their sum is positive |
| PrognosisYear.GrowPortfolio | script.js:410-484 | a non-positive portfolio does not grow; otherwise it grows by value times net rate, less the running bond tax when taxes are on in non-deferred mode; in deferred mode the gross bond return goes to the untaxed pool instead; nothing else changes |
| PrognosisYear.PoolAfterRealisation | script.js:530-535 | for a non-negative pool: the pool that remains shrinks by exactly the withdrawn fraction of the bond value when at most the whole bond value is taken, is emptied when more is taken, is untouched when there is no bond value, and, for a non-negative bond part taken, lies between 0 and the pool |
| PrognosisYear.OrdinaryPayout | script.js:489-573 | outside payout years or without a desired payout nothing changes; otherwise the net payout is the desired total, the tax-free part is the eligible share capped by the remaining tax-free capital, and the portfolio falls by the gross withdrawal, which is the desired total for AS or an allocation up to 100 %; tax-free capital and the untaxed pool stay non-negative; with taxes off nothing is deferred (the deferred amounts with taxes on are stated by the three Payout lemmas below) |
| PrognosisYear.WithdrawEvents | script.js:575-641 | without withdrawals nothing changes; otherwise the portfolio falls by exactly the withdrawn amount and the tax-free capital by the eligible share capped by what remains; it stays non-negative; with taxes off nothing is deferred (the deferred amounts with taxes on are stated by the three EventWithdrawal/EventDeferral lemmas below) |
| PrognosisYear.PayoutDefersStockTax | script.js:516-562 | with taxes on, a payout with a taxable remainder defers for AS the stock tax rate on the whole remainder and for Privat the rate on the stock share left uncovered by the tax-free capital; a payout the tax-free capital covers defers nothing and leaves the pool |
| PrognosisYear.PayoutDefersBondTax | script.js:525-557 | in deferred-interest mode with a bond share, a taxed payout defers the bond tax rate on the bond part of the remainder and leaves the pool that remains after realising that part against the bond value after return; at 100 % stocks neither changes |
| PrognosisYear.PayoutDeferralNonNegative | script.js:516-562 | with non-negative tax rates and at most 100 % stocks a payout never lowers either deferred-tax total |
| PrognosisYear.EventWithdrawalDefersTaxPrivat | script.js:602-617 | a taxed Privat event withdrawal defers the stock tax rate on the uncovered stock share and, in deferred mode with a bond share, the bond tax rate on the bond share of the whole withdrawal, realising the pool against the value before withdrawal; otherwise bond tax and pool are unchanged |
| PrognosisYear.EventWithdrawalDefersTaxAS | script.js:619-635 | a taxed AS event withdrawal with an uncovered part defers the dividend tax rate on that part and, in deferred mode with a bond share, the bond tax rate on its bond share, realising the pool; a fully covered withdrawal defers nothing |
| PrognosisYear.EventDeferralNonNegative | script.js:602-635 | with non-negative tax rates and at most 100 % stocks an event withdrawal never lowers either deferred-tax total |
| PrognosisYear.ScaleToAggregate | script.js:652-658 | the three sub-portfolios are scaled by one factor so that they add up to the aggregate |
| PrognosisYear.Reconcile | script.js:643-666 | after it the sub-portfolios agree with the aggregate to within 0.01 or there is nothing to distribute; a difference over 0.01 is scaled away, or the whole aggregate goes to Portefølje I when the sub-portfolios are empty; the aggregate does not change |
| PrognosisYear.AdvanceSettlesDeferredTax | script.js:313-681 | a year first pays last year's deferred taxes when taxes are on, and its skatt2 row shows that event tax |
| PrognosisYear.AdvanceLedger | script.js:313-666 | the aggregate changes by exactly the year's flows: tax paid, inflow, net return, running bond tax, gross payout and event withdrawals; afterwards the sub-portfolios are reconciled |
| PrognosisYear.AdvanceRow | script.js:668-680 | the row shows the start-of-year value, the net return, the bond taxes paid and the remaining tax-free capital, rounded |
| PrognosisYear.AdvanceTaxesOff | script.js:313-681 | with taxes off a year defers and pays no tax and leaves the untaxed bond pool alone |
| PrognosisYear.AdvanceKeepsTaxFreeCapital | script.js:331-597 | a non-negative tax-free capital stays non-negative through the year |
| PrognosisYear.AdvanceWithInflowOnly | script.js:313-666 | a year without returns, costs, payout or withdrawals changes the aggregate by its inflow alone and defers nothing |
| PrognosisYear.AdvanceWithoutRates | script.js:416-457 | with zero rates and no costs the year earns nothing and pays no running bond tax |
| PrognosisYear.AdvanceWithoutPayout | script.js:490-492 | without a desired payout the year makes no ordinary withdrawal |
| PrognosisYear.AdvanceDefersNothing | script.js:321-641 | without payout, withdrawals or returns the year defers nothing to the next |
| Prognosis.CalculatePrognosis | script.js:269-684 | the rows are the start row and then one row per simulated year of the run; the returned value is the aggregate after the last year |
| Prognosis.ProjectYear | script.js:313-681 | one pass of the loop body, three passes over the events and then the phases, computes exactly year i of the run |
| Prognosis.DeferredTaxPaidNextYear | script.js:313-681 | the tax a year defers is what the next year pays first when taxes are on, and shows as its skatt2 |
| Prognosis.TaxesOffMeansNoTax | script.js:313-681 | with taxes off nothing is ever deferred, and every skatt2 and renteskatt row is 0 |
| Prognosis.TaxesOffKeepsPoolEmpty | script.js:443-448 | with taxes off the untaxed bond pool stays 0 for the whole run |
| Prognosis.TaxFreeCapitalNeverNegative | script.js:282-641 | with a non-negative start, a shielding rate of at least -100 % and a non-negative Portefølje I allocation, the tax-free capital is never negative |
| Prognosis.InvestedCapitalRowNonNegative | script.js:680 | under the same conditions the invested-capital row is never negative |
| Prognosis.YearLedger | script.js:313-666 | each year's accumulators follow from the previous ones, and the aggregate changes by exactly the year's flows |
| Prognosis.ZeroReturnGrowsBySavingsOnly | script.js:277-683 | with zero returns, costs, events and payout, the value after k years is the seeds plus the savings paid in so far, and nothing is deferred |
| GoalSeek.ExpandFacts | script.js:2307-2316 | the doubling loop doubles at most 20 times and ends with the start times 2 to the number of doublings; it stops only at a bracket, the limit or the 20th doubling |
| GoalSeek.ExpandBracket | script.js:2307-2316 | the doubling loop computes the expansion function |
| GoalSeek.BisectFacts | script.js:2319-2334 | bisection stays inside the bracket; the upper end keeps bracketing the zero; the lower end moves only to points that do not bracket it or lie within 1000 of zero |
| GoalSeek.BisectWidth | script.js:2319-2334 | unless it stops early within 1000 of zero, each of the remaining steps halves the bracket |
| GoalSeek.BisectBracket | script.js:2319-2334 | the bisection loop computes the bisection function |
| GoalSeek.WidenFacts | script.js:2307-2316 | widening from a solver's start doubles at most 20 times and stops only at a bracket, the limit or the doublings used up |
| GoalSeek.SolutionFacts | script.js:2317-2334 | without a bracket the solution is 0; with one it is the lower end of a narrowed bracket in [0, widened high] whose high end still brackets the zero |
| GoalSeek.CeilToStepFacts | script.js:2336-2337 | rounding up to a step gives a multiple of the step, at least the value and less than one step above it |
| GoalSeek.RoundToStepFacts | script.js:2390-2392 | rounding to a step gives a multiple of the step within half a step of the value |
| GoalSeek.GoalSeekAnnualSavings | script.js:2293-2338 | the solver computes the savings goal-seek function |
| GoalSeek.GoalSeekAnnualPayout | script.js:2342-2398 | the solver computes the payout goal-seek function |
| GoalSeek.GoalSeekPortfolio1 | script.js:2402-2456 | the solver computes the Portefølje I goal-seek function |
| GoalSeek.NoPayoutYearsNoChange | script.js:2293-2296 | without payout years no solver changes the state |
| GoalSeek.SavingsGoalSeekOutcome | script.js:2293-2338 | only the savings change; without a bracket nothing changes; with one the savings become a non-negative multiple of 10 000 less than 10 000 above the bisected lower end, and the upper end keeps the final value non-negative |
| GoalSeek.PayoutGoalSeekOutcome | script.js:2342-2398 | only the consumption payout, the wealth-tax payout and the recorded result change; the wealth-tax payout becomes 0 and the others one multiple of 100 000, which is 0 without a bracket and otherwise within 50 000 of the bisected payout |
| GoalSeek.Portfolio1GoalSeekOutcome | script.js:2402-2456 | only the Portefølje I size and the recorded result change, both to one multiple of 10 000, which is 0 without a bracket and otherwise within 5 000 of the bisected size |
| MonteCarlo.HalvingShrinks | script.js:1246-1247 | halving a bracket wider than the tolerance lowers the halving count, so the bisection ends |
| MonteCarlo.SearchFacts | script.js:1240-1287 | the bisection keeps maxPayout equal to low; it never lowers low or raises high and keeps low at most high; it stops with high - low at most 100; a moved low keeps the final value non-negative and a moved high drives it negative |
| MonteCarlo.MaxPayoutFacts | script.js:1209-1292 | 0 without simulated years; otherwise the yearly payout times the payout years, non-negative, within the tolerance of a payout that fails or of the opening high; with non-negative seeds the final low and high stay within the opening bracket [0, twice the seeds] |
| MonteCarlo.MaxPayoutBounded | script.js:1209-1292 | with non-negative seeds the returned total lies between 0 and twice the seeds times the payout years |
| MonteCarlo.SimulatePayout | script.js:1248-1273 | the inner simulation loop computes the payout run, including the early exit once the value is negative |
| MonteCarlo.CalculateMaxPayout | script.js:1209-1292 | the bisection computes the maximum-payout function |
| MonteCarlo.CalculatePortfolioValue | script.js:1295-1322 | the accumulation loop computes the portfolio-value function |
| MonteCarlo.FlatPortfolioValue | script.js:1295-1322 | on a path of zero returns the end value is the seeds plus the positive savings of every accumulation year |
| MonteCarlo.MonteCarloPayouts | script.js:1325-1356 | the trial loop computes the payout samples: empty for key 0 or without years, else the sorted trial payouts |
| MonteCarlo.MonteCarloPortfolioValues | script.js:1580-1610 | the trial loop computes the portfolio samples: empty for key 0 or without accumulation years, else the sorted trial values |
| MonteCarlo.TrialPayoutsNonNegative | script.js:1339-1354 | every trial payout is non-negative |
| MonteCarlo.PayoutSamplesFacts | script.js:1325-1356 | empty exactly when the key is 0 or there are no years or payout years; otherwise 1000 samples, sorted ascending, a permutation of the trial payouts, none negative |
| MonteCarlo.PortfolioSamplesFacts | script.js:1580-1610 | empty exactly when the key is 0 or there are no accumulation years; otherwise 1000 samples, sorted ascending, a permutation of the trial values |
| Sorting.SortAscending | script.js:1356 | the result is an ascending permutation of the input |
| Sorting.SortKeepsLowerBound | script.js:1356 | a lower bound on every sample bounds every sorted sample |
| Statistics.Mean | script.js:1364 | the mean times the number of samples is their total; samples none of which is negative have a non-negative mean |
| Statistics.SquaredDeviations | script.js:1365 | the sum of squared deviations is non-negative |
| Statistics.Variance | script.js:1365 | the variance is never negative, so its square root exists; samples that are all equal have variance 0 |
| Statistics.MeanWithinSamples | script.js:1364 | the mean lies between the smallest and the largest sample |
| Statistics.ConstantSamples | script.js:1364-1365 | samples that are all equal have that value as mean and variance 0 |
| Statistics.HistogramAxisCovers | script.js:1370-1386 | the axis covers every sample, and is non-empty for a positive standard deviation |
| Statistics.BuildHistogram | script.js:1390-1424 | the loop fills the 200 buckets as the histogram function does |
| Statistics.HistogramTotal | script.js:1419-1424 | when every sample falls in a bucket, the buckets add up to the number of samples |
| Statistics.HistogramCountsEverySample | script.js:1370-1424 | with a positive standard deviation every sample is counted exactly once |
| Statistics.IntervalsTile | script.js:1513-1531 | the ten intervals start at mean - 2 sd, end at mean + 2 sd, and each ends where the next starts |
| Statistics.BinOfFacts | script.js:1534-1551 | a sample lands in an interval exactly when it lies in [mean - 2 sd, mean + 2 sd], and then in the first interval holding it |
| Statistics.CountSample | script.js:1534-1551 | one sample adds one to the count of its interval, or to none |
| Statistics.MakeBins | script.js:1519-1531 | the ten intervals are built with the table's bounds and zero counts |
| Statistics.BuildFrequencyTable | script.js:1507-1561 | the method computes the frequency-table function |
| Statistics.BinCountsTotal | script.js:1534-1551 | the counts add up to the number of samples within two standard deviations of the mean |
| Statistics.FrequencyTableShape | script.js:1509-1560 | empty exactly when the standard deviation is not positive; otherwise ten rows with strictly falling centres, row j holding interval 9 - j |
| Split.FlowsNet | script.js:2579-2584 | every event total lands on exactly one side: inflow minus outflow is the positive savings, the event total and the negative payout |
| Split.FlowArrays | script.js:2579-2584 | the loop fills the inflow and outflow arrays year by year |
| Split.AllocateFromTwo | script.js:2688-2700 | (0, 0) when the amount is not positive or nothing is available; both availabilities when the amount covers them |
| Split.AllocateFromTwoTakesAmount | script.js:2688-2700 | a take below the total comes out whole, and no pool gives more than it holds |
| Split.AllocateFromTwoProportional | script.js:2688-2700 | with non-negative pools the take is exactly proportional and within each pool |
| Split.WithdrawnTakesExactly | script.js:2654-2664 | a withdrawal up to the total takes exactly that amount from the three portfolios, each in proportion to its size |
| Split.WithdrawnBeyondTotalEmpties | script.js:2654-2664 | a withdrawal above the total empties all three portfolios |
| Split.SleeveYearStep | script.js:2602-2665 | the loop body computes one year of the sleeve returns and the new portfolio values |
| Split.WithdrawProportionally | script.js:2654-2664 | computes the clamped proportional withdrawal |
| Split.SleeveReturnArrays | script.js:2595-2665 | the loop writes every year's rounded stock and bond return; the start row holds 0 |
| Split.OpeningSplitsSeeds | script.js:2675-2685 | before rounding, the opening stock and bond principal add up to the three seeds; the opening returns are 0 |
| Split.HoldingsNonNegative | script.js:2740-2743 | after the start row all four series are non-negative |
| Split.WithdrawNothing | script.js:2726-2738 | without an outflow the pools are unchanged |
| Split.WithdrawReturnsFirst | script.js:2726-2738 | an outflow the returns can cover comes out of the returns alone and leaves principal untouched |
| Split.WithdrawThenPrincipal | script.js:2726-2738 | a larger outflow empties the returns and takes the remainder from principal, in proportion, or all of it |
| Split.WaterfallYear | script.js:2702-2744 | the loop body computes one waterfall year |
| Split.Waterfall | script.js:2668-2744 | the four arrays hold the opening split and then one waterfall year per row |
| Split.PrincipalReturnSplit | script.js:2569-2752 | the four series are the year-by-year split of the flows and returns |
| Split.StockPortionBounds | script.js:2833-2842 | the stock portion lies in [0, 100]; it is 100 for a row of stocks only and 0 for a row without stocks |
| Split.StockPortionPercentages | script.js:2829-2846 | the loop gives each row's rounded stock portion |
| Split.IndexFlatBeyondPath | script.js:2772-2788 | past the end of the saved path the index stays flat |
| Split.IndexPositive | script.js:2784-2787 | when every weighted return exceeds -100 %, the index stays positive |
| Split.IndexWithoutReturns | script.js:2765-2788 | on a path of zero returns the index stays at 100 |
| Split.IndexYear | script.js:2773-2798 | one year compounds the index, gives its gain over 100 in percent, and the year's kroner return |
| Split.IndexSeries | script.js:2765-2804 | the start entry, then one entry per year: the index, its percentage gain, and the kroner return |
| Split.AccumulatedReturnData | script.js:2755-2807 | empty without a saved path or schedule; otherwise the labels, index, percentage and kroner series of every year |

## Left out

- Rendering is not modelled: chart components, option objects, colours, labels, JSX, modals, layout, keyboard listeners, clipboard and mounting. None of it computes engine values.
- Random draws are not modelled. `generateNormalRandom` uses `Math.random`, `log`, `cos` and `sqrt`, so the sampled return paths are inputs to the Monte Carlo functions.
- Transcendental floating point is not modelled: the `Math.sqrt` for the standard deviation, the normal-density curve and the heights of the mean and sigma marker lines. The standard deviation is an input where the binning needs it.
- Formatting is not modelled: number and label formatting through `toFixed` and `Intl.NumberFormat`, and the text export and import. The round trip depends on library formatting and parsing that is not part of this model.
- `handleResetAll` (script.js:1099-1119) is not modelled. It is a reset to a constant record, with no computation.
- The React memo keys appear only as "key 0 gives an empty result".
- IEEE floating point is not modelled: NaN, Infinity and rounding drift do not exist in `real`.
  - The `|| 0` defaults for missing numbers are not modelled.
  - The `isNaN`/`isFinite` guard of the frequency table reduces to its `stdDev <= 0` test.
  - The 0.01 reconciliation threshold is kept literally.
- Year counts are `nat`, so "no payout years" is `payoutYears == 0`.
- Simulated returns are one sequence of (stock, bond) pairs. The code's separate stock and bond lists, and its length tests, assume equal lengths.
- Params leaves out state fields that the engine never reads: `row3StockAllocation`, `desiredAnnualPayoutAfterTax` and the UI flags.
- The dead `portfolioValues` loop at the start of `calculateMaxPayout` (script.js:1217-1236) is not modelled. Its result is never used.
- Sorting.SortAscending: the library sort of the samples is modelled as insertion sort. Any correct sort gives the same sorted permutation, but the library's algorithm itself is not modelled.
- Statistics.FrequencyTable: the descending sort by bin centre (script.js:1560) is modelled as reading the intervals from last to first. The centres strictly increase, so this is the order the sort produces (FrequencyTableShape).
- The second copy of the histogram and frequency table, for the portfolio-value samples (script.js:1615-1830), is not modelled separately. It is the same code over other samples, and the same Statistics functions describe it.
- GoalSeek: each solver sees the projection only through an abstract `f`, so the model does not restate what `calculatePrognosis` computes inside the solver.
- GoalSeek.Portfolio1GoalSeek writes the Portefølje I size directly, as the code does. It does not pass through `handleStateChange`, so `initialStockAllocation` and the invested-capital clamp are not updated.
- MonteCarlo.TrialPayouts: its own contract states only the length. The sample properties are in PayoutSamplesFacts and TrialPayoutsNonNegative.
- Split.Waterfall and Split.PrincipalReturnSplit require `len >= 1`. The projection always emits its start row, so the split never sees an empty series.
- Split.AllocateFromTwo: the proportional result is proved only for non-negative pools. For pools of any sign, AllocateFromTwoTakesAmount states what still holds: the take comes out whole and no pool gives more than it holds.
- The split and the index chart take the projection's record series (savings, event totals, net payouts, allocation schedule) as inputs. They are not recomputed from the projection.
- Prognosis.Run: the allocation schedule is every year's fallback percentage, which is always initialStockAllocation, as PopulateAnnualStockPercentages proves.
