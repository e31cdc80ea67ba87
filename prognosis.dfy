/** calculatePrognosis: the year-by-year projection of the portfolio over
    the accumulation and payout years, with the chart rows it records, and
    what holds across the whole run. */
module Prognosis {
  import opened Numeric
  import opened Parameters
  import opened EventFlows
  import opened PrognosisYear
  import Allocation

  /** The accumulators after the first k years. The fallback stock
      percentage of every year is initialStockAllocation, which is what each
      entry of the allocation schedule holds. */
  function Run(c: Context, k: nat): Accumulators
    decreases k, 0
  {
    if k == 0 then InitialAccumulators(c.p) else Year(c, k - 1).acc
  }

  /** Year j (0-based) of the run, from the accumulators after j years. */
  function Year(c: Context, j: nat): YearResult
    decreases j, 1
  {
    Advance(c, j, c.p.initialStockAllocation, Run(c, j), YearEvents(c.p, j))
  }

  /** The value calculatePrognosis returns: the aggregate after the last year. */
  function FinalPortfolioValue(c: Context): real
  {
    PortfolioValueAfter(c, c.p.TotalYears())
  }

  /** calculatePrognosis: the start row and one row per simulated year, and
      the final portfolio value. */
  method CalculatePrognosis(p: Params, simButtonActive: bool, simulatedReturns: seq<ReturnPair>)
    returns (rows: seq<YearRow>, finalPortfolioValue: real)
    ensures var c := ContextOf(p, simButtonActive, simulatedReturns);
            && |rows| == p.TotalYears() + 1
            && rows[0] == StartRow(p)
            && (forall j :: 0 <= j < p.TotalYears() ==> rows[j + 1] == Year(c, j).row)
            && finalPortfolioValue == FinalPortfolioValue(c)
  {
    var c := ContextOf(p, simButtonActive, simulatedReturns);
    var annualStockPercentages := Allocation.PopulateAnnualStockPercentages(p);
    var totalSimulatedYears := p.investmentYears + p.payoutYears;
    var acc := InitialAccumulators(p);
    rows := [StartRow(p)];
    for i := 0 to totalSimulatedYears
      invariant acc == AccumulatorsAfter(c, i)
      invariant |rows| == i + 1 && rows[0] == StartRow(p)
      invariant forall j :: 0 <= j < i ==> rows[j + 1] == Year(c, j).row
    {
      var result := ProjectYear(c, i, annualStockPercentages[i], acc);
      var reconciled := result.acc;
      var row := result.row;
      acc := reconciled;
      rows := rows + [row];
    }
    finalPortfolioValue := acc.currentPortfolioValue;
  }

  /** The accumulators after the first k years (a name for Run that the
      verifier does not see through more than one year at a time). */
  function AccumulatorsAfter(c: Context, k: nat): Accumulators
  {
    Run(c, k)
  }

  /** The body of the yearly loop: the three passes over the events, then
      the phases of the year. Given the state after i years and the year's
      scheduled stock percentage, it computes year i of the run. */
  method ProjectYear(c: Context, i: nat, scheduled: real, acc: Accumulators) returns (result: YearResult)
    requires scheduled == c.p.initialStockAllocation
    requires acc == AccumulatorsAfter(c, i)
    ensures result == Year(c, i)
  {
    var p := c.p;
    var year := START_YEAR + i;
    var isInvestmentYear := i < p.investmentYears;
    // the three passes over the events
    var totalPositive, eventWithdrawal, netEventAmountForChart := ScanEvents(p.events, year);
    var totalInflow := TotalInflow(p, isInvestmentYear, totalPositive);
    var eventInflowToPortfolio1 := SumActiveInflows(p.events, year, false);
    var addToInvestedFromEvents := 0.0;
    if totalInflow > 0.0 {
      addToInvestedFromEvents := SumActiveInflows(p.events, year, true);
    }
    var ev := EventSums(totalPositive, eventWithdrawal, netEventAmountForChart,
                        eventInflowToPortfolio1, addToInvestedFromEvents);
    assert ev == YearEvents(p, i);
    // the phases of the year
    result := Advance(c, i, scheduled, acc, ev);
  }

  // ---------------------------------------------------------------------
  // Properties of the run

  /** Each year first pays (when taxes are enabled) the tax deferred by the
      year before, the Run value it starts from, and shows that payment as
      its stock / dividend tax. */
  lemma DeferredTaxPaidNextYear(c: Context, k: nat)
    ensures var taxes := c.p.taxCalculationEnabled;
            && Year(c, k).eventTaxPaid == (if taxes then Run(c, k).deferredEventTax else 0.0)
            && Year(c, k).bondTaxPaid == (if taxes then Run(c, k).deferredBondTax else 0.0)
            && Year(c, k).row.skatt2 == Round(-(if taxes then Run(c, k).deferredEventTax else 0.0))
  {
    AdvanceSettlesDeferredTax(c, k, c.p.initialStockAllocation, Run(c, k), YearEvents(c.p, k));
  }

  /** With taxes switched off nothing is deferred or charged, and every year
      shows zero tax. */
  lemma TaxesOffMeansNoTax(c: Context, j: nat)
    requires !c.p.taxCalculationEnabled
    ensures Run(c, j).deferredEventTax == 0.0 && Run(c, j).deferredBondTax == 0.0
    ensures Year(c, j).row.skatt2 == 0 && Year(c, j).row.renteskatt == 0
  {
    if j > 0 {
      AdvanceTaxesOff(c, j - 1, c.p.initialStockAllocation, Run(c, j - 1), YearEvents(c.p, j - 1));
    }
    AdvanceTaxesOff(c, j, c.p.initialStockAllocation, Run(c, j), YearEvents(c.p, j));
    AdvanceSettlesDeferredTax(c, j, c.p.initialStockAllocation, Run(c, j), YearEvents(c.p, j));
    AdvanceRow(c, j, c.p.initialStockAllocation, Run(c, j), YearEvents(c.p, j));
    assert Round(-(0.0 + 0.0)) == 0;
  }

  /** The untaxed bond return pool after the first k years. */
  function UntaxedPoolAfter(c: Context, k: nat): real
  {
    Run(c, k).untaxedBondReturnPool
  }

  /** One year with taxes off leaves the untaxed bond pool as it was. */
  lemma TaxesOffKeepsPoolStep(c: Context, j: nat)
    requires !c.p.taxCalculationEnabled
    ensures UntaxedPoolAfter(c, j + 1) == UntaxedPoolAfter(c, j)
  {
    assert Run(c, j + 1) == Year(c, j).acc;
    AdvanceTaxesOff(c, j, c.p.initialStockAllocation, Run(c, j), YearEvents(c.p, j));
  }

  /** With taxes switched off the untaxed bond pool stays empty. */
  lemma {:induction false} TaxesOffKeepsPoolEmpty(c: Context, k: nat)
    requires !c.p.taxCalculationEnabled
    ensures UntaxedPoolAfter(c, k) == 0.0
  {
    if k > 0 {
      TaxesOffKeepsPoolEmpty(c, k - 1);
      TaxesOffKeepsPoolStep(c, k - 1);
    }
  }

  /** The conditions under which the invested capital stays non-negative. */
  predicate TaxFreeCapitalConditions(p: Params)
  {
    p.investedCapital >= 0.0 && p.shieldingRate >= -100.0 && p.row1StockAllocation >= 0.0
  }

  /** The tax-free capital left after the first k years. */
  function TaxFreeCapitalAfter(c: Context, k: nat): real
  {
    Run(c, k).taxFreeCapitalRemaining
  }

  /** One year keeps a non-negative tax-free capital non-negative. */
  lemma TaxFreeCapitalStep(c: Context, j: nat)
    requires TaxFreeCapitalConditions(c.p)
    requires TaxFreeCapitalAfter(c, j) >= 0.0
    ensures TaxFreeCapitalAfter(c, j + 1) >= 0.0
  {
    assert Run(c, j + 1) == Year(c, j).acc;
    AdvanceKeepsTaxFreeCapital(c, j, c.p.initialStockAllocation, Run(c, j), YearEvents(c.p, j));
  }

  /** The tax-free invested capital never becomes negative, given a
      non-negative start, a shielding rate of at least -100 % and a
      non-negative Portefølje I allocation. */
  lemma {:induction false} TaxFreeCapitalNeverNegative(c: Context, k: nat)
    requires TaxFreeCapitalConditions(c.p)
    ensures TaxFreeCapitalAfter(c, k) >= 0.0
  {
    if k > 0 {
      TaxFreeCapitalNeverNegative(c, k - 1);
      TaxFreeCapitalStep(c, k - 1);
    }
  }

  /** So the invested-capital chart row is never negative either. */
  lemma InvestedCapitalRowNonNegative(c: Context, j: nat)
    requires TaxFreeCapitalConditions(c.p)
    ensures Year(c, j).row.investedCapital >= 0
  {
    TaxFreeCapitalNeverNegative(c, j + 1);
    assert Run(c, j + 1) == Year(c, j).acc;
    AdvanceRow(c, j, c.p.initialStockAllocation, Run(c, j), YearEvents(c.p, j));
    RoundMonotone(0.0, Year(c, j).acc.taxFreeCapitalRemaining);
    RoundOfInt(0);
  }

  /** All the flows that changed the aggregate in one year. */
  function NetFlow(y: YearResult): real
  {
    - y.eventTaxPaid - y.bondTaxPaid + y.totalInflow + y.netReturnBeforeTax
    - y.annualBondTaxAmount - y.grossWithdrawal + y.eventWithdrawal
  }

  /** One step of the run: the next accumulators are the year's result, the
      aggregate changes by exactly the year's flows, and the sub-portfolios
      agree with the aggregate again. */
  lemma YearLedger(c: Context, j: nat)
    ensures Run(c, j + 1) == Year(c, j).acc
    ensures Run(c, j + 1).currentPortfolioValue == Run(c, j).currentPortfolioValue + NetFlow(Year(c, j))
    ensures Reconciled(Run(c, j + 1))
  {
    AdvanceLedger(c, j, c.p.initialStockAllocation, Run(c, j), YearEvents(c.p, j));
  }

  /** The scenario with returns, costs and events all zero and no payout. */
  predicate ZeroReturnScenario(c: Context)
  {
    && |c.p.events| == 0
    && c.p.stockReturnRate == 0.0 && c.p.bondReturnRate == 0.0
    && (forall i :: 0 <= i < |c.simulatedReturns| ==> c.simulatedReturns[i] == ReturnPair(0.0, 0.0))
    && c.p.kpiRate == 0.0 && c.p.advisoryFeeRate == 0.0
    && c.p.desiredAnnualConsumptionPayout + c.p.desiredAnnualWealthTaxPayout <= 0.0
  }

  /** The savings paid in during the first k years. */
  function SavingsPaidIn(p: Params, k: nat): real
  {
    (if k <= p.investmentYears then k else p.investmentYears) as real * p.annualSavings
  }

  /** The savings paid in grow by the year's savings in an accumulation year. */
  lemma SavingsPaidInStep(p: Params, j: nat)
    ensures SavingsPaidIn(p, j + 1) == SavingsPaidIn(p, j) + (if j < p.investmentYears then p.annualSavings else 0.0)
  {
    if j < p.investmentYears {
      assert (j + 1) as real * p.annualSavings == j as real * p.annualSavings + p.annualSavings;
    }
  }

  /** The portfolio value after the first k years. */
  function PortfolioValueAfter(c: Context, k: nat): real
  {
    Run(c, k).currentPortfolioValue
  }

  /** No tax is deferred to the year after the first k years. */
  predicate NothingDeferredAfter(c: Context, k: nat)
  {
    Run(c, k).deferredEventTax == 0.0 && Run(c, k).deferredBondTax == 0.0
  }

  /** In that scenario one year adds the savings, if it is an accumulation
      year, and nothing else, and defers no tax. */
  lemma ZeroReturnStep(c: Context, j: nat)
    requires ZeroReturnScenario(c)
    requires NothingDeferredAfter(c, j)
    ensures NothingDeferredAfter(c, j + 1)
    ensures PortfolioValueAfter(c, j + 1)
              == PortfolioValueAfter(c, j) + (if j < c.p.investmentYears then c.p.annualSavings else 0.0)
  {
    assert Run(c, j + 1) == Year(c, j).acc;
    assert YearRates(c, j) == ReturnPair(0.0, 0.0);
    var ev := YearEvents(c.p, j);
    assert ev.totalPositive == 0.0 && ev.eventWithdrawal == 0.0;
    AdvanceWithInflowOnly(c, j, c.p.initialStockAllocation, Run(c, j), ev);
  }

  /** Returns, costs and events all zero and no payout: the value is the
      seeds plus the savings paid in so far, and nothing else. */
  lemma {:induction false} ZeroReturnGrowsBySavingsOnly(c: Context, k: nat)
    requires ZeroReturnScenario(c)
    ensures NothingDeferredAfter(c, k)
    ensures PortfolioValueAfter(c, k) == c.p.SeedTotal() + SavingsPaidIn(c.p, k)
  {
    if k > 0 {
      ZeroReturnGrowsBySavingsOnly(c, k - 1);
      ZeroReturnStep(c, k - 1);
      SavingsPaidInStep(c.p, k - 1);
    }
  }
}
