/** One simulated year of the retirement projection (the body of the yearly
    loop of calculatePrognosis), split into its phases: settle the deferred
    tax, grow the shielding of the tax-free capital, collect the inflows,
    choose the year's stock percentage, raise the invested capital, grow the
    portfolio, pay the ordinary payout, pay the event withdrawals and bring
    the three sub-portfolios back in line with the aggregate. */
module PrognosisYear {
  import opened Numeric
  import opened Parameters
  import opened EventFlows
  import Allocation

  /** The quantities the yearly loop carries from one year to the next. */
  datatype Accumulators = Accumulators(
    currentPortfolioValue: real,
    portfolio1Value: real,
    portfolio2Value: real,
    portfolio3Value: real,
    taxFreeCapitalRemaining: real,
    deferredEventTax: real,         // stock and dividend tax to pay next year
    deferredBondTax: real,          // bond tax to pay next year
    untaxedBondReturnPool: real)    // bond returns not yet taxed (deferred mode)
  {
    function SubPortfolioSum(): real { portfolio1Value + portfolio2Value + portfolio3Value }
  }

  /** What one run of the projection reads besides the state: whether the
      simulated returns are used, and those returns (in percent). */
  datatype Context = Context(p: Params, useSimulatedReturns: bool, simulatedReturns: seq<ReturnPair>)

  /** `simButtonActive && simulatedReturns && stockReturns.length > 0`. */
  function ContextOf(p: Params, simButtonActive: bool, simulatedReturns: seq<ReturnPair>): Context
  {
    Context(p, simButtonActive && |simulatedReturns| > 0, simulatedReturns)
  }

  /** The chart values pushed for one row of the projection. */
  datatype YearRow = YearRow(
    hovedstol: int,          // portfolio value at the start of the year
    avkastning: int,         // return after index costs and fees, before tax
    sparing: int,            // the year's savings
    eventTotal: int,         // net event cash flow
    nettoUtbetaling: int,    // ordinary payout, as a negative number
    skatt2: int,             // stock / dividend tax paid this year, negative
    renteskatt: int,         // bond tax paid this year, negative
    stockPct: int,
    bondPct: int,
    investedCapital: int)    // tax-free capital left at the end of the year

  /** The opening accumulators: the three seeds, the invested capital, and
      empty deferred-tax pools. */
  function InitialAccumulators(p: Params): Accumulators
  {
    Accumulators(p.SeedTotal(), p.initialPortfolioSize, p.pensionPortfolioSize,
                 p.additionalPensionAmount, p.investedCapital, 0.0, 0.0, 0.0)
  }

  /** The "start" row before the first year. */
  function StartRow(p: Params): YearRow
  {
    YearRow(Round(p.SeedTotal()), 0, 0, 0, 0, 0, 0,
            Round(p.initialStockAllocation), Round(100.0 - p.initialStockAllocation),
            Round(p.investedCapital))
  }

  // ---------------------------------------------------------------------
  // 1. Deferred tax from last year

  datatype Settlement = Settlement(acc: Accumulators, eventTaxPaid: real, bondTaxPaid: real)

  /** Pays last year's deferred event and bond tax out of the portfolio when
      taxes are enabled; the deferred amounts are cleared either way. */
  function SettleDeferredTax(a: Accumulators, taxesEnabled: bool): (r: Settlement)
    ensures r.eventTaxPaid == (if taxesEnabled then a.deferredEventTax else 0.0)
    ensures r.bondTaxPaid == (if taxesEnabled then a.deferredBondTax else 0.0)
    ensures r.acc == a.(currentPortfolioValue := a.currentPortfolioValue - r.eventTaxPaid - r.bondTaxPaid,
                        deferredEventTax := 0.0, deferredBondTax := 0.0)
  {
    var eventTaxToPayThisYear := if taxesEnabled then a.deferredEventTax else 0.0;
    var bondTaxToPayThisYear := if taxesEnabled then a.deferredBondTax else 0.0;
    var value := if taxesEnabled then a.currentPortfolioValue - (eventTaxToPayThisYear + bondTaxToPayThisYear)
                 else a.currentPortfolioValue;
    Settlement(a.(currentPortfolioValue := value, deferredEventTax := 0.0, deferredBondTax := 0.0),
               eventTaxToPayThisYear, bondTaxToPayThisYear)
  }

  // ---------------------------------------------------------------------
  // 2. Shielding

  /** The tax-free capital grows by the shielding rate (a fraction). */
  function GrowTaxFreeCapital(a: Accumulators, shieldingRate: real): (r: Accumulators)
    ensures r == a.(taxFreeCapitalRemaining := r.taxFreeCapitalRemaining)
    ensures a.taxFreeCapitalRemaining >= 0.0 && shieldingRate >= -1.0 ==> r.taxFreeCapitalRemaining >= 0.0
  {
    MulNonNegative(a.taxFreeCapitalRemaining, 1.0 + shieldingRate);
    a.(taxFreeCapitalRemaining := a.taxFreeCapitalRemaining * (1.0 + shieldingRate))
  }

  // ---------------------------------------------------------------------
  // 3. Inflows

  /** The event sums one year reads, as its three forEach loops over the
      events collect them. */
  datatype EventSums = EventSums(
    totalPositive: real,              // active inflows (first loop)
    eventWithdrawal: real,            // active withdrawals, negative (first loop)
    netEventAmount: real,             // all active amounts (first loop)
    inflowToPortfolio1: real,         // active inflows (second loop)
    addToInvestedFromEvents: real)    // flagged active inflows (third loop)

  /** The year's inflow into the aggregate: the savings (in an accumulation
      year, whatever their sign) and the active positive events. */
  function TotalInflow(p: Params, isInvestmentYear: bool, totalPositive: real): real
  {
    (if isInvestmentYear then p.annualSavings else 0.0) + totalPositive
  }

  /** The event sums of simulated year i. The third loop only runs when the
      year has an inflow at all; otherwise nothing flagged is added. */
  function YearEvents(p: Params, i: nat): (ev: EventSums)
    ensures ev.inflowToPortfolio1 == ev.totalPositive
    ensures ev.netEventAmount == ev.totalPositive + ev.eventWithdrawal
    ensures ev.eventWithdrawal <= 0.0
    ensures 0.0 <= ev.addToInvestedFromEvents <= ev.totalPositive
    ensures TotalInflow(p, i < p.investmentYears, ev.totalPositive) <= 0.0 ==> ev.addToInvestedFromEvents == 0.0
  {
    var year := START_YEAR + i;
    var totalPositive := PositiveEventSum(p.events, year);
    NetEventSplit(p.events, year);
    EventSums(totalPositive, NegativeEventSum(p.events, year), NetEventSum(p.events, year), totalPositive,
              if TotalInflow(p, i < p.investmentYears, totalPositive) > 0.0 then CapitalEventSum(p.events, year) else 0.0)
  }

  /** Adds the inflow to the aggregate; positive savings and the event inflows
      go to Portefølje I. */
  function ApplyInflows(p: Params, isInvestmentYear: bool, eventInflowToPortfolio1: real, totalInflow: real, a: Accumulators): (r: Accumulators)
    ensures r == a.(currentPortfolioValue := a.currentPortfolioValue + totalInflow,
                    portfolio1Value := r.portfolio1Value)
  {
    var p1 := if isInvestmentYear && p.annualSavings > 0.0 then a.portfolio1Value + p.annualSavings else a.portfolio1Value;
    a.(portfolio1Value := p1 + eventInflowToPortfolio1,
       currentPortfolioValue := a.currentPortfolioValue + totalInflow)
  }

  // ---------------------------------------------------------------------
  // 4. The year's stock percentage

  /** The sub-portfolios' size-weighted stock percentage, before rounding. */
  function SubPortfolioStockAverage(p: Params, a: Accumulators): real
    requires a.SubPortfolioSum() > 0.0
  {
    (a.portfolio1Value * p.row1StockAllocation + a.portfolio2Value * p.row2StockAllocation
      + a.portfolio3Value * 0.0) / a.SubPortfolioSum()
  }

  /** With non-negative sub-portfolios and allocations in 0..100 the rounded
      weighted average is a percentage. */
  lemma SubPortfolioStockAverageBounds(p: Params, a: Accumulators)
    requires a.SubPortfolioSum() > 0.0
    ensures a.portfolio1Value >= 0.0 && a.portfolio2Value >= 0.0 && a.portfolio3Value >= 0.0
            && 0.0 <= p.row1StockAllocation <= 100.0 && 0.0 <= p.row2StockAllocation <= 100.0
            ==> 0 <= Round(SubPortfolioStockAverage(p, a)) <= 100
  {
    var w1, w2, w3 := a.portfolio1Value, a.portfolio2Value, a.portfolio3Value;
    var r1, r2 := p.row1StockAllocation, p.row2StockAllocation;
    if w1 >= 0.0 && w2 >= 0.0 && w3 >= 0.0 && 0.0 <= r1 <= 100.0 && 0.0 <= r2 <= 100.0 {
      var avg := (w1 * r1 + w2 * r2 + w3 * 0.0) / (w1 + w2 + w3);
      Allocation.WeightedAverageBounds(w1, w2, w3, r1, r2, 0.0, 0.0, 100.0);
      assert 0.0 <= avg <= 100.0;
      assert SubPortfolioStockAverage(p, a) == avg;
      RoundWithin(avg, 0, 100);
    }
  }

  /** The sub-portfolios' weighted stock percentage, rounded, or the
      scheduled entry when they hold nothing. With non-negative
      sub-portfolios and allocations in 0..100 it is a percentage. */
  function YearStockPercentage(p: Params, scheduled: real, a: Accumulators): (pct: real)
    ensures a.SubPortfolioSum() <= 0.0 ==> pct == scheduled
    ensures a.SubPortfolioSum() > 0.0 ==> pct == Round(SubPortfolioStockAverage(p, a)) as real
    ensures a.portfolio1Value >= 0.0 && a.portfolio2Value >= 0.0 && a.portfolio3Value >= 0.0
            && 0.0 <= p.row1StockAllocation <= 100.0 && 0.0 <= p.row2StockAllocation <= 100.0
            && 0.0 <= scheduled <= 100.0
            ==> 0.0 <= pct <= 100.0
  {
    if a.SubPortfolioSum() > 0.0 then
      var avg := SubPortfolioStockAverage(p, a);
      SubPortfolioStockAverageBounds(p, a);
      Round(avg) as real
    else
      scheduled
  }

  /** The tax-free capital added this year: the savings (for Privat only the
      share Portefølje I holds in stocks) and the flagged event inflows.
      Never negative when neither the Portefølje I allocation nor the flagged
      inflows are. */
  function InvestedCapitalAddition(p: Params, isInvestmentYear: bool, addToInvestedFromEvents: real): (r: real)
    ensures p.row1StockAllocation >= 0.0 && addToInvestedFromEvents >= 0.0 ==> r >= 0.0
  {
    var savingsPart :=
      if isInvestmentYear && p.annualSavings > 0.0 then
        (if p.investorType == Privat then p.annualSavings * (p.row1StockAllocation / 100.0) else p.annualSavings)
      else 0.0;
    MulNonNegative(p.annualSavings, p.row1StockAllocation / 100.0);
    savingsPart + addToInvestedFromEvents
  }

  // ---------------------------------------------------------------------
  // 5. Growth and running bond tax

  datatype Growth = Growth(acc: Accumulators, netReturnBeforeTax: real, annualBondTaxAmount: real)

  /** The year's return rates as fractions: the simulated pair while one is
      left, otherwise the expected rates. */
  function YearRates(c: Context, i: nat): ReturnPair
  {
    if c.useSimulatedReturns && i < |c.simulatedReturns| then
      ReturnPair(c.simulatedReturns[i].stock / 100.0, c.simulatedReturns[i].bond / 100.0)
    else
      ReturnPair(c.p.stockReturnRate / 100.0, c.p.bondReturnRate / 100.0)
  }

  /** The returns of the stock and bond sleeves of one year. */
  datatype SleeveReturns = SleeveReturns(
    grossStockReturn: real,
    grossBondReturn: real,
    netStockReturn: real,
    netBondReturnBeforeTax: real)

  /** The year's return rate of a portfolio with the given stock percentage,
      less the index cost and the fee (all as fractions). */
  function NetRate(pct: real, rates: ReturnPair, kpiRate: real, advisoryFeeRate: real): real
  {
    (pct / 100.0) * rates.stock + ((100.0 - pct) / 100.0) * rates.bond - kpiRate - advisoryFeeRate
  }

  /** The gross return of the bond sleeve of value v. */
  function BondSleeveReturn(v: real, pct: real, rates: ReturnPair): real
  {
    v * ((100.0 - pct) / 100.0) * rates.bond
  }

  /** Splits the value into its stock and bond sleeves by the stock
      percentage and charges the index cost and the fee on each in proportion:
      together the sleeves return the value times the net rate, and the bond
      sleeve's gross return is the value's bond share times the bond rate. */
  function SplitReturns(v: real, pct: real, rates: ReturnPair, kpiRate: real, advisoryFeeRate: real): (s: SleeveReturns)
    ensures s.netStockReturn + s.netBondReturnBeforeTax == v * NetRate(pct, rates, kpiRate, advisoryFeeRate)
    ensures s.grossBondReturn == BondSleeveReturn(v, pct, rates)
  {
    var stockValue := v * (pct / 100.0);
    var bondValue := v * ((100.0 - pct) / 100.0);
    var grossStockReturn := stockValue * rates.stock;
    var grossBondReturn := bondValue * rates.bond;
    assert stockValue + bondValue == v;
    assert grossStockReturn == v * ((pct / 100.0) * rates.stock);
    assert grossBondReturn == v * (((100.0 - pct) / 100.0) * rates.bond);
    assert stockValue * kpiRate + bondValue * kpiRate == v * kpiRate;
    assert stockValue * advisoryFeeRate + bondValue * advisoryFeeRate == v * advisoryFeeRate;
    assert v * NetRate(pct, rates, kpiRate, advisoryFeeRate)
        == v * ((pct / 100.0) * rates.stock) + v * (((100.0 - pct) / 100.0) * rates.bond) - v * kpiRate - v * advisoryFeeRate;
    SleeveReturns(grossStockReturn, grossBondReturn,
                  grossStockReturn - stockValue * kpiRate - stockValue * advisoryFeeRate,
                  grossBondReturn - bondValue * kpiRate - bondValue * advisoryFeeRate)
  }

  /** The return of one sub-portfolio with the given stock percentage, net of
      costs and, unless deferred, of the running bond tax. */
  function SubPortfolioReturn(value: real, stockPct: real, rates: ReturnPair, kpi: real, fee: real, bondTaxFactor: real): real
  {
    value * ((stockPct / 100.0) * rates.stock + ((100.0 - stockPct) / 100.0) * rates.bond)
      - value * kpi - value * fee
      - (value * ((100.0 - stockPct) / 100.0) * rates.bond * bondTaxFactor)
  }

  /** Grows each sub-portfolio by its own allocation, while they hold
      something; nothing else changes. */
  function GrowSubPortfolios(p: Params, rates: ReturnPair, bondTaxFactor: real, a: Accumulators): (r: Accumulators)
    ensures r == a.(portfolio1Value := r.portfolio1Value, portfolio2Value := r.portfolio2Value,
                    portfolio3Value := r.portfolio3Value)
    ensures a.SubPortfolioSum() <= 0.0 ==> r == a
  {
    var kpiRate := p.kpiRate / 100.0;
    var advisoryFeeRate := p.advisoryFeeRate / 100.0;
    if a.SubPortfolioSum() > 0.0 then
      a.(portfolio1Value := a.portfolio1Value + SubPortfolioReturn(a.portfolio1Value, p.row1StockAllocation, rates, kpiRate, advisoryFeeRate, bondTaxFactor),
         portfolio2Value := a.portfolio2Value + SubPortfolioReturn(a.portfolio2Value, p.row2StockAllocation, rates, kpiRate, advisoryFeeRate, bondTaxFactor),
         portfolio3Value := a.portfolio3Value + SubPortfolioReturn(a.portfolio3Value, 0.0, rates, kpiRate, advisoryFeeRate, bondTaxFactor))
    else a
  }

  /** Grows a positive portfolio by its net return: in deferred mode the gross
      bond return goes to the untaxed pool instead of being taxed, otherwise
      (with taxes on) the running bond tax is taken now. The net return is the
      value times the weighted rate less the index cost and the fee. */
  function GrowPortfolio(p: Params, taxesEnabled: bool, pct: real, rates: ReturnPair, a: Accumulators): (g: Growth)
    ensures g.acc == a.(currentPortfolioValue := g.acc.currentPortfolioValue,
                        portfolio1Value := g.acc.portfolio1Value,
                        portfolio2Value := g.acc.portfolio2Value,
                        portfolio3Value := g.acc.portfolio3Value,
                        untaxedBondReturnPool := g.acc.untaxedBondReturnPool)
    ensures a.currentPortfolioValue <= 0.0 ==> g == Growth(a, 0.0, 0.0)
    ensures g.acc.currentPortfolioValue == a.currentPortfolioValue + g.netReturnBeforeTax - g.annualBondTaxAmount
    ensures a.currentPortfolioValue > 0.0 ==>
              g.netReturnBeforeTax == a.currentPortfolioValue * NetRate(pct, rates, p.kpiRate / 100.0, p.advisoryFeeRate / 100.0)
    ensures !(taxesEnabled && !p.deferredInterestTax) ==> g.annualBondTaxAmount == 0.0
    ensures taxesEnabled && !p.deferredInterestTax && a.currentPortfolioValue > 0.0 ==>
              g.annualBondTaxAmount == BondSleeveReturn(a.currentPortfolioValue, pct, rates) * (p.manualBondTaxRate / 100.0)
    ensures taxesEnabled && p.deferredInterestTax && a.currentPortfolioValue > 0.0 ==>
              g.acc.untaxedBondReturnPool == a.untaxedBondReturnPool + BondSleeveReturn(a.currentPortfolioValue, pct, rates)
    ensures !(taxesEnabled && p.deferredInterestTax) ==> g.acc.untaxedBondReturnPool == a.untaxedBondReturnPool
  {
    if a.currentPortfolioValue <= 0.0 then Growth(a, 0.0, 0.0)
    else
      var bondTaxRate := p.manualBondTaxRate / 100.0;
      var v := a.currentPortfolioValue;
      var s := SplitReturns(v, pct, rates, p.kpiRate / 100.0, p.advisoryFeeRate / 100.0);
      var totalNetReturnBeforeTax := s.netStockReturn + s.netBondReturnBeforeTax;
      var useDeferredBondTax := taxesEnabled && p.deferredInterestTax;
      var annualBondTaxAmount := if useDeferredBondTax then 0.0 else if taxesEnabled then s.grossBondReturn * bondTaxRate else 0.0;
      var pool := if useDeferredBondTax then a.untaxedBondReturnPool + s.grossBondReturn else a.untaxedBondReturnPool;
      var grown := a.(currentPortfolioValue := v + (s.netStockReturn + (s.netBondReturnBeforeTax - annualBondTaxAmount)),
                      untaxedBondReturnPool := pool);
      var bondTaxFactor := if useDeferredBondTax then 0.0 else if taxesEnabled then bondTaxRate else 0.0;
      Growth(GrowSubPortfolios(p, rates, bondTaxFactor, grown), totalNetReturnBeforeTax, annualBondTaxAmount)
  }

  // ---------------------------------------------------------------------
  // 6. Payouts

  /** The part of a withdrawal that may be taken from the tax-free capital:
      all of it for a company, the stock share for a private person. */
  function TaxFreeEligible(t: InvestorType, amount: real, pct: real): real
  {
    if t == AS then amount else amount * (pct / 100.0)
  }

  /** The untaxed bond pool left after realising the part of it that
      corresponds to the share of the bond sleeve withdrawn: the pool shrinks
      by that fraction, is emptied when the whole sleeve (or more) is taken,
      and is untouched when there is no bond value to take from. */
  function PoolAfterRealisation(pool: real, grossFromBond: real, bondValueNow: real): (r: real)
    ensures pool >= 0.0 && grossFromBond >= 0.0 ==> 0.0 <= r <= pool
    ensures pool >= 0.0 && 0.0 <= grossFromBond <= bondValueNow && 0.0 < bondValueNow ==>
              r == pool - pool * (grossFromBond / bondValueNow)
    ensures pool >= 0.0 && 0.0 < bondValueNow <= grossFromBond ==> r == 0.0
    ensures pool >= 0.0 && bondValueNow <= 0.0 ==> r == pool
  {
    var fractionOfBondPortfolio := if bondValueNow > 0.0 then grossFromBond / bondValueNow else 0.0;
    MulNonNegative(pool, fractionOfBondPortfolio);
    PoolFraction(pool, grossFromBond, bondValueNow);
    var realizedUntaxedBondReturn := Min(pool, pool * fractionOfBondPortfolio);
    pool - realizedUntaxedBondReturn
  }

  /** The pool's share of a withdrawal from a positive bond value is at most
      the pool when no more than the bond value is taken, and at least the
      pool otherwise. */
  lemma PoolFraction(pool: real, grossFromBond: real, bondValueNow: real)
    ensures pool >= 0.0 && 0.0 <= grossFromBond && 0.0 < bondValueNow && grossFromBond <= bondValueNow ==> pool * (grossFromBond / bondValueNow) <= pool
    ensures pool >= 0.0 && 0.0 < bondValueNow < grossFromBond ==> pool * (grossFromBond / bondValueNow) >= pool
  {
    if pool >= 0.0 && 0.0 <= grossFromBond && 0.0 < bondValueNow {
      var fraction := grossFromBond / bondValueNow;
      if grossFromBond <= bondValueNow {
        FractionAtMostOne(grossFromBond, bondValueNow);
        MulAtMost(fraction, 1.0, pool);
      } else {
        FractionAtLeastOne(grossFromBond, bondValueNow);
        MulAtMost(1.0, fraction, pool);
      }
    }
  }

  /** A part of a positive whole is at most one whole. */
  lemma FractionAtMostOne(part: real, whole: real)
    requires 0.0 <= part <= whole && 0.0 < whole
    ensures 0.0 <= part / whole <= 1.0
  {
    var q := part / whole;
    assert q * whole == part;
    if q > 1.0 {
      MulStrict(1.0, q, whole);
    }
  }

  /** More than a positive whole is more than one whole. */
  lemma FractionAtLeastOne(part: real, whole: real)
    requires 0.0 < whole < part
    ensures part / whole > 1.0
  {
    var q := part / whole;
    assert q * whole == part;
    if q <= 1.0 {
      MulAtMost(q, 1.0, whole);
    }
  }

  /** The bond share of an amount, for a stock share of pct percent. */
  function BondShareOf(amount: real, pct: real): (r: real)
    ensures amount >= 0.0 && pct <= 100.0 ==> r >= 0.0
    ensures pct >= 100.0 && amount >= 0.0 ==> r <= 0.0
  {
    MulNonNegative(amount, 1.0 - pct / 100.0);
    MulNonNegative(amount, pct / 100.0 - 1.0);
    amount * (1.0 - pct / 100.0)
  }

  datatype Payout = Payout(acc: Accumulators, grossWithdrawal: real, netWithdrawal: real, fromTaxFree: real)

  /** The ordinary payout of a payout year: first from the tax-free capital
      (only its stock share for Privat), the rest from taxable capital, whose
      stock or dividend tax and, in deferred mode, bond tax fall due next
      year. In deferred mode the untaxed pool is realised in proportion. */
  function OrdinaryPayout(p: Params, isOrdinaryPayoutYear: bool, taxesEnabled: bool, pct: real, a: Accumulators): (r: Payout)
    ensures r.acc == a.(currentPortfolioValue := r.acc.currentPortfolioValue,
                        taxFreeCapitalRemaining := r.acc.taxFreeCapitalRemaining,
                        deferredEventTax := r.acc.deferredEventTax,
                        deferredBondTax := r.acc.deferredBondTax,
                        untaxedBondReturnPool := r.acc.untaxedBondReturnPool)
    ensures var desired := p.desiredAnnualConsumptionPayout + p.desiredAnnualWealthTaxPayout;
            !(isOrdinaryPayoutYear && desired > 0.0) ==> r == Payout(a, 0.0, 0.0, 0.0)
    ensures var desired := p.desiredAnnualConsumptionPayout + p.desiredAnnualWealthTaxPayout;
            isOrdinaryPayoutYear && desired > 0.0 ==>
              && r.netWithdrawal == desired
              && r.fromTaxFree == Min(TaxFreeEligible(p.investorType, desired, pct), a.taxFreeCapitalRemaining)
              && r.acc.taxFreeCapitalRemaining == a.taxFreeCapitalRemaining - r.fromTaxFree
              && r.grossWithdrawal == Max(desired, r.fromTaxFree)
              && r.acc.currentPortfolioValue == a.currentPortfolioValue - r.grossWithdrawal
              && (p.investorType == AS || pct <= 100.0 ==> r.grossWithdrawal == desired)
    ensures a.taxFreeCapitalRemaining >= 0.0 ==> r.acc.taxFreeCapitalRemaining >= 0.0
    ensures !taxesEnabled ==>
              r.acc.deferredEventTax == a.deferredEventTax && r.acc.deferredBondTax == a.deferredBondTax
              && r.acc.untaxedBondReturnPool == a.untaxedBondReturnPool
    ensures !(taxesEnabled && p.deferredInterestTax) ==>
              r.acc.deferredBondTax == a.deferredBondTax && r.acc.untaxedBondReturnPool == a.untaxedBondReturnPool
    ensures p.investorType == Privat
            && (p.desiredAnnualConsumptionPayout + p.desiredAnnualWealthTaxPayout) * (pct / 100.0) <= a.taxFreeCapitalRemaining
            ==> r.acc.deferredEventTax == a.deferredEventTax
    ensures a.untaxedBondReturnPool >= 0.0 ==> 0.0 <= r.acc.untaxedBondReturnPool <= a.untaxedBondReturnPool
  {
    var totalDesiredPayout := p.desiredAnnualConsumptionPayout + p.desiredAnnualWealthTaxPayout;
    if !(isOrdinaryPayoutYear && totalDesiredPayout > 0.0) then Payout(a, 0.0, 0.0, 0.0)
    else
      var desiredNet := totalDesiredPayout;
      var stockShare := pct / 100.0;
      var bondShare := 1.0 - stockShare;
      var taxRate := p.manualStockTaxRate / 100.0;
      var bondTaxRate := p.manualBondTaxRate / 100.0;
      var fromTaxFree := Min(TaxFreeEligible(p.investorType, desiredNet, pct), a.taxFreeCapitalRemaining);
      var taxFree := a.taxFreeCapitalRemaining - fromTaxFree;
      var remainingDesiredNet := desiredNet - fromTaxFree;
      if remainingDesiredNet > 0.0 then
        var stockTax :=
          if !taxesEnabled then 0.0
          else if p.investorType == AS then remainingDesiredNet * taxRate
          else Max(0.0, desiredNet * stockShare - fromTaxFree) * taxRate;
        var deferBond := taxesEnabled && p.deferredInterestTax && bondShare > 0.0;
        var bondPortionOfWithdrawal := BondShareOf(remainingDesiredNet, pct);
        var bondDeferredTax := if deferBond then bondPortionOfWithdrawal * bondTaxRate else 0.0;
        var pool := if deferBond then PoolAfterRealisation(a.untaxedBondReturnPool, bondPortionOfWithdrawal, BondShareOf(a.currentPortfolioValue, pct))
                    else a.untaxedBondReturnPool;
        var grossWithdrawal := fromTaxFree + remainingDesiredNet;
        Payout(a.(currentPortfolioValue := a.currentPortfolioValue - grossWithdrawal,
                  taxFreeCapitalRemaining := taxFree,
                  deferredEventTax := a.deferredEventTax + stockTax,
                  deferredBondTax := a.deferredBondTax + bondDeferredTax,
                  untaxedBondReturnPool := pool),
               grossWithdrawal, desiredNet, fromTaxFree)
      else
        Payout(a.(currentPortfolioValue := a.currentPortfolioValue - fromTaxFree,
                  taxFreeCapitalRemaining := taxFree),
               fromTaxFree, desiredNet, fromTaxFree)
  }

  /** The event withdrawals of the year (a negative sum): first from the
      tax-free capital as for the ordinary payout, the tax on the rest falls
      due next year; the full amount leaves the portfolio. */
  function WithdrawEvents(p: Params, taxesEnabled: bool, pct: real, eventWithdrawal: real, a: Accumulators): (r: Accumulators)
    ensures r == a.(currentPortfolioValue := r.currentPortfolioValue,
                    taxFreeCapitalRemaining := r.taxFreeCapitalRemaining,
                    deferredEventTax := r.deferredEventTax,
                    deferredBondTax := r.deferredBondTax,
                    untaxedBondReturnPool := r.untaxedBondReturnPool)
    ensures eventWithdrawal >= 0.0 ==> r == a
    ensures eventWithdrawal < 0.0 ==>
              r.currentPortfolioValue == a.currentPortfolioValue + eventWithdrawal
              && r.taxFreeCapitalRemaining == a.taxFreeCapitalRemaining
                   - Min(TaxFreeEligible(p.investorType, -eventWithdrawal, pct), a.taxFreeCapitalRemaining)
    ensures a.taxFreeCapitalRemaining >= 0.0 ==> r.taxFreeCapitalRemaining >= 0.0
    ensures !taxesEnabled ==>
              r.deferredEventTax == a.deferredEventTax && r.deferredBondTax == a.deferredBondTax
              && r.untaxedBondReturnPool == a.untaxedBondReturnPool
    ensures !(taxesEnabled && p.deferredInterestTax) ==>
              r.deferredBondTax == a.deferredBondTax && r.untaxedBondReturnPool == a.untaxedBondReturnPool
    ensures p.investorType == Privat && -eventWithdrawal * (pct / 100.0) <= a.taxFreeCapitalRemaining
            ==> r.deferredEventTax == a.deferredEventTax
    ensures a.untaxedBondReturnPool >= 0.0 ==> 0.0 <= r.untaxedBondReturnPool <= a.untaxedBondReturnPool
  {
    if eventWithdrawal >= 0.0 then a
    else
      var withdrawalAmount := Abs(eventWithdrawal);
      var preWithdrawalPortfolioValue := a.currentPortfolioValue;
      var stockShare := pct / 100.0;
      var bondShare := 1.0 - stockShare;
      var taxRate := p.manualStockTaxRate / 100.0;
      var bondTaxRate := p.manualBondTaxRate / 100.0;
      var coveredAmount := Min(TaxFreeEligible(p.investorType, withdrawalAmount, pct), a.taxFreeCapitalRemaining);
      var taxFree := a.taxFreeCapitalRemaining - coveredAmount;
      var withdrawn := a.(currentPortfolioValue := preWithdrawalPortfolioValue - withdrawalAmount,
                          taxFreeCapitalRemaining := taxFree);
      var deferBond := taxesEnabled && p.deferredInterestTax && bondShare > 0.0;
      var bondValueNow := BondShareOf(preWithdrawalPortfolioValue, pct);
      if !taxesEnabled then withdrawn
      else if p.investorType == Privat then
        var taxableFromStock := Max(0.0, withdrawalAmount * stockShare - coveredAmount);
        var taxableFromBond := BondShareOf(withdrawalAmount, pct);
        var stockTax := taxableFromStock * taxRate;
        var bondTaxNextYear := if deferBond then taxableFromBond * bondTaxRate else 0.0;
        var pool := if deferBond then PoolAfterRealisation(a.untaxedBondReturnPool, taxableFromBond, bondValueNow)
                    else a.untaxedBondReturnPool;
        withdrawn.(deferredEventTax := a.deferredEventTax + stockTax,
                   deferredBondTax := a.deferredBondTax + bondTaxNextYear,
                   untaxedBondReturnPool := pool)
      else
        var taxableWithdrawal := withdrawalAmount - coveredAmount;
        if taxableWithdrawal > 0.0 then
          var dividendTax := taxableWithdrawal * taxRate;
          var bondPortionOfWithdrawal := BondShareOf(taxableWithdrawal, pct);
          var bondTaxNextYear := if deferBond then bondPortionOfWithdrawal * bondTaxRate else 0.0;
          var pool := if deferBond then PoolAfterRealisation(a.untaxedBondReturnPool, bondPortionOfWithdrawal, bondValueNow)
                      else a.untaxedBondReturnPool;
          withdrawn.(deferredEventTax := a.deferredEventTax + dividendTax,
                     deferredBondTax := a.deferredBondTax + bondTaxNextYear,
                     untaxedBondReturnPool := pool)
        else withdrawn
  }

  /** The stock or dividend tax a taxed ordinary payout defers to next year:
      for a company the tax rate on the whole taxable remainder, for a private
      person on the stock share not covered by the tax-free capital. Nothing
      is deferred when the tax-free capital covers the payout. */
  lemma PayoutDefersStockTax(p: Params, taxesEnabled: bool, pct: real, a: Accumulators)
    requires taxesEnabled && p.desiredAnnualConsumptionPayout + p.desiredAnnualWealthTaxPayout > 0.0
    ensures var r := OrdinaryPayout(p, true, taxesEnabled, pct, a);
            var desired := p.desiredAnnualConsumptionPayout + p.desiredAnnualWealthTaxPayout;
            var remaining := desired - r.fromTaxFree;
            && (remaining > 0.0 && p.investorType == AS ==>
                  r.acc.deferredEventTax == a.deferredEventTax + remaining * (p.manualStockTaxRate / 100.0))
            && (remaining > 0.0 && p.investorType == Privat ==>
                  r.acc.deferredEventTax == a.deferredEventTax
                    + Max(0.0, desired * (pct / 100.0) - r.fromTaxFree) * (p.manualStockTaxRate / 100.0))
            && (remaining <= 0.0 ==>
                  r.acc.deferredEventTax == a.deferredEventTax && r.acc.deferredBondTax == a.deferredBondTax
                  && r.acc.untaxedBondReturnPool == a.untaxedBondReturnPool)
  {
  }

  /** In deferred mode with a bond share, a taxed ordinary payout defers the
      bond tax on the bond part of the taxable remainder and realises the
      matching part of the untaxed pool, measured against the bond value
      after the year's return; without a bond share it defers no bond tax
      and leaves the pool alone. */
  lemma PayoutDefersBondTax(p: Params, pct: real, a: Accumulators)
    requires p.deferredInterestTax && p.desiredAnnualConsumptionPayout + p.desiredAnnualWealthTaxPayout > 0.0
    ensures var r := OrdinaryPayout(p, true, true, pct, a);
            var remaining := p.desiredAnnualConsumptionPayout + p.desiredAnnualWealthTaxPayout - r.fromTaxFree;
            && (remaining > 0.0 && pct < 100.0 ==>
                  && r.acc.deferredBondTax == a.deferredBondTax + BondShareOf(remaining, pct) * (p.manualBondTaxRate / 100.0)
                  && r.acc.untaxedBondReturnPool
                     == PoolAfterRealisation(a.untaxedBondReturnPool, BondShareOf(remaining, pct), BondShareOf(a.currentPortfolioValue, pct)))
            && (pct >= 100.0 ==>
                  r.acc.deferredBondTax == a.deferredBondTax && r.acc.untaxedBondReturnPool == a.untaxedBondReturnPool)
  {
  }

  /** With non-negative tax rates and a stock share of at most 100 % a payout
      never lowers what is deferred. */
  lemma PayoutDeferralNonNegative(p: Params, isOrdinaryPayoutYear: bool, taxesEnabled: bool, pct: real, a: Accumulators)
    requires p.manualStockTaxRate >= 0.0 && p.manualBondTaxRate >= 0.0 && pct <= 100.0
    ensures var r := OrdinaryPayout(p, isOrdinaryPayoutYear, taxesEnabled, pct, a);
            r.acc.deferredEventTax >= a.deferredEventTax && r.acc.deferredBondTax >= a.deferredBondTax
  {
    var desired := p.desiredAnnualConsumptionPayout + p.desiredAnnualWealthTaxPayout;
    if isOrdinaryPayoutYear && desired > 0.0 && taxesEnabled {
      var r := OrdinaryPayout(p, true, true, pct, a);
      var remaining := desired - r.fromTaxFree;
      PayoutDefersStockTax(p, true, pct, a);
      MulNonNegative(remaining, p.manualStockTaxRate / 100.0);
      MulNonNegative(Max(0.0, desired * (pct / 100.0) - r.fromTaxFree), p.manualStockTaxRate / 100.0);
      if p.deferredInterestTax {
        PayoutDefersBondTax(p, pct, a);
        MulNonNegative(BondShareOf(remaining, pct), p.manualBondTaxRate / 100.0);
      }
    }
  }

  /** The tax a private person's taxed event withdrawal defers: stock tax on
      the stock share not covered by the tax-free capital and, in deferred
      mode with a bond share, bond tax on the bond share with the matching
      part of the untaxed pool realised against the value before withdrawal. */
  lemma EventWithdrawalDefersTaxPrivat(p: Params, pct: real, eventWithdrawal: real, a: Accumulators)
    requires p.investorType == Privat && eventWithdrawal < 0.0
    ensures var r := WithdrawEvents(p, true, pct, eventWithdrawal, a);
            var amount := -eventWithdrawal;
            var covered := Min(amount * (pct / 100.0), a.taxFreeCapitalRemaining);
            && r.deferredEventTax == a.deferredEventTax
                 + Max(0.0, amount * (pct / 100.0) - covered) * (p.manualStockTaxRate / 100.0)
            && (p.deferredInterestTax && pct < 100.0 ==>
                  && r.deferredBondTax == a.deferredBondTax + BondShareOf(amount, pct) * (p.manualBondTaxRate / 100.0)
                  && r.untaxedBondReturnPool
                     == PoolAfterRealisation(a.untaxedBondReturnPool, BondShareOf(amount, pct), BondShareOf(a.currentPortfolioValue, pct)))
            && (!(p.deferredInterestTax && pct < 100.0) ==>
                  r.deferredBondTax == a.deferredBondTax && r.untaxedBondReturnPool == a.untaxedBondReturnPool)
  {
    assert Abs(eventWithdrawal) == -eventWithdrawal;
  }

  /** The tax a company's taxed event withdrawal defers: dividend tax on the
      part not covered by the tax-free capital and, in deferred mode with a
      bond share, bond tax on its bond share with the matching part of the
      untaxed pool realised; a fully covered withdrawal defers nothing. */
  lemma EventWithdrawalDefersTaxAS(p: Params, pct: real, eventWithdrawal: real, a: Accumulators)
    requires p.investorType == AS && eventWithdrawal < 0.0
    ensures var r := WithdrawEvents(p, true, pct, eventWithdrawal, a);
            var taxable := -eventWithdrawal - Min(-eventWithdrawal, a.taxFreeCapitalRemaining);
            && (taxable > 0.0 ==>
                  && r.deferredEventTax == a.deferredEventTax + taxable * (p.manualStockTaxRate / 100.0)
                  && (p.deferredInterestTax && pct < 100.0 ==>
                        && r.deferredBondTax == a.deferredBondTax + BondShareOf(taxable, pct) * (p.manualBondTaxRate / 100.0)
                        && r.untaxedBondReturnPool
                           == PoolAfterRealisation(a.untaxedBondReturnPool, BondShareOf(taxable, pct), BondShareOf(a.currentPortfolioValue, pct)))
                  && (!(p.deferredInterestTax && pct < 100.0) ==>
                        r.deferredBondTax == a.deferredBondTax && r.untaxedBondReturnPool == a.untaxedBondReturnPool))
            && (taxable <= 0.0 ==>
                  r.deferredEventTax == a.deferredEventTax && r.deferredBondTax == a.deferredBondTax
                  && r.untaxedBondReturnPool == a.untaxedBondReturnPool)
  {
    assert Abs(eventWithdrawal) == -eventWithdrawal;
  }

  /** With non-negative tax rates and a stock share of at most 100 % an event
      withdrawal never lowers what is deferred. */
  lemma EventDeferralNonNegative(p: Params, taxesEnabled: bool, pct: real, eventWithdrawal: real, a: Accumulators)
    requires p.manualStockTaxRate >= 0.0 && p.manualBondTaxRate >= 0.0 && pct <= 100.0
    ensures var r := WithdrawEvents(p, taxesEnabled, pct, eventWithdrawal, a);
            r.deferredEventTax >= a.deferredEventTax && r.deferredBondTax >= a.deferredBondTax
  {
    if eventWithdrawal < 0.0 && taxesEnabled {
      var amount := -eventWithdrawal;
      var taxRate := p.manualStockTaxRate / 100.0;
      var bondTaxRate := p.manualBondTaxRate / 100.0;
      if p.investorType == Privat {
        EventWithdrawalDefersTaxPrivat(p, pct, eventWithdrawal, a);
        MulNonNegative(Max(0.0, amount * (pct / 100.0) - Min(amount * (pct / 100.0), a.taxFreeCapitalRemaining)), taxRate);
        MulNonNegative(BondShareOf(amount, pct), bondTaxRate);
      } else {
        EventWithdrawalDefersTaxAS(p, pct, eventWithdrawal, a);
        var taxable := amount - Min(amount, a.taxFreeCapitalRemaining);
        MulNonNegative(taxable, taxRate);
        MulNonNegative(BondShareOf(taxable, pct), bondTaxRate);
      }
    }
  }

  // ---------------------------------------------------------------------
  // End of year

  /** The sub-portfolios agree with the aggregate to within 0.01, or there is
      nothing to distribute. */
  predicate Reconciled(a: Accumulators)
  {
    Abs(a.currentPortfolioValue - a.SubPortfolioSum()) <= 0.01
    || (a.SubPortfolioSum() <= 0.0 && a.currentPortfolioValue <= 0.0)
  }

  /** Scales the three sub-portfolios by the same factor so that they add up
      to the aggregate. */
  function ScaleToAggregate(a: Accumulators): (r: Accumulators)
    requires a.SubPortfolioSum() > 0.0
    ensures r == a.(portfolio1Value := r.portfolio1Value, portfolio2Value := r.portfolio2Value,
                    portfolio3Value := r.portfolio3Value)
    ensures r.SubPortfolioSum() == a.currentPortfolioValue
    ensures r.portfolio1Value * a.SubPortfolioSum() == a.portfolio1Value * a.currentPortfolioValue
    ensures r.portfolio2Value * a.SubPortfolioSum() == a.portfolio2Value * a.currentPortfolioValue
    ensures r.portfolio3Value * a.SubPortfolioSum() == a.portfolio3Value * a.currentPortfolioValue
  {
    var currentSum := a.SubPortfolioSum();
    var scaleFactor := a.currentPortfolioValue / currentSum;
    assert (a.portfolio1Value + a.portfolio2Value + a.portfolio3Value) * scaleFactor == a.currentPortfolioValue;
    assert a.portfolio1Value * scaleFactor * currentSum == a.portfolio1Value * (scaleFactor * currentSum);
    assert a.portfolio2Value * scaleFactor * currentSum == a.portfolio2Value * (scaleFactor * currentSum);
    assert a.portfolio3Value * scaleFactor * currentSum == a.portfolio3Value * (scaleFactor * currentSum);
    a.(portfolio1Value := a.portfolio1Value * scaleFactor,
       portfolio2Value := a.portfolio2Value * scaleFactor,
       portfolio3Value := a.portfolio3Value * scaleFactor)
  }

  /** Brings the sub-portfolios in line with the aggregate when they differ by
      more than 0.01: scaled in proportion while they hold something,
      otherwise everything is put in Portefølje I. */
  function Reconcile(a: Accumulators): (r: Accumulators)
    ensures r == a.(portfolio1Value := r.portfolio1Value, portfolio2Value := r.portfolio2Value,
                    portfolio3Value := r.portfolio3Value)
    ensures Reconciled(r)
    ensures Reconciled(a) && a.SubPortfolioSum() > 0.0 ==>  r == a
    ensures Abs(a.currentPortfolioValue - a.SubPortfolioSum()) > 0.01 && a.SubPortfolioSum() > 0.0 ==>
              r == ScaleToAggregate(a)
    ensures Abs(a.currentPortfolioValue - a.SubPortfolioSum()) > 0.01 && a.SubPortfolioSum() <= 0.0
            && a.currentPortfolioValue > 0.0 ==>
              r.portfolio1Value == a.currentPortfolioValue && r.portfolio2Value == 0.0 && r.portfolio3Value == 0.0
  {
    var finalTotalPortfolioValue := a.currentPortfolioValue;
    var currentSum := a.SubPortfolioSum();
    if Abs(finalTotalPortfolioValue - currentSum) > 0.01 then
      if currentSum > 0.0 then ScaleToAggregate(a)
      else if finalTotalPortfolioValue > 0.0 then
        a.(portfolio1Value := finalTotalPortfolioValue, portfolio2Value := 0.0, portfolio3Value := 0.0)
      else a
    else a
  }

  // ---------------------------------------------------------------------
  // The whole year

  /** The outcome of one year: the carried accumulators, the chart row, and
      the flows that changed the aggregate. */
  datatype YearResult = YearResult(
    acc: Accumulators,
    row: YearRow,
    eventTaxPaid: real,
    bondTaxPaid: real,
    totalInflow: real,
    netReturnBeforeTax: real,
    annualBondTaxAmount: real,
    grossWithdrawal: real,
    eventWithdrawal: real)

  /** Year i (0-based) of the projection, from the accumulators at its
      start, the year's scheduled stock percentage and its event sums. */
  function Advance(c: Context, i: nat, scheduled: real, a: Accumulators, ev: EventSums): YearResult
  {
    var p := c.p;
    var taxesEnabled := p.taxCalculationEnabled;
    var settled := SettleDeferredTax(a, taxesEnabled);
    var shielded := GrowTaxFreeCapital(settled.acc, p.shieldingRate / 100.0);
    var isInvestmentYear := i < p.investmentYears;
    var totalInflow := TotalInflow(p, isInvestmentYear, ev.totalPositive);
    var inflowed := ApplyInflows(p, isInvestmentYear, ev.inflowToPortfolio1, totalInflow, shielded);
    var pct := YearStockPercentage(p, scheduled, inflowed);
    var invested := inflowed.(taxFreeCapitalRemaining := inflowed.taxFreeCapitalRemaining
                      + InvestedCapitalAddition(p, isInvestmentYear, ev.addToInvestedFromEvents));
    var growth := GrowPortfolio(p, taxesEnabled, pct, YearRates(c, i), invested);
    var payout := OrdinaryPayout(p, !isInvestmentYear, taxesEnabled, pct, growth.acc);
    var withdrawn := WithdrawEvents(p, taxesEnabled, pct, ev.eventWithdrawal, payout.acc);
    var reconciled := Reconcile(withdrawn);
    var row := YearRow(
      Round(a.currentPortfolioValue),
      Round(growth.netReturnBeforeTax),
      Round(if isInvestmentYear then p.annualSavings else 0.0),
      Round(ev.netEventAmount),
      Round(-payout.netWithdrawal),
      Round(-(if taxesEnabled then settled.eventTaxPaid else 0.0)),
      Round(-(if taxesEnabled then settled.bondTaxPaid + growth.annualBondTaxAmount else 0.0)),
      Round(pct),
      Round(100.0 - pct),
      Round(reconciled.taxFreeCapitalRemaining));
    YearResult(reconciled, row, settled.eventTaxPaid, settled.bondTaxPaid, totalInflow,
               growth.netReturnBeforeTax, growth.annualBondTaxAmount, payout.grossWithdrawal, ev.eventWithdrawal)
  }

  // ---------------------------------------------------------------------
  // What one year does

  /** Last year's deferred tax is what the year pays first (when taxes are
      enabled), and the stock / dividend tax shown is that payment. */
  lemma AdvanceSettlesDeferredTax(c: Context, i: nat, scheduled: real, a: Accumulators, ev: EventSums)
    ensures var y := Advance(c, i, scheduled, a, ev);
            && y.eventTaxPaid == (if c.p.taxCalculationEnabled then a.deferredEventTax else 0.0)
            && y.bondTaxPaid == (if c.p.taxCalculationEnabled then a.deferredBondTax else 0.0)
            && y.row.skatt2 == Round(-y.eventTaxPaid)
  {
  }

  /** The year's change of the aggregate is exactly its flows: the tax paid,
      the inflow, the net return, the running bond tax, the ordinary payout
      and the event withdrawals; and at the end of the year the
      sub-portfolios agree with the aggregate. */
  lemma AdvanceLedger(c: Context, i: nat, scheduled: real, a: Accumulators, ev: EventSums)
    requires ev.eventWithdrawal <= 0.0
    ensures var y := Advance(c, i, scheduled, a, ev);
            && y.acc.currentPortfolioValue
                 == a.currentPortfolioValue - y.eventTaxPaid - y.bondTaxPaid + y.totalInflow
                    + y.netReturnBeforeTax - y.annualBondTaxAmount - y.grossWithdrawal + y.eventWithdrawal
            && y.totalInflow == TotalInflow(c.p, i < c.p.investmentYears, ev.totalPositive)
            && y.eventWithdrawal == ev.eventWithdrawal
            && Reconciled(y.acc)
  {
  }

  /** The chart values of the year: the value at its start, its return, the
      bond tax paid and the tax-free capital left at its end. */
  lemma AdvanceRow(c: Context, i: nat, scheduled: real, a: Accumulators, ev: EventSums)
    ensures var y := Advance(c, i, scheduled, a, ev);
            && y.row.hovedstol == Round(a.currentPortfolioValue)
            && y.row.avkastning == Round(y.netReturnBeforeTax)
            && y.row.renteskatt == Round(-(y.bondTaxPaid + y.annualBondTaxAmount))
            && y.row.investedCapital == Round(y.acc.taxFreeCapitalRemaining)
  {
  }

  /** With taxes switched off the year defers nothing, charges no running
      bond tax and leaves the untaxed bond pool alone. */
  lemma AdvanceTaxesOff(c: Context, i: nat, scheduled: real, a: Accumulators, ev: EventSums)
    requires !c.p.taxCalculationEnabled
    ensures var y := Advance(c, i, scheduled, a, ev);
            && y.acc.deferredEventTax == 0.0 && y.acc.deferredBondTax == 0.0
            && y.eventTaxPaid == 0.0 && y.bondTaxPaid == 0.0 && y.annualBondTaxAmount == 0.0
            && y.acc.untaxedBondReturnPool == a.untaxedBondReturnPool
  {
  }

  /** A non-negative tax-free capital stays non-negative through the year,
      given a shielding rate of at least -100 %, a non-negative Portefølje I
      allocation and non-negative flagged inflows. */
  lemma AdvanceKeepsTaxFreeCapital(c: Context, i: nat, scheduled: real, a: Accumulators, ev: EventSums)
    requires a.taxFreeCapitalRemaining >= 0.0
    requires c.p.shieldingRate >= -100.0 && c.p.row1StockAllocation >= 0.0
    requires ev.addToInvestedFromEvents >= 0.0
    ensures Advance(c, i, scheduled, a, ev).acc.taxFreeCapitalRemaining >= 0.0
  {
  }

  /** A year without returns, costs, payout or withdrawals, starting with
      nothing deferred, changes the aggregate by its inflow alone and defers
      nothing to the next year. */
  lemma AdvanceWithInflowOnly(c: Context, i: nat, scheduled: real, a: Accumulators, ev: EventSums)
    requires YearRates(c, i) == ReturnPair(0.0, 0.0)
    requires c.p.kpiRate == 0.0 && c.p.advisoryFeeRate == 0.0
    requires c.p.desiredAnnualConsumptionPayout + c.p.desiredAnnualWealthTaxPayout <= 0.0
    requires ev.eventWithdrawal == 0.0
    requires a.deferredEventTax == 0.0 && a.deferredBondTax == 0.0
    ensures var y := Advance(c, i, scheduled, a, ev);
            && y.acc.currentPortfolioValue == a.currentPortfolioValue + TotalInflow(c.p, i < c.p.investmentYears, ev.totalPositive)
            && y.acc.deferredEventTax == 0.0 && y.acc.deferredBondTax == 0.0
  {
    AdvanceLedger(c, i, scheduled, a, ev);
    AdvanceSettlesDeferredTax(c, i, scheduled, a, ev);
    AdvanceWithoutRates(c, i, scheduled, a, ev);
    AdvanceWithoutPayout(c, i, scheduled, a, ev);
    AdvanceDefersNothing(c, i, scheduled, a, ev);
  }

  /** With zero rates and no costs the year returns nothing and charges no
      running bond tax. */
  lemma AdvanceWithoutRates(c: Context, i: nat, scheduled: real, a: Accumulators, ev: EventSums)
    requires YearRates(c, i) == ReturnPair(0.0, 0.0)
    requires c.p.kpiRate == 0.0 && c.p.advisoryFeeRate == 0.0
    ensures var y := Advance(c, i, scheduled, a, ev);
            y.netReturnBeforeTax == 0.0 && y.annualBondTaxAmount == 0.0
  {
    NoRatesNoReturn();
  }

  /** Without a desired payout the year withdraws nothing ordinary. */
  lemma AdvanceWithoutPayout(c: Context, i: nat, scheduled: real, a: Accumulators, ev: EventSums)
    requires c.p.desiredAnnualConsumptionPayout + c.p.desiredAnnualWealthTaxPayout <= 0.0
    ensures Advance(c, i, scheduled, a, ev).grossWithdrawal == 0.0
  {
  }

  /** A year without payout, withdrawals or returns defers nothing to the
      next year: what was deferred before is settled at its start. */
  lemma AdvanceDefersNothing(c: Context, i: nat, scheduled: real, a: Accumulators, ev: EventSums)
    requires YearRates(c, i) == ReturnPair(0.0, 0.0)
    requires c.p.desiredAnnualConsumptionPayout + c.p.desiredAnnualWealthTaxPayout <= 0.0
    requires ev.eventWithdrawal == 0.0
    ensures var y := Advance(c, i, scheduled, a, ev);
            y.acc.deferredEventTax == 0.0 && y.acc.deferredBondTax == 0.0
  {
  }

  /** With zero rates and no costs a portfolio returns nothing. */
  lemma NoRatesNoReturn()
    ensures forall pct: real :: NetRate(pct, ReturnPair(0.0, 0.0), 0.0, 0.0) == 0.0
    ensures forall v: real, pct: real :: BondSleeveReturn(v, pct, ReturnPair(0.0, 0.0)) == 0.0
  {
  }
}
