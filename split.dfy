/** The principal/return split of the overview chart: every year of the
    projection is divided into stock principal, stock return, bond principal
    and bond return. Deposits go to principal; withdrawals come out of the
    returns first and out of principal only for what is left. The series the
    split reads (savings, event totals, net payouts per year) come from the
    projection record and are inputs here. */
module Split {
  import opened Numeric
  import opened Parameters

  /** `(s[i] || 0)`: a missing entry reads as 0. */
  function At(s: seq<real>, i: nat): real
  {
    if i < |s| then s[i] else 0.0
  }

  /** The yearly series of the projection that the split reads. */
  datatype Series = Series(sparing: seq<real>, events: seq<real>, netPayout: seq<real>)

  // ---------------------------------------------------------------------
  // Inflow and outflow per year

  /** Positive savings plus positive event totals. */
  function Inflow(d: Series, i: nat): (r: real)
    ensures r >= 0.0
  {
    Max(0.0, At(d.sparing, i)) + Max(0.0, At(d.events, i))
  }

  /** Negative event totals plus negative net payouts, as a positive amount. */
  function Outflow(d: Series, i: nat): (r: real)
    ensures r >= 0.0
  {
    -Min(0.0, At(d.events, i)) + -Min(0.0, At(d.netPayout, i))
  }

  /** Every event total lands on exactly one side: inflow minus outflow adds
      the positive savings, the whole event total and the negative payout. */
  lemma FlowsNet(d: Series, i: nat)
    ensures Inflow(d, i) - Outflow(d, i)
         == Max(0.0, At(d.sparing, i)) + At(d.events, i) + Min(0.0, At(d.netPayout, i))
    ensures At(d.events, i) >= 0.0 ==> Outflow(d, i) == -Min(0.0, At(d.netPayout, i))
    ensures At(d.events, i) <= 0.0 ==> Inflow(d, i) == Max(0.0, At(d.sparing, i))
  {
  }

  /** Fills the two arrays year by year. */
  method FlowArrays(d: Series, len: nat) returns (inflow: array<real>, outflow: array<real>)
    ensures fresh(inflow) && fresh(outflow)
    ensures inflow.Length == len && outflow.Length == len
    ensures forall i :: 0 <= i < len ==> inflow[i] == Inflow(d, i) && outflow[i] == Outflow(d, i)
  {
    inflow := new real[len](_ => 0.0);
    outflow := new real[len](_ => 0.0);
    for i := 0 to len
      invariant forall j :: 0 <= j < i ==> inflow[j] == Inflow(d, j) && outflow[j] == Outflow(d, j)
    {
      inflow[i] := Max(0.0, At(d.sparing, i)) + Max(0.0, At(d.events, i));
      outflow[i] := -Min(0.0, At(d.events, i)) + -Min(0.0, At(d.netPayout, i));
    }
  }

  // ---------------------------------------------------------------------
  // Proportional take from two pools

  /** `allocateFromTwo`: takes `amount` from two pools in proportion to
      their sizes, capped by what each pool holds. */
  function AllocateFromTwo(amount: real, aAvail: real, bAvail: real): (r: (real, real))
    ensures amount <= 0.0 || aAvail + bAvail <= 0.0 ==> r == (0.0, 0.0)
    ensures 0.0 < amount && 0.0 < aAvail + bAvail <= amount ==> r == (aAvail, bAvail)
  {
    var totalAvail := aAvail + bAvail;
    if amount <= 0.0 || totalAvail <= 0.0 then (0.0, 0.0)
    else if amount >= totalAvail then (aAvail, bAvail)
    else
      var aTake := if (aAvail / totalAvail) * amount > aAvail then aAvail else (aAvail / totalAvail) * amount;
      var bTake := amount - aTake;
      if bTake > bAvail then (amount - bAvail, bAvail) else (aTake, bTake)
  }

  /** Whatever the signs, a take below the total comes out whole and no pool
      gives more than it holds. */
  lemma AllocateFromTwoTakesAmount(amount: real, aAvail: real, bAvail: real)
    requires 0.0 < amount < aAvail + bAvail
    ensures var r := AllocateFromTwo(amount, aAvail, bAvail);
            r.0 + r.1 == amount && r.0 <= aAvail && r.1 <= bAvail
  {
  }

  /** With two non-negative pools and a take below their total the split is
      exactly proportional and neither cap applies. */
  lemma AllocateFromTwoProportional(amount: real, aAvail: real, bAvail: real)
    requires aAvail >= 0.0 && bAvail >= 0.0 && 0.0 < amount < aAvail + bAvail
    ensures var r := AllocateFromTwo(amount, aAvail, bAvail);
            && r.0 == aAvail * amount / (aAvail + bAvail)
            && r.1 == bAvail * amount / (aAvail + bAvail)
            && 0.0 <= r.0 <= aAvail && 0.0 <= r.1 <= bAvail
  {
    var total := aAvail + bAvail;
    ShareOfTake(aAvail, amount, total);
    ShareOfTake(bAvail, amount, total);
    TwoSharesAddUp(aAvail, bAvail, amount);
    assert amount - (aAvail / total) * amount == (bAvail / total) * amount <= bAvail;
  }

  /** The proportional takes from two pools add up to the take. */
  lemma TwoSharesAddUp(a: real, b: real, amount: real)
    requires a + b > 0.0
    ensures (a / (a + b)) * amount + (b / (a + b)) * amount == amount
  {
    var t := a + b;
    assert a / t + b / t == t / t == 1.0;
    assert (a / t) * amount + (b / t) * amount == (a / t + b / t) * amount;
  }

  /** A pool's proportional share of a take below the total lies between 0
      and the pool. */
  lemma ShareOfTake(x: real, amount: real, total: real)
    requires 0.0 <= x && 0.0 < amount < total
    ensures (x / total) * amount == x * amount / total
    ensures 0.0 <= x * amount / total <= x
  {
    var share := x / total;
    assert share * total == x;
    MulNonNegative(share, amount);
    MulAtMost(amount, total, share);
  }

  // ---------------------------------------------------------------------
  // Returns of the three portfolios, year by year

  /** What the sleeve loop reads: the state, the projection series and the
      simulated return path (used when the simulation button is on and the
      path is not empty). */
  datatype SplitInput = SplitInput(s: Params, d: Series, simActive: bool, sim: seq<ReturnPair>)

  /** The values of Portefølje I, Portefølje II and the Likviditetsfond. */
  datatype Sleeves = Sleeves(p1: real, p2: real, p3: real)

  function Total(v: Sleeves): real
  {
    v.p1 + v.p2 + v.p3
  }

  function OpeningSleeves(s: Params): Sleeves
  {
    Sleeves(s.initialPortfolioSize, s.pensionPortfolioSize, s.additionalPensionAmount)
  }

  function UseSimulated(inp: SplitInput): bool
  {
    inp.simActive && |inp.sim| > 0
  }

  /** The gross stock and bond rates of year i (i >= 1), as fractions. */
  function YearRates(inp: SplitInput, i: nat): ReturnPair
    requires i >= 1
  {
    if UseSimulated(inp) && i - 1 < |inp.sim| then
      ReturnPair(inp.sim[i - 1].stock / 100.0, inp.sim[i - 1].bond / 100.0)
    else
      ReturnPair(inp.s.stockReturnRate / 100.0, inp.s.bondReturnRate / 100.0)
  }

  /** A rate net of inflation and the advisory fee. */
  function NetOf(rate: real, s: Params): real
  {
    rate - s.kpiRate / 100.0 - s.advisoryFeeRate / 100.0
  }

  /** Portefølje I at the start of year i: savings in an investment year and
      positive event totals are added first. */
  function Deposited(inp: SplitInput, v: Sleeves, i: nat): Sleeves
    requires i >= 1
  {
    var saving := if i - 1 < inp.s.investmentYears && At(inp.d.sparing, i) > 0.0 then At(inp.d.sparing, i) else 0.0;
    var eventInflow := Max(0.0, At(inp.d.events, i));
    v.(p1 := v.p1 + saving + (if eventInflow > 0.0 then eventInflow else 0.0))
  }

  /** The stock and bond returns of one portfolio of value v with stock
      percentage pct. */
  datatype PortfolioReturn = PortfolioReturn(stock: real, bond: real)

  function ReturnOf(v: real, pct: real, rates: ReturnPair, s: Params): PortfolioReturn
  {
    PortfolioReturn(v * (pct / 100.0) * NetOf(rates.stock, s), v * ((100.0 - pct) / 100.0) * NetOf(rates.bond, s))
  }

  /** What a portfolio of value x keeps after its share x / total of the
      withdrawal `out`, never below zero. */
  function Remaining(x: real, out: real, total: real): real
    requires total > 0.0
  {
    Max(0.0, x - out * (x / total))
  }

  /** The return of the Likviditetsfond, which holds bonds only. */
  function LiquidityReturn(v: real, rates: ReturnPair, s: Params): real
  {
    v * NetOf(rates.bond, s)
  }

  /** The three values after their returns. */
  function WithReturns(w: Sleeves, r1: PortfolioReturn, r2: PortfolioReturn, r3: real): Sleeves
  {
    Sleeves(w.p1 + (r1.stock + r1.bond), w.p2 + (r2.stock + r2.bond), w.p3 + r3)
  }

  /** Proportional withdrawal of `out` from the three portfolios, none going
      below zero; nothing happens unless both `out` and the total are
      positive. */
  function Withdrawn(v: Sleeves, out: real): Sleeves
  {
    var total := Total(v);
    if out > 0.0 && total > 0.0 then
      Sleeves(Remaining(v.p1, out, total), Remaining(v.p2, out, total), Remaining(v.p3, out, total))
    else v
  }

  /** One year of the sleeve loop: the rounded stock and bond returns, and
      the values the next year starts from. */
  datatype SleeveYear = SleeveYear(stockReturn: int, bondReturn: int, next: Sleeves)

  function SleeveStep(inp: SplitInput, v: Sleeves, i: nat): SleeveYear
    requires i >= 1
  {
    YearFrom(Deposited(inp, v, i), YearRates(inp, i), inp.s, Outflow(inp.d, i))
  }

  /** Returns on the deposited values w, then the withdrawal of `out`. */
  function YearFrom(w: Sleeves, rates: ReturnPair, s: Params, out: real): SleeveYear
  {
    var r1 := ReturnOf(w.p1, s.row1StockAllocation, rates, s);
    var r2 := ReturnOf(w.p2, s.row2StockAllocation, rates, s);
    var r3 := LiquidityReturn(w.p3, rates, s);
    SleeveYear(Round(r1.stock + r2.stock), Round(r1.bond + r2.bond + r3), Withdrawn(WithReturns(w, r1, r2, r3), out))
  }

  /** The portfolio values at the start of year i >= 1. */
  function SleevesBefore(inp: SplitInput, i: nat): Sleeves
    requires i >= 1
  {
    if i == 1 then OpeningSleeves(inp.s)
    else SleeveStep(inp, SleevesBefore(inp, i - 1), i - 1).next
  }

  /** The yearly stock return `aksjeAvkastningAnnual[i]` (0 for the start row). */
  function AnnualStockReturn(inp: SplitInput, i: nat): int
  {
    if i == 0 then 0 else SleeveStep(inp, SleevesBefore(inp, i), i).stockReturn
  }

  /** The yearly bond return `renteAvkastningAnnual[i]` (0 for the start row). */
  function AnnualBondReturn(inp: SplitInput, i: nat): int
  {
    if i == 0 then 0 else SleeveStep(inp, SleevesBefore(inp, i), i).bondReturn
  }

  /** A withdrawal no larger than the total of three non-negative portfolios
      takes exactly that amount, from each in proportion to its size. */
  lemma WithdrawnTakesExactly(v: Sleeves, out: real)
    requires v.p1 >= 0.0 && v.p2 >= 0.0 && v.p3 >= 0.0
    requires 0.0 < out <= Total(v)
    ensures Withdrawn(v, out)
         == Sleeves(v.p1 - out * (v.p1 / Total(v)), v.p2 - out * (v.p2 / Total(v)), v.p3 - out * (v.p3 / Total(v)))
    ensures Total(Withdrawn(v, out)) == Total(v) - out
  {
    WithdrawnShares(v, out);
    WithdrawnTotal(v, out);
  }

  lemma WithdrawnShares(v: Sleeves, out: real)
    requires v.p1 >= 0.0 && v.p2 >= 0.0 && v.p3 >= 0.0
    requires 0.0 < out <= Total(v)
    ensures Withdrawn(v, out)
         == Sleeves(v.p1 - out * (v.p1 / Total(v)), v.p2 - out * (v.p2 / Total(v)), v.p3 - out * (v.p3 / Total(v)))
  {
    var total := Total(v);
    ShareAtMost(v.p1, out, total);
    ShareAtMost(v.p2, out, total);
    ShareAtMost(v.p3, out, total);
  }

  lemma WithdrawnTotal(v: Sleeves, out: real)
    requires v.p1 >= 0.0 && v.p2 >= 0.0 && v.p3 >= 0.0
    requires 0.0 < out <= Total(v)
    ensures Total(Withdrawn(v, out)) == Total(v) - out
  {
    var total := Total(v);
    WithdrawnShares(v, out);
    calc {
      Total(Withdrawn(v, out));
    ==
      (v.p1 - out * (v.p1 / total)) + (v.p2 - out * (v.p2 / total)) + (v.p3 - out * (v.p3 / total));
    ==
      total - (out * (v.p1 / total) + out * (v.p2 / total) + out * (v.p3 / total));
    == { SharesAddUp(v.p1, v.p2, v.p3, out); }
      total - out;
    }
  }

  /** Proportional shares of out add up to out. */
  lemma SharesAddUp(a: real, b: real, c: real, out: real)
    requires a + b + c > 0.0
    ensures out * (a / (a + b + c)) + out * (b / (a + b + c)) + out * (c / (a + b + c)) == out
  {
    var t := a + b + c;
    assert a / t + b / t + c / t == t / t == 1.0;
    assert out * (a / t) + out * (b / t) + out * (c / t) == out * (a / t + b / t + c / t);
  }

  /** A withdrawal above the total empties all three portfolios. */
  lemma WithdrawnBeyondTotalEmpties(v: Sleeves, out: real)
    requires v.p1 >= 0.0 && v.p2 >= 0.0 && v.p3 >= 0.0
    requires 0.0 < Total(v) < out
    ensures Withdrawn(v, out) == Sleeves(0.0, 0.0, 0.0)
  {
    var total := Total(v);
    ShareAtLeast(v.p1, out, total);
    ShareAtLeast(v.p2, out, total);
    ShareAtLeast(v.p3, out, total);
  }

  /** x's share of out is at most x when out <= total. */
  lemma ShareAtMost(x: real, out: real, total: real)
    requires 0.0 <= x <= total && 0.0 < out <= total
    ensures 0.0 <= out * (x / total) <= x
    ensures Remaining(x, out, total) == x - out * (x / total)
  {
    MulNonNegative(out, x / total);
    MulAtMost(out, total, x / total);
    assert total * (x / total) == x;
  }

  /** x's share of out is at least x when out > total. */
  lemma ShareAtLeast(x: real, out: real, total: real)
    requires 0.0 <= x <= total && 0.0 < total < out
    ensures out * (x / total) >= x
    ensures Remaining(x, out, total) == 0.0
  {
    MulAtMost(total, out, x / total);
    assert total * (x / total) == x;
  }

  /** The body of the sleeve loop for year i: deposits, returns, then the
      proportional withdrawal of this year's outflow. */
  method SleeveYearStep(inp: SplitInput, v: Sleeves, i: nat, totalOut: real)
    returns (stockReturn: int, bondReturn: int, next: Sleeves)
    requires i >= 1 && totalOut == Outflow(inp.d, i)
    ensures stockReturn == SleeveStep(inp, v, i).stockReturn
    ensures bondReturn == SleeveStep(inp, v, i).bondReturn
    ensures next == SleeveStep(inp, v, i).next
  {
    var s := inp.s;
    var useSimulated := inp.simActive && |inp.sim| > 0;
    var portfolio1Val, portfolio2Val, portfolio3Val := v.p1, v.p2, v.p3;
    var isInvestmentYear := i - 1 < s.investmentYears;
    if isInvestmentYear && At(inp.d.sparing, i) > 0.0 {
      portfolio1Val := portfolio1Val + At(inp.d.sparing, i);
    }
    var eventInflow := Max(0.0, At(inp.d.events, i));
    if eventInflow > 0.0 {
      portfolio1Val := portfolio1Val + eventInflow;
    }
    ghost var w := Deposited(inp, v, i);
    assert Sleeves(portfolio1Val, portfolio2Val, portfolio3Val) == w;
    var stockRetRateForYear, bondRetRateForYear;
    if useSimulated && i - 1 < |inp.sim| {
      stockRetRateForYear := inp.sim[i - 1].stock / 100.0;
      bondRetRateForYear := inp.sim[i - 1].bond / 100.0;
    } else {
      stockRetRateForYear := s.stockReturnRate / 100.0;
      bondRetRateForYear := s.bondReturnRate / 100.0;
    }
    var rates := ReturnPair(stockRetRateForYear, bondRetRateForYear);
    assert rates == YearRates(inp, i);
    // returns of each portfolio on its value at the start of the year
    var p1 := ReturnOf(portfolio1Val, s.row1StockAllocation, rates, s);
    var p2 := ReturnOf(portfolio2Val, s.row2StockAllocation, rates, s);
    var p3BondReturn := LiquidityReturn(portfolio3Val, rates, s);
    stockReturn := Round(p1.stock + p2.stock);
    bondReturn := Round(p1.bond + p2.bond + p3BondReturn);
    // start values of the next year, before the withdrawal
    var grown := WithReturns(Sleeves(portfolio1Val, portfolio2Val, portfolio3Val), p1, p2, p3BondReturn);
    next := WithdrawProportionally(grown, totalOut);
  }

  /** "Handle withdrawals proportionally": clamps each portfolio at zero. */
  method WithdrawProportionally(v: Sleeves, totalOut: real) returns (next: Sleeves)
    ensures next == Withdrawn(v, totalOut)
  {
    var portfolio1Val, portfolio2Val, portfolio3Val := v.p1, v.p2, v.p3;
    if totalOut > 0.0 && portfolio1Val + portfolio2Val + portfolio3Val > 0.0 {
      var totalPortfolio := portfolio1Val + portfolio2Val + portfolio3Val;
      var p1Share := portfolio1Val / totalPortfolio;
      var p2Share := portfolio2Val / totalPortfolio;
      var p3Share := portfolio3Val / totalPortfolio;
      portfolio1Val := Max(0.0, portfolio1Val - totalOut * p1Share);
      portfolio2Val := Max(0.0, portfolio2Val - totalOut * p2Share);
      portfolio3Val := Max(0.0, portfolio3Val - totalOut * p3Share);
    }
    next := Sleeves(portfolio1Val, portfolio2Val, portfolio3Val);
  }

  /** Writes the two yearly return arrays; the start row holds 0. */
  method SleeveReturnArrays(inp: SplitInput, outflow: array<real>, len: nat)
    returns (aksjeAvkastningAnnual: array<int>, renteAvkastningAnnual: array<int>)
    requires outflow.Length == len
    requires forall i :: 0 <= i < len ==> outflow[i] == Outflow(inp.d, i)
    ensures fresh(aksjeAvkastningAnnual) && fresh(renteAvkastningAnnual)
    ensures aksjeAvkastningAnnual.Length == len && renteAvkastningAnnual.Length == len
    ensures forall i :: 0 <= i < len ==>
              aksjeAvkastningAnnual[i] == AnnualStockReturn(inp, i) && renteAvkastningAnnual[i] == AnnualBondReturn(inp, i)
  {
    var portfolios := OpeningSleeves(inp.s);
    aksjeAvkastningAnnual := new int[len](_ => 0);
    renteAvkastningAnnual := new int[len](_ => 0);
    var i := 1;
    while i < len
      invariant 1 <= i && (len > 0 ==> i <= len)
      invariant fresh(aksjeAvkastningAnnual) && fresh(renteAvkastningAnnual)
      invariant portfolios == SleevesBefore(inp, i)
      invariant forall j :: 0 <= j < i && j < len ==>
                  aksjeAvkastningAnnual[j] == AnnualStockReturn(inp, j) && renteAvkastningAnnual[j] == AnnualBondReturn(inp, j)
    {
      var stockReturn, bondReturn, next := SleeveYearStep(inp, portfolios, i, outflow[i]);
      aksjeAvkastningAnnual[i] := stockReturn;
      renteAvkastningAnnual[i] := bondReturn;
      portfolios := next;
      i := i + 1;
    }
  }

  // ---------------------------------------------------------------------
  // Principal and returns, withdrawals from returns first

  /** The four series of one year, rounded to whole kroner. */
  datatype Holdings = Holdings(stockPrincipal: int, bondPrincipal: int, stockReturn: int, bondReturn: int)

  /** The four pools before rounding. */
  datatype Pools = Pools(stockReturn: real, bondReturn: real, stockPrincipal: real, bondPrincipal: real)

  /** The part of x with stock percentage pct that is stocks, and the part
      that is bonds. */
  function StockPart(x: real, pct: real): real
  {
    x * (pct / 100.0)
  }

  function BondPart(x: real, pct: real): real
  {
    x * ((100.0 - pct) / 100.0)
  }

  /** The opening split of the three seeds; the Likviditetsfond is all bonds. */
  function OpeningStock(s: Params): real
  {
    StockPart(s.initialPortfolioSize, s.row1StockAllocation) + StockPart(s.pensionPortfolioSize, s.row2StockAllocation)
      + StockPart(s.additionalPensionAmount, 0.0)
  }

  function OpeningBond(s: Params): real
  {
    BondPart(s.initialPortfolioSize, s.row1StockAllocation) + BondPart(s.pensionPortfolioSize, s.row2StockAllocation)
      + BondPart(s.additionalPensionAmount, 0.0)
  }

  function OpeningHoldings(s: Params): Holdings
  {
    Holdings(Round(OpeningStock(s)), Round(OpeningBond(s)), 0, 0)
  }

  /** Before rounding, the opening stock and bond principal add up to the
      three seeds. */
  lemma OpeningSplitsSeeds(s: Params)
    ensures OpeningStock(s) + OpeningBond(s) == s.SeedTotal()
    ensures OpeningHoldings(s).stockReturn == 0 && OpeningHoldings(s).bondReturn == 0
  {
    PartsAddUp(s.initialPortfolioSize, s.row1StockAllocation);
    PartsAddUp(s.pensionPortfolioSize, s.row2StockAllocation);
    PartsAddUp(s.additionalPensionAmount, 0.0);
  }

  /** The stock part and the bond part make up the whole. */
  lemma PartsAddUp(x: real, pct: real)
    ensures StockPart(x, pct) + BondPart(x, pct) == x
  {
    assert x * (pct / 100.0) + x * ((100.0 - pct) / 100.0) == x * (pct / 100.0 + (100.0 - pct) / 100.0);
  }

  /** Adds the year's returns to the return pools and the year's savings and
      positive events to principal, split by the stock percentage of
      Portefølje I. */
  function DepositedPools(prev: Holdings, annualStock: int, annualBond: int, d: Series, s: Params, i: nat): Pools
  {
    var savingsAmount := At(d.sparing, i);
    var eventInflow := Max(0.0, At(d.events, i));
    var savingsToStocks := StockPart(savingsAmount, s.row1StockAllocation);
    Pools(prev.stockReturn as real + annualStock as real,
          prev.bondReturn as real + annualBond as real,
          prev.stockPrincipal as real + savingsToStocks + StockPart(eventInflow, s.row1StockAllocation),
          prev.bondPrincipal as real + (savingsAmount - savingsToStocks) + BondPart(eventInflow, s.row1StockAllocation))
  }

  /** Takes `totalOut` from the returns in proportion, and what the returns
      cannot cover from principal, which is kept from going negative. */
  function Withdraw(p: Pools, totalOut: real): Pools
  {
    var fromReturns := AllocateFromTwo(totalOut, p.stockReturn, p.bondReturn);
    var remainder := totalOut - (fromReturns.0 + fromReturns.1);
    var rest := Pools(p.stockReturn - fromReturns.0, p.bondReturn - fromReturns.1, p.stockPrincipal, p.bondPrincipal);
    if remainder > 0.0 then
      var fromPrincipal := AllocateFromTwo(remainder, p.stockPrincipal, p.bondPrincipal);
      rest.(stockPrincipal := Max(0.0, p.stockPrincipal - fromPrincipal.0),
            bondPrincipal := Max(0.0, p.bondPrincipal - fromPrincipal.1))
    else rest
  }

  /** Each pool clamped at zero and rounded. */
  function Settled(p: Pools): (h: Holdings)
    ensures h.stockPrincipal >= 0 && h.bondPrincipal >= 0 && h.stockReturn >= 0 && h.bondReturn >= 0
  {
    Holdings(Round(Max(0.0, p.stockPrincipal)), Round(Max(0.0, p.bondPrincipal)),
             Round(Max(0.0, p.stockReturn)), Round(Max(0.0, p.bondReturn)))
  }

  /** `(s[i] || 0)` on whole numbers. */
  function AtInt(s: seq<int>, i: nat): int
  {
    if i < |s| then s[i] else 0
  }

  /** The yearly return series of the sleeve loop, one entry per row. */
  function AnnualStockReturns(inp: SplitInput, len: nat): (r: seq<int>)
    ensures |r| == len && forall i :: 0 <= i < len ==> r[i] == AnnualStockReturn(inp, i)
  {
    seq(len, i requires 0 <= i < len => AnnualStockReturn(inp, i))
  }

  function AnnualBondReturns(inp: SplitInput, len: nat): (r: seq<int>)
    ensures |r| == len && forall i :: 0 <= i < len ==> r[i] == AnnualBondReturn(inp, i)
  {
    seq(len, i requires 0 <= i < len => AnnualBondReturn(inp, i))
  }

  /** The holdings of row i given the yearly returns: the opening split,
      then one waterfall year per row. */
  function HoldingsAt(inp: SplitInput, annualStock: seq<int>, annualBond: seq<int>, i: nat): Holdings
  {
    if i == 0 then OpeningHoldings(inp.s)
    else WaterfallStep(inp, annualStock, annualBond, HoldingsAt(inp, annualStock, annualBond, i - 1), i)
  }

  /** Row i >= 1 of the waterfall from row i - 1. */
  function WaterfallStep(inp: SplitInput, annualStock: seq<int>, annualBond: seq<int>, prev: Holdings, i: nat): Holdings
  {
    var deposited := DepositedPools(prev, AtInt(annualStock, i), AtInt(annualBond, i), inp.d, inp.s, i);
    Settled(Withdraw(deposited, Outflow(inp.d, i)))
  }

  /** The split of row i of the projection. */
  function SplitAt(inp: SplitInput, len: nat, i: nat): Holdings
  {
    HoldingsAt(inp, AnnualStockReturns(inp, len), AnnualBondReturns(inp, len), i)
  }

  /** After the start row all four series are non-negative. */
  lemma HoldingsNonNegative(inp: SplitInput, annualStock: seq<int>, annualBond: seq<int>, i: nat)
    requires i >= 1
    ensures var h := HoldingsAt(inp, annualStock, annualBond, i);
            h.stockPrincipal >= 0 && h.bondPrincipal >= 0 && h.stockReturn >= 0 && h.bondReturn >= 0
  {
  }

  /** No outflow, no change. */
  lemma WithdrawNothing(p: Pools, totalOut: real)
    requires totalOut <= 0.0
    ensures Withdraw(p, totalOut) == p
  {
  }

  /** An outflow the non-negative returns can cover comes out of the
      returns only: principal is untouched. */
  lemma WithdrawReturnsFirst(p: Pools, totalOut: real)
    requires p.stockReturn >= 0.0 && p.bondReturn >= 0.0
    requires 0.0 < totalOut <= p.stockReturn + p.bondReturn
    ensures var r := Withdraw(p, totalOut);
            && r.stockPrincipal == p.stockPrincipal && r.bondPrincipal == p.bondPrincipal
            && r.stockReturn >= 0.0 && r.bondReturn >= 0.0
            && r.stockReturn + r.bondReturn == p.stockReturn + p.bondReturn - totalOut
  {
    if totalOut < p.stockReturn + p.bondReturn {
      AllocateFromTwoProportional(totalOut, p.stockReturn, p.bondReturn);
    }
  }

  /** An outflow beyond the non-negative returns empties them and takes the
      remainder from non-negative principal, proportionally, or all of the
      principal when the remainder is larger. */
  lemma WithdrawThenPrincipal(p: Pools, totalOut: real)
    requires p.stockReturn >= 0.0 && p.bondReturn >= 0.0 && p.stockPrincipal >= 0.0 && p.bondPrincipal >= 0.0
    requires totalOut > p.stockReturn + p.bondReturn
    ensures var r := Withdraw(p, totalOut);
            var remainder := totalOut - (p.stockReturn + p.bondReturn);
            && r.stockReturn == 0.0 && r.bondReturn == 0.0
            && (remainder < p.stockPrincipal + p.bondPrincipal ==>
                  && r.stockPrincipal >= 0.0 && r.bondPrincipal >= 0.0
                  && r.stockPrincipal + r.bondPrincipal == p.stockPrincipal + p.bondPrincipal - remainder)
            && (remainder >= p.stockPrincipal + p.bondPrincipal ==> r.stockPrincipal == 0.0 && r.bondPrincipal == 0.0)
  {
    var remainder := totalOut - (p.stockReturn + p.bondReturn);
    assert AllocateFromTwo(totalOut, p.stockReturn, p.bondReturn) == (p.stockReturn, p.bondReturn) || p.stockReturn + p.bondReturn == 0.0;
    if remainder < p.stockPrincipal + p.bondPrincipal {
      AllocateFromTwoProportional(remainder, p.stockPrincipal, p.bondPrincipal);
    }
  }

  /** Row j of the four series arrays. */
  function Row(stockPrincipal: array<int>, bondPrincipal: array<int>, stockReturn: array<int>, bondReturn: array<int>, j: nat): Holdings
    requires j < stockPrincipal.Length && j < bondPrincipal.Length && j < stockReturn.Length && j < bondReturn.Length
    reads stockPrincipal, bondPrincipal, stockReturn, bondReturn
  {
    Holdings(stockPrincipal[j], bondPrincipal[j], stockReturn[j], bondReturn[j])
  }

  /** The body of the waterfall loop for one year after the start row. */
  method WaterfallYear(ghost inp: SplitInput, ghost annualStockSeries: seq<int>, ghost annualBondSeries: seq<int>,
                       prev: Holdings, annualStock: int, annualBond: int, d: Series, s: Params, i: nat, totalOut: real)
    returns (h: Holdings)
    requires i >= 1 && d == inp.d && s == inp.s && totalOut == Outflow(inp.d, i)
    requires annualStock == AtInt(annualStockSeries, i) && annualBond == AtInt(annualBondSeries, i)
    ensures h == WaterfallStep(inp, annualStockSeries, annualBondSeries, prev, i)
  {
    // 1) the year's returns join the earlier returns
    var sRet := prev.stockReturn as real + annualStock as real;
    var bRet := prev.bondReturn as real + annualBond as real;
    // 2) savings and positive events join principal, split as Portefølje I
    var savingsAmount := At(d.sparing, i);
    var eventInflow := Max(0.0, At(d.events, i));
    var portfolio1StockPct := s.row1StockAllocation;
    var savingsToStocks := StockPart(savingsAmount, portfolio1StockPct);
    var savingsToBonds := savingsAmount - savingsToStocks;
    var eventToStocks := StockPart(eventInflow, portfolio1StockPct);
    var eventToBonds := BondPart(eventInflow, portfolio1StockPct);
    var sPrin := prev.stockPrincipal as real + savingsToStocks + eventToStocks;
    var bPrin := prev.bondPrincipal as real + savingsToBonds + eventToBonds;
    ghost var deposited := Pools(sRet, bRet, sPrin, bPrin);
    assert deposited == DepositedPools(prev, annualStock, annualBond, d, s, i);
    // 3) the outflow comes out of the returns first, then out of principal
    var fromReturns := AllocateFromTwo(totalOut, sRet, bRet);
    var takeFromSRet, takeFromBRet := fromReturns.0, fromReturns.1;
    sRet := sRet - takeFromSRet;
    bRet := bRet - takeFromBRet;
    var remainder := totalOut - (takeFromSRet + takeFromBRet);
    if remainder > 0.0 {
      var fromPrincipal := AllocateFromTwo(remainder, sPrin, bPrin);
      var takeFromSPrin, takeFromBPrin := fromPrincipal.0, fromPrincipal.1;
      sPrin := Max(0.0, sPrin - takeFromSPrin);
      bPrin := Max(0.0, bPrin - takeFromBPrin);
    }
    assert Pools(sRet, bRet, sPrin, bPrin) == Withdraw(deposited, totalOut);
    h := Holdings(Round(Max(0.0, sPrin)), Round(Max(0.0, bPrin)), Round(Max(0.0, sRet)), Round(Max(0.0, bRet)));
  }

  /** Stores h in row i of the four series, leaving the other rows as they
      were. */
  method WriteRow(stockPrincipal: array<int>, bondPrincipal: array<int>, stockReturn: array<int>, bondReturn: array<int>,
                  i: nat, h: Holdings)
    requires i < stockPrincipal.Length && bondPrincipal.Length == stockPrincipal.Length
    requires stockReturn.Length == stockPrincipal.Length && bondReturn.Length == stockPrincipal.Length
    requires stockPrincipal != bondPrincipal && stockPrincipal != stockReturn && stockPrincipal != bondReturn
    requires bondPrincipal != stockReturn && bondPrincipal != bondReturn && stockReturn != bondReturn
    modifies stockPrincipal, bondPrincipal, stockReturn, bondReturn
    ensures Row(stockPrincipal, bondPrincipal, stockReturn, bondReturn, i) == h
    ensures forall j :: 0 <= j < stockPrincipal.Length && j != i ==>
              Row(stockPrincipal, bondPrincipal, stockReturn, bondReturn, j)
              == old(Row(stockPrincipal, bondPrincipal, stockReturn, bondReturn, j))
  {
    stockReturn[i] := h.stockReturn;
    bondReturn[i] := h.bondReturn;
    stockPrincipal[i] := h.stockPrincipal;
    bondPrincipal[i] := h.bondPrincipal;
  }

  /** The start row: each portfolio's opening value split by its stock
      share, with no returns yet. */
  method OpeningRow(s: Params) returns (h: Holdings)
    ensures h == OpeningHoldings(s)
  {
    var p1Start, p2Start, p3Start := s.initialPortfolioSize, s.pensionPortfolioSize, s.additionalPensionAmount;
    var p1StockPct, p2StockPct, p3StockPct := s.row1StockAllocation, s.row2StockAllocation, 0.0;
    var stockTotal := StockPart(p1Start, p1StockPct) + StockPart(p2Start, p2StockPct) + StockPart(p3Start, p3StockPct);
    var bondTotal := BondPart(p1Start, p1StockPct) + BondPart(p2Start, p2StockPct) + BondPart(p3Start, p3StockPct);
    assert OpeningStock(s) == stockTotal && OpeningBond(s) == bondTotal;
    h := Holdings(Round(stockTotal), Round(bondTotal), 0, 0);
  }

  /** Writes the four series: the opening split in the start row, then one
      waterfall year per row. The projection always has its start row, so
      len >= 1. */
  method Waterfall(inp: SplitInput, aksjeAvkastningAnnual: array<int>, renteAvkastningAnnual: array<int>,
                   outflow: array<real>, len: nat)
    returns (stockPrincipal: array<int>, bondPrincipal: array<int>, stockReturn: array<int>, bondReturn: array<int>)
    requires len >= 1
    requires aksjeAvkastningAnnual.Length == len && renteAvkastningAnnual.Length == len && outflow.Length == len
    requires forall i :: 0 <= i < len ==> outflow[i] == Outflow(inp.d, i)
    ensures fresh(stockPrincipal) && fresh(bondPrincipal) && fresh(stockReturn) && fresh(bondReturn)
    ensures stockPrincipal.Length == len && bondPrincipal.Length == len && stockReturn.Length == len && bondReturn.Length == len
    ensures forall i :: 0 <= i < len ==>
              Holdings(stockPrincipal[i], bondPrincipal[i], stockReturn[i], bondReturn[i])
              == HoldingsAt(inp, aksjeAvkastningAnnual[..], renteAvkastningAnnual[..], i)
  {
    ghost var annualStock, annualBond := aksjeAvkastningAnnual[..], renteAvkastningAnnual[..];
    var s := inp.s;
    stockPrincipal := new int[len](_ => 0);
    bondPrincipal := new int[len](_ => 0);
    stockReturn := new int[len](_ => 0);
    bondReturn := new int[len](_ => 0);
    var opening := OpeningRow(s);
    WriteRow(stockPrincipal, bondPrincipal, stockReturn, bondReturn, 0, opening);
    for i := 1 to len
      invariant forall j :: 0 <= j < i ==>
                  Row(stockPrincipal, bondPrincipal, stockReturn, bondReturn, j) == HoldingsAt(inp, annualStock, annualBond, j)
    {
      var prev := Holdings(stockPrincipal[i - 1], bondPrincipal[i - 1], stockReturn[i - 1], bondReturn[i - 1]);
      assert prev == HoldingsAt(inp, annualStock, annualBond, i - 1);
      var h := WaterfallYear(inp, annualStock, annualBond, prev, aksjeAvkastningAnnual[i], renteAvkastningAnnual[i],
                             inp.d, s, i, outflow[i]);
      WriteRow(stockPrincipal, bondPrincipal, stockReturn, bondReturn, i, h);
    }
  }

  /** The whole split: flows, yearly returns, then the waterfall. */
  method PrincipalReturnSplit(inp: SplitInput, len: nat)
    returns (principalStockSeries: array<int>, principalBondSeries: array<int>,
             stockReturnSeries: array<int>, bondReturnSeries: array<int>)
    requires len >= 1
    ensures principalStockSeries.Length == len && principalBondSeries.Length == len
    ensures stockReturnSeries.Length == len && bondReturnSeries.Length == len
    ensures forall i :: 0 <= i < len ==>
              Holdings(principalStockSeries[i], principalBondSeries[i], stockReturnSeries[i], bondReturnSeries[i])
              == SplitAt(inp, len, i)
  {
    var inflowArr, outflowArr := FlowArrays(inp.d, len);
    var aksjeAvkastningAnnual, renteAvkastningAnnual := SleeveReturnArrays(inp, outflowArr, len);
    assert aksjeAvkastningAnnual[..] == AnnualStockReturns(inp, len);
    assert renteAvkastningAnnual[..] == AnnualBondReturns(inp, len);
    principalStockSeries, principalBondSeries, stockReturnSeries, bondReturnSeries :=
      Waterfall(inp, aksjeAvkastningAnnual, renteAvkastningAnnual, outflowArr, len);
  }

  // ---------------------------------------------------------------------
  // Stock portion of the whole, per row

  /** The stock percentage of a row, rounded; 0 when the row holds nothing. */
  function StockPortion(h: Holdings): int
  {
    var stockTotal := h.stockPrincipal + h.stockReturn;
    var bondTotal := h.bondPrincipal + h.bondReturn;
    var totalPortfolio := stockTotal + bondTotal;
    if totalPortfolio > 0 then Round((stockTotal as real / totalPortfolio as real) * 100.0) else 0
  }

  /** With non-negative series the portion is a percentage: 100 without
      bonds, 0 without stocks. */
  lemma StockPortionBounds(h: Holdings)
    requires h.stockPrincipal >= 0 && h.bondPrincipal >= 0 && h.stockReturn >= 0 && h.bondReturn >= 0
    ensures 0 <= StockPortion(h) <= 100
    ensures h.stockPrincipal + h.stockReturn > 0 && h.bondPrincipal + h.bondReturn == 0 ==> StockPortion(h) == 100
    ensures h.stockPrincipal + h.stockReturn == 0 ==> StockPortion(h) == 0
  {
    var stockTotal := h.stockPrincipal + h.stockReturn;
    var totalPortfolio := stockTotal + h.bondPrincipal + h.bondReturn;
    if totalPortfolio > 0 {
      PercentOfWhole(stockTotal as real, totalPortfolio as real);
      RoundWithin(stockTotal as real / totalPortfolio as real * 100.0, 0, 100);
      if stockTotal == totalPortfolio {
        RoundOfInt(100);
      }
      if stockTotal == 0 {
        RoundOfInt(0);
      }
    } else {
      RoundOfInt(0);
    }
  }

  /** A part of a positive whole is between 0 and 100 percent of it. */
  lemma PercentOfWhole(part: real, whole: real)
    requires 0.0 <= part <= whole && whole > 0.0
    ensures 0.0 <= part / whole * 100.0 <= 100.0
    ensures part == whole ==> part / whole * 100.0 == 100.0
    ensures part == 0.0 ==> part / whole * 100.0 == 0.0
  {
    var q := part / whole;
    assert q * whole == part;
    if q > 1.0 {
      calc {
        part;
      ==
        q * whole;
      > { MulStrict(1.0, q, whole); }
        1.0 * whole;
      ==
        whole;
      }
      assert false;
    }
    if q < 0.0 {
      calc {
        part;
      ==
        q * whole;
      < { MulStrict(q, 0.0, whole); }
        0.0 * whole;
      ==
        0.0;
      }
      assert false;
    }
    MulAtMost(q, 1.0, 100.0);
    MulAtMost(0.0, q, 100.0);
  }

  /** The stock portion of every row. */
  method StockPortionPercentages(principalStockSeries: array<int>, stockReturnSeries: array<int>,
                                 principalBondSeries: array<int>, bondReturnSeries: array<int>)
    returns (percentages: seq<int>)
    requires stockReturnSeries.Length == principalStockSeries.Length
    requires principalBondSeries.Length == principalStockSeries.Length
    requires bondReturnSeries.Length == principalStockSeries.Length
    ensures |percentages| == principalStockSeries.Length
    ensures forall i :: 0 <= i < |percentages| ==>
              percentages[i] == StockPortion(Holdings(principalStockSeries[i], principalBondSeries[i],
                                                      stockReturnSeries[i], bondReturnSeries[i]))
  {
    var len := principalStockSeries.Length;
    percentages := [];
    for i := 0 to len
      invariant |percentages| == i
      invariant forall j :: 0 <= j < i ==>
                  percentages[j] == StockPortion(Holdings(principalStockSeries[j], principalBondSeries[j],
                                                          stockReturnSeries[j], bondReturnSeries[j]))
    {
      var stockTotal := principalStockSeries[i] + stockReturnSeries[i];
      var bondTotal := principalBondSeries[i] + bondReturnSeries[i];
      var totalPortfolio := stockTotal + bondTotal;
      if totalPortfolio > 0 {
        percentages := percentages + [Round((stockTotal as real / totalPortfolio as real) * 100.0)];
      } else {
        percentages := percentages + [0];
      }
    }
  }

  // ---------------------------------------------------------------------
  // Accumulated return index of a simulated path

  /** A label of the index chart: the start row or a calendar year. */
  datatype Label = Start | Year(year: int)

  datatype AccumulatedReturns = AccumulatedReturns(
    labels: seq<Label>,
    indexValues: seq<real>,
    percentValues: seq<real>,
    krValues: seq<int>)

  /** The stock share used in year i: the allocation schedule's entry i + 1,
      or its last entry once the schedule runs out. */
  function StockShareAt(pcts: seq<real>, i: nat): real
    requires |pcts| > 0
  {
    (if i + 1 < |pcts| then pcts[i + 1] else pcts[|pcts| - 1]) / 100.0
  }

  /** Stock and bond returns weighted by the stock share and its complement. */
  function Weighted(stockReturn: real, bondReturn: real, stockPercentage: real): real
  {
    (stockReturn * stockPercentage) + (bondReturn * (1.0 - stockPercentage))
  }

  /** The path's return of year i weighted by the stock share. */
  function WeightedReturn(sim: seq<ReturnPair>, pcts: seq<real>, i: nat): real
    requires i < |sim| && |pcts| > 0
  {
    Weighted(sim[i].stock / 100.0, sim[i].bond / 100.0, StockShareAt(pcts, i))
  }

  /** One year of compounding. */
  function Compounded(index: real, rate: real): real
  {
    index * (1.0 + rate)
  }

  /** The index after n years, from 100: years beyond the path leave it as it is. */
  function IndexAfter(sim: seq<ReturnPair>, pcts: seq<real>, n: nat): real
    requires |pcts| > 0
  {
    if n == 0 then 100.0
    else if n - 1 < |sim| then Compounded(IndexAfter(sim, pcts, n - 1), WeightedReturn(sim, pcts, n - 1))
    else IndexAfter(sim, pcts, n - 1)
  }

  /** The kroner return of year i from the return series, 0 beyond them. */
  function KrAt(stockReturnSeries: seq<int>, bondReturnSeries: seq<int>, i: nat): int
  {
    if i + 1 < |stockReturnSeries| && i + 1 < |bondReturnSeries| then
      stockReturnSeries[i + 1] + bondReturnSeries[i + 1]
    else 0
  }

  /** Beyond the end of the path the index stays where the path left it. */
  lemma {:induction false} IndexFlatBeyondPath(sim: seq<ReturnPair>, pcts: seq<real>, n: nat)
    requires |pcts| > 0 && n >= |sim|
    ensures IndexAfter(sim, pcts, n) == IndexAfter(sim, pcts, |sim|)
  {
    if n > |sim| {
      IndexFlatBeyondPath(sim, pcts, n - 1);
    }
  }

  /** While no weighted return loses everything the index stays positive. */
  lemma {:induction false} IndexPositive(sim: seq<ReturnPair>, pcts: seq<real>, n: nat)
    requires |pcts| > 0
    requires forall i :: 0 <= i < |sim| ==> WeightedReturn(sim, pcts, i) > -1.0
    ensures IndexAfter(sim, pcts, n) > 0.0
  {
    if n > 0 {
      IndexPositive(sim, pcts, n - 1);
      if n - 1 < |sim| {
        var before, rate := IndexAfter(sim, pcts, n - 1), WeightedReturn(sim, pcts, n - 1);
        assert rate > -1.0;
        MulPositive(before, 1.0 + rate);
        assert IndexAfter(sim, pcts, n) == Compounded(before, rate) == before * (1.0 + rate);
      }
    }
  }

  /** Years without return leave the index at 100. */
  lemma {:induction false} IndexWithoutReturns(sim: seq<ReturnPair>, pcts: seq<real>, n: nat)
    requires |pcts| > 0
    requires forall i :: 0 <= i < |sim| ==> sim[i] == ReturnPair(0.0, 0.0)
    ensures IndexAfter(sim, pcts, n) == 100.0
  {
    if n > 0 {
      IndexWithoutReturns(sim, pcts, n - 1);
    }
  }

  /** Year i of the index loop: the path's weighted return of year i
      compounds the index (years beyond the path leave it), the index's
      gain over the start in percent, and the year's kroner return. */
  method IndexYear(sim: seq<ReturnPair>, pcts: seq<real>, i: nat, accumulatedIndex: real,
                   stockReturnSeries: seq<int>, bondReturnSeries: seq<int>)
    returns (next: real, percentAccumulated: real, annualReturnKr: int)
    requires |pcts| > 0 && accumulatedIndex == IndexAfter(sim, pcts, i)
    ensures next == IndexAfter(sim, pcts, i + 1)
    ensures percentAccumulated == IndexAfter(sim, pcts, i + 1) - 100.0
    ensures annualReturnKr == KrAt(stockReturnSeries, bondReturnSeries, i)
  {
    next := accumulatedIndex;
    if i < |sim| {
      var stockReturn := sim[i].stock / 100.0;
      var bondReturn := sim[i].bond / 100.0;
      var stockPercentage := StockShareAt(pcts, i);
      var weightedReturn := Weighted(stockReturn, bondReturn, stockPercentage);
      next := Compounded(accumulatedIndex, weightedReturn);
    }
    percentAccumulated := ((next / 100.0) - 1.0) * 100.0;
    annualReturnKr := 0;
    if i + 1 < |stockReturnSeries| && i + 1 < |bondReturnSeries| {
      annualReturnKr := stockReturnSeries[i + 1] + bondReturnSeries[i + 1];
    }
  }

  /** The index chart: empty without a saved path or allocation schedule;
      otherwise one entry for the start and one per year, the index from 100,
      its percentage gain over the start, and the year's kroner return. */
  method AccumulatedReturnData(sim: seq<ReturnPair>, pcts: seq<real>, s: Params,
                               stockReturnSeries: seq<int>, bondReturnSeries: seq<int>)
    returns (r: AccumulatedReturns)
    ensures |sim| == 0 || |pcts| == 0 ==> r == AccumulatedReturns([], [], [], [])
    ensures |sim| > 0 && |pcts| > 0 ==>
              && |r.labels| == s.TotalYears() + 1 && |r.indexValues| == s.TotalYears() + 1
              && |r.percentValues| == s.TotalYears() + 1 && |r.krValues| == s.TotalYears() + 1
              && r.labels[0] == Start && r.percentValues[0] == 0.0 && r.krValues[0] == 0
              && (forall k :: 1 <= k < |r.labels| ==> r.labels[k] == Year(START_YEAR + k - 1))
              && (forall k :: 0 <= k < |r.indexValues| ==>
                    r.indexValues[k] == IndexAfter(sim, pcts, k) && r.percentValues[k] == IndexAfter(sim, pcts, k) - 100.0)
              && (forall k :: 1 <= k < |r.krValues| ==> r.krValues[k] == KrAt(stockReturnSeries, bondReturnSeries, k - 1))
  {
    if |sim| == 0 || |pcts| == 0 {
      return AccumulatedReturns([], [], [], []);
    }
    var totalYears := s.investmentYears + s.payoutYears;
    var labels := [Start] + seq(totalYears, i => Year(START_YEAR + i));
    var indexValues, percentValues, krValues := IndexSeries(sim, pcts, totalYears, stockReturnSeries, bondReturnSeries);
    r := AccumulatedReturns(labels, indexValues, percentValues, krValues);
  }

  /** The loop of the index chart over the start and totalYears years. */
  method IndexSeries(sim: seq<ReturnPair>, pcts: seq<real>, totalYears: nat,
                     stockReturnSeries: seq<int>, bondReturnSeries: seq<int>)
    returns (indexValues: seq<real>, percentValues: seq<real>, krValues: seq<int>)
    requires |pcts| > 0
    ensures |indexValues| == totalYears + 1 && |percentValues| == totalYears + 1 && |krValues| == totalYears + 1
    ensures percentValues[0] == 0.0 && krValues[0] == 0
    ensures forall k :: 0 <= k <= totalYears ==>
              indexValues[k] == IndexAfter(sim, pcts, k) && percentValues[k] == IndexAfter(sim, pcts, k) - 100.0
    ensures forall k :: 1 <= k <= totalYears ==> krValues[k] == KrAt(stockReturnSeries, bondReturnSeries, k - 1)
  {
    indexValues := [];
    percentValues := [];
    krValues := [];
    var accumulatedIndex := 100.0;
    indexValues := indexValues + [accumulatedIndex];
    percentValues := percentValues + [0.0];
    krValues := krValues + [0];
    for i := 0 to totalYears
      invariant accumulatedIndex == IndexAfter(sim, pcts, i)
      invariant |indexValues| == i + 1 && |percentValues| == i + 1 && |krValues| == i + 1
      invariant percentValues[0] == 0.0 && krValues[0] == 0
      invariant forall k :: 0 <= k <= i ==>
                  indexValues[k] == IndexAfter(sim, pcts, k) && percentValues[k] == IndexAfter(sim, pcts, k) - 100.0
      invariant forall k :: 1 <= k <= i ==> krValues[k] == KrAt(stockReturnSeries, bondReturnSeries, k - 1)
    {
      var percentAccumulated, annualReturnKr;
      accumulatedIndex, percentAccumulated, annualReturnKr :=
        IndexYear(sim, pcts, i, accumulatedIndex, stockReturnSeries, bondReturnSeries);
      indexValues := indexValues + [accumulatedIndex];
      percentValues := percentValues + [percentAccumulated];
      krValues := krValues + [annualReturnKr];
    }
  }
}
