/** The allocation scheduler: the stock percentage used in each simulated
    year, and the size-weighted stock percentage of the three portfolios. */
module Allocation {
  import opened Numeric
  import opened Parameters

  /** Builds one stock-percentage entry per simulated year: accumulation years
      use initialStockAllocation, payout years repeat the last accumulation
      year's entry (or initialStockAllocation when there is none). Every entry
      therefore equals initialStockAllocation. */
  method PopulateAnnualStockPercentages(s: Params) returns (pcts: seq<real>)
    ensures |pcts| == s.investmentYears + s.payoutYears
    ensures forall k :: 0 <= k < |pcts| && k < s.investmentYears ==> pcts[k] == s.initialStockAllocation
    ensures forall k :: s.investmentYears <= k < |pcts| ==>
              pcts[k] == (if s.investmentYears > 0 then pcts[s.investmentYears - 1] else s.initialStockAllocation)
    ensures forall k :: 0 <= k < |pcts| ==> pcts[k] == s.initialStockAllocation
  {
    var totalSimulatedYears := s.investmentYears + s.payoutYears;
    pcts := [];
    for index := 0 to totalSimulatedYears
      invariant |pcts| == index
      invariant forall k :: 0 <= k < index ==> pcts[k] == s.initialStockAllocation
    {
      var isInvestmentYear := index < s.investmentYears;
      var currentPercentage := 0.0;
      if isInvestmentYear {
        currentPercentage := s.initialStockAllocation;
      } else {
        currentPercentage := if s.investmentYears > 0 then pcts[s.investmentYears - 1] else s.initialStockAllocation;
      }
      pcts := pcts + [currentPercentage];
    }
  }

  /** A weighted average with non-negative weights lies between the smallest
      and the largest of the averaged values. */
  lemma WeightedAverageBounds(w1: real, w2: real, w3: real, a1: real, a2: real, a3: real, lo: real, hi: real)
    requires w1 >= 0.0 && w2 >= 0.0 && w3 >= 0.0 && w1 + w2 + w3 > 0.0
    requires lo <= a1 <= hi && lo <= a2 <= hi && lo <= a3 <= hi
    ensures lo <= (w1 * a1 + w2 * a2 + w3 * a3) / (w1 + w2 + w3) <= hi
  {
    var total := w1 + w2 + w3;
    var ws := w1 * a1 + w2 * a2 + w3 * a3;
    calc {
      lo * total;
    == { Distribute3(lo, w1, w2, w3); }
      lo * w1 + lo * w2 + lo * w3;
    <= { MulAtMost(lo, a1, w1); }
      a1 * w1 + lo * w2 + lo * w3;
    <= { MulAtMost(lo, a2, w2); }
      a1 * w1 + a2 * w2 + lo * w3;
    <= { MulAtMost(lo, a3, w3); }
      a1 * w1 + a2 * w2 + a3 * w3;
    ==
      ws;
    }
    calc {
      ws;
    ==
      a1 * w1 + a2 * w2 + a3 * w3;
    <= { MulAtMost(a1, hi, w1); }
      hi * w1 + a2 * w2 + a3 * w3;
    <= { MulAtMost(a2, hi, w2); }
      hi * w1 + hi * w2 + a3 * w3;
    <= { MulAtMost(a3, hi, w3); }
      hi * w1 + hi * w2 + hi * w3;
    == { Distribute3(hi, w1, w2, w3); }
      hi * total;
    }
    var q := ws / total;
    assert q * total == ws;
    if q < lo {
      MulStrict(q, lo, total);
      assert false;
    }
    if q > hi {
      MulStrict(hi, q, total);
      assert false;
    }
  }

  /** Multiplication distributes over a sum of three weights. */
  lemma Distribute3(c: real, w1: real, w2: real, w3: real)
    ensures c * (w1 + w2 + w3) == c * w1 + c * w2 + c * w3
  {
  }

  /** The size-weighted stock percentage of Portefølje I, Portefølje II and
      the liquidity fund (0 % stocks), before rounding; negative sizes count
      as 0. When all three are empty it is the plain average of the three
      allocations, and when only the liquidity fund holds money it is 0. */
  function InitialStockAverage(s: Params): (r: real)
    ensures s.initialPortfolioSize <= 0.0 && s.pensionPortfolioSize <= 0.0 && s.additionalPensionAmount <= 0.0 ==>
              r == (s.row1StockAllocation + s.row2StockAllocation) / 3.0
    ensures s.initialPortfolioSize <= 0.0 && s.pensionPortfolioSize <= 0.0 && s.additionalPensionAmount > 0.0 ==>
              r == 0.0
  {
    WeightedStockAverage(Max(0.0, s.initialPortfolioSize), Max(0.0, s.pensionPortfolioSize),
                         Max(0.0, s.additionalPensionAmount), s.row1StockAllocation, s.row2StockAllocation)
  }

  /** The average of the two allocations and the liquidity fund's 0 %,
      weighted by the three sizes; the plain average when they add up to 0. */
  function WeightedStockAverage(p1: real, p2: real, lf: real, r1: real, r2: real): real
  {
    var total := p1 + p2 + lf;
    if total <= 0.0 then (r1 + r2 + 0.0) / 3.0
    else (p1 * r1 + p2 * r2 + lf * 0.0) / total
  }

  /** computeInitialStockPct: the weighted stock percentage, rounded. It is
      the rounded plain average when every portfolio is empty, 0 when only
      the liquidity fund holds money, and within 0..100 for allocations on
      that scale. */
  function ComputeInitialStockPct(s: Params): (r: int)
    ensures s.initialPortfolioSize <= 0.0 && s.pensionPortfolioSize <= 0.0 && s.additionalPensionAmount <= 0.0 ==>
              r == Round((s.row1StockAllocation + s.row2StockAllocation) / 3.0)
    ensures s.initialPortfolioSize <= 0.0 && s.pensionPortfolioSize <= 0.0 && s.additionalPensionAmount > 0.0 ==>
              r == 0
    ensures 0.0 <= s.row1StockAllocation <= 100.0 && 0.0 <= s.row2StockAllocation <= 100.0 ==>
              0 <= r <= 100
  {
    var average := InitialStockAverage(s);
    if 0.0 <= s.row1StockAllocation <= 100.0 && 0.0 <= s.row2StockAllocation <= 100.0 then
      InitialStockAverageBounds(s, Min(Min(s.row1StockAllocation, s.row2StockAllocation), 0.0),
                                Max(Max(s.row1StockAllocation, s.row2StockAllocation), 0.0));
      RoundWithin(average, 0, 100);
      Round(average)
    else
      Round(average)
  }

  /** The weighted stock percentage reads only the three sizes and the two
      allocations. */
  lemma StockPctDependsOnSizesAndAllocations(a: Params, b: Params)
    requires a.initialPortfolioSize == b.initialPortfolioSize
    requires a.pensionPortfolioSize == b.pensionPortfolioSize
    requires a.additionalPensionAmount == b.additionalPensionAmount
    requires a.row1StockAllocation == b.row1StockAllocation
    requires a.row2StockAllocation == b.row2StockAllocation
    ensures ComputeInitialStockPct(a) == ComputeInitialStockPct(b)
  {
    assert InitialStockAverage(a) == InitialStockAverage(b);
  }

  /** Before rounding, the weighted stock percentage lies between the
      smallest and the largest of the three allocations (the liquidity
      fund's being 0). */
  lemma InitialStockAverageBounds(s: Params, lo: real, hi: real)
    requires lo == Min(Min(s.row1StockAllocation, s.row2StockAllocation), 0.0)
    requires hi == Max(Max(s.row1StockAllocation, s.row2StockAllocation), 0.0)
    ensures lo <= InitialStockAverage(s) <= hi
  {
    WeightedStockAverageBounds(Max(0.0, s.initialPortfolioSize), Max(0.0, s.pensionPortfolioSize),
                               Max(0.0, s.additionalPensionAmount), s.row1StockAllocation, s.row2StockAllocation, lo, hi);
  }

  /** Both branches of WeightedStockAverage lie between bounds on the two
      allocations and the fund's 0 %. */
  lemma WeightedStockAverageBounds(p1: real, p2: real, lf: real, r1: real, r2: real, lo: real, hi: real)
    requires p1 >= 0.0 && p2 >= 0.0 && lf >= 0.0
    requires lo <= r1 <= hi && lo <= r2 <= hi && lo <= 0.0 <= hi
    ensures lo <= WeightedStockAverage(p1, p2, lf, r1, r2) <= hi
  {
    if p1 + p2 + lf > 0.0 {
      WeightedAverageBounds(p1, p2, lf, r1, r2, 0.0, lo, hi);
      assert (p1 * r1 + p2 * r2 + lf * 0.0) / (p1 + p2 + lf) == WeightedStockAverage(p1, p2, lf, r1, r2);
    }
  }

  /** The weighted stock percentage lies between the smallest and the largest
      of the three allocations (the liquidity fund's being 0), rounded. */
  lemma InitialStockPctBounds(s: Params)
    ensures var lo := Min(Min(s.row1StockAllocation, s.row2StockAllocation), 0.0);
            var hi := Max(Max(s.row1StockAllocation, s.row2StockAllocation), 0.0);
            Round(lo) <= ComputeInitialStockPct(s) <= Round(hi)
  {
    var lo := Min(Min(s.row1StockAllocation, s.row2StockAllocation), 0.0);
    var hi := Max(Max(s.row1StockAllocation, s.row2StockAllocation), 0.0);
    InitialStockAverageBounds(s, lo, hi);
    RoundMonotone(lo, InitialStockAverage(s));
    RoundMonotone(InitialStockAverage(s), hi);
  }

  /** When only Portefølje I holds money, the weighted stock percentage is
      simply its own allocation, rounded. */
  lemma OnlyPortfolioOneCounts(s: Params)
    requires s.initialPortfolioSize > 0.0
    requires s.pensionPortfolioSize <= 0.0 && s.additionalPensionAmount <= 0.0
    ensures ComputeInitialStockPct(s) == Round(s.row1StockAllocation)
  {
    var p1 := Max(0.0, s.initialPortfolioSize);
    var p2 := Max(0.0, s.pensionPortfolioSize);
    var lf := Max(0.0, s.additionalPensionAmount);
    assert p1 == s.initialPortfolioSize && p2 == 0.0 && lf == 0.0;
    var r1 := s.row1StockAllocation;
    var wStock := p1 * r1 + p2 * s.row2StockAllocation + lf * 0.0;
    assert wStock == p1 * r1;
    assert (p1 * r1) / p1 == r1;
    assert wStock / (p1 + p2 + lf) == r1;
    assert InitialStockAverage(s) == WeightedStockAverage(p1, p2, lf, r1, s.row2StockAllocation) == r1;
  }
}
