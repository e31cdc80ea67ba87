/** The Monte Carlo core: a simplified, untaxed simulation over one sampled
    return path, the largest constant payout it sustains (calculateMaxPayout),
    the value it reaches by the end of the accumulation years
    (calculatePortfolioValue), and the 1000-trial aggregations of both. The
    sampled paths are inputs: drawing them is not modelled. */
module MonteCarlo {
  import opened Numeric
  import opened Parameters
  import opened Allocation
  import opened Sorting

  /** Number of trials per Monte Carlo run. */
  const TRIALS: nat := 1000

  /** calculateMaxPayout stops bisecting once the bracket is this narrow, in kroner. */
  const PAYOUT_TOLERANCE: real := 100.0

  /** One sampled return path: stock and bond returns per year, in percent. */
  datatype ReturnPath = ReturnPath(stockReturns: seq<real>, bondReturns: seq<real>)

  /** The path has returns for the first n years. */
  predicate Covers(path: ReturnPath, n: nat)
  {
    |path.stockReturns| >= n && |path.bondReturns| >= n
  }

  /** Year i's return of a portfolio holding stockPct % stocks and the rest bonds. */
  function PathReturn(stockPct: real, path: ReturnPath, i: nat): real
    requires i < |path.stockReturns| && i < |path.bondReturns|
  {
    var stockShare := stockPct / 100.0;
    stockShare * (path.stockReturns[i] / 100.0) + (1.0 - stockShare) * (path.bondReturns[i] / 100.0)
  }

  /** The savings added in year i: the annual savings in accumulation years, when positive. */
  function Deposit(s: Params, i: nat): real
  {
    if i < s.investmentYears && s.annualSavings > 0.0 then s.annualSavings else 0.0
  }

  /** One simulated year before any payout: deposit, then grow by the year's return. */
  function Grown(s: Params, path: ReturnPath, v: real, i: nat): real
    requires Covers(path, i + 1)
  {
    (v + Deposit(s, i)) * (1.0 + PathReturn(s.initialStockAllocation, path, i))
  }

  // ---------------------------------------------------------------------
  // calculateMaxPayout

  /** The inner simulation of calculateMaxPayout from value v at year i with
      a constant payout: every year grows the value; a payout year then
      subtracts the payout and stops the simulation once the value is
      negative. */
  function PayoutRunFrom(s: Params, path: ReturnPath, payout: real, v: real, i: nat): real
    requires Covers(path, s.TotalYears())
    decreases s.TotalYears() - i
  {
    if i >= s.TotalYears() then v
    else
      var grown := Grown(s, path, v, i);
      if i < s.investmentYears then PayoutRunFrom(s, path, payout, grown, i + 1)
      else if grown - payout < 0.0 then grown - payout
      else PayoutRunFrom(s, path, payout, grown - payout, i + 1)
  }

  /** The final value of the inner simulation, from the three seeds. */
  function PayoutRun(s: Params, path: ReturnPath, payout: real): real
    requires Covers(path, s.TotalYears())
  {
    PayoutRunFrom(s, path, payout, s.SeedTotal(), 0)
  }

  /** The bisection counter: how many tolerances fit in the bracket. */
  function Widths(low: real, high: real): nat
  {
    if high - low > PAYOUT_TOLERANCE then ((high - low) / PAYOUT_TOLERANCE).Floor else 0
  }

  /** Halving a bracket wider than the tolerance lowers the counter. */
  lemma HalvingShrinks(low: real, high: real, mid: real)
    requires high - low > PAYOUT_TOLERANCE && mid == (low + high) / 2.0
    ensures Widths(low, mid) < Widths(low, high) && Widths(mid, high) < Widths(low, high)
  {
    var x := (high - low) / PAYOUT_TOLERANCE;
    assert x > 1.0;
    assert (mid - low) / PAYOUT_TOLERANCE == x / 2.0;
    assert (high - mid) / PAYOUT_TOLERANCE == x / 2.0;
    if x < 2.0 {
      assert (x / 2.0).Floor == 0;
    }
  }

  /** Where the bisection of calculateMaxPayout stops. */
  datatype PayoutSearch = PayoutSearch(low: real, high: real, maxPayout: real)

  /** The bisection loop of calculateMaxPayout run to its exit: a test
      payout that drives the final value negative becomes the upper end;
      any other becomes the lower end and the best payout so far. */
  function SearchMaxPayout(s: Params, path: ReturnPath, low: real, high: real, maxPayout: real): PayoutSearch
    requires Covers(path, s.TotalYears())
    decreases Widths(low, high)
  {
    if high - low > PAYOUT_TOLERANCE then
      var testPayout := (low + high) / 2.0;
      HalvingShrinks(low, high, testPayout);
      if PayoutRun(s, path, testPayout) < 0.0 then SearchMaxPayout(s, path, low, testPayout, maxPayout)
      else SearchMaxPayout(s, path, testPayout, high, testPayout)
    else PayoutSearch(low, high, maxPayout)
  }

  /** The bisection's opening bracket. */
  function OpeningSearch(s: Params, path: ReturnPath): PayoutSearch
    requires Covers(path, s.TotalYears())
  {
    SearchMaxPayout(s, path, 0.0, s.SeedTotal() * 2.0, 0.0)
  }

  /** calculateMaxPayout: 0 without simulated years, otherwise the payout
      found by bisection times the number of payout years. */
  function MaxPayout(s: Params, path: ReturnPath): real
    requires Covers(path, s.TotalYears())
  {
    if s.TotalYears() == 0 then 0.0
    else OpeningSearch(s, path).maxPayout * s.payoutYears as real
  }

  /** The bisection keeps the best payout equal to the lower end, never
      lowers the lower end nor raises the upper end, keeps the lower end at
      or below the upper end, and stops with a
      bracket no wider than the tolerance. A moved lower end keeps the final
      value non-negative, and a moved upper end drives it negative. */
  lemma {:induction false} SearchFacts(s: Params, path: ReturnPath, low: real, high: real)
    requires Covers(path, s.TotalYears())
    ensures var r := SearchMaxPayout(s, path, low, high, low);
            && r.maxPayout == r.low
            && r.high - r.low <= PAYOUT_TOLERANCE
            && low <= r.low
            && (low <= high ==> r.low <= r.high <= high)
            && (r.low == low || PayoutRun(s, path, r.low) >= 0.0)
            && (r.high == high || PayoutRun(s, path, r.high) < 0.0)
    decreases Widths(low, high)
  {
    if high - low > PAYOUT_TOLERANCE {
      var testPayout := (low + high) / 2.0;
      HalvingShrinks(low, high, testPayout);
      if PayoutRun(s, path, testPayout) < 0.0 {
        SearchFacts(s, path, low, testPayout);
      } else {
        SearchFacts(s, path, testPayout, high);
      }
    }
  }

  /** calculateMaxPayout returns 0 without simulated years; otherwise a
      non-negative total: the yearly payout times the payout years, where
      the yearly payout is 0 or keeps the final value non-negative, and lies
      within the tolerance of the opening upper end or of a payout that
      drives the final value negative. With non-negative seeds the final
      bracket stays within the opening one, [0, twice the seeds]. */
  lemma MaxPayoutFacts(s: Params, path: ReturnPath)
    requires Covers(path, s.TotalYears())
    ensures s.TotalYears() == 0 ==> MaxPayout(s, path) == 0.0
    ensures s.TotalYears() > 0 ==>
              var r := OpeningSearch(s, path);
              && MaxPayout(s, path) == r.low * s.payoutYears as real
              && MaxPayout(s, path) >= 0.0
              && r.high - r.low <= PAYOUT_TOLERANCE
              && (r.low == 0.0 || PayoutRun(s, path, r.low) >= 0.0)
              && (r.high == s.SeedTotal() * 2.0 || PayoutRun(s, path, r.high) < 0.0)
    ensures s.TotalYears() > 0 && s.SeedTotal() >= 0.0 ==>
              var r := OpeningSearch(s, path);
              0.0 <= r.low <= r.high <= s.SeedTotal() * 2.0
  {
    SearchFacts(s, path, 0.0, s.SeedTotal() * 2.0);
    var r := OpeningSearch(s, path);
    MulNonNegative(r.low, s.payoutYears as real);
  }

  /** With non-negative seeds calculateMaxPayout returns at most the opening
      upper end, twice the seeds, for every payout year. */
  lemma MaxPayoutBounded(s: Params, path: ReturnPath)
    requires Covers(path, s.TotalYears())
    requires s.SeedTotal() >= 0.0
    ensures 0.0 <= MaxPayout(s, path) <= s.SeedTotal() * 2.0 * s.payoutYears as real
  {
    MaxPayoutFacts(s, path);
    var bound, years := s.SeedTotal() * 2.0, s.payoutYears as real;
    MulNonNegative(bound, years);
    if s.TotalYears() > 0 {
      var r := OpeningSearch(s, path);
      MulAtMost(r.low, bound, years);
    }
  }

  /** The loops' year, spelled out as they compute it, is one simulated year. */
  lemma YearByParts(s: Params, path: ReturnPath, v: real, i: nat, deposited: real,
                    stockPct: real, bondPct: real, stockReturn: real, bondReturn: real)
    requires Covers(path, i + 1)
    requires deposited == v + Deposit(s, i)
    requires stockPct == s.initialStockAllocation / 100.0 && bondPct == 1.0 - stockPct
    requires stockReturn == path.stockReturns[i] / 100.0 && bondReturn == path.bondReturns[i] / 100.0
    ensures deposited * (1.0 + (stockPct * stockReturn + bondPct * bondReturn)) == Grown(s, path, v, i)
  {
  }

  /** The inner simulation loop, with its early exit. */
  method SimulatePayout(s: Params, pcts: seq<real>, path: ReturnPath, testPayout: real) returns (testValue: real)
    requires Covers(path, s.TotalYears())
    requires |pcts| == s.TotalYears()
    requires forall k :: 0 <= k < |pcts| ==> pcts[k] == s.initialStockAllocation
    ensures testValue == PayoutRun(s, path, testPayout)
  {
    testValue := s.SeedTotal();
    for i := 0 to s.TotalYears()
      invariant PayoutRunFrom(s, path, testPayout, testValue, i) == PayoutRun(s, path, testPayout)
    {
      ghost var before := testValue;
      var isInvestmentYear := i < s.investmentYears;
      var stockPct := pcts[i] / 100.0;
      var bondPct := 1.0 - stockPct;
      if isInvestmentYear && s.annualSavings > 0.0 {
        testValue := testValue + s.annualSavings;
      }
      var stockReturn := path.stockReturns[i] / 100.0;
      var bondReturn := path.bondReturns[i] / 100.0;
      var portfolioReturn := stockPct * stockReturn + bondPct * bondReturn;
      YearByParts(s, path, before, i, testValue, stockPct, bondPct, stockReturn, bondReturn);
      testValue := testValue * (1.0 + portfolioReturn);
      assert testValue == Grown(s, path, before, i);
      if !isInvestmentYear {
        testValue := testValue - testPayout;
        if testValue < 0.0 {
          assert PayoutRunFrom(s, path, testPayout, before, i) == testValue;
          break;
        }
      }
      assert PayoutRunFrom(s, path, testPayout, before, i) == PayoutRunFrom(s, path, testPayout, testValue, i + 1);
    }
  }

  method CalculateMaxPayout(path: ReturnPath, s: Params) returns (totalPayout: real)
    requires Covers(path, s.TotalYears())
    ensures totalPayout == MaxPayout(s, path)
  {
    var totalYears := s.investmentYears + s.payoutYears;
    if totalYears == 0 {
      return 0.0;
    }
    var annualStockPercentages := PopulateAnnualStockPercentages(s);
    var initialValue := s.initialPortfolioSize + s.pensionPortfolioSize + s.additionalPensionAmount;
    var low := 0.0;
    var high := initialValue * 2.0;
    var maxPayout := 0.0;
    while high - low > PAYOUT_TOLERANCE
      invariant SearchMaxPayout(s, path, low, high, maxPayout) == OpeningSearch(s, path)
      decreases Widths(low, high)
    {
      var testPayout := (low + high) / 2.0;
      HalvingShrinks(low, high, testPayout);
      var testValue := SimulatePayout(s, annualStockPercentages, path, testPayout);
      if testValue < 0.0 {
        high := testPayout;
      } else {
        // the source's "close to zero" and "still positive" branches do the same
        maxPayout := testPayout;
        low := testPayout;
      }
    }
    totalPayout := maxPayout * s.payoutYears as real;
  }

  // ---------------------------------------------------------------------
  // calculatePortfolioValue

  /** The simulation of calculatePortfolioValue from value v at year i to
      the end of the accumulation years. */
  function GrowthFrom(s: Params, path: ReturnPath, v: real, i: nat): real
    requires Covers(path, s.investmentYears)
    decreases s.investmentYears - i
  {
    if i >= s.investmentYears then v
    else GrowthFrom(s, path, Grown(s, path, v, i), i + 1)
  }

  /** calculatePortfolioValue: the three seeds grown through the accumulation years. */
  function PortfolioValue(s: Params, path: ReturnPath): real
    requires Covers(path, s.investmentYears)
  {
    GrowthFrom(s, path, s.SeedTotal(), 0)
  }

  method CalculatePortfolioValue(path: ReturnPath, s: Params) returns (portfolioValue: real)
    requires Covers(path, s.investmentYears)
    ensures portfolioValue == PortfolioValue(s, path)
  {
    if s.investmentYears == 0 {
      return s.initialPortfolioSize + s.pensionPortfolioSize + s.additionalPensionAmount;
    }
    var annualStockPercentages := PopulateAnnualStockPercentages(s);
    portfolioValue := s.initialPortfolioSize + s.pensionPortfolioSize + s.additionalPensionAmount;
    for i := 0 to s.investmentYears
      invariant GrowthFrom(s, path, portfolioValue, i) == PortfolioValue(s, path)
    {
      ghost var before := portfolioValue;
      var stockPct := annualStockPercentages[i] / 100.0;
      var bondPct := 1.0 - stockPct;
      if s.annualSavings > 0.0 {
        portfolioValue := portfolioValue + s.annualSavings;
      }
      var stockReturn := path.stockReturns[i] / 100.0;
      var bondReturn := path.bondReturns[i] / 100.0;
      var portfolioReturn := stockPct * stockReturn + bondPct * bondReturn;
      YearByParts(s, path, before, i, portfolioValue, stockPct, bondPct, stockReturn, bondReturn);
      portfolioValue := portfolioValue * (1.0 + portfolioReturn);
      assert portfolioValue == Grown(s, path, before, i);
    }
  }

  /** A path of zero returns. */
  predicate FlatFor(path: ReturnPath, n: nat)
    requires Covers(path, n)
  {
    forall k :: 0 <= k < n ==> path.stockReturns[k] == 0.0 && path.bondReturns[k] == 0.0
  }

  /** On a flat path the accumulation simulation only adds the positive
      savings, once per remaining accumulation year. */
  lemma {:induction false} FlatGrowth(s: Params, path: ReturnPath, v: real, i: nat)
    requires Covers(path, s.investmentYears) && FlatFor(path, s.investmentYears)
    requires i <= s.investmentYears
    ensures GrowthFrom(s, path, v, i)
            == v + (s.investmentYears - i) as real * (if s.annualSavings > 0.0 then s.annualSavings else 0.0)
    decreases s.investmentYears - i
  {
    if i < s.investmentYears {
      assert PathReturn(s.initialStockAllocation, path, i) == 0.0;
      FlatGrowth(s, path, Grown(s, path, v, i), i + 1);
    }
  }

  /** On a flat path calculatePortfolioValue is the seeds plus the savings of
      every accumulation year. */
  lemma FlatPortfolioValue(s: Params, path: ReturnPath)
    requires Covers(path, s.investmentYears) && FlatFor(path, s.investmentYears)
    ensures PortfolioValue(s, path)
            == s.SeedTotal() + s.investmentYears as real * (if s.annualSavings > 0.0 then s.annualSavings else 0.0)
  {
    FlatGrowth(s, path, s.SeedTotal(), 0);
  }

  // ---------------------------------------------------------------------
  // The 1000-trial aggregations

  /** The trial results in trial order, before sorting. */
  function TrialPayouts(s: Params, draws: seq<ReturnPath>): (r: seq<real>)
    requires forall k :: 0 <= k < |draws| ==> Covers(draws[k], s.TotalYears())
    ensures |r| == |draws|
  {
    if |draws| == 0 then []
    else TrialPayouts(s, draws[..|draws| - 1]) + [MaxPayout(s, draws[|draws| - 1])]
  }

  function TrialPortfolioValues(s: Params, draws: seq<ReturnPath>): (r: seq<real>)
    requires forall k :: 0 <= k < |draws| ==> Covers(draws[k], s.investmentYears)
    ensures |r| == |draws|
  {
    if |draws| == 0 then []
    else TrialPortfolioValues(s, draws[..|draws| - 1]) + [PortfolioValue(s, draws[|draws| - 1])]
  }

  /** monteCarloResults: empty before the first run (key 0), without
      simulated years or without payout years; otherwise the trial payouts,
      sorted ascending. */
  function PayoutSamples(s: Params, key: nat, draws: seq<ReturnPath>): seq<real>
    requires forall k :: 0 <= k < |draws| ==> Covers(draws[k], s.TotalYears())
  {
    if key == 0 || s.TotalYears() == 0 || s.payoutYears == 0 then []
    else SortAscending(TrialPayouts(s, draws))
  }

  /** monteCarloPortfolioResults: empty before the first run (key 0) or
      without accumulation years; otherwise the trial portfolio values,
      sorted ascending. */
  function PortfolioSamples(s: Params, key: nat, draws: seq<ReturnPath>): seq<real>
    requires forall k :: 0 <= k < |draws| ==> Covers(draws[k], s.investmentYears)
  {
    if key == 0 || s.investmentYears == 0 then []
    else SortAscending(TrialPortfolioValues(s, draws))
  }

  method MonteCarloPayouts(s: Params, key: nat, draws: seq<ReturnPath>) returns (results: seq<real>)
    requires |draws| == TRIALS
    requires forall k :: 0 <= k < |draws| ==> Covers(draws[k], s.TotalYears())
    ensures results == PayoutSamples(s, key, draws)
  {
    if key == 0 {
      return [];
    }
    var totalYears := s.investmentYears + s.payoutYears;
    if totalYears == 0 || s.payoutYears == 0 {
      return [];
    }
    results := [];
    for sim := 0 to TRIALS
      invariant results == TrialPayouts(s, draws[..sim])
    {
      var totalPayout := CalculateMaxPayout(draws[sim], s);
      assert draws[..sim + 1][..sim] == draws[..sim];
      results := results + [totalPayout];
    }
    assert draws[..TRIALS] == draws;
    results := SortAscending(results);
  }

  method MonteCarloPortfolioValues(s: Params, key: nat, draws: seq<ReturnPath>) returns (results: seq<real>)
    requires |draws| == TRIALS
    requires forall k :: 0 <= k < |draws| ==> Covers(draws[k], s.investmentYears)
    ensures results == PortfolioSamples(s, key, draws)
  {
    if key == 0 {
      return [];
    }
    if s.investmentYears == 0 {
      return [];
    }
    results := [];
    for sim := 0 to TRIALS
      invariant results == TrialPortfolioValues(s, draws[..sim])
    {
      var portfolioValue := CalculatePortfolioValue(draws[sim], s);
      assert draws[..sim + 1][..sim] == draws[..sim];
      results := results + [portfolioValue];
    }
    assert draws[..TRIALS] == draws;
    results := SortAscending(results);
  }

  /** Every trial payout is non-negative. */
  lemma {:induction false} TrialPayoutsNonNegative(s: Params, draws: seq<ReturnPath>)
    requires forall k :: 0 <= k < |draws| ==> Covers(draws[k], s.TotalYears())
    ensures forall k :: 0 <= k < |draws| ==> TrialPayouts(s, draws)[k] >= 0.0
  {
    if |draws| > 0 {
      TrialPayoutsNonNegative(s, draws[..|draws| - 1]);
      MaxPayoutFacts(s, draws[|draws| - 1]);
    }
  }

  /** The payout samples are empty before the first run, without simulated
      years or without payout years; otherwise there is one per trial,
      sorted ascending, a permutation of the trial payouts, and none is
      negative. */
  lemma PayoutSamplesFacts(s: Params, key: nat, draws: seq<ReturnPath>)
    requires |draws| == TRIALS
    requires forall k :: 0 <= k < |draws| ==> Covers(draws[k], s.TotalYears())
    ensures var r := PayoutSamples(s, key, draws);
            && (key == 0 || s.TotalYears() == 0 || s.payoutYears == 0 <==> r == [])
            && (r != [] ==>
                  && |r| == TRIALS
                  && SortedAscending(r)
                  && multiset(r) == multiset(TrialPayouts(s, draws))
                  && forall k :: 0 <= k < |r| ==> r[k] >= 0.0)
  {
    TrialPayoutsNonNegative(s, draws);
    SortKeepsLowerBound(TrialPayouts(s, draws), 0.0);
  }

  /** The portfolio samples are empty before the first run or without
      accumulation years; otherwise there is one per trial, sorted
      ascending, a permutation of the trial values. */
  lemma PortfolioSamplesFacts(s: Params, key: nat, draws: seq<ReturnPath>)
    requires |draws| == TRIALS
    requires forall k :: 0 <= k < |draws| ==> Covers(draws[k], s.investmentYears)
    ensures var r := PortfolioSamples(s, key, draws);
            && (key == 0 || s.investmentYears == 0 <==> r == [])
            && (r != [] ==>
                  && |r| == TRIALS
                  && SortedAscending(r)
                  && multiset(r) == multiset(TrialPortfolioValues(s, draws)))
  {
  }
}
