/** The three goal-seek solvers (savings, payout, size of Portefølje I). Each
    one widens a bracket by doubling its upper end, then bisects it, and
    writes the rounded result into the state. The searched function `f`
    stands for "the projection's final portfolio value with the searched
    parameter set to x"; it is a parameter here. */
module GoalSeek {
  import opened Numeric
  import opened Parameters

  /** How the final value moves with the searched parameter: it rises with
      the savings and with Portefølje I, and falls with the payout. */
  datatype Slope = Rising | Falling

  /** The upper end brackets the zero once its final value is on the far
      side of zero: non-negative for a rising search, negative for a falling
      one. */
  predicate Bracketed(slope: Slope, last: real)
  {
    if slope == Rising then last >= 0.0 else last < 0.0
  }

  /** At most this many doublings of the upper end. */
  const MAX_DOUBLINGS: nat := 20

  /** Bisection steps. */
  const BISECTION_STEPS: nat := 50

  /** A final value within this distance of zero stops the bisection. */
  const TOLERANCE: real := 1000.0

  function Pow2(n: nat): (r: real)
    ensures r >= 1.0
  {
    if n == 0 then 1.0 else 2.0 * Pow2(n - 1)
  }

  // ---------------------------------------------------------------------
  // Widening the bracket

  /** Where the doubling loop stops: the upper end, its final value, and the
      number of doublings made. */
  datatype Expansion = Expansion(high: real, last: real, attempts: nat)

  /** The doubling loop run to its exit from the given state: doubles the
      upper end while it does not bracket the zero, is below the limit, and
      fewer than MAX_DOUBLINGS doublings have been made. */
  function Expand(f: real -> real, slope: Slope, limit: real, high: real, last: real, attempts: nat): Expansion
    decreases MAX_DOUBLINGS - attempts
  {
    if !Bracketed(slope, last) && high < limit && attempts < MAX_DOUBLINGS then
      Expand(f, slope, limit, high * 2.0, f(high * 2.0), attempts + 1)
    else
      Expansion(high, last, attempts)
  }

  /** The doubling loop makes at most MAX_DOUBLINGS doublings in all, ends
      with the start doubled once per doubling and the final value of where
      it ended, and stops only when the bracket is found, the limit reached
      or the doublings used up. */
  lemma {:induction false} ExpandFacts(f: real -> real, slope: Slope, limit: real, high: real, attempts: nat)
    requires attempts <= MAX_DOUBLINGS
    decreases MAX_DOUBLINGS - attempts
    ensures var e := Expand(f, slope, limit, high, f(high), attempts);
            && attempts <= e.attempts <= MAX_DOUBLINGS
            && e.high == high * Pow2(e.attempts - attempts)
            && e.last == f(e.high)
            && (Bracketed(slope, e.last) || e.high >= limit || e.attempts == MAX_DOUBLINGS)
  {
    if !Bracketed(slope, f(high)) && high < limit && attempts < MAX_DOUBLINGS {
      ExpandFacts(f, slope, limit, high * 2.0, attempts + 1);
      var e := Expand(f, slope, limit, high * 2.0, f(high * 2.0), attempts + 1);
      var n := e.attempts - (attempts + 1);
      calc {
        e.high;
      ==
        high * 2.0 * Pow2(n);
      ==
        high * (2.0 * Pow2(n));
      ==
        high * Pow2(n + 1);
      == { assert e.attempts - attempts == n + 1; }
        high * Pow2(e.attempts - attempts);
      }
    }
  }

  /** The doubling loop of the three solvers. */
  method ExpandBracket(f: real -> real, slope: Slope, limit: real, start: real)
    returns (high: real, last: real, attempts: nat)
    ensures Expansion(high, last, attempts) == Expand(f, slope, limit, start, f(start), 0)
  {
    high := start;
    last := f(high);
    attempts := 0;
    while !Bracketed(slope, last) && high < limit && attempts < MAX_DOUBLINGS
      invariant attempts <= MAX_DOUBLINGS
      invariant Expand(f, slope, limit, high, last, attempts) == Expand(f, slope, limit, start, f(start), 0)
      decreases MAX_DOUBLINGS - attempts
    {
      high := high * 2.0;
      last := f(high);
      attempts := attempts + 1;
    }
  }

  // ---------------------------------------------------------------------
  // Bisection

  datatype Bracket = Bracket(low: real, high: real)

  /** The bisection loop run from step i to its exit: halves the bracket,
      keeping the half whose upper end still brackets the zero, and stops
      early, at the midpoint, once the final value there is within
      TOLERANCE of zero. */
  function Bisect(f: real -> real, slope: Slope, low: real, high: real, i: nat): Bracket
    decreases BISECTION_STEPS - i
  {
    if i >= BISECTION_STEPS then Bracket(low, high)
    else
      var mid := (low + high) / 2.0;
      var v := f(mid);
      if Abs(v) < TOLERANCE then Bracket(mid, high)
      else if Bracketed(slope, v) then Bisect(f, slope, low, mid, i + 1)
      else Bisect(f, slope, mid, high, i + 1)
  }

  /** The bisection stays inside the bracket it starts from, keeps the upper
      end bracketing the zero, and moves the lower end only to points that
      do not bracket it or lie within TOLERANCE of zero. */
  lemma {:induction false} BisectFacts(f: real -> real, slope: Slope, low: real, high: real, i: nat)
    requires low <= high
    ensures var b := Bisect(f, slope, low, high, i);
            && low <= b.low <= b.high <= high
            && (Bracketed(slope, f(high)) ==> Bracketed(slope, f(b.high)))
            && (b.low == low || !Bracketed(slope, f(b.low)) || Abs(f(b.low)) < TOLERANCE)
    decreases BISECTION_STEPS - i
  {
    if i < BISECTION_STEPS {
      var mid := (low + high) / 2.0;
      var v := f(mid);
      if Abs(v) < TOLERANCE {
      } else if Bracketed(slope, v) {
        BisectFacts(f, slope, low, mid, i + 1);
      } else {
        BisectFacts(f, slope, mid, high, i + 1);
      }
    }
  }

  /** Unless the bisection stops early at a point within TOLERANCE of zero,
      every remaining step halves the bracket. */
  lemma {:induction false} BisectWidth(f: real -> real, slope: Slope, low: real, high: real, i: nat)
    ensures var b := Bisect(f, slope, low, high, i);
            || Abs(f(b.low)) < TOLERANCE
            || b.high - b.low == (high - low) / Pow2(if i >= BISECTION_STEPS then 0 else BISECTION_STEPS - i)
    decreases BISECTION_STEPS - i
  {
    if i < BISECTION_STEPS {
      var mid := (low + high) / 2.0;
      var v := f(mid);
      var n := BISECTION_STEPS - (i + 1);
      if Abs(v) < TOLERANCE {
      } else {
        var lo := if Bracketed(slope, v) then low else mid;
        var hi := if Bracketed(slope, v) then mid else high;
        BisectWidth(f, slope, lo, hi, i + 1);
        var b := Bisect(f, slope, lo, hi, i + 1);
        assert b == Bisect(f, slope, low, high, i);
        if Abs(f(b.low)) >= TOLERANCE {
          calc {
            b.high - b.low;
          ==
            (hi - lo) / Pow2(n);
          == { HalveQuotient(hi - lo, high - low, Pow2(n)); }
            (high - low) / (2.0 * Pow2(n));
          == { assert Pow2(n + 1) == 2.0 * Pow2(n); }
            (high - low) / Pow2(n + 1);
          }
        }
      }
    }
  }

  /** Half a width divided by d is the whole width divided by 2d. */
  lemma HalveQuotient(half: real, whole: real, d: real)
    requires half * 2.0 == whole && d >= 1.0
    ensures half / d == whole / (2.0 * d)
  {
    assert whole / (2.0 * d) * (2.0 * d) == whole;
    assert half / d * d == half;
  }

  /** The bisection loop of the three solvers. */
  method BisectBracket(f: real -> real, slope: Slope, low0: real, high0: real) returns (low: real, high: real)
    ensures Bracket(low, high) == Bisect(f, slope, low0, high0, 0)
  {
    low, high := low0, high0;
    for i := 0 to BISECTION_STEPS
      invariant Bisect(f, slope, low, high, i) == Bisect(f, slope, low0, high0, 0)
    {
      var mid := (low + high) / 2.0;
      var v := f(mid);
      if Abs(v) < TOLERANCE {
        low := mid;
        break;
      }
      if Bracketed(slope, v) {
        high := mid;
      } else {
        low := mid;
      }
    }
  }

  // ---------------------------------------------------------------------
  // One search: widen, then bisect

  /** A solver's search: which way the final value moves with the searched
      parameter, where the doubling starts, and the limit it stops at. */
  datatype Search = Search(slope: Slope, start: real, limit: real)

  /** The bracket after widening. */
  function Widen(f: real -> real, q: Search): Expansion
  {
    Expand(f, q.slope, q.limit, q.start, f(q.start), 0)
  }

  /** Whether widening found a bracket. */
  predicate Found(f: real -> real, q: Search)
  {
    Bracketed(q.slope, Widen(f, q).last)
  }

  /** The bisection of [0, widened upper end]. */
  function Narrow(f: real -> real, q: Search): Bracket
  {
    Bisect(f, q.slope, 0.0, Widen(f, q).high, 0)
  }

  /** The searched value before rounding: the lower end after bisection, or
      0, where `low` starts, when no bracket was found. */
  function Solution(f: real -> real, q: Search): real
  {
    if Found(f, q) then Narrow(f, q).low else 0.0
  }

  /** Widening doubles the start at most MAX_DOUBLINGS times and stops only
      at a bracket, at the limit, or with the doublings used up. */
  lemma WidenFacts(f: real -> real, q: Search)
    ensures var e := Widen(f, q);
            && e.attempts <= MAX_DOUBLINGS
            && e.high == q.start * Pow2(e.attempts)
            && e.last == f(e.high)
            && (Found(f, q) || e.high >= q.limit || e.attempts == MAX_DOUBLINGS)
  {
    ExpandFacts(f, q.slope, q.limit, q.start, 0);
  }

  /** With a non-negative start, a found bracket is narrowed to one inside
      [0, widened upper end] whose upper end still brackets the zero, and
      whose lower end is 0, does not bracket the zero, or lies within
      TOLERANCE of it. The solution is that lower end, or 0 without a
      bracket. */
  lemma SolutionFacts(f: real -> real, q: Search)
    requires q.start >= 0.0
    ensures !Found(f, q) ==> Solution(f, q) == 0.0
    ensures Found(f, q) ==>
              var b := Narrow(f, q);
              && Solution(f, q) == b.low
              && 0.0 <= b.low <= b.high <= Widen(f, q).high
              && Bracketed(q.slope, f(b.high))
              && (b.low == 0.0 || !Bracketed(q.slope, f(b.low)) || Abs(f(b.low)) < TOLERANCE)
  {
    if Found(f, q) {
      WidenFacts(f, q);
      var e := Widen(f, q);
      MulAtLeast(q.start, Pow2(e.attempts));
      BisectFacts(f, q.slope, 0.0, e.high, 0);
    }
  }

  /** A factor of at least one does not shrink a non-negative value. */
  lemma MulAtLeast(x: real, y: real)
    requires x >= 0.0 && y >= 1.0
    ensures x * y >= x
  {
    MulNonNegative(x, y - 1.0);
    assert x * y - x == x * (y - 1.0);
  }

  // ---------------------------------------------------------------------
  // Rounding to a slider step

  /** A whole number of steps. */
  predicate MultipleOf(x: real, step: real)
    requires step > 0.0
  {
    (x / step).Floor as real * step == x
  }

  /** Math.ceil(x / step) * step. */
  function CeilToStep(x: real, step: int): real
    requires step > 0
  {
    (Ceil(x / step as real) * step) as real
  }

  /** Math.round(x / step) * step. */
  function RoundToStep(x: real, step: int): real
    requires step > 0
  {
    (Round(x / step as real) * step) as real
  }

  lemma MultipleOfInt(k: int, step: int)
    requires step > 0
    ensures (k * step) as real == k as real * step as real
    ensures MultipleOf((k * step) as real, step as real)
  {
    assert (k * step) as real == k as real * step as real;
    assert (k * step) as real / step as real == k as real;
  }

  /** Rounding up to a step gives a whole number of steps, at least the
      value and less than one step above it. */
  lemma CeilToStepFacts(x: real, step: int)
    requires step > 0
    ensures var r := CeilToStep(x, step);
            MultipleOf(r, step as real) && x <= r < x + step as real
  {
    var q := x / step as real;
    var k := Ceil(q);
    MultipleOfInt(k, step);
    QuotientTimes(x, step as real);
    CeilBand(x, step as real, q, k as real, (k * step) as real);
  }

  /** Rounding to the nearest step gives a whole number of steps within
      half a step of the value. */
  lemma RoundToStepFacts(x: real, step: int)
    requires step > 0
    ensures var r := RoundToStep(x, step);
            MultipleOf(r, step as real) && x - step as real / 2.0 < r <= x + step as real / 2.0
  {
    var q := x / step as real;
    var k := Round(q);
    MultipleOfInt(k, step);
    QuotientTimes(x, step as real);
    RoundBand(x, step as real, q, k as real, (k * step) as real);
  }

  lemma QuotientTimes(x: real, d: real)
    requires d > 0.0
    ensures x / d * d == x
  {
  }

  /** r, a count k of steps of size d from q = x / d up to, not including,
      q + 1, covers x and falls short of x + d. */
  lemma CeilBand(x: real, d: real, q: real, k: real, r: real)
    requires d > 0.0 && q * d == x && q <= k < q + 1.0 && r == k * d
    ensures x <= r < x + d
  {
    calc {
      x;
    ==
      q * d;
    <= { MulAtMost(q, k, d); }
      k * d;
    ==
      r;
    }
    calc {
      r;
    ==
      k * d;
    < { MulStrict(k, q + 1.0, d); }
      (q + 1.0) * d;
    ==
      x + d;
    }
  }

  /** r, a count k of steps of size d within half a step of q = x / d,
      lands within half a step of x. */
  lemma RoundBand(x: real, d: real, q: real, k: real, r: real)
    requires d > 0.0 && q * d == x && q - 0.5 < k <= q + 0.5 && r == k * d
    ensures x - d / 2.0 < r <= x + d / 2.0
  {
    calc {
      x - d / 2.0;
    ==
      (q - 0.5) * d;
    < { MulStrict(q - 0.5, k, d); }
      k * d;
    ==
      r;
    }
    calc {
      r;
    ==
      k * d;
    <= { MulAtMost(k, q + 0.5, d); }
      (q + 0.5) * d;
    ==
      x + d / 2.0;
    }
  }

  // ---------------------------------------------------------------------
  // The solvers

  /** What goalSeekAnnualSavings searches: the savings, rising, from the
      larger of the current savings and 10 000, up to 100 000 000. */
  function SavingsSearch(s: Params): Search
  {
    Search(Rising, Max(s.annualSavings, 10000.0), 100000000.0)
  }

  /** What goalSeekAnnualPayout searches: the consumption payout, falling,
      from the larger of the current payout and 10 000, up to 100 000 000. */
  function PayoutSearch(s: Params): Search
  {
    Search(Falling, Max(s.desiredAnnualConsumptionPayout, 10000.0), 100000000.0)
  }

  /** What goalSeekPortfolio1 searches: the size of Portefølje I, rising,
      from the larger of the current size and 1 000 000, up to
      1 000 000 000. */
  function Portfolio1Search(s: Params): Search
  {
    Search(Rising, Max(s.initialPortfolioSize, 1000000.0), 1000000000.0)
  }

  /** goalSeekAnnualSavings: without payout years, or when no bracket is
      found, nothing changes; otherwise the savings become the solution
      rounded up to a multiple of 10 000. */
  function SavingsGoalSeek(s: Params, f: real -> real): Params
  {
    var q := SavingsSearch(s);
    if s.payoutYears == 0 || !Found(f, q) then s
    else s.(annualSavings := CeilToStep(Solution(f, q), 10000))
  }

  /** goalSeekAnnualPayout: without payout years nothing changes; otherwise
      the consumption payout and the recorded result become the solution
      rounded to a multiple of 100 000, and the wealth-tax payout is set to
      0, also when no bracket is found. */
  function PayoutGoalSeek(s: Params, f: real -> real): Params
  {
    if s.payoutYears == 0 then s
    else
      var rounded := RoundToStep(Solution(f, PayoutSearch(s)), 100000);
      s.(desiredAnnualConsumptionPayout := rounded, desiredAnnualWealthTaxPayout := 0.0,
         goalSeekPayoutResult := rounded)
  }

  /** goalSeekPortfolio1: without payout years nothing changes; otherwise
      the size of Portefølje I and the recorded result become the solution
      rounded to a multiple of 10 000, also when no bracket is found. The
      size is written directly, not through handleStateChange. */
  function Portfolio1GoalSeek(s: Params, f: real -> real): Params
  {
    if s.payoutYears == 0 then s
    else
      var rounded := RoundToStep(Solution(f, Portfolio1Search(s)), 10000);
      s.(initialPortfolioSize := rounded, goalSeekPortfolio1Result := rounded)
  }

  method GoalSeekAnnualSavings(s: Params, f: real -> real) returns (r: Params)
    ensures r == SavingsGoalSeek(s, f)
  {
    var hasPayoutYears := s.payoutYears > 0;
    if !hasPayoutYears {
      return s;
    }
    var low := 0.0;
    var high, last, attempts := ExpandBracket(f, Rising, 100000000.0, Max(s.annualSavings, 10000.0));
    if last < 0.0 {
      return s;
    }
    low, high := BisectBracket(f, Rising, low, high);
    var rounded := CeilToStep(low, 10000);
    r := s.(annualSavings := rounded);
  }

  method GoalSeekAnnualPayout(s: Params, f: real -> real) returns (r: Params)
    ensures r == PayoutGoalSeek(s, f)
  {
    var hasPayoutYears := s.payoutYears > 0;
    if !hasPayoutYears {
      return s;
    }
    var low := 0.0;
    var high, last, attempts := ExpandBracket(f, Falling, 100000000.0, Max(s.desiredAnnualConsumptionPayout, 10000.0));
    if last >= 0.0 {
      high := 10000000.0;
    } else {
      low, high := BisectBracket(f, Falling, low, high);
    }
    var rounded := RoundToStep(low, 100000);
    r := s.(desiredAnnualConsumptionPayout := rounded, desiredAnnualWealthTaxPayout := 0.0,
            goalSeekPayoutResult := rounded);
  }

  method GoalSeekPortfolio1(s: Params, f: real -> real) returns (r: Params)
    ensures r == Portfolio1GoalSeek(s, f)
  {
    var hasPayoutYears := s.payoutYears > 0;
    if !hasPayoutYears {
      return s;
    }
    var low := 0.0;
    var high, last, attempts := ExpandBracket(f, Rising, 1000000000.0, Max(s.initialPortfolioSize, 1000000.0));
    if last < 0.0 {
      high := 100000000.0;
    } else {
      low, high := BisectBracket(f, Rising, low, high);
    }
    var rounded := RoundToStep(low, 10000);
    r := s.(initialPortfolioSize := rounded, goalSeekPortfolio1Result := rounded);
  }

  // ---------------------------------------------------------------------
  // What the solvers promise

  /** Without payout years no solver changes anything. */
  lemma NoPayoutYearsNoChange(s: Params, f: real -> real)
    requires s.payoutYears == 0
    ensures SavingsGoalSeek(s, f) == s && PayoutGoalSeek(s, f) == s && Portfolio1GoalSeek(s, f) == s
  {
  }

  /** The savings solver changes only the savings. Without a bracket it
      changes nothing; with one the new savings are a non-negative multiple
      of 10 000 at most 10 000 above the bisected savings, whose bracket's
      upper end keeps the final value non-negative. */
  lemma SavingsGoalSeekOutcome(s: Params, f: real -> real)
    requires s.payoutYears > 0
    ensures var r := SavingsGoalSeek(s, f);
            var q := SavingsSearch(s);
            && r == s.(annualSavings := r.annualSavings)
            && (!Found(f, q) ==> r == s)
            && (Found(f, q) ==>
                  && MultipleOf(r.annualSavings, 10000.0)
                  && 0.0 <= Solution(f, q) <= r.annualSavings < Solution(f, q) + 10000.0
                  && f(Narrow(f, q).high) >= 0.0)
  {
    var q := SavingsSearch(s);
    SolutionFacts(f, q);
    CeilToStepFacts(Solution(f, q), 10000);
  }

  /** The payout solver changes the consumption payout, the wealth-tax
      payout and the recorded result, and no other field: the wealth-tax
      payout becomes 0 and the other two the same multiple of 100 000.
      Without a bracket that multiple is 0; with one it is within 50 000 of
      the bisected payout, which is 0 or leaves a final value above
      -TOLERANCE, while the bracket's upper end leaves a negative one. */
  lemma PayoutGoalSeekOutcome(s: Params, f: real -> real)
    requires s.payoutYears > 0
    ensures var r := PayoutGoalSeek(s, f);
            var q := PayoutSearch(s);
            var b := Narrow(f, q);
            && r == s.(desiredAnnualConsumptionPayout := r.desiredAnnualConsumptionPayout,
                       desiredAnnualWealthTaxPayout := 0.0,
                       goalSeekPayoutResult := r.desiredAnnualConsumptionPayout)
            && MultipleOf(r.desiredAnnualConsumptionPayout, 100000.0)
            && (!Found(f, q) ==> r.desiredAnnualConsumptionPayout == 0.0)
            && (Found(f, q) ==>
                  && b.low - 50000.0 < r.desiredAnnualConsumptionPayout <= b.low + 50000.0
                  && f(b.high) < 0.0
                  && (b.low == 0.0 || f(b.low) > -TOLERANCE))
  {
    var q := PayoutSearch(s);
    SolutionFacts(f, q);
    RoundToStepFacts(Solution(f, q), 100000);
    if !Found(f, q) {
      assert RoundToStep(0.0, 100000) == 0.0;
    }
  }

  /** The Portefølje I solver changes the size of Portefølje I and the
      recorded result, and no other field, both to the same multiple of
      10 000. Without a bracket that multiple is 0; with one it is within
      5 000 of the bisected size, whose bracket's upper end keeps the final
      value non-negative. */
  lemma Portfolio1GoalSeekOutcome(s: Params, f: real -> real)
    requires s.payoutYears > 0
    ensures var r := Portfolio1GoalSeek(s, f);
            var q := Portfolio1Search(s);
            && r == s.(initialPortfolioSize := r.initialPortfolioSize,
                       goalSeekPortfolio1Result := r.initialPortfolioSize)
            && MultipleOf(r.initialPortfolioSize, 10000.0)
            && (!Found(f, q) ==> r.initialPortfolioSize == 0.0)
            && (Found(f, q) ==>
                  && Solution(f, q) - 5000.0 < r.initialPortfolioSize <= Solution(f, q) + 5000.0
                  && f(Narrow(f, q).high) >= 0.0)
  {
    var q := Portfolio1Search(s);
    SolutionFacts(f, q);
    RoundToStepFacts(Solution(f, q), 10000);
    if !Found(f, q) {
      assert RoundToStep(0.0, 10000) == 0.0;
    }
  }
}
