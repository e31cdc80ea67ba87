/** What the Monte Carlo charts compute from the sorted samples: their mean
    and variance, the 200-bucket histogram, and the 10-row frequency table
    around the mean. The standard deviation (a square root) is an input. */
module Statistics {
  import opened Numeric

  datatype Option<T> = None | Some(value: T)

  // ---------------------------------------------------------------------
  // Mean and variance

  /** `reduce((a, b) => a + b, 0) / length`: the mean times the number of
      samples gives back their total, and samples none of which is negative
      have a mean that is not negative. */
  function Mean(xs: seq<real>): (r: real)
    requires |xs| > 0
    ensures r * |xs| as real == Sum(xs)
    ensures (forall k :: 0 <= k < |xs| ==> xs[k] >= 0.0) ==> r >= 0.0
  {
    QuotientTimesCount(Sum(xs), |xs| as real);
    if forall k :: 0 <= k < |xs| ==> xs[k] >= 0.0 then
      SumBounds(xs, 0.0, SeqMax(xs));
      QuotientBounds(Sum(xs), |xs| as real, 0.0, SeqMax(xs));
      Sum(xs) / |xs| as real
    else
      Sum(xs) / |xs| as real
  }

  /** Dividing by a positive n and multiplying back gives the total again. */
  lemma QuotientTimesCount(x: real, n: real)
    requires n > 0.0
    ensures x / n * n == x
  {
  }

  /** The sum of squared deviations from m, folded from the left. */
  function SquaredDeviations(xs: seq<real>, m: real): (r: real)
    ensures r >= 0.0
  {
    if |xs| == 0 then 0.0
    else
      var d := xs[|xs| - 1] - m;
      MulNonNegative(Abs(d), Abs(d));
      assert d * d == Abs(d) * Abs(d);
      SquaredDeviations(xs[..|xs| - 1], m) + d * d
  }

  /** The population variance: mean squared deviation from the mean. */
  function Variance(xs: seq<real>): (r: real)
    requires |xs| > 0
    ensures r >= 0.0
    ensures (forall k :: 0 <= k < |xs| ==> xs[k] == xs[0]) ==> r == 0.0
  {
    if forall k :: 0 <= k < |xs| ==> xs[k] == xs[0] then
      ConstantSums(xs, xs[0]);
      CountCancels(|xs| as real, xs[0]);
      assert Mean(xs) == xs[0];
      SquaredDeviations(xs, Mean(xs)) / |xs| as real
    else
      SquaredDeviations(xs, Mean(xs)) / |xs| as real
  }

  /** Math.min(...xs). */
  function SeqMin(xs: seq<real>): (r: real)
    requires |xs| > 0
    ensures forall k :: 0 <= k < |xs| ==> r <= xs[k]
    ensures exists k :: 0 <= k < |xs| && xs[k] == r
  {
    if |xs| == 1 then xs[0]
    else
      var m := SeqMin(xs[..|xs| - 1]);
      assert forall k :: 0 <= k < |xs| - 1 ==> xs[..|xs| - 1][k] == xs[k];
      Min(m, xs[|xs| - 1])
  }

  /** Math.max(...xs). */
  function SeqMax(xs: seq<real>): (r: real)
    requires |xs| > 0
    ensures forall k :: 0 <= k < |xs| ==> r >= xs[k]
    ensures exists k :: 0 <= k < |xs| && xs[k] == r
  {
    if |xs| == 1 then xs[0]
    else
      var m := SeqMax(xs[..|xs| - 1]);
      assert forall k :: 0 <= k < |xs| - 1 ==> xs[..|xs| - 1][k] == xs[k];
      Max(m, xs[|xs| - 1])
  }

  /** Bounds on every element bound the sum. */
  lemma {:induction false} SumBounds(xs: seq<real>, lo: real, hi: real)
    requires forall k :: 0 <= k < |xs| ==> lo <= xs[k] <= hi
    ensures |xs| as real * lo <= Sum(xs) <= |xs| as real * hi
  {
    if |xs| > 0 {
      SumBounds(xs[..|xs| - 1], lo, hi);
      assert |xs| as real * lo == (|xs| - 1) as real * lo + lo;
      assert |xs| as real * hi == (|xs| - 1) as real * hi + hi;
    }
  }

  /** The mean lies between the smallest and the largest sample. */
  lemma MeanWithinSamples(xs: seq<real>)
    requires |xs| > 0
    ensures SeqMin(xs) <= Mean(xs) <= SeqMax(xs)
  {
    MeanBetween(xs, SeqMin(xs), SeqMax(xs));
  }

  /** Bounds on every sample bound the mean. */
  lemma MeanBetween(xs: seq<real>, lo: real, hi: real)
    requires |xs| > 0
    requires forall k :: 0 <= k < |xs| ==> lo <= xs[k] <= hi
    ensures lo <= Mean(xs) <= hi
  {
    SumBounds(xs, lo, hi);
    QuotientBounds(Sum(xs), |xs| as real, lo, hi);
  }

  /** Dividing by a positive n keeps n * lo <= x <= n * hi as lo <= x / n <= hi. */
  lemma QuotientBounds(x: real, n: real, lo: real, hi: real)
    requires n > 0.0 && n * lo <= x <= n * hi
    ensures lo <= x / n <= hi
  {
    var q := x / n;
    assert q * n == x;
    if q < lo {
      MulStrict(q, lo, n);
    }
    if q > hi {
      MulStrict(hi, q, n);
    }
  }

  /** n copies of c, divided by n, give back c. */
  lemma CountCancels(n: real, c: real)
    requires n > 0.0
    ensures n * c / n == c
  {
  }

  /** Samples that all equal c have mean c and no squared deviation from it. */
  lemma {:induction false} ConstantSums(xs: seq<real>, c: real)
    requires forall k :: 0 <= k < |xs| ==> xs[k] == c
    ensures Sum(xs) == |xs| as real * c && SquaredDeviations(xs, c) == 0.0
  {
    if |xs| > 0 {
      ConstantSums(xs[..|xs| - 1], c);
      assert |xs| as real * c == (|xs| - 1) as real * c + c;
    }
  }

  /** Samples that all equal c have mean c and variance 0. */
  lemma ConstantSamples(xs: seq<real>, c: real)
    requires |xs| > 0
    requires forall k :: 0 <= k < |xs| ==> xs[k] == c
    ensures Mean(xs) == c && Variance(xs) == 0.0
  {
    ConstantSums(xs, c);
    CountCancels(|xs| as real, c);
  }

  // ---------------------------------------------------------------------
  // The 200-bucket histogram

  const BUCKETS: nat := 200

  /** The histogram's x axis: where it starts and how wide it is. */
  datatype Axis = Axis(startX: real, range: real)

  /** The axis spans both mean ± 2 standard deviations and all samples, with
      10 % padding on each side. */
  function HistogramAxis(xs: seq<real>, mean: real, stdDev: real): Axis
    requires |xs| > 0
  {
    var requiredMin := Min(mean - 2.0 * stdDev, SeqMin(xs));
    var requiredMax := Max(mean + 2.0 * stdDev, SeqMax(xs));
    var padding := (requiredMax - requiredMin) * 0.1;
    Axis(requiredMin - padding, (requiredMax - requiredMin) + 2.0 * padding)
  }

  /** The bucket index of a sample: its relative position on the axis times
      200, rounded down and capped at 199. */
  function BucketOf(v: real, a: Axis): int
    requires a.range > 0.0
  {
    MinInt(((v - a.startX) / a.range * BUCKETS as real).Floor, BUCKETS - 1)
  }

  /** Whether a sample is counted. On an empty axis the source divides 0 by
      0 and the resulting NaN index fails its bounds test. */
  predicate Counted(v: real, a: Axis)
  {
    a.range > 0.0 && 0 <= BucketOf(v, a) < BUCKETS
  }

  /** The histogram of the samples, one sample after another. */
  function Histogram(xs: seq<real>, a: Axis): (h: seq<nat>)
    ensures |h| == BUCKETS
  {
    if |xs| == 0 then seq(BUCKETS, _ => 0)
    else
      var h := Histogram(xs[..|xs| - 1], a);
      var v := xs[|xs| - 1];
      if Counted(v, a) then h[BucketOf(v, a) := h[BucketOf(v, a)] + 1] else h
  }

  method BuildHistogram(xs: seq<real>, mean: real, stdDev: real) returns (histogram: array<nat>)
    requires |xs| > 0
    ensures fresh(histogram)
    ensures histogram[..] == Histogram(xs, HistogramAxis(xs, mean, stdDev))
  {
    var meanPlus2StdDev := mean + 2.0 * stdDev;
    var meanMinus2StdDev := mean - 2.0 * stdDev;
    var actualMin := SeqMin(xs);
    var actualMax := SeqMax(xs);
    var requiredMin := Min(meanMinus2StdDev, actualMin);
    var requiredMax := Max(meanPlus2StdDev, actualMax);
    var padding := (requiredMax - requiredMin) * 0.1;
    var range := (requiredMax - requiredMin) + 2.0 * padding;
    var startX := requiredMin - padding;
    ghost var axis := HistogramAxis(xs, mean, stdDev);
    assert axis == Axis(startX, range);
    histogram := new nat[BUCKETS](_ => 0);
    assert histogram[..] == Histogram(xs[..0], axis);
    for k := 0 to |xs|
      invariant histogram[..] == Histogram(xs[..k], axis)
    {
      var val := xs[k];
      assert xs[..k + 1][..k] == xs[..k];
      if range > 0.0 {
        var index := MinInt(((val - startX) / range * BUCKETS as real).Floor, BUCKETS - 1);
        if index >= 0 && index < BUCKETS {
          histogram[index] := histogram[index] + 1;
        }
      }
    }
    assert xs[..|xs|] == xs;
  }

  /** Every sample at or right of the axis start lands in a bucket. */
  lemma CountedFromStart(v: real, a: Axis)
    requires a.range > 0.0 && v >= a.startX
    ensures Counted(v, a)
  {
    MulNonNegative(v - a.startX, 1.0 / a.range);
    assert (v - a.startX) / a.range == (v - a.startX) * (1.0 / a.range);
    MulNonNegative((v - a.startX) / a.range, BUCKETS as real);
  }

  /** When every sample is counted, the buckets add up to the number of
      samples. */
  lemma {:induction false} HistogramTotal(xs: seq<real>, a: Axis)
    requires forall k :: 0 <= k < |xs| ==> Counted(xs[k], a)
    ensures SumNat(Histogram(xs, a)) == |xs|
  {
    if |xs| == 0 {
      ZeroCounts(BUCKETS);
    } else {
      HistogramTotal(xs[..|xs| - 1], a);
      var h := Histogram(xs[..|xs| - 1], a);
      SumNatIncrement(h, BucketOf(xs[|xs| - 1], a));
    }
  }

  lemma {:induction false} ZeroCounts(n: nat)
    ensures SumNat(seq(n, _ => 0)) == 0
  {
    if n > 0 {
      ZeroCounts(n - 1);
      assert seq(n, _ => 0)[..n - 1] == seq(n - 1, _ => 0);
    }
  }

  /** The axis covers every sample, and is non-empty when the standard
      deviation is positive. */
  lemma HistogramAxisCovers(xs: seq<real>, mean: real, stdDev: real)
    requires |xs| > 0
    ensures var a := HistogramAxis(xs, mean, stdDev);
            && a.range >= 0.0
            && (stdDev > 0.0 ==> a.range > 0.0)
            && forall k :: 0 <= k < |xs| ==> a.startX <= xs[k] <= a.startX + a.range
  {
  }

  /** With a positive standard deviation every sample is counted once: the
      buckets add up to the number of samples. */
  lemma HistogramCountsEverySample(xs: seq<real>, mean: real, stdDev: real)
    requires |xs| > 0 && stdDev > 0.0
    ensures SumNat(Histogram(xs, HistogramAxis(xs, mean, stdDev))) == |xs|
  {
    var a := HistogramAxis(xs, mean, stdDev);
    HistogramAxisCovers(xs, mean, stdDev);
    forall k | 0 <= k < |xs|
      ensures Counted(xs[k], a)
    {
      CountedFromStart(xs[k], a);
    }
    HistogramTotal(xs, a);
  }

  // ---------------------------------------------------------------------
  // The 10-row frequency table

  const FREQUENCY_BINS: nat := 10

  /** A frequency-table interval with its sample count. */
  datatype Bin = Bin(start: real, end: real, center: real, count: nat)

  /** A row of the table: the interval's centre and its count. */
  datatype FrequencyRow = FrequencyRow(value: real, count: nat)

  /** A tenth of the span from mean - 2 sd to mean + 2 sd. */
  function BinWidth(mean: real, stdDev: real): real
  {
    ((mean + 2.0 * stdDev) - (mean - 2.0 * stdDev)) / FREQUENCY_BINS as real
  }

  function BinStart(mean: real, stdDev: real, i: nat): real
  {
    (mean - 2.0 * stdDev) + i as real * BinWidth(mean, stdDev)
  }

  function BinEnd(mean: real, stdDev: real, i: nat): real
  {
    (mean - 2.0 * stdDev) + (i + 1) as real * BinWidth(mean, stdDev)
  }

  function BinCenter(mean: real, stdDev: real, i: nat): real
  {
    BinStart(mean, stdDev, i) + BinWidth(mean, stdDev) / 2.0
  }

  /** Intervals are half-open, except the last, which includes its end. */
  predicate InBin(v: real, mean: real, stdDev: real, i: nat)
  {
    if i == FREQUENCY_BINS - 1 then BinStart(mean, stdDev, i) <= v <= BinEnd(mean, stdDev, i)
    else BinStart(mean, stdDev, i) <= v < BinEnd(mean, stdDev, i)
  }

  /** The first interval from i on that holds v. */
  function FirstBinFrom(v: real, mean: real, stdDev: real, i: nat): (r: Option<nat>)
    ensures r.Some? ==> i <= r.value < FREQUENCY_BINS && InBin(v, mean, stdDev, r.value)
    decreases FREQUENCY_BINS - i
  {
    if i >= FREQUENCY_BINS then None
    else if InBin(v, mean, stdDev, i) then Some(i)
    else FirstBinFrom(v, mean, stdDev, i + 1)
  }

  /** The interval a sample is counted in, if any: the first that holds it. */
  function BinOf(v: real, mean: real, stdDev: real): Option<nat>
  {
    FirstBinFrom(v, mean, stdDev, 0)
  }

  /** The interval counts, one sample after another. */
  function BinCounts(xs: seq<real>, mean: real, stdDev: real): (c: seq<nat>)
    ensures |c| == FREQUENCY_BINS
  {
    if |xs| == 0 then seq(FREQUENCY_BINS, _ => 0)
    else
      var c := BinCounts(xs[..|xs| - 1], mean, stdDev);
      match BinOf(xs[|xs| - 1], mean, stdDev)
      case None => c
      case Some(i) => c[i := c[i] + 1]
  }

  /** The table, highest value first: empty unless the standard deviation
      is positive, otherwise one row per interval, the last interval first. */
  function FrequencyTable(xs: seq<real>, mean: real, stdDev: real): seq<FrequencyRow>
  {
    if stdDev <= 0.0 then []
    else
      var c := BinCounts(xs, mean, stdDev);
      seq(FREQUENCY_BINS, j requires 0 <= j < FREQUENCY_BINS =>
        FrequencyRow(BinCenter(mean, stdDev, FREQUENCY_BINS - 1 - j), c[FREQUENCY_BINS - 1 - j]))
  }

  /** The counts the bins hold. */
  function CountsOf(bins: seq<Bin>): seq<nat>
  {
    seq(|bins|, i requires 0 <= i < |bins| => bins[i].count)
  }

  /** The bins have the table's intervals. */
  predicate Shaped(bins: seq<Bin>, mean: real, stdDev: real)
  {
    && |bins| == FREQUENCY_BINS
    && forall i :: 0 <= i < |bins| ==>
         && bins[i].start == BinStart(mean, stdDev, i)
         && bins[i].end == BinEnd(mean, stdDev, i)
         && bins[i].center == BinCenter(mean, stdDev, i)
  }

  /** The forEach callback: adds one to the first interval that holds the
      sample, if any. */
  method CountSample(bins: seq<Bin>, val: real, mean: real, stdDev: real) returns (counted: seq<Bin>)
    requires Shaped(bins, mean, stdDev)
    ensures Shaped(counted, mean, stdDev)
    ensures CountsOf(counted) == match BinOf(val, mean, stdDev)
                                 case None => CountsOf(bins)
                                 case Some(i) => CountsOf(bins)[i := bins[i].count + 1]
  {
    counted := bins;
    for i := 0 to |counted|
      invariant counted == bins
      invariant FirstBinFrom(val, mean, stdDev, i) == BinOf(val, mean, stdDev)
    {
      var bin := counted[i];
      if i == |counted| - 1 {
        if val >= bin.start && val <= bin.end {
          counted := counted[i := bin.(count := bin.count + 1)];
          break;
        }
      } else {
        if val >= bin.start && val < bin.end {
          counted := counted[i := bin.(count := bin.count + 1)];
          break;
        }
      }
    }
  }

  /** The ten empty intervals from mean - 2 sd to mean + 2 sd. */
  method MakeBins(mean: real, stdDev: real) returns (bins: seq<Bin>)
    ensures Shaped(bins, mean, stdDev)
    ensures CountsOf(bins) == BinCounts([], mean, stdDev)
  {
    var numBins := FREQUENCY_BINS;
    var meanMinus2StdDev := mean - 2.0 * stdDev;
    var meanPlus2StdDev := mean + 2.0 * stdDev;
    var totalRange := meanPlus2StdDev - meanMinus2StdDev;
    var binWidth := totalRange / numBins as real;
    assert binWidth == BinWidth(mean, stdDev);
    bins := [];
    for i := 0 to numBins
      invariant |bins| == i
      invariant forall j :: 0 <= j < i ==>
                  bins[j] == Bin(BinStart(mean, stdDev, j), BinEnd(mean, stdDev, j), BinCenter(mean, stdDev, j), 0)
    {
      var binStart := meanMinus2StdDev + i as real * binWidth;
      var binEnd := meanMinus2StdDev + (i + 1) as real * binWidth;
      var binCenter := binStart + binWidth / 2.0;
      assert Bin(binStart, binEnd, binCenter, 0)
          == Bin(BinStart(mean, stdDev, i), BinEnd(mean, stdDev, i), BinCenter(mean, stdDev, i), 0);
      bins := bins + [Bin(binStart, binEnd, binCenter, 0)];
    }
  }

  /** The interval rows, highest value first. */
  function RowsOf(bins: seq<Bin>): (rows: seq<FrequencyRow>)
    ensures |rows| == |bins|
    ensures forall j :: 0 <= j < |rows| ==>
              rows[j] == FrequencyRow(bins[|bins| - 1 - j].center, bins[|bins| - 1 - j].count)
  {
    var byIndex := seq(|bins|, i requires 0 <= i < |bins| => FrequencyRow(bins[i].center, bins[i].count));
    // sorted by value, highest first: the centres rise with the index
    seq(|byIndex|, j requires 0 <= j < |byIndex| => byIndex[|byIndex| - 1 - j])
  }

  method BuildFrequencyTable(xs: seq<real>, mean: real, stdDev: real) returns (frequencyTable: seq<FrequencyRow>)
    ensures frequencyTable == FrequencyTable(xs, mean, stdDev)
  {
    if stdDev <= 0.0 {
      return [];
    }
    var bins := MakeBins(mean, stdDev);
    assert xs[..0] == [];
    for k := 0 to |xs|
      invariant Shaped(bins, mean, stdDev)
      invariant CountsOf(bins) == BinCounts(xs[..k], mean, stdDev)
    {
      assert xs[..k + 1][..k] == xs[..k];
      bins := CountSample(bins, xs[k], mean, stdDev);
      assert CountsOf(bins) == BinCounts(xs[..k + 1], mean, stdDev);
    }
    assert xs[..|xs|] == xs;
    frequencyTable := RowsOf(bins);
  }

  /** With a positive standard deviation the intervals follow each other
      without gaps from mean - 2 sd to mean + 2 sd. */
  lemma IntervalsTile(mean: real, stdDev: real, i: nat)
    requires stdDev > 0.0 && i < FREQUENCY_BINS
    ensures BinWidth(mean, stdDev) > 0.0
    ensures BinStart(mean, stdDev, 0) == mean - 2.0 * stdDev
    ensures BinEnd(mean, stdDev, FREQUENCY_BINS - 1) == mean + 2.0 * stdDev
    ensures BinEnd(mean, stdDev, i) == BinStart(mean, stdDev, i + 1)
    ensures BinStart(mean, stdDev, i) < BinEnd(mean, stdDev, i) <= BinEnd(mean, stdDev, FREQUENCY_BINS - 1)
  {
    var w := BinWidth(mean, stdDev);
    assert BinEnd(mean, stdDev, i) - BinStart(mean, stdDev, i) == (i + 1) as real * w - i as real * w;
    assert (i + 1) as real * w - i as real * w == w;
    MulAtMost((i + 1) as real, FREQUENCY_BINS as real, w);
  }

  /** From interval i on, a sample at or right of the interval's start is
      counted exactly when it does not lie right of mean + 2 sd. */
  lemma {:induction false} FirstBinFromFacts(v: real, mean: real, stdDev: real, i: nat)
    requires stdDev > 0.0 && i <= FREQUENCY_BINS - 1
    requires v >= BinStart(mean, stdDev, i)
    ensures FirstBinFrom(v, mean, stdDev, i).Some? <==> v <= mean + 2.0 * stdDev
    decreases FREQUENCY_BINS - i
  {
    IntervalsTile(mean, stdDev, i);
    if !InBin(v, mean, stdDev, i) && i < FREQUENCY_BINS - 1 {
      FirstBinFromFacts(v, mean, stdDev, i + 1);
    }
  }

  /** With a positive standard deviation a sample is counted in exactly one
      interval, the first that holds it, when it lies in [mean - 2 sd,
      mean + 2 sd], and in none otherwise. */
  lemma BinOfFacts(v: real, mean: real, stdDev: real)
    requires stdDev > 0.0
    ensures BinOf(v, mean, stdDev).Some? <==> mean - 2.0 * stdDev <= v <= mean + 2.0 * stdDev
    ensures BinOf(v, mean, stdDev).Some? ==>
              var i := BinOf(v, mean, stdDev).value;
              && i < FREQUENCY_BINS && InBin(v, mean, stdDev, i)
              && forall j :: 0 <= j < i ==> !InBin(v, mean, stdDev, j)
  {
    IntervalsTile(mean, stdDev, 0);
    if v >= mean - 2.0 * stdDev {
      FirstBinFromFacts(v, mean, stdDev, 0);
    }
    if BinOf(v, mean, stdDev).Some? {
      FirstBinFromSkips(v, mean, stdDev, 0);
    }
  }

  /** The first interval that holds v comes after every earlier one that does not. */
  lemma {:induction false} FirstBinFromSkips(v: real, mean: real, stdDev: real, i: nat)
    requires FirstBinFrom(v, mean, stdDev, i).Some?
    ensures forall j :: i <= j < FirstBinFrom(v, mean, stdDev, i).value ==> !InBin(v, mean, stdDev, j)
    decreases FREQUENCY_BINS - i
  {
    if !InBin(v, mean, stdDev, i) {
      FirstBinFromSkips(v, mean, stdDev, i + 1);
    }
  }

  /** The number of samples in [lo, hi]. */
  function CountWithin(xs: seq<real>, lo: real, hi: real): nat
  {
    if |xs| == 0 then 0
    else CountWithin(xs[..|xs| - 1], lo, hi) + (if lo <= xs[|xs| - 1] <= hi then 1 else 0)
  }

  /** With a positive standard deviation, the counts add up to the number
      of samples within two standard deviations of the mean: those are
      counted once each, and the others not at all. */
  lemma {:induction false} BinCountsTotal(xs: seq<real>, mean: real, stdDev: real)
    requires stdDev > 0.0
    ensures SumNat(BinCounts(xs, mean, stdDev)) == CountWithin(xs, mean - 2.0 * stdDev, mean + 2.0 * stdDev)
  {
    if |xs| == 0 {
      ZeroCounts(FREQUENCY_BINS);
    } else {
      var init, v := xs[..|xs| - 1], xs[|xs| - 1];
      var lo, hi := mean - 2.0 * stdDev, mean + 2.0 * stdDev;
      BinCountsTotal(init, mean, stdDev);
      BinOfFacts(v, mean, stdDev);
      var prev := BinCounts(init, mean, stdDev);
      assert CountWithin(xs, lo, hi) == CountWithin(init, lo, hi) + (if lo <= v <= hi then 1 else 0);
      match BinOf(v, mean, stdDev)
      case None =>
        assert BinCounts(xs, mean, stdDev) == prev;
      case Some(i) =>
        assert BinCounts(xs, mean, stdDev) == prev[i := prev[i] + 1];
        SumNatIncrement(prev, i);
    }
  }

  /** The table is empty unless the standard deviation is positive; then it
      has ten rows, row j describing interval 9 - j, with values strictly
      falling from the first row to the last. */
  lemma FrequencyTableShape(xs: seq<real>, mean: real, stdDev: real)
    ensures stdDev <= 0.0 <==> FrequencyTable(xs, mean, stdDev) == []
    ensures stdDev > 0.0 ==>
              var t := FrequencyTable(xs, mean, stdDev);
              && |t| == FREQUENCY_BINS
              && (forall j :: 0 <= j < |t| ==>
                    && t[j].value == BinCenter(mean, stdDev, FREQUENCY_BINS - 1 - j)
                    && t[j].count == BinCounts(xs, mean, stdDev)[FREQUENCY_BINS - 1 - j])
              && (forall j :: 0 <= j < |t| - 1 ==> t[j].value > t[j + 1].value)
  {
    if stdDev > 0.0 {
      var t := FrequencyTable(xs, mean, stdDev);
      forall j | 0 <= j < |t| - 1
        ensures t[j].value > t[j + 1].value
      {
        var i := FREQUENCY_BINS - 2 - j;
        IntervalsTile(mean, stdDev, i);
        assert FREQUENCY_BINS - 1 - j == i + 1 && FREQUENCY_BINS - 1 - (j + 1) == i;
        assert t[j].value == BinCenter(mean, stdDev, i + 1);
        assert t[j + 1].value == BinCenter(mean, stdDev, i);
      }
    }
  }
}
