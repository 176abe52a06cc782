/** The statistics in closed form: every percentile by its place among the samples, and
    the samples by the values that were recorded. */
module Percentiles {
  import opened Metrics

  lemma MixDifference(a: real, b: real, f: real)
    ensures Mixed(a, b, f) == a + f * (b - a)
  {
  }

  lemma InterpolatedAt(s: seq<nat>, k: nat, f: real)
    requires k < |s| - 1 && 0.0 <= f <= 1.0
    ensures Interpolated(s, k as real + f) == s[k] as real + f * (s[k + 1] as real - s[k] as real)
  {
    var rank := k as real + f;
    if f == 0.0 {
      assert rank.Floor == k && Ceil(rank) == k;
    } else if f == 1.0 {
      assert rank.Floor == k + 1 && Ceil(rank) == k + 1;
    } else {
      assert rank.Floor == k && Ceil(rank) == k + 1;
      MixDifference(s[k] as real, s[k + 1] as real, f);
    }
  }

  /** The sample at place k counts for the percentile k / (n - 1); between two places the
      value runs in a straight line. */
  lemma PercentileBetween(s: seq<nat>, k: nat, f: real)
    requires |s| >= 2 && k < |s| - 1 && 0.0 <= f <= 1.0
    ensures var p := (k as real + f) / (|s| - 1) as real;
      0.0 <= p <= 1.0 && Percentile(s, p) == s[k] as real + f * (s[k + 1] as real - s[k] as real)
  {
    var last := (|s| - 1) as real;
    var p := (k as real + f) / last;
    QuotientBounds(k as real + f, last, 0.0, 1.0);
    assert Rank(p, last) == k as real + f;
    InterpolatedAt(s, k, f);
  }

  /** The k-th of n samples is the percentile k / (n - 1). */
  lemma PercentileOfSample(s: seq<nat>, k: nat)
    requires |s| >= 2 && k < |s|
    ensures var p := k as real / (|s| - 1) as real; 0.0 <= p <= 1.0 && Percentile(s, p) == s[k] as real
  {
    if k < |s| - 1 {
      PercentileBetween(s, k, 0.0);
      assert k as real + 0.0 == k as real;
    } else {
      PercentileBetween(s, k - 1, 1.0);
      assert (k - 1) as real + 1.0 == k as real;
    }
  }

  // ---- Percentages ----

  lemma PlaceInRange(q: nat, last: nat)
    requires q <= 100
    ensures q * last / 100 <= last && ((q * last) % 100 != 0 ==> q * last / 100 < last)
  {
    assert q * last + (100 - q) * last == 100 * last;
  }

  /** The value q hundredths of the way from the first to the last sample. */
  function AtPercent(s: seq<nat>, q: nat): real
    requires s != [] && q <= 100
  {
    var steps := q * (|s| - 1);
    PlaceInRange(q, |s| - 1);
    var k, rest := steps / 100, steps % 100;
    if rest == 0 then s[k] as real else s[k] as real + rest as real / 100.0 * (s[k + 1] as real - s[k] as real)
  }

  lemma SamePlace(q: nat, last: nat, k: nat, rest: nat)
    requires last > 0 && q * last == 100 * k + rest
    ensures (k as real + rest as real / 100.0) / last as real == q as real / 100.0
  {
    var x := k as real + rest as real / 100.0;
    assert (q * last) as real == q as real * last as real;
    assert 100.0 * x == q as real * last as real;
    assert x == q as real / 100.0 * last as real;
  }

  lemma BetweenSamples(s: seq<nat>, q: nat, k: nat, rest: nat)
    requires q <= 100 && k < |s| - 1 && q * (|s| - 1) == 100 * k + rest && rest < 100
    ensures Percentile(s, q as real / 100.0) == s[k] as real + rest as real / 100.0 * (s[k + 1] as real - s[k] as real)
  {
    var f := rest as real / 100.0;
    assert 0.0 <= f <= 1.0;
    SamePlace(q, |s| - 1, k, rest);
    assert (k as real + f) / (|s| - 1) as real == q as real / 100.0;
    PercentileBetween(s, k, f);
  }

  lemma LastSample(s: seq<nat>, p: real)
    requires s != [] && (|s| == 1 || p == 1.0) && 0.0 <= p <= 1.0
    ensures Percentile(s, p) == s[|s| - 1] as real
  {
    var last := (|s| - 1) as real;
    assert Rank(p, last) == last;
  }

  lemma OnlyHundred(q: nat, last: nat)
    requires q <= 100 && last > 0 && q * last / 100 == last
    ensures q == 100
  {
    assert q < 100 ==> q * last < 100 * last;
  }

  lemma PercentileAtPercent(s: seq<nat>, q: nat)
    requires s != [] && q <= 100
    ensures Percentile(s, q as real / 100.0) == AtPercent(s, q)
  {
    var last := |s| - 1;
    var steps := q * last;
    PlaceInRange(q, last);
    if steps / 100 < last {
      BetweenSamples(s, q, steps / 100, steps % 100);
    } else {
      if last > 0 {
        OnlyHundred(q, last);
      }
      LastSample(s, q as real / 100.0);
    }
  }

  /** The middle sample, or the mean of the two middle ones. */
  function Median(s: seq<nat>): real
    requires s != []
  {
    if |s| % 2 == 1 then s[|s| / 2] as real else (s[|s| / 2 - 1] as real + s[|s| / 2] as real) / 2.0
  }

  lemma HalfIsMedian(s: seq<nat>)
    requires s != []
    ensures AtPercent(s, 50) == Median(s)
  {
    if |s| % 2 == 0 {
      assert 50 * (|s| - 1) / 100 == |s| / 2 - 1 && 50 * (|s| - 1) % 100 == 50;
    } else {
      assert 50 * (|s| - 1) / 100 == |s| / 2 && 50 * (|s| - 1) % 100 == 0;
    }
  }

  // ---- The samples ----

  /** A zero counts for no sample; the other values are kept in order. */
  lemma KeptSamples(values: seq<nat>, x: nat)
    ensures NonZero([]) == [] && NonZero(values + [x]) == NonZero(values) + if x == 0 then [] else [x]
  {
    assert (values + [x])[..|values|] == values;
  }

  /** The window is the end of what was recorded, 4096 values at most. */
  lemma WindowOf(recorded: seq<nat>)
    ensures var last := LastOnes(recorded);
      && |last| == (if |recorded| < 4096 then |recorded| else 4096)
      && last == recorded[|recorded| - |last|..]
  {
  }

  lemma SumOneMore(values: seq<nat>, x: nat)
    ensures Sum([]) == 0.0 && Sum(values + [x]) == Sum(values) + x as real
  {
    assert (values + [x])[..|values|] == values;
  }

  predicate IsMean(mean: real, n: real, sum: real) {
    mean * n == sum
  }

  lemma QuotientIsMean(sum: real, n: real)
    requires n > 0.0
    ensures IsMean(sum / n, n, sum)
  {
  }

  lemma MiddlePercentile(s: seq<nat>)
    requires s != []
    ensures Percentile(s, 0.50) == Median(s)
  {
    PercentileAtPercent(s, 50);
    assert 50 as real / 100.0 == 0.50;
    HalfIsMedian(s);
  }

  lemma HighPercentiles(s: seq<nat>)
    requires s != []
    ensures Percentile(s, 0.95) == AtPercent(s, 95) && Percentile(s, 0.99) == AtPercent(s, 99)
  {
    PercentileAtPercent(s, 95);
    PercentileAtPercent(s, 99);
    assert 95 as real / 100.0 == 0.95 && 99 as real / 100.0 == 0.99;
  }

  /** The statistics of a window: its median, its 95th and 99th percentile by their
      places in the sorted window, its mean and its extremes. */
  lemma StatsByPlace(window: seq<nat>, count: nat)
    requires window != []
    ensures var stats, s := StatsOf(window, count), Sort(window);
      && stats.count == count
      && stats.p50 == Median(s) && stats.p95 == AtPercent(s, 95) && stats.p99 == AtPercent(s, 99)
      && stats.min == s[0] as real && stats.max == s[|s| - 1] as real
      && IsMean(stats.average, |window| as real, Sum(window))
  {
    var s := Sort(window);
    MiddlePercentile(s);
    HighPercentiles(s);
    QuotientIsMean(Sum(window), |window| as real);
  }

  /** `computeStats` */
  method ComputeStats(buffer: LatencyRingBuffer) returns (stats: MetricStats)
    requires buffer.Valid()
    ensures stats == StatsOf(NonZero(LastOnes(buffer.recorded)), |buffer.recorded| % SIZE_T)
    ensures NonZero(LastOnes(buffer.recorded)) != [] ==>
      var s := Sort(NonZero(LastOnes(buffer.recorded)));
      && stats.count == |buffer.recorded| % SIZE_T
      && stats.p50 == Median(s) && stats.p95 == AtPercent(s, 95) && stats.p99 == AtPercent(s, 99)
      && stats.min == s[0] as real && stats.max == s[|s| - 1] as real
  {
    stats := MetricStats(0, 0.0, 0.0, 0.0, 0.0, 0.0, 0.0);
    ghost var window := NonZero(LastOnes(buffer.recorded));
    var samples := buffer.GetSamples();
    RotationFacts(samples, window);
    if samples == [] {
      return;
    }
    StatsByPlace(window, |buffer.recorded| % SIZE_T);
    samples := Sort(samples);
    var count := buffer.GetCount();
    var sum := AddUp(samples);
    SumOfSorted(window);
    stats := MetricStats(count, sum / |samples| as real, Percentile(samples, 0.50), Percentile(samples, 0.95),
                         Percentile(samples, 0.99), samples[0] as real, samples[|samples| - 1] as real);
  }
}
