/** `LatencyRingBuffer` of metrics.h and the statistics of metrics.cpp, with reals in the
    place of doubles. */
module Metrics {
  const BUFFER_SIZE: nat := 4096
  const SIZE_T: nat := 0x1_0000_0000_0000_0000

  function NonZero(s: seq<nat>): (r: seq<nat>)
    ensures forall x :: x in r ==> x > 0
  {
    if s == [] then [] else NonZero(s[..|s| - 1]) + if s[|s| - 1] > 0 then [s[|s| - 1]] else []
  }

  /** The last BUFFER_SIZE recorded values, or all of them. */
  function LastOnes(recorded: seq<nat>): seq<nat> {
    if |recorded| <= BUFFER_SIZE then recorded else recorded[|recorded| - BUFFER_SIZE..]
  }

  /** b with some of its front moved to the back. */
  ghost predicate IsRotation(a: seq<nat>, b: seq<nat>) {
    exists k :: 0 <= k <= |b| && a == b[k..] + b[..k]
  }

  lemma SameSlot(n: nat)
    ensures (n % SIZE_T) % BUFFER_SIZE == n % BUFFER_SIZE
  {
  }

  lemma NextIndex(n: nat)
    ensures (n % SIZE_T + 1) % SIZE_T == (n + 1) % SIZE_T
  {
  }

  /** Two numbers less than a buffer apart share a place only if they are equal. */
  lemma OtherSlot(k: nat, n: nat)
    requires k <= n < k + BUFFER_SIZE
    ensures k % BUFFER_SIZE == n % BUFFER_SIZE ==> k == n
  {
  }

  lemma {:induction false} NonZeroAppend(a: seq<nat>, b: seq<nat>)
    ensures NonZero(a + b) == NonZero(a) + NonZero(b)
  {
    if b == [] {
      assert a + b == a;
    } else {
      assert (a + b)[..|a + b| - 1] == a + b[..|b| - 1];
      NonZeroAppend(a, b[..|b| - 1]);
    }
  }

  lemma {:induction false} NonZeroOfZeros(s: seq<nat>)
    requires forall j :: 0 <= j < |s| ==> s[j] == 0
    ensures NonZero(s) == []
  {
    if s != [] {
      NonZeroOfZeros(s[..|s| - 1]);
    }
  }

  lemma RotationAt(front: seq<nat>, back: seq<nat>)
    ensures IsRotation(back + front, front + back)
  {
    var b := front + back;
    assert b[|front|..] == back && b[..|front|] == front;
  }

  lemma PartBuffer(a: seq<nat>, recorded: seq<nat>)
    requires |recorded| <= |a| && recorded == a[..|recorded|]
    requires forall j :: |recorded| <= j < |a| ==> a[j] == 0
    ensures IsRotation(NonZero(a), NonZero(recorded))
  {
    var rest, x := a[|recorded|..], NonZero(recorded);
    NonZeroAppend(recorded, rest);
    NonZeroOfZeros(rest);
    assert a == recorded + rest;
    assert x + [] == x && [] + x == x;
    RotationAt([], x);
  }

  lemma {:induction false} ModOfSum(q: nat, r: nat)
    ensures (q * BUFFER_SIZE + r) % BUFFER_SIZE == r % BUFFER_SIZE
  {
  }

  /** The recorded value that sits in place j of a full buffer. */
  function ValueIn(n: nat, j: nat): (k: nat)
    requires n >= BUFFER_SIZE > j
    ensures n - BUFFER_SIZE <= k < n && k % BUFFER_SIZE == j
  {
    var q := n / BUFFER_SIZE;
    assert n == q * BUFFER_SIZE + n % BUFFER_SIZE;
    ModOfSum(if j < n % BUFFER_SIZE then q else q - 1, j);
    if j < n % BUFFER_SIZE then n - n % BUFFER_SIZE + j else n - n % BUFFER_SIZE - BUFFER_SIZE + j
  }

  /** A full buffer is the last recorded values, turned round. */
  lemma FullBuffer(a: seq<nat>, recorded: seq<nat>)
    requires |a| == BUFFER_SIZE < |recorded|
    requires forall k :: 0 <= k < |recorded| && |recorded| - BUFFER_SIZE <= k ==> a[k % BUFFER_SIZE] == recorded[k]
    ensures var last, cut := LastOnes(recorded), BUFFER_SIZE - |recorded| % BUFFER_SIZE; a == last[cut..] + last[..cut]
  {
    var last, cut := LastOnes(recorded), BUFFER_SIZE - |recorded| % BUFFER_SIZE;
    forall j | 0 <= j < BUFFER_SIZE ensures a[j] == (last[cut..] + last[..cut])[j] {
      var k := ValueIn(|recorded|, j);
      assert a[k % BUFFER_SIZE] == recorded[k] == last[k - (|recorded| - BUFFER_SIZE)];
    }
  }

  lemma NonZeroOfSwap(x: seq<nat>, y: seq<nat>)
    ensures IsRotation(NonZero(y + x), NonZero(x + y))
  {
    NonZeroAppend(x, y);
    NonZeroAppend(y, x);
    RotationAt(NonZero(x), NonZero(y));
  }

  lemma FullRotated(a: seq<nat>, recorded: seq<nat>)
    requires |a| == BUFFER_SIZE < |recorded|
    requires forall k :: 0 <= k < |recorded| && |recorded| - BUFFER_SIZE <= k ==> a[k % BUFFER_SIZE] == recorded[k]
    ensures IsRotation(NonZero(a), NonZero(LastOnes(recorded)))
  {
    FullBuffer(a, recorded);
    var last, cut := LastOnes(recorded), BUFFER_SIZE - |recorded| % BUFFER_SIZE;
    NonZeroOfSwap(last[..cut], last[cut..]);
    assert last == last[..cut] + last[cut..];
  }

  lemma Rotated(a: seq<nat>, recorded: seq<nat>)
    requires |a| == BUFFER_SIZE
    requires forall k :: 0 <= k < |recorded| && |recorded| - BUFFER_SIZE <= k ==> a[k % BUFFER_SIZE] == recorded[k]
    requires forall j :: |recorded| <= j < BUFFER_SIZE ==> a[j] == 0
    ensures IsRotation(NonZero(a), NonZero(LastOnes(recorded)))
  {
    var n := |recorded|;
    if n <= BUFFER_SIZE {
      forall k | 0 <= k < n ensures a[k] == recorded[k] {
        assert k % BUFFER_SIZE == k;
      }
      PartBuffer(a, recorded);
    } else {
      FullRotated(a, recorded);
    }
  }

  class LatencyRingBuffer {
    var writeIndex: nat
    const samples: array<nat>
    ghost var recorded: seq<nat>   // since the last clear

    /** The write index is a size_t and wraps; its place in the buffer does not notice. */
    ghost predicate Valid()
      reads this, samples
    {
      && samples.Length == BUFFER_SIZE
      && writeIndex == |recorded| % SIZE_T
      && (forall k :: 0 <= k < |recorded| && |recorded| - BUFFER_SIZE <= k ==> samples[k % BUFFER_SIZE] == recorded[k])
      && (forall j :: |recorded| <= j < BUFFER_SIZE ==> samples[j] == 0)
    }

    constructor ()
      ensures Valid() && recorded == [] && fresh(samples)
    {
      samples := new nat[BUFFER_SIZE](_ => 0);
      writeIndex, recorded := 0, [];
    }

    method Record(durationNs: nat)
      requires Valid()
      modifies this, samples
      ensures Valid() && recorded == old(recorded) + [durationNs]
    {
      var index := writeIndex % BUFFER_SIZE;
      SameSlot(|recorded|);
      writeIndex := (writeIndex + 1) % SIZE_T;
      samples[index] := durationNs;
      recorded := recorded + [durationNs];
      NextIndex(|recorded| - 1);
      forall k | 0 <= k < |recorded| && |recorded| - BUFFER_SIZE <= k ensures samples[k % BUFFER_SIZE] == recorded[k] {
        OtherSlot(k, |recorded| - 1);
      }
    }

    /** Zeros are taken for empty places. */
    method GetSamples() returns (result: seq<nat>)
      requires Valid()
      ensures IsRotation(result, NonZero(LastOnes(recorded)))
    {
      result := [];
      for i := 0 to BUFFER_SIZE
        invariant result == NonZero(samples[..i])
      {
        assert samples[..i + 1][..i] == samples[..i];
        var val := samples[i];
        if val > 0 {
          result := result + [val];
        }
      }
      assert samples[..BUFFER_SIZE] == samples[..];
      Rotated(samples[..], recorded);
    }

    method GetCount() returns (c: nat)
      requires Valid()
      ensures c == |recorded| % SIZE_T
    {
      c := writeIndex;
    }

    method Clear()
      requires Valid()
      modifies this, samples
      ensures Valid() && recorded == []
    {
      for i := 0 to BUFFER_SIZE
        invariant forall j :: 0 <= j < i ==> samples[j] == 0
      {
        samples[i] := 0;
      }
      writeIndex, recorded := 0, [];
    }
  }

  // ---- Statistics ----

  datatype MetricStats = MetricStats(count: nat, average: real, p50: real, p95: real, p99: real, min: real, max: real)

  predicate Sorted(s: seq<nat>) {
    forall i, j :: 0 <= i < j < |s| ==> s[i] <= s[j]
  }

  function Place(x: nat, s: seq<nat>): (i: nat)
    requires Sorted(s)
    ensures i <= |s| && (forall j :: 0 <= j < i ==> s[j] < x) && (forall j :: i <= j < |s| ==> x <= s[j])
  {
    if s == [] || x <= s[0] then 0 else 1 + Place(x, s[1..])
  }

  lemma InsertSorted(x: nat, s: seq<nat>, i: nat)
    requires Sorted(s) && i <= |s| && (forall j :: 0 <= j < i ==> s[j] < x) && (forall j :: i <= j < |s| ==> x <= s[j])
    ensures Sorted(s[..i] + [x] + s[i..])
  {
  }

  function Insert(x: nat, s: seq<nat>): (r: seq<nat>)
    requires Sorted(s)
    ensures Sorted(r) && multiset(r) == multiset([x]) + multiset(s) && |r| == |s| + 1
  {
    var i := Place(x, s);
    InsertSorted(x, s, i);
    assert s == s[..i] + s[i..];
    s[..i] + [x] + s[i..]
  }

  /** Stands in for std::sort. */
  function Sort(s: seq<nat>): (r: seq<nat>)
    ensures Sorted(r) && multiset(r) == multiset(s) && |r| == |s|
  {
    if s == [] then []
    else
      assert s == [s[0]] + s[1..];
      Insert(s[0], Sort(s[1..]))
  }

  function Ceil(x: real): int {
    -((-x).Floor)
  }

  function Mixed(a: real, b: real, fraction: real): real {
    a * (1.0 - fraction) + b * fraction
  }

  /** The value at a fractional place of the sorted samples. */
  function Interpolated(s: seq<nat>, rank: real): real
    requires s != [] && 0.0 <= rank <= (|s| - 1) as real
  {
    var lower := rank.Floor;
    var upper := Ceil(rank);
    if lower == upper then s[lower] as real
    else
      Mixed(s[lower] as real, s[upper] as real, rank - lower as real)
  }

  /** The fractional place of a percentile. */
  function Rank(p: real, last: real): (r: real)
    requires 0.0 <= p <= 1.0 && 0.0 <= last
    ensures 0.0 <= r <= last
  {
    assert (1.0 - p) * last >= 0.0;
    p * last
  }

  function Percentile(s: seq<nat>, p: real): real
    requires s != [] && 0.0 <= p <= 1.0
  {
    Interpolated(s, Rank(p, (|s| - 1) as real))
  }

  lemma RankMonotone(p: real, q: real, last: real)
    requires 0.0 <= p <= q <= 1.0 && 0.0 <= last
    ensures Rank(p, last) <= Rank(q, last)
  {
  }

  lemma MixMonotone(a: real, b: real, f: real, g: real)
    requires a <= b && f <= g
    ensures Mixed(a, b, f) <= Mixed(a, b, g)
  {
  }

  /** An interpolated value lies between its neighbours. */
  lemma InterpolatedBetween(s: seq<nat>, rank: real)
    requires s != [] && Sorted(s) && 0.0 <= rank <= (|s| - 1) as real
    ensures var lower := rank.Floor;
      && s[lower] as real <= Interpolated(s, rank)
      && Interpolated(s, rank) <= s[if lower + 1 < |s| then lower + 1 else lower] as real
  {
    var lower, upper := rank.Floor, Ceil(rank);
    if lower != upper {
      var a, b, f := s[lower] as real, s[upper] as real, rank - lower as real;
      assert upper == lower + 1;
      assert Interpolated(s, rank) == Mixed(a, b, f) && Mixed(a, b, 0.0) == a && Mixed(a, b, 1.0) == b;
      MixMonotone(a, b, 0.0, f);
      MixMonotone(a, b, f, 1.0);
    }
  }

  lemma SameGap(s: seq<nat>, r: real, q: real)
    requires s != [] && Sorted(s) && 0.0 <= r <= q <= (|s| - 1) as real
    requires r.Floor == q.Floor && Ceil(r) != r.Floor
    ensures Interpolated(s, r) <= Interpolated(s, q)
  {
    var l := r.Floor;
    assert Ceil(r) == l + 1 && Ceil(q) == l + 1;
    var a, b := s[l] as real, s[l + 1] as real;
    assert Interpolated(s, r) == Mixed(a, b, r - l as real);
    assert Interpolated(s, q) == Mixed(a, b, q - l as real);
    MixMonotone(a, b, r - l as real, q - l as real);
  }

  lemma InterpolatedMonotone(s: seq<nat>, r: real, q: real)
    requires s != [] && Sorted(s) && 0.0 <= r <= q <= (|s| - 1) as real
    ensures Interpolated(s, r) <= Interpolated(s, q)
  {
    InterpolatedBetween(s, r);
    InterpolatedBetween(s, q);
    var l, m := r.Floor, q.Floor;
    if l < m {
      assert s[l + 1] <= s[m];
    } else if Ceil(r) != l {
      SameGap(s, r, q);
    }
  }

  /** A higher percentile is never a smaller value. */
  lemma PercentileMonotone(s: seq<nat>, p: real, q: real)
    requires s != [] && Sorted(s) && 0.0 <= p <= q <= 1.0
    ensures s[0] as real <= Percentile(s, p) <= Percentile(s, q) <= s[|s| - 1] as real
  {
    var n := (|s| - 1) as real;
    RankMonotone(p, q, n);
    var rp, rq := Rank(p, n), Rank(q, n);
    InterpolatedMonotone(s, 0.0, rp);
    InterpolatedMonotone(s, rp, rq);
    InterpolatedMonotone(s, rq, n);
  }

  function Sum(s: seq<nat>): real {
    if s == [] then 0.0 else Sum(s[..|s| - 1]) + s[|s| - 1] as real
  }

  lemma {:induction false} SumBounds(s: seq<nat>, lo: real, hi: real)
    requires forall i :: 0 <= i < |s| ==> lo <= s[i] as real <= hi
    ensures lo * |s| as real <= Sum(s) <= hi * |s| as real
  {
    if s != [] {
      SumBounds(s[..|s| - 1], lo, hi);
      var n := (|s| - 1) as real;
      assert |s| as real == n + 1.0;
      assert lo * (n + 1.0) == lo * n + lo;
      assert hi * (n + 1.0) == hi * n + hi;
    }
  }

  lemma QuotientBounds(sum: real, n: real, lo: real, hi: real)
    requires n > 0.0 && lo * n <= sum <= hi * n
    ensures lo <= sum / n <= hi
  {
  }

  lemma {:induction false} SumAppend(a: seq<nat>, b: seq<nat>)
    ensures Sum(a + b) == Sum(a) + Sum(b)
  {
    if b == [] {
      assert a + b == a;
    } else {
      assert (a + b)[..|a + b| - 1] == a + b[..|b| - 1];
      SumAppend(a, b[..|b| - 1]);
    }
  }

  lemma SumOfInsert(x: nat, s: seq<nat>)
    requires Sorted(s)
    ensures Sum(Insert(x, s)) == x as real + Sum(s)
  {
    var i := Place(x, s);
    var front := s[..i] + [x];
    SumAppend(front, s[i..]);
    assert front[..|front| - 1] == s[..i];
    SumAppend(s[..i], s[i..]);
    assert s == s[..i] + s[i..];
  }

  lemma {:induction false} SumOfSorted(s: seq<nat>)
    ensures Sum(Sort(s)) == Sum(s)
  {
    if s != [] {
      SumOfSorted(s[1..]);
      SumOfInsert(s[0], Sort(s[1..]));
      SumAppend([s[0]], s[1..]);
      assert [s[0]][..0] == [] && s == [s[0]] + s[1..];
    }
  }

  lemma WithoutLast(s: seq<nat>)
    requires s != []
    ensures multiset(s[..|s| - 1]) == multiset(s) - multiset{s[|s| - 1]}
  {
    assert s == s[..|s| - 1] + [s[|s| - 1]];
  }

  lemma LastAtMost(a: seq<nat>, b: seq<nat>)
    requires Sorted(b) && multiset(a) == multiset(b) && a != [] && |a| == |b|
    ensures a[|a| - 1] <= b[|b| - 1]
  {
    assert a[|a| - 1] in multiset(b);
    var j :| 0 <= j < |b| && b[j] == a[|a| - 1];
  }

  /** There is only one sorted order of the same values. */
  lemma {:induction false} SortedUnique(a: seq<nat>, b: seq<nat>)
    requires Sorted(a) && Sorted(b) && multiset(a) == multiset(b) && |a| == |b|
    ensures a == b
  {
    if a != [] {
      var n := |a| - 1;
      LastAtMost(a, b);
      LastAtMost(b, a);
      WithoutLast(a);
      WithoutLast(b);
      SortedUnique(a[..n], b[..n]);
    }
  }

  lemma RotationFacts(a: seq<nat>, b: seq<nat>)
    requires IsRotation(a, b)
    ensures |a| == |b| && multiset(a) == multiset(b) && Sum(a) == Sum(b) && Sort(a) == Sort(b)
  {
    var k :| 0 <= k <= |b| && a == b[k..] + b[..k];
    assert b == b[..k] + b[k..];
    SumAppend(b[k..], b[..k]);
    SumAppend(b[..k], b[k..]);
    SortedUnique(Sort(a), Sort(b));
  }

  /** The statistics of the nonzero samples among the last recorded values. */
  function StatsOf(window: seq<nat>, count: nat): MetricStats {
    if window == [] then MetricStats(0, 0.0, 0.0, 0.0, 0.0, 0.0, 0.0)
    else
      var s := Sort(window);
      MetricStats(count, Sum(window) / |window| as real, Percentile(s, 0.50), Percentile(s, 0.95), Percentile(s, 0.99),
                  s[0] as real, s[|s| - 1] as real)
  }

  lemma AverageBounds(s: seq<nat>, n: real, lo: real, hi: real)
    requires s != [] && n == |s| as real && forall i :: 0 <= i < |s| ==> lo <= s[i] as real <= hi
    ensures lo <= Sum(s) / n <= hi
  {
    SumBounds(s, lo, hi);
    QuotientBounds(Sum(s), n, lo, hi);
  }

  lemma SortedAverage(s: seq<nat>)
    requires s != [] && Sorted(s)
    ensures s[0] as real <= Sum(s) / |s| as real <= s[|s| - 1] as real
  {
    AverageBounds(s, |s| as real, s[0] as real, s[|s| - 1] as real);
  }

  lemma AverageInRange(window: seq<nat>)
    requires window != []
    ensures var s := Sort(window); s[0] as real <= Sum(window) / |window| as real <= s[|s| - 1] as real
  {
    SumOfSorted(window);
    SortedAverage(Sort(window));
  }

  lemma SortedMembers(s: seq<nat>, window: seq<nat>)
    requires Sorted(s) && multiset(s) == multiset(window) && s != []
    ensures s[0] in window && s[|s| - 1] in window && forall x :: x in window ==> s[0] <= x <= s[|s| - 1]
  {
    assert s[0] in multiset(window) && s[|s| - 1] in multiset(window);
    forall x | x in window ensures s[0] <= x <= s[|s| - 1] {
      assert x in multiset(s);
      var j :| 0 <= j < |s| && s[j] == x;
    }
  }

  /** The numbers come in their natural order, and the extremes are those of the samples. */
  lemma StatsInOrder(window: seq<nat>, count: nat)
    requires window != []
    ensures var stats := StatsOf(window, count);
      && stats.min <= stats.p50 <= stats.p95 <= stats.p99 <= stats.max
      && stats.min <= stats.average <= stats.max
      && (exists x :: x in window && stats.min == x as real)
      && (exists x :: x in window && stats.max == x as real)
      && (forall x :: x in window ==> stats.min <= x as real <= stats.max)
  {
    var s := Sort(window);
    AverageInRange(window);
    PercentileMonotone(s, 0.50, 0.95);
    PercentileMonotone(s, 0.95, 0.99);
    SortedMembers(s, window);
  }

  method AddUp(samples: seq<nat>) returns (sum: real)
    ensures sum == Sum(samples)
  {
    sum := 0.0;
    for i := 0 to |samples|
      invariant sum == Sum(samples[..i])
    {
      assert samples[..i + 1][..i] == samples[..i];
      sum := sum + samples[i] as real;
    }
    assert samples[..|samples|] == samples;
  }
}
