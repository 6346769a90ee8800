/** `pd.cut(x, bins, right=False)`: the left-closed, right-open bucketing
    that every histogram of the pipeline uses.

    The bins are a strictly increasing list of finite edges, optionally
    followed by `float("inf")`. A value gets bucket `i` when
    `edges[i] <= x < edges[i + 1]`; below the first edge, or at or above a
    finite last edge, it gets no bucket (NaN), and `groupby(observed=True)`
    then drops it. pandas rejects bins that do not strictly increase with a
    `ValueError`, modelled as `None`. (`include_lowest` has no effect when
    `right=False`.) */
module Buckets {
  import opened Wrappers
  import opened Grouping

  datatype Bins = Bins(edges: seq<int>, unbounded: bool)

  predicate Increasing(edges: seq<int>) {
    forall i :: 0 < i < |edges| ==> edges[i - 1] < edges[i]
  }

  /** The bins pandas accepts. */
  predicate ValidBins(b: Bins) {
    |b.edges| >= 1 && Increasing(b.edges) && (|b.edges| >= 2 || b.unbounded)
  }

  function NumBuckets(b: Bins): nat {
    if b.edges == [] then 0 else |b.edges| - 1 + (if b.unbounded then 1 else 0)
  }

  /** How many edges are at most `x` (`searchsorted(x, side="right")`). */
  function EdgesAtMost(edges: seq<int>, x: int): nat {
    if edges == [] then 0 else (if edges[0] <= x then 1 else 0) + EdgesAtMost(edges[1..], x)
  }

  /** In increasing edges, the edges at most `x` are exactly the first
      `EdgesAtMost(edges, x)`. */
  lemma {:induction false} EdgesAtMostSplits(edges: seq<int>, x: int)
    requires Increasing(edges)
    ensures EdgesAtMost(edges, x) <= |edges|
    ensures forall i :: 0 <= i < |edges| ==> (edges[i] <= x <==> i < EdgesAtMost(edges, x))
  {
    if edges != [] {
      var rest := edges[1..];
      assert Increasing(rest) by {
        forall i | 0 < i < |rest| ensures rest[i - 1] < rest[i] {
          assert rest[i - 1] == edges[i] && rest[i] == edges[i + 1];
        }
      }
      EdgesAtMostSplits(rest, x);
      forall i | 0 < i < |edges| ensures edges[i] == rest[i - 1] {}
      if edges[0] > x && |rest| > 0 {
        assert rest[0] == edges[1] > x;
      }
    }
  }

  /** The bucket of `x`: its index, or `None` for NaN. */
  function Bucket(b: Bins, x: int): (r: Option<nat>)
    requires ValidBins(b)
    ensures r.Some? <==> b.edges[0] <= x && (b.unbounded || x < b.edges[|b.edges| - 1])
    ensures r.Some? ==> r.value < NumBuckets(b) && b.edges[r.value] <= x
                        && (r.value + 1 < |b.edges| ==> x < b.edges[r.value + 1])
  {
    EdgesAtMostSplits(b.edges, x);
    var n := EdgesAtMost(b.edges, x);
    if n == 0 || (n == |b.edges| && !b.unbounded) then None else Some(n - 1)
  }

  /** Buckets are disjoint intervals: `x` is in bucket `i` exactly when it
      lies in `[edges[i], edges[i + 1])` (the last bucket of unbounded bins
      has no upper end). */
  lemma BucketIsInterval(b: Bins, x: int, i: nat)
    requires ValidBins(b) && i < NumBuckets(b)
    ensures Bucket(b, x) == Some(i) <==> b.edges[i] <= x && (i + 1 < |b.edges| ==> x < b.edges[i + 1])
  {
    EdgesAtMostSplits(b.edges, x);
  }

  /** `pd.cut` of a column: `None` when pandas raises on the bins. */
  function Cut(b: Bins, xs: seq<int>): (r: Option<seq<Option<nat>>>)
    ensures r.Some? <==> ValidBins(b)
    ensures r.Some? ==> |r.value| == |xs|
    ensures r.Some? ==> forall i :: 0 <= i < |xs| ==> r.value[i] == Bucket(b, xs[i])
  {
    if ValidBins(b) then Some(seq(|xs|, i requires 0 <= i < |xs| => Bucket(b, xs[i]))) else None
  }

  /** The bucket of a value as a group-by key. */
  function BucketKey(b: Bins): int -> Option<nat>
    requires ValidBins(b)
  {
    (x: int) => Bucket(b, x)
  }

  function InBins(b: Bins): int -> bool
    requires ValidBins(b)
  {
    (x: int) => Bucket(b, x).Some?
  }

  /** The bucket indices `0 .. n - 1`. */
  function Indices(n: nat): (r: seq<nat>)
    ensures |r| == n
    ensures forall i :: 0 <= i < n ==> r[i] == i
  {
    seq(n, i requires 0 <= i < n => i)
  }

  /** `groupby(bucket).size()`: the count of every bucket. */
  function Histogram(b: Bins, xs: seq<int>): (h: seq<nat>)
    requires ValidBins(b)
    ensures |h| == NumBuckets(b)
    ensures forall i: nat :: i < |h| ==> h[i] == CountKey(xs, BucketKey(b), i)
  {
    seq(NumBuckets(b), (i: nat) requires i < NumBuckets(b) => CountKey(xs, BucketKey(b), i))
  }

  function SumNat(h: seq<nat>): nat {
    if h == [] then 0 else h[0] + SumNat(h[1..])
  }

  lemma {:induction false} SumHistogram(b: Bins, xs: seq<int>, ks: seq<nat>, h: seq<nat>)
    requires ValidBins(b)
    requires |h| == |ks|
    requires forall i :: 0 <= i < |h| ==> h[i] == CountKey(xs, BucketKey(b), ks[i])
    ensures SumNat(h) == CountOver(ks, xs, BucketKey(b))
  {
    if h != [] {
      SumHistogram(b, xs, ks[1..], h[1..]);
    }
  }

  /** The bucket counts add up to the number of values that have a bucket:
      the buckets partition the values. */
  lemma HistogramPartition(b: Bins, xs: seq<int>)
    requires ValidBins(b)
    ensures SumNat(Histogram(b, xs)) == Count(xs, InBins(b))
  {
    var ks := Indices(NumBuckets(b));
    var h := Histogram(b, xs);
    forall i | 0 <= i < |h| ensures h[i] == CountKey(xs, BucketKey(b), ks[i]) {
      assert ks[i] == i;
    }
    SumHistogram(b, xs, ks, h);
    forall x | x in xs && BucketKey(b)(x).Some? ensures BucketKey(b)(x).value in ks {
      var v := BucketKey(b)(x).value;
      assert ks[v] == v;
    }
    PartitionCount(ks, xs, BucketKey(b));
    CountKeyedIsCount(xs, BucketKey(b), InBins(b));
  }

  /** Each count as a percentage of `total`. */
  function Scale(h: seq<nat>, total: nat): (r: seq<real>)
    requires total > 0
    ensures |r| == |h|
    ensures forall i :: 0 <= i < |h| ==> 0.0 <= r[i]
    ensures forall i :: 0 <= i < |h| ==> r[i] == h[i] as real / total as real * 100.0
  {
    if h == [] then [] else [h[0] as real / total as real * 100.0] + Scale(h[1..], total)
  }

  /** `Counts / Counts.sum() * 100`, before rounding: each count's share of
      the month's counts, in percent. */
  function Percents(h: seq<nat>): (r: seq<real>)
    requires SumNat(h) > 0
    ensures |r| == |h|
    ensures forall i :: 0 <= i < |h| ==> r[i] == h[i] as real / SumNat(h) as real * 100.0
  {
    Scale(h, SumNat(h))
  }

  function SumReal(r: seq<real>): real {
    if r == [] then 0.0 else r[0] + SumReal(r[1..])
  }

  lemma {:induction false} ScaledSum(h: seq<nat>, total: nat)
    requires total > 0
    ensures SumReal(Scale(h, total)) == SumNat(h) as real / total as real * 100.0
  {
    if h != [] {
      ScaledSum(h[1..], total);
      Distribute(h[0] as real, SumNat(h[1..]) as real, total as real);
    }
  }

  /** Percentages of a common total add up like their counts. */
  lemma Distribute(a: real, b: real, t: real)
    requires t > 0.0
    ensures (a + b) / t * 100.0 == a / t * 100.0 + b / t * 100.0
  {
    var qa := a / t;
    var qb := b / t;
    assert qa * t == a && qb * t == b;
    assert (qa + qb) * t == a + b;
    assert (a + b) / t == qa + qb;
  }

  /** A count out of a positive total is between 0% and 100%; exactly 100%
      when it is the whole total and exactly 0% when it is zero. */
  lemma ShareBounds(a: nat, t: nat)
    requires 0 < t && a <= t
    ensures 0.0 <= a as real / t as real * 100.0 <= 100.0
    ensures a as real / t as real * 100.0 == 100.0 <==> a == t
    ensures a as real / t as real * 100.0 == 0.0 <==> a == 0
  {
    var q := a as real / t as real;
    assert q * t as real == a as real;
    assert (1.0 - q) * t as real == (t - a) as real;
    NonNegativeFactor(q, t as real);
    NonNegativeFactor(1.0 - q, t as real);
  }

  lemma NonNegativeFactor(x: real, t: real)
    requires t > 0.0 && x * t >= 0.0
    ensures x >= 0.0 && (x == 0.0 <==> x * t == 0.0)
  {
    if x < 0.0 {
      NegativeTimesPositive(x, t);
    } else if x > 0.0 {
      PositiveTimesPositive(x, t);
    }
  }

  lemma DivSelf(t: real)
    requires t > 0.0
    ensures t / t == 1.0
  {
    var q := t / t;
    assert q * t == t;
    assert (q - 1.0) * t == 0.0;
    NonNegativeFactor(q - 1.0, t);
  }

  lemma NegativeTimesPositive(x: real, t: real)
    requires x < 0.0 && t > 0.0
    ensures x * t < 0.0
  {
  }

  lemma PositiveTimesPositive(x: real, t: real)
    requires x > 0.0 && t > 0.0
    ensures x * t > 0.0
  {
  }

  /** The percentages of a non-empty histogram add up to 100. */
  lemma PercentsSumTo100(h: seq<nat>)
    requires SumNat(h) > 0
    ensures SumReal(Percents(h)) == 100.0
  {
    ScaledSum(h, SumNat(h));
    DivSelf(SumNat(h) as real);
  }
}
