/** The link-preview sampling of `packages/contracts/src/backtest-sharing.ts`. */
module Sampling {
  import opened Arithmetic
  import opened Collections
  import opened Wrappers

  /** One day of a run's series. */
  datatype Point = Point(strategyValue: real, benchmarkValue: Option<real>)

  datatype Line = Strategy | Benchmark

  datatype Side = Lowest | Highest

  function ValueAt(p: Point, line: Line): Option<real> {
    if line.Strategy? then Some(p.strategyValue) else p.benchmarkValue
  }

  predicate Beats(x: real, y: real, side: Side) { if side.Lowest? then x < y else x > y }

  // ---- Buckets --------------------------------------------------------------------------------

  function Limit(maxPoints: real): (n: nat)
    ensures n >= 6
  {
    if maxPoints.Floor > 6 then maxPoints.Floor else 6
  }

  function BucketCount(limit: nat): nat
    requires limit >= 6
  {
    (limit - 2) / 4
  }

  /** The first index of a bucket, and one past the last index of the bucket before it. */
  function Start(bucket: nat, interior: nat, count: nat): int
    requires count > 0
  {
    1 + bucket * interior / count
  }

  /** The widest a bucket may be. */
  function Widest(interior: nat, count: nat): int
    requires count > 0
  {
    if interior % count == 0 then interior / count else interior / count + 1
  }

  lemma BucketWidth(bucket: nat, interior: nat, count: nat)
    requires 0 < count <= interior
    ensures 1 <= interior / count
    ensures interior / count <= Start(bucket + 1, interior, count) - Start(bucket, interior, count)
         <= Widest(interior, count)
  {
    var x := bucket * interior;
    var q, r := interior / count, interior % count;
    var X, s := x / count, x % count;
    assert interior == count * q + r && x == count * X + s;
    if q <= 0 { MultipleIsFar(count, q); }
    assert (bucket + 1) * interior == x + interior;
    assert x + interior == count * (X + q) + (s + r);
    if s + r < count {
      QuotientIs(x + interior, count, X + q, s + r);
    } else {
      assert x + interior == count * (X + q + 1) + (s + r - count);
      QuotientIs(x + interior, count, X + q + 1, s + r - count);
    }
  }

  lemma StartEnds(interior: nat, count: nat)
    requires count > 0
    ensures Start(0, interior, count) == 1 && Start(count, interior, count) == 1 + interior
  {
    QuotientIs(count * interior, count, interior, 0);
    QuotientIs(0, count, 0, 0);
  }

  lemma {:induction false} StartsAscend(b: nat, c: nat, interior: nat, count: nat)
    requires 0 < count <= interior && b <= c
    ensures Start(b, interior, count) <= Start(c, interior, count)
    decreases c - b
  {
    hide Start, Widest;
    if b < c {
      BucketWidth(b, interior, count);
      StartsAscend(b + 1, c, interior, count);
    }
  }

  lemma {:induction false} BucketHolding(i: int, interior: nat, count: nat, buckets: nat) returns (b: nat)
    requires 0 < count <= interior && 1 <= i < Start(buckets, interior, count)
    ensures b < buckets && InBucket(i, b, interior, count)
  {
    StartEnds(interior, count);
    hide Start;
    if Start(buckets - 1, interior, count) <= i { b := buckets - 1; }
    else { b := BucketHolding(i, interior, count, buckets - 1); }
  }

  /** The buckets are not empty, lie one after the other, and cover exactly the indices between the first and
  the last. */
  lemma BucketsPartition(i: int, interior: nat, count: nat, buckets: nat)
    requires 0 < count <= interior
    ensures Start(0, interior, count) == 1 && Start(count, interior, count) == 1 + interior
    ensures 1 <= i < Start(buckets, interior, count) <==>
      exists b :: 0 <= b < buckets && InBucket(i, b, interior, count)
    ensures forall b, c ::
      InBucket(i, b, interior, count) && InBucket(i, c, interior, count) && 0 <= b < buckets && 0 <= c < buckets
      ==> b == c
  {
    StartEnds(interior, count);
    hide Start;
    if 1 <= i < Start(buckets, interior, count) { var b := BucketHolding(i, interior, count, buckets); }
    if b :| 0 <= b < buckets && InBucket(i, b, interior, count) {
      StartsAscend(0, b, interior, count);
      StartsAscend(b + 1, buckets, interior, count);
    }
    forall b, c | InBucket(i, b, interior, count) && InBucket(i, c, interior, count) ensures b == c {
      if b < c { StartsAscend(b + 1, c, interior, count); }
      if c < b { StartsAscend(c + 1, b, interior, count); }
    }
  }

  predicate InBucket(i: int, bucket: int, interior: nat, count: nat)
    requires count > 0
  {
    0 <= bucket && Start(bucket, interior, count) <= i < Start(bucket + 1, interior, count)
  }

  // ---- What the code keeps --------------------------------------------------------------------

  /** The running index of the inner loop: the first index attaining the extreme of a line over `lo..hi`, or -1
  when the line has no value there. */
  function Extreme(points: seq<Point>, lo: nat, hi: nat, line: Line, side: Side): (e: int)
    requires hi <= |points|
    ensures e == -1 || (lo <= e < hi && ValueAt(points[e], line).Some?)
  {
    if hi <= lo then -1
    else
      var e := Extreme(points, lo, hi - 1, line, side);
      var v := ValueAt(points[hi - 1], line);
      if v.Some? && (e < 0 || Beats(v.value, ValueAt(points[e], line).value, side)) then hi - 1 else e
  }

  /** The indices among the found ones that are not -1. */
  function Found(indices: seq<int>): set<int> { set e | e in indices && e >= 0 }

  function Extremes(points: seq<Point>, lo: nat, hi: nat): set<int>
    requires hi <= |points|
  {
    Found(FourExtremes(points, lo, hi))
  }

  function FourExtremes(points: seq<Point>, lo: nat, hi: nat): seq<int>
    requires hi <= |points|
  {
    [Extreme(points, lo, hi, Strategy, Lowest), Extreme(points, lo, hi, Strategy, Highest),
     Extreme(points, lo, hi, Benchmark, Lowest), Extreme(points, lo, hi, Benchmark, Highest)]
  }

  function Bound(bucket: nat, interior: nat, count: nat): (r: nat)
    requires 0 < count <= interior && bucket <= count
    ensures 1 <= r <= 1 + interior
  {
    StartInside(bucket, interior, count);
    Start(bucket, interior, count)
  }

  lemma StartInside(bucket: nat, interior: nat, count: nat)
    requires 0 < count <= interior && bucket <= count
    ensures 1 <= Start(bucket, interior, count) <= 1 + interior
    decreases count - bucket
  {
    if bucket == count {
      QuotientIs(count * interior, count, interior, 0);
    } else {
      StartInside(bucket + 1, interior, count);
      BucketWidth(bucket, interior, count);
      assert bucket * interior >= 0;
      QuotientBounds(bucket * interior, count);
    }
  }

  /** The indices kept after the first `buckets` buckets. */
  function Kept(points: seq<Point>, count: nat, buckets: nat): set<int>
    requires 0 < count <= |points| - 2 && buckets <= count
  {
    if buckets == 0 then {0, |points| - 1}
    else
      var interior := |points| - 2;
      Kept(points, count, buckets - 1)
        + Extremes(points, Bound(buckets - 1, interior, count), Bound(buckets, interior, count))
  }

  /** The elements of a set of indices below `n`, in ascending order. */
  function Ascending(s: set<int>, n: nat): (r: seq<int>)
    ensures forall i :: i in r <==> i in s && 0 <= i < n
    ensures forall i, j :: 0 <= i < j < |r| ==> r[i] < r[j]
  {
    if n == 0 then []
    else
      var r := Ascending(s, n - 1);
      assert forall i :: 0 <= i < |r| ==> r[i] in r;
      if n - 1 in s then r + [n - 1] else r
  }

  /** The indices sampled from a series longer than the limit. */
  function Indices(points: seq<Point>, limit: nat): (r: seq<int>)
    requires limit >= 6 && |points| > limit
    ensures forall i :: i in r ==> 0 <= i < |points|
  {
    Ascending(Kept(points, BucketCount(limit), BucketCount(limit)), |points|)
  }

  function Sampled(points: seq<Point>, maxPoints: real): seq<Point> {
    var limit := Limit(maxPoints);
    if |points| <= limit then points
    else
      var indices := Indices(points, limit);
      seq(|indices|, i requires 0 <= i < |indices| => assert indices[i] in indices; points[indices[i]])
  }

  // ---- What a sample is -----------------------------------------------------------------------

  /** The sample is the points at strictly ascending indices, from the first point to the last. */
  ghost predicate PicksInOrder(points: seq<Point>, sample: seq<Point>, indices: seq<int>) {
    && 2 <= |indices| == |sample|
    && indices[0] == 0 && indices[|indices| - 1] == |points| - 1
    && (forall k :: 0 <= k < |indices| ==> 0 <= indices[k] < |points| && sample[k] == points[indices[k]])
    && (forall i, k :: 0 <= i < k < |indices| ==> indices[i] < indices[k])
  }

  /** Some sampled point has the lowest strategy value of all, and some has the highest. */
  ghost predicate ReachesStrategy(points: seq<Point>, sample: seq<Point>) {
    && (exists q :: q in sample && forall p :: p in points ==> q.strategyValue <= p.strategyValue)
    && (exists q :: q in sample && forall p :: p in points ==> p.strategyValue <= q.strategyValue)
  }

  ghost predicate BenchmarkFrom(points: seq<Point>, q: Point) {
    q.benchmarkValue.Some?
    && forall p :: p in points && p.benchmarkValue.Some? ==> q.benchmarkValue.value <= p.benchmarkValue.value
  }

  ghost predicate BenchmarkUpTo(points: seq<Point>, q: Point) {
    q.benchmarkValue.Some?
    && forall p :: p in points && p.benchmarkValue.Some? ==> p.benchmarkValue.value <= q.benchmarkValue.value
  }

  /** The same for the benchmark, where it has values. */
  ghost predicate ReachesBenchmark(points: seq<Point>, sample: seq<Point>) {
    (exists p :: p in points && p.benchmarkValue.Some?) ==>
      && (exists q :: q in sample && BenchmarkFrom(points, q))
      && (exists q :: q in sample && BenchmarkUpTo(points, q))
  }

  /** If index `j` is in a bucket, some chosen index of the bucket has a value that its value does not beat. */
  ghost predicate BucketReached(
    points: seq<Point>, indices: seq<int>, buckets: int, b: int, j: int, line: Line, side: Side)
    requires buckets > 0 && |points| >= 2
  {
    InBucket(j, b, |points| - 2, buckets) && 0 <= j < |points| && ValueAt(points[j], line).Some? ==>
      exists e :: e in indices && 0 <= e < |points| && InBucket(e, b, |points| - 2, buckets)
        && ValueAt(points[e], line).Some? && !Beats(ValueAt(points[j], line).value, ValueAt(points[e], line).value, side)
  }

  ghost predicate ReachesBuckets(points: seq<Point>, indices: seq<int>, buckets: int)
    requires buckets > 0 && |points| >= 2
  {
    forall b, j, line, side :: 0 <= b < buckets ==> BucketReached(points, indices, buckets, b, j, line, side)
  }

  /** Neighbours in the sample are less than two of the widest of `buckets` equal parts of the interior apart. */
  ghost predicate GapsBelow(points: seq<Point>, indices: seq<int>, buckets: int)
    requires buckets > 0
  {
    forall k :: 0 <= k < |indices| - 1 ==> indices[k + 1] - indices[k] < 2 * ((|points| - 2 + buckets - 1) / buckets)
  }

  ghost predicate IsChoice(points: seq<Point>, sample: seq<Point>, indices: seq<int>, buckets: int)
    requires buckets > 0 && |points| >= 2
  {
    && PicksInOrder(points, sample, indices) && GapsBelow(points, indices, buckets)
    && ReachesBuckets(points, indices, buckets)
  }

  /** What `sampleSharedBacktestPreview` promises of the series it returns. */
  ghost predicate Represents(points: seq<Point>, maxPoints: real, sample: seq<Point>) {
    var limit := if maxPoints.Floor < 6 then 6 else maxPoints.Floor;
    if |points| <= limit then sample == points else IsThinned(points, sample, limit, (limit - 2) / 4)
  }

  ghost predicate IsThinned(points: seq<Point>, sample: seq<Point>, limit: int, buckets: int)
    requires buckets > 0 && |points| >= 2
  {
    && |sample| <= limit && ReachesStrategy(points, sample) && ReachesBenchmark(points, sample)
    && exists indices :: IsChoice(points, sample, indices, buckets)
  }

  method ScanBucket(points: seq<Point>, start: nat, end: nat) returns (found: seq<int>)
    requires start <= end <= |points|
    ensures found == FourExtremes(points, start, end)
  {
    var strategyMin, strategyMax, benchmarkMin, benchmarkMax := -1, -1, -1, -1;
    for index := start to end
      invariant strategyMin == Extreme(points, start, index, Strategy, Lowest)
      invariant strategyMax == Extreme(points, start, index, Strategy, Highest)
      invariant benchmarkMin == Extreme(points, start, index, Benchmark, Lowest)
      invariant benchmarkMax == Extreme(points, start, index, Benchmark, Highest)
    {
      var point := points[index];
      if strategyMin < 0 || point.strategyValue < points[strategyMin].strategyValue {
        strategyMin := index;
      }
      if strategyMax < 0 || point.strategyValue > points[strategyMax].strategyValue {
        strategyMax := index;
      }
      if point.benchmarkValue.Some? {
        var benchmark := point.benchmarkValue.value;
        if benchmarkMin < 0 || benchmark < points[benchmarkMin].benchmarkValue.value {
          benchmarkMin := index;
        }
        if benchmarkMax < 0 || benchmark > points[benchmarkMax].benchmarkValue.value {
          benchmarkMax := index;
        }
      }
    }
    found := [strategyMin, strategyMax, benchmarkMin, benchmarkMax];
  }

  lemma BoundsInOrder(bucket: nat, interior: nat, count: nat)
    requires 0 < count <= interior && bucket < count
    ensures Bound(bucket, interior, count) < Bound(bucket + 1, interior, count)
  {
    BucketWidth(bucket, interior, count);
  }

  method KeepFound(before: set<int>, found: seq<int>) returns (kept: set<int>)
    ensures kept == before + Found(found)
  {
    kept := before;
    for at := 0 to |found|
      invariant kept == before + Found(found[..at])
    {
      assert found[..at + 1] == found[..at] + [found[at]];
      if found[at] >= 0 { kept := kept + {found[at]}; }
    }
    assert found[..|found|] == found;
  }

  method SampleSharedBacktestPreview(points: seq<Point>, maxPoints: real) returns (sample: seq<Point>)
    ensures sample == Sampled(points, maxPoints)
    ensures Represents(points, maxPoints, sample)
  {
    SampleRepresents(points, maxPoints);
    hide Represents;
    hide Start;
    hide Bound;
    hide FourExtremes;
    hide Found;
    var limit := Limit(maxPoints);
    if |points| <= limit { return points; }
    var lastIndex := |points| - 1;
    var interior := lastIndex - 1;
    var bucketCount := BucketCount(limit);
    var kept := {0, lastIndex};
    for bucket := 0 to bucketCount
      invariant kept == Kept(points, bucketCount, bucket)
    {
      BoundsInOrder(bucket, interior, bucketCount);
      var start := Bound(bucket, interior, bucketCount);
      var end := Bound(bucket + 1, interior, bucketCount);
      var found := ScanBucket(points, start, end);
      kept := KeepFound(kept, found);
    }
    var indices := Ascending(kept, |points|);
    sample := seq(|indices|, i requires 0 <= i < |indices| => assert indices[i] in indices; points[indices[i]]);
  }

  // ---- What the sample keeps ------------------------------------------------------------------

  lemma {:induction false} ExtremeIs(points: seq<Point>, lo: nat, hi: nat, line: Line, side: Side, j: nat)
    requires lo <= j < hi <= |points| && ValueAt(points[j], line).Some?
    ensures var e := Extreme(points, lo, hi, line, side);
      e >= 0
      && !Beats(ValueAt(points[j], line).value, ValueAt(points[e], line).value, side)
      && (j < e ==> Beats(ValueAt(points[e], line).value, ValueAt(points[j], line).value, side))
  {
    if j < hi - 1 {
      ExtremeIs(points, lo, hi - 1, line, side, j);
    } else {
      assert Extreme(points, lo, hi - 1, line, side) < hi - 1;
    }
  }

  lemma {:induction false} KeptExtremes(points: seq<Point>, count: nat, buckets: nat, b: nat, line: Line, side: Side)
    requires 0 < count <= |points| - 2 && b < buckets <= count
    ensures var interior := |points| - 2;
      var e := Extreme(points, Bound(b, interior, count), Bound(b + 1, interior, count), line, side);
      e >= 0 ==> e in Kept(points, count, buckets)
  {
    hide Bound, Extreme;
    if b < buckets - 1 { KeptExtremes(points, count, buckets - 1, b, line, side); }
  }

  /** Every bucket's lowest and highest point of either line is kept: no value of the bucket lies beyond it. */
  lemma BucketExtremeKept(points: seq<Point>, limit: nat, b: nat, line: Line, side: Side, j: int)
    requires limit >= 6 && |points| > limit && b < BucketCount(limit)
    requires InBucket(j, b, |points| - 2, BucketCount(limit))
    ensures 0 <= j < |points|
    ensures ValueAt(points[j], line).Some? ==>
      exists e :: (e in Indices(points, limit) && InBucket(e, b, |points| - 2, BucketCount(limit))
                   && ValueAt(points[e], line).Some?
                   && !Beats(ValueAt(points[j], line).value, ValueAt(points[e], line).value, side))
  {
    hide Start;
    var count, interior := BucketCount(limit), |points| - 2;
    BoundsAreStarts(b, interior, count);
    if ValueAt(points[j], line).Some? {
      var lo, hi := Bound(b, interior, count), Bound(b + 1, interior, count);
      ExtremeIs(points, lo, hi, line, side, j);
      KeptExtremes(points, count, count, b, line, side);
      assert Extreme(points, lo, hi, line, side) in Indices(points, limit);
    }
  }

  lemma BoundsAreStarts(b: nat, interior: nat, count: nat)
    requires 0 < count <= interior && b < count
    ensures Bound(b, interior, count) == Start(b, interior, count)
    ensures Bound(b + 1, interior, count) == Start(b + 1, interior, count)
  {
  }

  /** The whole series' lowest and highest value of either line survive. */
  lemma SeriesExtremeKept(points: seq<Point>, limit: nat, line: Line, side: Side, j: nat)
    requires limit >= 6 && |points| > limit && j < |points| && ValueAt(points[j], line).Some?
    ensures exists e :: (e in Indices(points, limit) && ValueAt(points[e], line).Some?
                         && !Beats(ValueAt(points[j], line).value, ValueAt(points[e], line).value, side))
  {
    hide Start;
    var count, interior := BucketCount(limit), |points| - 2;
    BucketsPartition(j, interior, count, count);
    if 1 <= j < |points| - 1 {
      var b :| 0 <= b < count && InBucket(j, b, interior, count);
      BucketExtremeKept(points, limit, b, line, side, j);
    } else {
      EndpointsKept(points, count, count);
      assert j in Indices(points, limit);
    }
  }

  lemma {:induction false} EndpointsKept(points: seq<Point>, count: nat, buckets: nat)
    requires 0 < count <= |points| - 2 && buckets <= count
    ensures 0 in Kept(points, count, buckets) && |points| - 1 in Kept(points, count, buckets)
  {
    if buckets > 0 { EndpointsKept(points, count, buckets - 1); }
  }

  lemma {:induction false} KeptFew(points: seq<Point>, count: nat, buckets: nat)
    requires 0 < count <= |points| - 2 && buckets <= count
    ensures |Kept(points, count, buckets)| <= 2 + 4 * buckets
    ensures forall e :: e in Kept(points, count, buckets) ==> 0 <= e < |points|
  {
    hide Bound;
    hide Found;
    if buckets > 0 {
      KeptFew(points, count, buckets - 1);
      var interior := |points| - 2;
      var lo, hi := Bound(buckets - 1, interior, count), Bound(buckets, interior, count);
      FoundFew(FourExtremes(points, lo, hi));
      ExtremesInside(points, lo, hi);
      UnionSize(Kept(points, count, buckets - 1), Extremes(points, lo, hi));
    }
  }

  lemma ExtremesInside(points: seq<Point>, lo: nat, hi: nat)
    requires hi <= |points|
    ensures forall e :: e in Extremes(points, lo, hi) ==> 0 <= e < |points|
  {
    hide Extreme;
  }

  lemma {:induction false} FoundFew(found: seq<int>)
    ensures |Found(found)| <= |found|
  {
    if found != [] {
      var last := found[|found| - 1];
      FoundFew(found[..|found| - 1]);
      UnionSize(Found(found[..|found| - 1]), {last});
      assert Found(found) <= Found(found[..|found| - 1]) + {last};
      SubsetSize(Found(found), Found(found[..|found| - 1]) + {last});
    }
  }

  lemma {:induction false} AscendingSize(s: set<int>, n: nat)
    requires forall e :: e in s ==> 0 <= e < n
    ensures |Ascending(s, n)| == |s|
  {
    if n == 0 {
      NothingBelowZero(s);
    } else if n - 1 in s {
      AscendingSize(s - {n - 1}, n - 1);
      SameBelow(s, s - {n - 1}, n - 1);
    } else {
      AscendingSize(s, n - 1);
    }
  }

  lemma NothingBelowZero(s: set<int>)
    requires forall e :: e in s ==> 0 <= e < 0
    ensures s == {}
  {
    assert forall e :: e !in s;
  }

  lemma {:induction false} SameBelow(s: set<int>, t: set<int>, n: nat)
    requires forall e :: 0 <= e < n ==> (e in s <==> e in t)
    ensures Ascending(s, n) == Ascending(t, n)
  {
    if n > 0 { SameBelow(s, t, n - 1); }
  }

  /** Some index of every bucket is kept. */
  lemma BucketKept(points: seq<Point>, limit: nat, b: nat)
    requires limit >= 6 && |points| > limit && b < BucketCount(limit)
    ensures exists e :: e in Indices(points, limit) && InBucket(e, b, |points| - 2, BucketCount(limit))
  {
    hide Start;
    var count, interior := BucketCount(limit), |points| - 2;
    BoundsInOrder(b, interior, count);
    BoundsAreStarts(b, interior, count);
    BucketExtremeKept(points, limit, b, Strategy, Lowest, Bound(b, interior, count));
  }

  /** The sample is a strictly ascending choice of at most `limit` indices with both endpoints. */
  lemma SampleShape(points: seq<Point>, limit: nat)
    requires limit >= 6 && |points| > limit
    ensures var r := Indices(points, limit);
      && 2 <= |r| <= limit
      && r[0] == 0 && r[|r| - 1] == |points| - 1
      && forall i, j :: 0 <= i < j < |r| ==> r[i] < r[j]
  {
    var count := BucketCount(limit);
    KeptFew(points, count, count);
    AscendingSize(Kept(points, count, count), |points|);
    EndpointsKept(points, count, count);
    var r := Indices(points, limit);
    assert 0 in r && |points| - 1 in r;
    var i :| 0 <= i < |r| && r[i] == 0;
    var j :| 0 <= j < |r| && r[j] == |points| - 1;
    assert r[0] in r && r[|r| - 1] in r;
  }

  /** Neighbouring kept indices are less than two bucket widths apart. */
  lemma GapBounded(points: seq<Point>, limit: nat, i: nat)
    requires limit >= 6 && |points| > limit && i + 1 < |Indices(points, limit)|
    ensures var r := Indices(points, limit); r[i + 1] - r[i] < 2 * Widest(|points| - 2, BucketCount(limit))
  {
    hide Start;
    hide Indices;
    hide Widest;
    var r := Indices(points, limit);
    var count, interior := BucketCount(limit), |points| - 2;
    SampleShape(points, limit);
    assert r[i] in r && r[i + 1] in r;
    BucketsPartition(r[i], interior, count, count);
    // The bucket after the one that holds r[i], or the first: an index kept there is r[i + 1] or later.
    var next := 0;
    if r[i] > 0 {
      var b :| 0 <= b < count && InBucket(r[i], b, interior, count);
      next := b + 1;
      BucketWidth(b, interior, count);
    }
    if next < count {
      BucketWidth(next, interior, count);
      BucketKept(points, limit, next);
      var e :| e in r && InBucket(e, next, interior, count);
      var k :| 0 <= k < |r| && r[k] == e;
      assert k >= i + 1;
    }
  }

  // ---- The series returned --------------------------------------------------------------------

  /** One of the sampled points has the extreme value of a line. */
  lemma SampleReaches(points: seq<Point>, maxPoints: real, line: Line, side: Side, j: nat) returns (q: Point)
    requires |points| > Limit(maxPoints) && j < |points| && ValueAt(points[j], line).Some?
    ensures q in Sampled(points, maxPoints) && ValueAt(q, line).Some?
    ensures forall p :: p in points && ValueAt(p, line).Some? ==> !Beats(ValueAt(p, line).value, ValueAt(q, line).value, side)
  {
    var limit := Limit(maxPoints);
    ExtremeIs(points, 0, |points|, line, side, j);
    var g := Extreme(points, 0, |points|, line, side);
    SeriesExtremeKept(points, limit, line, side, g);
    hide Indices, Extreme;
    var e :| e in Indices(points, limit) && ValueAt(points[e], line).Some?
             && !Beats(ValueAt(points[g], line).value, ValueAt(points[e], line).value, side);
    var k :| 0 <= k < |Indices(points, limit)| && Indices(points, limit)[k] == e;
    q := points[e];
    assert Sampled(points, maxPoints)[k] == q;
    forall p | p in points && ValueAt(p, line).Some? ensures !Beats(ValueAt(p, line).value, ValueAt(q, line).value, side) {
      var i :| 0 <= i < |points| && points[i] == p;
      ExtremeIs(points, 0, |points|, line, side, i);
    }
  }

  lemma SampleReachesStrategy(points: seq<Point>, maxPoints: real)
    requires |points| > Limit(maxPoints)
    ensures ReachesStrategy(points, Sampled(points, maxPoints))
  {
    hide Sampled, Limit;
    var low := SampleReaches(points, maxPoints, Strategy, Lowest, 0);
    var high := SampleReaches(points, maxPoints, Strategy, Highest, 0);
    assert forall p :: p in points ==> ValueAt(p, Strategy).Some?;
  }

  lemma SampleReachesBenchmark(points: seq<Point>, maxPoints: real)
    requires |points| > Limit(maxPoints)
    ensures ReachesBenchmark(points, Sampled(points, maxPoints))
  {
    hide Sampled, Limit;
    if p :| p in points && p.benchmarkValue.Some? {
      var j :| 0 <= j < |points| && points[j] == p;
      var low := SampleReaches(points, maxPoints, Benchmark, Lowest, j);
      var high := SampleReaches(points, maxPoints, Benchmark, Highest, j);
      assert forall p :: p in points ==> ValueAt(p, Benchmark) == p.benchmarkValue;
    }
  }

  lemma GapsAreBelow(points: seq<Point>, limit: nat)
    requires limit >= 6 && |points| > limit
    ensures GapsBelow(points, Indices(points, limit), (limit - 2) / 4)
  {
    var r, count, interior := Indices(points, limit), BucketCount(limit), |points| - 2;
    forall k | 0 <= k < |r| - 1 ensures r[k + 1] - r[k] < 2 * ((interior + count - 1) / count) {
      GapBounded(points, limit, k);
      WidestIs(interior, count);
      hide Widest, Indices;
    }
  }

  lemma WidestIs(interior: nat, count: nat)
    requires count > 0
    ensures Widest(interior, count) == (interior + count - 1) / count
  {
    var q, r := interior / count, interior % count;
    if r == 0 {
      QuotientIs(interior + count - 1, count, q, count - 1);
    } else {
      QuotientIs(interior + count - 1, count, q + 1, r - 1);
    }
  }

  lemma BucketsAreReached(points: seq<Point>, limit: nat)
    requires limit >= 6 && |points| > limit
    ensures ReachesBuckets(points, Indices(points, limit), (limit - 2) / 4)
  {
    hide BucketReached;
    var r, buckets := Indices(points, limit), (limit - 2) / 4;
    forall b, j, line, side | 0 <= b < buckets ensures BucketReached(points, r, buckets, b, j, line, side)
    {
      BucketIsReached(points, limit, b, j, line, side);
    }
  }

  lemma BucketIsReached(points: seq<Point>, limit: nat, b: nat, j: int, line: Line, side: Side)
    requires limit >= 6 && |points| > limit && b < BucketCount(limit)
    ensures BucketReached(points, Indices(points, limit), (limit - 2) / 4, b, j, line, side)
  {
    hide Indices, InBucket, Beats, ValueAt;
    if InBucket(j, b, |points| - 2, BucketCount(limit)) { BucketExtremeKept(points, limit, b, line, side, j); }
  }

  lemma SampledIs(points: seq<Point>, maxPoints: real)
    requires |points| > Limit(maxPoints)
    ensures var sample, r := Sampled(points, maxPoints), Indices(points, Limit(maxPoints));
      |sample| == |r| && forall k :: 0 <= k < |r| ==> 0 <= r[k] < |points| && sample[k] == points[r[k]]
  {
    hide Indices;
    var r := Indices(points, Limit(maxPoints));
    assert forall k :: 0 <= k < |r| ==> r[k] in r;
  }

  lemma LimitIs(maxPoints: real)
    ensures Limit(maxPoints) == if maxPoints.Floor < 6 then 6 else maxPoints.Floor
  {
  }

  lemma IndicesAreChoice(points: seq<Point>, maxPoints: real)
    requires |points| > Limit(maxPoints)
    ensures var sample, limit := Sampled(points, maxPoints), Limit(maxPoints);
      |sample| <= limit && IsChoice(points, sample, Indices(points, limit), (limit - 2) / 4)
  {
    var limit := Limit(maxPoints);
    SampleShape(points, limit);
    SampledIs(points, maxPoints);
    GapsAreBelow(points, limit);
    BucketsAreReached(points, limit);
    hide Sampled, GapsBelow, ReachesBuckets, Indices, Limit;
  }

  lemma SampleIsThinned(points: seq<Point>, maxPoints: real)
    requires |points| > Limit(maxPoints)
    ensures IsThinned(points, Sampled(points, maxPoints), Limit(maxPoints), (Limit(maxPoints) - 2) / 4)
  {
    hide ReachesStrategy, ReachesBenchmark, IsChoice, Indices, Sampled, Limit;
    IndicesAreChoice(points, maxPoints);
    SampleReachesStrategy(points, maxPoints);
    SampleReachesBenchmark(points, maxPoints);
  }

  /** Every sample represents its series. */
  lemma SampleRepresents(points: seq<Point>, maxPoints: real)
    ensures Represents(points, maxPoints, Sampled(points, maxPoints))
  {
    hide IsThinned, Indices, Limit;
    LimitIs(maxPoints);
    if |points| > Limit(maxPoints) { SampleIsThinned(points, maxPoints); }
  }
}
