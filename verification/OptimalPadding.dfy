/** Size-bucket padding: quantile buckets of the observed lengths, and the padding lookup. */
module OptimalPadding {
  import opened Base

  datatype SizeBucket = SizeBucket(lo: nat, hi: nat, target: nat)

  const WHOLE_RANGE: seq<SizeBucket> := [SizeBucket(0, 65535, 65535)]

  predicate SortedSizes(s: seq<nat>) {
    forall i, j :: 0 <= i < j < |s| ==> s[i] <= s[j]
  }

  /** The sorted copy of the observations. */
  function SortSizes(xs: seq<nat>): (s: seq<nat>)
    ensures |s| == |xs| && SortedSizes(s)
    ensures forall x :: x in s <==> x in xs
  {
    if xs == [] then [] else InsertSize(SortSizes(xs[1..]), xs[0])
  }

  function InsertSize(s: seq<nat>, x: nat): (r: seq<nat>)
    requires SortedSizes(s)
    ensures |r| == |s| + 1 && SortedSizes(r)
    ensures forall y :: y in r <==> y in s || y == x
  {
    if s == [] || x <= s[0] then [x] + s
    else
      var r := InsertSize(s[1..], x);
      assert forall k :: 0 <= k < |r| ==> r[k] in r;
      [s[0]] + r
  }

  lemma {:induction false} InsertKeepsSizes(s: seq<nat>, x: nat)
    requires SortedSizes(s)
    ensures multiset(InsertSize(s, x)) == multiset(s) + multiset{x}
  {
    if s != [] && x > s[0] {
      InsertKeepsSizes(s[1..], x);
      assert s == [s[0]] + s[1..];
    }
  }

  /** The sorted copy is a permutation of the observations. */
  lemma {:induction false} SortKeepsSizes(xs: seq<nat>)
    ensures multiset(SortSizes(xs)) == multiset(xs)
  {
    if xs != [] {
      SortKeepsSizes(xs[1..]);
      InsertKeepsSizes(SortSizes(xs[1..]), xs[0]);
      assert xs == [xs[0]] + xs[1..];
    }
  }

  function BucketCount(n: nat, k: nat): nat { Min(k, n) }

  /** Where bucket `i` of `count` ends in the sorted list; the last one takes the remainder. */
  function BucketEnd(n: nat, count: nat, i: nat): nat
    requires 0 < count <= n && i < count
  {
    if i == count - 1 then n else (i + 1) * (n / count)
  }

  lemma BucketBounds(n: nat, count: nat, i: nat)
    requires 0 < count <= n && i < count
    ensures 0 <= i * (n / count) < BucketEnd(n, count, i) <= n
    ensures i + 1 < count ==> (i + 1) * (n / count) == BucketEnd(n, count, i)
  {
  }

  lemma Scaled(a: nat, b: nat, c: nat)
    requires a <= b
    ensures a * c <= b * c
  {
  }

  /** Bucket `i`: every observation between its quantiles, padded to the largest of them. */
  function BucketAt(sorted: seq<nat>, count: nat, i: nat): SizeBucket
    requires 0 < count <= |sorted| && i < count
  {
    BucketBounds(|sorted|, count, i);
    var start, end := i * (|sorted| / count), BucketEnd(|sorted|, count, i);
    SizeBucket(sorted[start], sorted[end - 1], sorted[end - 1])
  }

  function BucketsOf(lengths: seq<nat>, k: nat): (r: seq<SizeBucket>)
    requires k > 0
    ensures |r| == if lengths == [] then 1 else BucketCount(|lengths|, k)
  {
    if lengths == [] then WHOLE_RANGE
    else
      var sorted := SortSizes(lengths);
      var count := BucketCount(|sorted|, k);
      seq(count, i requires 0 <= i < count => BucketAt(sorted, count, i))
  }

  /** The body of the bucket loop. */
  method MakeBucket(sorted: seq<nat>, count: nat, i: nat) returns (bucket: SizeBucket)
    requires 0 < count <= |sorted| && i < count
    ensures bucket == BucketAt(sorted, count, i)
  {
    var n := |sorted|;
    var chunk := n / count;
    BucketBounds(n, count, i);
    var start := i * chunk;
    var end := if i == count - 1 then n else (i + 1) * chunk;
    var lo, hi := sorted[start], sorted[end - 1];
    bucket := SizeBucket(lo, hi, hi);
  }

  method BuildBuckets(lengths: seq<nat>, k: nat) returns (buckets: seq<SizeBucket>)
    requires k > 0
    ensures buckets == BucketsOf(lengths, k)
  {
    if lengths == [] {
      return WHOLE_RANGE;
    }
    var sorted := SortSizes(lengths);
    var count := BucketCount(|sorted|, k);
    buckets := [];
    var i := 0;
    while i < count
      invariant 0 <= i <= count && |buckets| == i
      invariant forall m :: 0 <= m < i ==> buckets[m] == BucketAt(sorted, count, m)
    {
      var bucket := MakeBucket(sorted, count, i);
      buckets := buckets + [bucket];
      i := i + 1;
    }
  }

  /** The first bucket that covers the length, else the largest, else the length itself. */
  function OptimalPadLength(trueLen: nat, buckets: seq<SizeBucket>): nat {
    if buckets == [] then trueLen
    else if buckets[0].hi >= trueLen then buckets[0].target
    else if |buckets| == 1 then buckets[0].target
    else OptimalPadLength(trueLen, buckets[1..])
  }

  /** Buckets in ascending order, each padded to its own maximum. */
  predicate Ascending(buckets: seq<SizeBucket>) {
    && buckets != []
    && (forall i :: 0 <= i < |buckets| ==> buckets[i].lo <= buckets[i].hi == buckets[i].target)
    && (forall i, j :: 0 <= i < j < |buckets| ==> buckets[i].target <= buckets[j].target)
  }

  function LargestTarget(buckets: seq<SizeBucket>): nat
    requires buckets != []
  {
    buckets[|buckets| - 1].target
  }

  /** One bucket is made of observations, its smallest and its largest. */
  lemma BucketIsObserved(s: seq<nat>, count: nat, i: nat)
    requires SortedSizes(s) && 0 < count <= |s| && i < count
    ensures BucketAt(s, count, i).lo <= BucketAt(s, count, i).hi == BucketAt(s, count, i).target
    ensures BucketAt(s, count, i).lo in s && BucketAt(s, count, i).hi in s
    ensures i == 0 ==> BucketAt(s, count, i).lo == s[0]
    ensures i == count - 1 ==> BucketAt(s, count, i).hi == s[|s| - 1]
  {
    BucketBounds(|s|, count, i);
  }

  /** Position `j` of the sorted list belongs to bucket `i`. */
  predicate InSlice(n: nat, count: nat, i: nat, j: nat)
    requires 0 < count <= n && i < count
  {
    j < n && i * (n / count) <= j < BucketEnd(n, count, i)
  }

  /** The bounds of bucket `i` enclose every observation of its slice. */
  lemma BucketHoldsSlice(s: seq<nat>, count: nat, i: nat, j: nat)
    requires SortedSizes(s) && 0 < count <= |s| && i < count && InSlice(|s|, count, i, j)
    ensures BucketAt(s, count, i).lo <= s[j] <= BucketAt(s, count, i).hi
  {
    BucketBounds(|s|, count, i);
  }

  /** The slices follow one another without a gap: every position before the end of slice `i` is in one of the
      first `i + 1`. */
  lemma {:induction false} SliceOf(n: nat, count: nat, i: nat, j: nat) returns (k: nat)
    requires 0 < count <= n && i < count && j < n && j < BucketEnd(n, count, i)
    ensures k <= i && InSlice(n, count, k, j)
  {
    if i == 0 || i * (n / count) <= j {
      k := i;
    } else {
      BucketBounds(n, count, i - 1);
      k := SliceOf(n, count, i - 1, j);
    }
  }

  /** The next bucket starts right after this one in the sorted list. */
  lemma NextBucketFollows(s: seq<nat>, count: nat, i: nat)
    requires SortedSizes(s) && 0 < count <= |s| && i + 1 < count
    ensures BucketAt(s, count, i).hi <= BucketAt(s, count, i + 1).lo
  {
    BucketBounds(|s|, count, i);
    BucketBounds(|s|, count, i + 1);
  }

  /** Each bucket in order and padded to its maximum, each starting no lower than the one before ends. */
  ghost predicate EndToEnd(buckets: seq<SizeBucket>) {
    && buckets != []
    && (forall i :: 0 <= i < |buckets| ==> buckets[i].lo <= buckets[i].hi == buckets[i].target)
    && (forall i, j :: 0 <= i && j == i + 1 && j < |buckets| ==> buckets[i].hi <= buckets[j].lo)
  }

  lemma {:induction false} TargetsAscend(buckets: seq<SizeBucket>, i: nat, j: nat)
    requires EndToEnd(buckets) && i <= j < |buckets|
    ensures buckets[i].target <= buckets[j].target
    decreases j - i
  {
    if i < j {
      TargetsAscend(buckets, i, j - 1);
      assert buckets[j - 1].hi <= buckets[j].lo;
    }
  }

  lemma EndToEndAscends(buckets: seq<SizeBucket>)
    requires EndToEnd(buckets)
    ensures Ascending(buckets)
  {
    forall i: nat, j: nat | i < j < |buckets|
      ensures buckets[i].target <= buckets[j].target
    {
      TargetsAscend(buckets, i, j);
    }
  }

  /** Every bound of a bucket is an observation, and the first and last bounds enclose them all. */
  ghost predicate Encloses(buckets: seq<SizeBucket>, lengths: seq<nat>) {
    && buckets != []
    && (forall i :: 0 <= i < |buckets| ==> buckets[i].lo in lengths && buckets[i].target in lengths)
    && (forall x :: x in lengths ==> buckets[0].lo <= x <= LargestTarget(buckets))
  }

  predicate InSomeBucket(buckets: seq<SizeBucket>, x: nat) {
    exists i :: 0 <= i < |buckets| && buckets[i].lo <= x <= buckets[i].hi
  }

  /** No observation falls between the buckets. */
  predicate Covers(buckets: seq<SizeBucket>, lengths: seq<nat>) {
    forall x :: x in lengths ==> InSomeBucket(buckets, x)
  }

  lemma QuantilesEndToEnd(s: seq<nat>, count: nat, buckets: seq<SizeBucket>)
    requires SortedSizes(s) && 0 < count == |buckets| <= |s|
    requires forall i :: 0 <= i < count ==> buckets[i] == BucketAt(s, count, i)
    ensures EndToEnd(buckets)
  {
    forall i: nat | i < count
      ensures buckets[i].lo <= buckets[i].hi == buckets[i].target
    {
      BucketIsObserved(s, count, i);
    }
    forall i: nat, j: nat | j == i + 1 && j < count
      ensures buckets[i].hi <= buckets[j].lo
    {
      NextBucketFollows(s, count, i);
    }
  }

  lemma QuantilesEnclose(s: seq<nat>, count: nat, buckets: seq<SizeBucket>)
    requires SortedSizes(s) && 0 < count == |buckets| <= |s|
    requires forall i :: 0 <= i < count ==> buckets[i] == BucketAt(s, count, i)
    ensures Encloses(buckets, s)
  {
    forall i: nat | i < count
      ensures buckets[i].lo in s && buckets[i].target in s
    {
      BucketIsObserved(s, count, i);
    }
    BucketIsObserved(s, count, 0);
    BucketIsObserved(s, count, count - 1);
  }

  lemma SliceEncloses(s: seq<nat>, count: nat, buckets: seq<SizeBucket>, x: nat)
    requires SortedSizes(s) && 0 < count == |buckets| <= |s| && x in s
    requires forall i :: 0 <= i < count ==> buckets[i] == BucketAt(s, count, i)
    ensures InSomeBucket(buckets, x)
  {
    var j :| 0 <= j < |s| && s[j] == x;
    var i := SliceOf(|s|, count, count - 1, j);
    BucketHoldsSlice(s, count, i, j);
    assert buckets[i].lo <= x <= buckets[i].hi;
  }

  lemma QuantilesCover(s: seq<nat>, count: nat, buckets: seq<SizeBucket>)
    requires SortedSizes(s) && 0 < count == |buckets| <= |s|
    requires forall i :: 0 <= i < count ==> buckets[i] == BucketAt(s, count, i)
    ensures Covers(buckets, s)
  {
    forall x | x in s
      ensures InSomeBucket(buckets, x)
    {
      SliceEncloses(s, count, buckets, x);
    }
  }

  lemma BucketsEnclose(lengths: seq<nat>, k: nat)
    requires k > 0
    ensures EndToEnd(BucketsOf(lengths, k)) && Ascending(BucketsOf(lengths, k))
    ensures lengths != [] ==> Encloses(BucketsOf(lengths, k), lengths)
  {
    var buckets := BucketsOf(lengths, k);
    if lengths != [] {
      var s := SortSizes(lengths);
      QuantilesEndToEnd(s, BucketCount(|s|, k), buckets);
      QuantilesEnclose(s, BucketCount(|s|, k), buckets);
    }
    EndToEndAscends(buckets);
  }

  /** The buckets cover the observations end to end with non-decreasing targets: the first starts at the
      smallest, the last ends at the largest, each is bounded by observations, every observation lies in one,
      and no two overlap by more than a tie. */
  lemma BucketsCover(lengths: seq<nat>, k: nat)
    requires k > 0
    ensures EndToEnd(BucketsOf(lengths, k)) && Ascending(BucketsOf(lengths, k))
    ensures lengths != [] ==> Encloses(BucketsOf(lengths, k), lengths) && Covers(BucketsOf(lengths, k), lengths)
  {
    BucketsEnclose(lengths, k);
    if lengths != [] {
      var s := SortSizes(lengths);
      QuantilesCover(s, BucketCount(|s|, k), BucketsOf(lengths, k));
    }
  }

  /** The buckets are quantiles: with `count` buckets for `n` observations, bucket `i` takes the n / count observations
      from the `first`-th smallest on, the last bucket all the rest, and it is as wide as what it takes. */
  lemma BucketsAreQuantiles(lengths: seq<nat>, k: nat, i: nat, n: nat, count: nat, first: int, last: int)
    requires k > 0 && lengths != [] && n == |lengths| && count == Min(k, n) && i < count
    requires first == i * (n / count) && last == if i == count - 1 then n - 1 else first + n / count - 1
    ensures |BucketsOf(lengths, k)| == count && 0 <= first <= last < n
    ensures BucketsOf(lengths, k)[i] == SizeBucket(SortSizes(lengths)[first], SortSizes(lengths)[last], SortSizes(lengths)[last])
  {
    BucketOfRange(SortSizes(lengths), count, i, n / count);
  }

  lemma BucketOfRange(s: seq<nat>, count: nat, i: nat, chunk: nat)
    requires 0 < count <= |s| && i < count && chunk == |s| / count
    ensures
      var first := i * chunk;
      var last := if i == count - 1 then |s| - 1 else first + chunk - 1;
      0 <= first <= last < |s| && BucketAt(s, count, i) == SizeBucket(s[first], s[last], s[last])
  {
    BucketBounds(|s|, count, i);
    NextMultiple(i, chunk);
  }

  lemma NextMultiple(i: nat, chunk: nat)
    ensures (i + 1) * chunk == i * chunk + chunk
  {
  }

  /** The lookup picks the least target that is large enough. */
  lemma {:induction false} LookupIsLeast(trueLen: nat, buckets: seq<SizeBucket>)
    requires Ascending(buckets)
    ensures var r := OptimalPadLength(trueLen, buckets);
      && (exists i :: 0 <= i < |buckets| && buckets[i].target == r)
      && (r >= trueLen <==> trueLen <= LargestTarget(buckets))
      && (trueLen <= LargestTarget(buckets) ==>
            forall i :: 0 <= i < |buckets| && buckets[i].target >= trueLen ==> r <= buckets[i].target)
      && (trueLen > LargestTarget(buckets) ==> r == LargestTarget(buckets))
      && r <= LargestTarget(buckets)
    decreases |buckets|
  {
    if buckets[0].hi < trueLen && |buckets| > 1 {
      var rest := buckets[1..];
      LookupIsLeast(trueLen, rest);
      assert forall i :: 0 < i < |buckets| ==> buckets[i] == rest[i - 1];
      var i :| 0 <= i < |rest| && rest[i].target == OptimalPadLength(trueLen, rest);
      assert buckets[i + 1].target == OptimalPadLength(trueLen, buckets);
    } else {
      assert buckets[0].target == OptimalPadLength(trueLen, buckets);
    }
  }

  /** Padding keeps order, is stable under repetition, and never costs more than one single bucket would. */
  lemma PaddingLaws(lengths: seq<nat>, k: nat, a: nat, b: nat)
    requires k > 0 && lengths != [] && a <= b
    ensures var buckets := BucketsOf(lengths, k);
      && OptimalPadLength(a, buckets) <= OptimalPadLength(b, buckets)
      && OptimalPadLength(OptimalPadLength(a, buckets), buckets) == OptimalPadLength(a, buckets)
      && OptimalPadLength(a, buckets) <= OptimalPadLength(a, BucketsOf(lengths, 1))
  {
    var buckets := BucketsOf(lengths, k);
    BucketsEnclose(lengths, k);
    BucketsEnclose(lengths, 1);
    LookupIsLeast(a, buckets);
    LookupIsLeast(b, buckets);
    var r := OptimalPadLength(a, buckets);
    LookupIsLeast(r, buckets);
    var i :| 0 <= i < |buckets| && buckets[i].target == OptimalPadLength(b, buckets);
    var j :| 0 <= j < |buckets| && buckets[j].target == r;
    var m :| 0 <= m < |buckets| && buckets[m].target == OptimalPadLength(r, buckets);
    LookupIsLeast(a, BucketsOf(lengths, 1));
    assert buckets[|buckets| - 1].target in lengths;
  }

  class OptimalPadder {
    const k: nat
    const rebuildInterval: nat
    var lengthPool: seq<nat>
    var buckets: seq<SizeBucket>
    var versionAtLastBuild: nat
    var observations: nat

    /** The table is the one of the observations up to the last rebuild, or the whole range before the first. */
    ghost predicate Valid()
      reads this
    {
      && k > 0 && rebuildInterval > 0
      && observations == |lengthPool|
      && versionAtLastBuild <= observations
      && buckets == (if versionAtLastBuild == 0 then WHOLE_RANGE else BucketsOf(lengthPool[..versionAtLastBuild], k))
    }

    constructor (k: nat, rebuildInterval: nat)
      ensures Valid() && lengthPool == [] && versionAtLastBuild == 0
      ensures this.k == Max(k, 1) && this.rebuildInterval == Max(rebuildInterval, 1)
    {
      this.k := Max(k, 1);
      this.rebuildInterval := Max(rebuildInterval, 1);
      lengthPool := [];
      buckets := WHOLE_RANGE;
      versionAtLastBuild := 0;
      observations := 0;
    }

    method ObserveLength(len: nat)
      requires Valid()
      modifies this
      ensures Valid() && lengthPool == old(lengthPool) + [len]
      ensures versionAtLastBuild == old(versionAtLastBuild) && buckets == old(buckets)
    {
      assert (lengthPool + [len])[..versionAtLastBuild] == lengthPool[..versionAtLastBuild];
      lengthPool := lengthPool + [len];
      observations := observations + 1;
    }

    lemma TableAscends()
      requires Valid()
      ensures Ascending(buckets)
    {
      if versionAtLastBuild > 0 {
        BucketsEnclose(lengthPool[..versionAtLastBuild], k);
      }
    }

    method Rebuild()
      requires Valid()
      modifies this
      ensures Valid() && lengthPool == old(lengthPool) && versionAtLastBuild == |lengthPool|
    {
      buckets := BuildBuckets(lengthPool, k);
      versionAtLastBuild := observations;
      assert lengthPool[..versionAtLastBuild] == lengthPool;
    }

    /** The table is rebuilt over the whole pool exactly when enough has been observed since; the answer never
        shrinks a length the table reaches, and does shrink any other. */
    method PadLength(trueLen: nat) returns (r: nat)
      requires Valid()
      modifies this
      ensures Valid() && lengthPool == old(lengthPool)
      ensures versionAtLastBuild
           == if |lengthPool| - old(versionAtLastBuild) >= rebuildInterval then |lengthPool| else old(versionAtLastBuild)
      ensures r == OptimalPadLength(trueLen, buckets)
      ensures Ascending(buckets) && (r >= trueLen <==> trueLen <= LargestTarget(buckets))
    {
      if observations - versionAtLastBuild >= rebuildInterval {
        Rebuild();
      }
      TableAscends();
      r := OptimalPadLength(trueLen, buckets);
      LookupIsLeast(trueLen, buckets);
    }
  }
}
