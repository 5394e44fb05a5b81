/** The two-sample KS statistic and the threshold classifier it is equivalent to. */
module KolmogorovSmirnov {
  import opened Base
  import opened Counting

  function Cdf(xs: seq<real>, t: real): (p: real)
    requires xs != []
    ensures 0.0 <= p <= 1.0
  {
    CountLe(xs, t) as real / |xs| as real
  }

  function Gap(a: seq<real>, b: seq<real>, t: real): (g: real)
    requires a != [] && b != []
    ensures 0.0 <= g <= 1.0
  {
    AbsReal(Cdf(a, t) - Cdf(b, t))
  }

  /** `d` is the greatest gap between the two empirical distributions, over all thresholds. */
  ghost predicate IsKs(a: seq<real>, b: seq<real>, d: real)
    requires a != [] && b != []
  {
    (forall t :: Gap(a, b, t) <= d) && (exists t :: Gap(a, b, t) == d)
  }

  lemma KsIsUnique(a: seq<real>, b: seq<real>, d: real, e: real)
    requires a != [] && b != [] && IsKs(a, b, d) && IsKs(a, b, e)
    ensures d == e
  {
    var t :| Gap(a, b, t) == d;
    var u :| Gap(a, b, u) == e;
  }

  /** The statistic sees a sample only through its counts, so not its order. */
  lemma SameCountsSameKs(a: seq<real>, b: seq<real>, p: seq<real>, q: seq<real>, d: real)
    requires a != [] && b != [] && SameCounts(a, p) && SameCounts(b, q) && IsKs(p, q, d)
    ensures IsKs(a, b, d)
  {
    assert forall t :: Gap(a, b, t) == Gap(p, q, t);
    var t :| Gap(p, q, t) == d;
    assert Gap(a, b, t) == d;
  }

  /** `t` lies below every sample not yet passed. */
  predicate Below(s: seq<real>, k: nat, t: real) {
    forall i :: k <= i < |s| ==> t < s[i]
  }

  predicate PassedBy(s: seq<real>, k: nat, t: real) {
    forall i :: 0 <= i < k && i < |s| ==> s[i] <= t
  }

  /** The gap as the walk computes it, from its two positions. */
  function WalkDiff(a: seq<real>, b: seq<real>, ia: nat, ib: nat): real
    requires a != [] && b != []
  {
    AbsReal(ia as real / |a| as real - ib as real / |b| as real)
  }

  /** Every threshold the walk has gone past is accounted for in `d`. */
  ghost predicate Covered(a: seq<real>, b: seq<real>, ia: nat, ib: nat, d: real)
    requires a != [] && b != []
  {
    forall t :: Below(a, ia, t) && Below(b, ib, t) ==> Gap(a, b, t) <= d
  }

  /** Between two stops of the walk the gap is the one the walk computes. */
  lemma WalkGap(a: seq<real>, b: seq<real>, ia: nat, ib: nat, t: real)
    requires Sorted(a) && Sorted(b) && a != [] && b != [] && ia <= |a| && ib <= |b|
    requires PassedBy(a, ia, t) && PassedBy(b, ib, t) && Below(a, ia, t) && Below(b, ib, t)
    ensures Gap(a, b, t) == WalkDiff(a, b, ia, ib)
  {
    CountLeSorted(a, ia, t);
    CountLeSorted(b, ib, t);
  }

  lemma WalkStep(a: seq<real>, b: seq<real>, ja: nat, jb: nat, ia: nat, ib: nat, next: real, d: real, e: real)
    requires Sorted(a) && Sorted(b) && a != [] && b != [] && ja <= ia <= |a| && jb <= ib <= |b|
    requires (ja < |a| ==> next <= a[ja]) && (jb < |b| ==> next <= b[jb])
    requires PassedBy(a, ia, next) && PassedBy(b, ib, next) && Below(a, ia, next) && Below(b, ib, next)
    requires Covered(a, b, ja, jb, d) && e == MaxReal(d, WalkDiff(a, b, ia, ib))
    ensures Covered(a, b, ia, ib, e) && Gap(a, b, next) == WalkDiff(a, b, ia, ib)
  {
    forall t | Below(a, ia, t) && Below(b, ib, t)
      ensures Gap(a, b, t) <= e
    {
      if t < next {
        assert Below(a, ja, t) && Below(b, jb, t);
      } else {
        WalkGap(a, b, ia, ib, t);
      }
    }
    WalkGap(a, b, ia, ib, next);
  }

  /** The smaller of the next samples of both, `+infinity` standing for an exhausted sample. */
  function NextThreshold(a: seq<real>, b: seq<real>, ia: nat, ib: nat): (x: real)
    requires ia <= |a| && ib <= |b| && (ia < |a| || ib < |b|)
    ensures (ia < |a| ==> x <= a[ia]) && (ib < |b| ==> x <= b[ib])
    ensures (ia < |a| && x == a[ia]) || (ib < |b| && x == b[ib])
  {
    if ib == |b| then a[ia]
    else if ia == |a| then b[ib]
    else MinReal(a[ia], b[ib])
  }

  /** Step past every sample not above `x`. */
  method PassUpTo(s: seq<real>, k: nat, x: real) returns (i: nat)
    requires Sorted(s) && k <= |s| && PassedBy(s, k, x)
    ensures k <= i <= |s| && PassedBy(s, i, x) && Below(s, i, x)
    ensures k < |s| && s[k] <= x ==> k < i
  {
    i := k;
    while i < |s| && s[i] <= x
      invariant k <= i <= |s| && PassedBy(s, i, x)
    {
      i := i + 1;
    }
  }

  /** The merge walk over two sorted samples, ties within and across them included. */
  method MergeWalk(a: seq<real>, b: seq<real>) returns (maxDiff: real)
    requires a != [] && b != [] && Sorted(a) && Sorted(b)
    ensures IsKs(a, b, maxDiff)
  {
    var ia, ib := 0, 0;
    maxDiff := 0.0;
    ghost var x := MinReal(a[0], b[0]) - 1.0;
    ghost var peak := x;
    forall t | Below(a, 0, t) && Below(b, 0, t)
      ensures Gap(a, b, t) == 0.0
    {
      WalkGap(a, b, 0, 0, t);
    }
    while ia < |a| || ib < |b|
      invariant 0 <= ia <= |a| && 0 <= ib <= |b|
      invariant PassedBy(a, ia, x) && PassedBy(b, ib, x) && Below(a, ia, x) && Below(b, ib, x)
      invariant Covered(a, b, ia, ib, maxDiff)
      invariant Gap(a, b, peak) == maxDiff
      decreases |a| - ia + |b| - ib
    {
      ghost var ja, jb, before := ia, ib, maxDiff;
      var next := NextThreshold(a, b, ia, ib);
      ia := PassUpTo(a, ia, next);
      ib := PassUpTo(b, ib, next);
      var diff := WalkDiff(a, b, ia, ib);
      maxDiff := MaxReal(maxDiff, diff);
      WalkStep(a, b, ja, jb, ia, ib, next, before, maxDiff);
      if diff > before {
        peak := next;
      }
      x := next;
    }
    assert forall t :: Below(a, ia, t) && Below(b, ib, t);
  }

  /** The KS statistic is its definition: the maximum over all thresholds of the CDF gap. */
  method KsStatistic(a: seq<real>, b: seq<real>) returns (d: real)
    ensures a == [] || b == [] ==> d == 0.0
    ensures a != [] && b != [] ==> IsKs(a, b, d)
  {
    if a == [] || b == [] {
      return 0.0;
    }
    var p := SortedCopy(a);
    var q := SortedCopy(b);
    d := MergeWalk(p, q);
    SameCountsSameKs(a, b, p, q, d);
  }

  function Sizes(ns: seq<nat>): (r: seq<real>)
    ensures |r| == |ns|
  {
    seq(|ns|, i requires 0 <= i < |ns| => ns[i] as real)
  }

  /** The self-test's copy of the walk, on frame sizes. */
  method SelfTestKsStatistic(a: seq<nat>, b: seq<nat>) returns (d: real)
    ensures a == [] || b == [] ==> d == 0.0
    ensures a != [] && b != [] ==> IsKs(Sizes(a), Sizes(b), d)
  {
    if a == [] || b == [] {
      return 0.0;
    }
    var p := SortedCopy(Sizes(a));
    var q := SortedCopy(Sizes(b));
    d := MergeWalk(p, q);
    SameCountsSameKs(Sizes(a), Sizes(b), p, q, d);
  }

  // --- The best threshold classifier -------------------------------------------

  /** `dedup` on a sorted list. */
  function Dedup(s: seq<real>): (r: seq<real>)
    ensures forall x :: x in r <==> x in s
  {
    if |s| < 2 then s
    else if s[0] == s[1] then Dedup(s[1..])
    else [s[0]] + Dedup(s[1..])
  }

  lemma SameCountsSameElements(xs: seq<real>, ys: seq<real>, x: real)
    requires SameCounts(xs, ys)
    ensures x in ys <==> x in xs
  {
    CountEqMember(xs, x);
    CountEqMember(ys, x);
  }

  lemma {:induction false} CountEqMember(xs: seq<real>, x: real)
    ensures x in xs <==> CountEq(xs, x) > 0
  {
    if xs != [] {
      CountEqMember(xs[1..], x);
    }
  }

  /** Balanced accuracy of "real if size <= t, dummy otherwise". */
  function Accuracy(real_: seq<real>, dummy: seq<real>, t: real): real
    requires real_ != [] && dummy != []
  {
    0.5 * (Cdf(real_, t) + (|dummy| - CountLe(dummy, t)) as real / |dummy| as real)
  }

  lemma Complement(n: real, c: real)
    requires n > 0.0
    ensures (n - c) / n == 1.0 - c / n
  {
    assert (n - c) / n == n / n - c / n;
  }

  lemma AccuracyIsHalfGap(real_: seq<real>, dummy: seq<real>, t: real)
    requires real_ != [] && dummy != []
    ensures MaxReal(Accuracy(real_, dummy, t), 1.0 - Accuracy(real_, dummy, t)) == 0.5 + Gap(real_, dummy, t) / 2.0
  {
    var n := |dummy| as real;
    var c := CountLe(dummy, t) as real;
    Complement(n, c);
    assert (|dummy| - CountLe(dummy, t)) as real == n - c;
  }

  /** The gap at any threshold is the gap at some sample, or zero below all of them. */
  lemma GapAtSamples(a: seq<real>, b: seq<real>, t: real) returns (c: Option<real>)
    requires a != [] && b != []
    ensures c == None ==> Gap(a, b, t) == 0.0
    ensures c.Some? ==> (c.value in a || c.value in b) && Gap(a, b, c.value) == Gap(a, b, t)
  {
    c := LastAtMost(a + b, t);
    assert forall i :: 0 <= i < |a| ==> a[i] == (a + b)[i];
    assert forall i :: 0 <= i < |b| ==> b[i] == (a + b)[|a| + i];
    if c == None {
      CountLeExtremes(a, t);
      CountLeExtremes(b, t);
    } else {
      CountLeFlat(a, c.value, t);
      CountLeFlat(b, c.value, t);
    }
  }

  lemma {:induction false} LastAtMost(xs: seq<real>, t: real) returns (c: Option<real>)
    ensures c == None ==> forall i :: 0 <= i < |xs| ==> t < xs[i]
    ensures c.Some? ==> c.value in xs && c.value <= t && forall i :: 0 <= i < |xs| ==> !(c.value < xs[i] <= t)
  {
    if xs == [] {
      c := None;
    } else {
      c := LastAtMost(xs[1..], t);
      if xs[0] <= t && (c == None || c.value < xs[0]) {
        c := Some(xs[0]);
      }
    }
  }

  /** Sweep every distinct sample as a threshold, both orientations: the best balanced accuracy
      is 1/2 + KS/2, so the two size scores are the same statistic. */
  method BestThresholdAccuracy(real_: seq<real>, dummy: seq<real>) returns (best: real)
    requires real_ != [] && dummy != []
    ensures IsKs(real_, dummy, 2.0 * best - 1.0)
  {
    var all := SortedCopy(real_ + dummy);
    var candidates := Dedup(all);
    forall x
      ensures x in candidates <==> x in real_ || x in dummy
    {
      SameCountsSameElements(real_ + dummy, all, x);
    }
    best := 0.5;
    ghost var at := LowestGap(real_, dummy);
    var i := 0;
    while i < |candidates|
      invariant 0 <= i <= |candidates|
      invariant best >= 0.5
      invariant forall j :: 0 <= j < i ==> 0.5 + Gap(real_, dummy, candidates[j]) / 2.0 <= best
      invariant best == 0.5 + Gap(real_, dummy, at) / 2.0
    {
      var t := candidates[i];
      var accA := Accuracy(real_, dummy, t);
      AccuracyIsHalfGap(real_, dummy, t);
      ghost var before := best;
      best := MaxReal(MaxReal(best, accA), 1.0 - accA);
      if best > before {
        at := t;
      }
      i := i + 1;
    }
    forall t
      ensures Gap(real_, dummy, t) <= 2.0 * best - 1.0
    {
      var c := GapAtSamples(real_, dummy, t);
      if c.Some? {
        assert c.value in candidates;
      }
    }
    assert Gap(real_, dummy, at) == 2.0 * best - 1.0;
  }

  lemma LowestGap(a: seq<real>, b: seq<real>) returns (t: real)
    requires a != [] && b != []
    ensures Gap(a, b, t) == 0.0
  {
    var u := LowerBound(a);
    var v := LowerBound(b);
    t := MinReal(u, v);
    assert AllAbove(a, t) && AllAbove(b, t);
    CdfExtremes(a, t);
    CdfExtremes(b, t);
  }

  lemma {:induction false} LowerBound(xs: seq<real>) returns (t: real)
    ensures AllAbove(xs, t)
  {
    if xs == [] {
      t := 0.0;
    } else {
      t := LowerBound(xs[1..]);
      t := MinReal(t, xs[0] - 1.0);
    }
  }

  /** The two scores agree: the accuracy of the best threshold is 1/2 + KS/2. */
  lemma AccuracyIsKs(real_: seq<real>, dummy: seq<real>, ks: real, best: real)
    requires real_ != [] && dummy != [] && IsKs(real_, dummy, ks) && IsKs(real_, dummy, 2.0 * best - 1.0)
    ensures best == 0.5 + ks / 2.0
  {
    KsIsUnique(real_, dummy, ks, 2.0 * best - 1.0);
  }

  // --- What the two extreme values mean ---------------------------------------------

  /** 0 means identical distributions. */
  lemma KsZeroIff(a: seq<real>, b: seq<real>, d: real)
    requires a != [] && b != [] && IsKs(a, b, d)
    ensures d == 0.0 <==> forall t :: Cdf(a, t) == Cdf(b, t)
  {
    if d == 0.0 {
      forall t
        ensures Cdf(a, t) == Cdf(b, t)
      {
        assert Gap(a, b, t) <= d;
      }
    } else {
      var t :| Gap(a, b, t) == d;
      assert Cdf(a, t) != Cdf(b, t);
    }
  }

  predicate AllAtMost(s: seq<real>, t: real) { forall i :: 0 <= i < |s| ==> s[i] <= t }

  predicate AllAbove(s: seq<real>, t: real) { forall i :: 0 <= i < |s| ==> t < s[i] }

  lemma CdfExtremes(s: seq<real>, t: real)
    requires s != []
    ensures Cdf(s, t) == 1.0 <==> AllAtMost(s, t)
    ensures Cdf(s, t) == 0.0 <==> AllAbove(s, t)
  {
    CountLeExtremes(s, t);
  }

  /** 1 means more than disjoint: one threshold separates the samples. */
  lemma KsOneIff(a: seq<real>, b: seq<real>, d: real)
    requires a != [] && b != [] && IsKs(a, b, d)
    ensures d == 1.0 <==>
      exists t :: (AllAtMost(a, t) && AllAbove(b, t)) || (AllAbove(a, t) && AllAtMost(b, t))
  {
    if d == 1.0 {
      var t :| Gap(a, b, t) == d;
      CdfExtremes(a, t);
      CdfExtremes(b, t);
    }
    if t :| (AllAtMost(a, t) && AllAbove(b, t)) || (AllAbove(a, t) && AllAtMost(b, t)) {
      CdfExtremes(a, t);
      CdfExtremes(b, t);
      assert Gap(a, b, t) == 1.0;
      assert Gap(a, b, t) <= d;
      var u :| Gap(a, b, u) == d;
    }
  }

  /** Interleaved samples are disjoint and yet score 1/2 only. */
  lemma DisjointSamplesCanScoreHalf()
    ensures IsKs([1.0, 3.0], [2.0], 0.5)
  {
    var a, b := [1.0, 3.0], [2.0];
    forall t
      ensures Gap(a, b, t) <= 0.5
    {
      assert CountLe(a, t) == (if 1.0 <= t then 1 else 0) + CountLe([3.0], t);
      assert CountLe([3.0], t) == (if 3.0 <= t then 1 else 0) + CountLe([3.0][1..], t);
      assert a[1..] == [3.0];
      assert CountLe(b, t) == (if 2.0 <= t then 1 else 0) + CountLe(b[1..], t);
    }
    assert CountLe(a, 1.0) == 1 + CountLe([3.0], 1.0);
    assert Gap(a, b, 1.0) == 0.5;
  }

  /** Frames that all have one size leave the size attack nothing: the statistic is 0. */
  lemma UniformSizesScoreZero(a: seq<nat>, b: seq<nat>, size: nat)
    requires a != [] && b != []
    requires forall i :: 0 <= i < |a| ==> a[i] == size
    requires forall i :: 0 <= i < |b| ==> b[i] == size
    ensures IsKs(Sizes(a), Sizes(b), 0.0)
  {
    forall t
      ensures Gap(Sizes(a), Sizes(b), t) == 0.0
    {
      CdfExtremes(Sizes(a), t);
      CdfExtremes(Sizes(b), t);
      if size as real <= t {
        assert AllAtMost(Sizes(a), t) && AllAtMost(Sizes(b), t);
      } else {
        assert AllAbove(Sizes(a), t) && AllAbove(Sizes(b), t);
      }
    }
    assert Gap(Sizes(a), Sizes(b), 0.0) == 0.0;
  }
}
