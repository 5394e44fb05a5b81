/** Counting and sorting of real samples: the vocabulary of the attack statistics. */
module Counting {
  function CountLe(xs: seq<real>, t: real): (c: nat)
    ensures c <= |xs|
  {
    if xs == [] then 0 else (if xs[0] <= t then 1 else 0) + CountLe(xs[1..], t)
  }

  function CountLt(xs: seq<real>, t: real): (c: nat)
    ensures c <= |xs|
  {
    if xs == [] then 0 else (if xs[0] < t then 1 else 0) + CountLt(xs[1..], t)
  }

  function CountEq(xs: seq<real>, t: real): (c: nat)
    ensures c + CountLt(xs, t) == CountLe(xs, t)
  {
    if xs == [] then 0 else (if xs[0] == t then 1 else 0) + CountEq(xs[1..], t)
  }

  lemma {:induction false} CountAppend(a: seq<real>, b: seq<real>, t: real)
    ensures CountLe(a + b, t) == CountLe(a, t) + CountLe(b, t)
    ensures CountLt(a + b, t) == CountLt(a, t) + CountLt(b, t)
  {
    if a == [] {
      assert a + b == b;
    } else {
      assert (a + b)[1..] == a[1..] + b;
      CountAppend(a[1..], b, t);
    }
  }

  /** Where the samples at most `t`, and those below it, sit. */
  function PositionsLe(xs: seq<real>, t: real): set<nat> { set i: nat | i < |xs| && xs[i] <= t }

  function PositionsLt(xs: seq<real>, t: real): set<nat> { set i: nat | i < |xs| && xs[i] < t }

  /** The counts are numbers of positions. */
  lemma {:induction false} CountsArePositions(xs: seq<real>, t: real)
    ensures CountLe(xs, t) == |PositionsLe(xs, t)| && CountLt(xs, t) == |PositionsLt(xs, t)|
  {
    if xs != [] {
      var last := |xs| - 1;
      var init, x := xs[..last], xs[last];
      CountsArePositions(init, t);
      assert xs == init + [x];
      CountAppend(init, [x], t);
      assert CountLe([x], t) == (if x <= t then 1 else 0) && CountLt([x], t) == (if x < t then 1 else 0);
      assert PositionsLe(xs, t) == PositionsLe(init, t) + (if x <= t then {last} else {});
      assert PositionsLt(xs, t) == PositionsLt(init, t) + (if x < t then {last} else {});
    }
  }

  predicate Sorted(s: seq<real>) {
    forall i, j :: 0 <= i < j < |s| ==> s[i] <= s[j]
  }

  /** No index twice, all in range, and the samples they point at ascend. */
  predicate SortedIndices(xs: seq<real>, idx: seq<nat>) {
    && (forall k :: 0 <= k < |idx| ==> idx[k] < |xs|)
    && (forall j, k :: 0 <= j < k < |idx| ==> idx[j] != idx[k] && xs[idx[j]] <= xs[idx[k]])
  }

  /** Indices `0..n` listed so that the samples they point at ascend; the standard library's stable
      sort by value, as a specification-level function. */
  function ArgSort(xs: seq<real>): (idx: seq<nat>)
    ensures |idx| == |xs| && SortedIndices(xs, idx)
    ensures forall i: nat :: i < |xs| ==> i in idx
  {
    if xs == [] then []
    else
      var last := |xs| - 1;
      var init := ArgSort(xs[..last]);
      assert SortedIndices(xs, init);
      InsertOrdered(xs, init, last);
      Insert(xs, init, last)
  }

  /** Insert index `i` after all indices of samples not above its own. */
  function Insert(xs: seq<real>, idx: seq<nat>, i: nat): (r: seq<nat>)
    requires i < |xs| && forall k :: 0 <= k < |idx| ==> idx[k] < i
    ensures |r| == |idx| + 1
    ensures forall x :: x in r <==> x in idx || x == i
    ensures forall k :: 0 <= k < |r| ==> r[k] <= i
  {
    if idx == [] || xs[idx[|idx| - 1]] <= xs[i] then idx + [i]
    else
      var last := |idx| - 1;
      Insert(xs, idx[..last], i) + [idx[last]]
  }

  lemma {:induction false} InsertOrdered(xs: seq<real>, idx: seq<nat>, i: nat)
    requires i < |xs| && SortedIndices(xs, idx) && forall k :: 0 <= k < |idx| ==> idx[k] < i
    ensures SortedIndices(xs, Insert(xs, idx, i))
  {
    if idx != [] && xs[idx[|idx| - 1]] > xs[i] {
      var last := |idx| - 1;
      InsertOrdered(xs, idx[..last], i);
      var r := Insert(xs, idx[..last], i);
      forall k | 0 <= k < |r|
        ensures r[k] != idx[last] && xs[r[k]] <= xs[idx[last]]
      {
        assert r[k] in r;
      }
    }
  }

  /** The samples in the order of `idx`. */
  function Permuted(xs: seq<real>, idx: seq<nat>): (s: seq<real>)
    requires forall k :: 0 <= k < |idx| ==> idx[k] < |xs|
    ensures |s| == |idx|
  {
    seq(|idx|, k requires 0 <= k < |idx| => xs[idx[k]])
  }

  function Sort(xs: seq<real>): (s: seq<real>)
    ensures |s| == |xs| && Sorted(s)
  {
    Permuted(xs, ArgSort(xs))
  }

  lemma {:induction false} InsertKeepsCounts(xs: seq<real>, idx: seq<nat>, i: nat, t: real)
    requires i < |xs| && forall k :: 0 <= k < |idx| ==> idx[k] < i
    ensures CountLe(Permuted(xs, Insert(xs, idx, i)), t) == CountLe(Permuted(xs, idx), t) + CountLe([xs[i]], t)
    ensures CountLt(Permuted(xs, Insert(xs, idx, i)), t) == CountLt(Permuted(xs, idx), t) + CountLt([xs[i]], t)
  {
    var p := Permuted(xs, idx);
    if idx == [] || xs[idx[|idx| - 1]] <= xs[i] {
      assert Permuted(xs, idx + [i]) == p + [xs[i]];
      CountAppend(p, [xs[i]], t);
    } else {
      var last := |idx| - 1;
      var init := idx[..last];
      InsertKeepsCounts(xs, init, i, t);
      assert Permuted(xs, Insert(xs, idx, i)) == Permuted(xs, Insert(xs, init, i)) + [xs[idx[last]]];
      assert p == Permuted(xs, init) + [xs[idx[last]]];
      CountAppend(Permuted(xs, Insert(xs, init, i)), [xs[idx[last]]], t);
      CountAppend(Permuted(xs, init), [xs[idx[last]]], t);
    }
  }

  /** Sorting keeps every count, so the empirical distribution. */
  lemma {:induction false} SortKeepsCounts(xs: seq<real>, t: real)
    ensures CountLe(Sort(xs), t) == CountLe(xs, t) && CountLt(Sort(xs), t) == CountLt(xs, t)
  {
    if xs != [] {
      var last := |xs| - 1;
      var init := xs[..last];
      SortKeepsCounts(init, t);
      assert xs == init + [xs[last]];
      assert Permuted(xs, ArgSort(init)) == Permuted(init, ArgSort(init));
      InsertKeepsCounts(xs, ArgSort(init), last, t);
      CountAppend(init, [xs[last]], t);
    }
  }

  /** The two samples have one empirical distribution. */
  ghost predicate SameCounts(xs: seq<real>, ys: seq<real>) {
    && |xs| == |ys|
    && (forall t :: CountLe(xs, t) == CountLe(ys, t))
    && (forall t :: CountLt(xs, t) == CountLt(ys, t))
  }

  method SortedCopy(xs: seq<real>) returns (s: seq<real>)
    ensures Sorted(s) && SameCounts(xs, s)
  {
    s := Sort(xs);
    forall t
      ensures CountLe(s, t) == CountLe(xs, t) && CountLt(s, t) == CountLt(xs, t)
    {
      SortKeepsCounts(xs, t);
    }
  }

  /** In a sorted sample the count at `t` is the index where the samples pass `t`. */
  lemma {:induction false} CountLeSorted(s: seq<real>, k: nat, t: real)
    requires Sorted(s) && k <= |s|
    requires forall i :: 0 <= i < k ==> s[i] <= t
    requires forall i :: k <= i < |s| ==> t < s[i]
    ensures CountLe(s, t) == k
  {
    if s != [] {
      CountLeSorted(s[1..], if k == 0 then 0 else k - 1, t);
    }
  }

  lemma {:induction false} CountLtSorted(s: seq<real>, k: nat, t: real)
    requires Sorted(s) && k <= |s|
    requires forall i :: 0 <= i < k ==> s[i] < t
    requires forall i :: k <= i < |s| ==> t <= s[i]
    ensures CountLt(s, t) == k
  {
    if s != [] {
      CountLtSorted(s[1..], if k == 0 then 0 else k - 1, t);
    }
  }

  /** Counting splits at zero and at all: nothing is at or below `t`, or everything is. */
  lemma {:induction false} CountLeExtremes(s: seq<real>, t: real)
    ensures CountLe(s, t) == 0 <==> forall i :: 0 <= i < |s| ==> t < s[i]
    ensures CountLe(s, t) == |s| <==> forall i :: 0 <= i < |s| ==> s[i] <= t
  {
    if s != [] {
      CountLeExtremes(s[1..], t);
      assert forall i :: 0 < i < |s| ==> s[i] == s[1..][i - 1];
      assert forall i :: 0 <= i < |s| - 1 ==> s[1..][i] == s[i + 1];
    }
  }

  /** Counts at two thresholds with no sample in between agree. */
  lemma {:induction false} CountLeFlat(s: seq<real>, t: real, u: real)
    requires t <= u && forall i :: 0 <= i < |s| ==> !(t < s[i] <= u)
    ensures CountLe(s, t) == CountLe(s, u)
  {
    if s != [] {
      CountLeFlat(s[1..], t, u);
    }
  }
}
