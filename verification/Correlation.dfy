/** Pearson and Spearman correlation and the lag search of the volume attack. */
module Correlation {
  import opened Base
  import opened Counting

  // --- Tie-averaged ranks -------------------------------------------------------

  /** The fractional rank of value `v`: the samples below it, plus half of its other equals. */
  function RankOf(xs: seq<real>, v: real): real {
    CountLt(xs, v) as real + (CountEq(xs, v) as real - 1.0) / 2.0
  }

  function RanksOf(xs: seq<real>): (r: seq<real>)
    ensures |r| == |xs|
  {
    seq(|xs|, k requires 0 <= k < |xs| => RankOf(xs, xs[k]))
  }

  lemma TieGroupRank(xs: seq<real>, i: nat, j: nat)
    requires i <= j < |xs|
    requires var s := Sort(xs);
      && (forall m :: i <= m <= j ==> s[m] == s[i])
      && (i > 0 ==> s[i - 1] < s[i])
      && (j + 1 < |s| ==> s[j + 1] > s[i])
    ensures RankOf(xs, Sort(xs)[i]) == (i + j) as real / 2.0
  {
    var s := Sort(xs);
    SortKeepsCounts(xs, s[i]);
    CountLtSorted(s, i, s[i]);
    CountLeSorted(s, j + 1, s[i]);
  }

  /** Give every sample of one tie group the group's mean rank. */
  method AssignGroup(r: array<real>, idx: seq<nat>, i: nat, j: nat, avg: real)
    requires i <= j < |idx| == r.Length
    requires forall m :: 0 <= m < |idx| ==> idx[m] < r.Length
    requires forall m, q :: 0 <= m < q < |idx| ==> idx[m] != idx[q]
    modifies r
    ensures forall m :: i <= m <= j ==> r[idx[m]] == avg
    ensures forall m :: 0 <= m < |idx| && !(i <= m <= j) ==> r[idx[m]] == old(r[idx[m]])
  {
    var m := i;
    while m <= j
      invariant i <= m <= j + 1
      invariant forall q :: i <= q < m ==> r[idx[q]] == avg
      invariant forall q :: 0 <= q < |idx| && !(i <= q < m) ==> r[idx[q]] == old(r[idx[q]])
    {
      r[idx[m]] := avg;
      m := m + 1;
    }
  }

  /** Where the run of samples equal to the `i`-th smallest ends. */
  method GroupEnd(xs: seq<real>, idx: seq<nat>, i: nat, ghost s: seq<real>) returns (j: nat)
    requires |idx| == |s| && i < |s| && Sorted(s)
    requires forall m :: 0 <= m < |s| ==> idx[m] < |xs| && xs[idx[m]] == s[m]
    ensures i <= j < |s|
    ensures forall m :: i <= m <= j ==> s[m] == s[i]
    ensures j + 1 < |s| ==> s[j + 1] > s[j]
  {
    j := i;
    while j + 1 < |idx| && xs[idx[j + 1]] == xs[idx[i]]
      invariant i <= j < |s|
      invariant forall m :: i <= m <= j ==> s[m] == s[i]
    {
      j := j + 1;
    }
  }

  /** The argsort and tie-group loop. */
  method Ranks(xs: seq<real>) returns (ranks: seq<real>)
    ensures ranks == RanksOf(xs)
  {
    var idx := ArgSort(xs);
    var r := new real[|xs|](_ => 0.0);
    FillRanks(r, xs, idx, Sort(xs));
    forall k: nat | k < |xs|
      ensures r[k] == RankOf(xs, xs[k])
    {
      assert k in idx;
      var m :| 0 <= m < |xs| && idx[m] == k;
      assert Sort(xs)[m] == xs[k];
    }
    ranks := r[..];
  }

  /** The first `i` places of the order have their ranks. */
  ghost predicate Ranked(r: array<real>, xs: seq<real>, idx: seq<nat>, s: seq<real>, i: int)
    reads r
    requires r.Length == |idx| == |s| && forall m :: 0 <= m < |idx| ==> idx[m] < r.Length
  {
    forall m :: 0 <= m < i && m < |idx| ==> r[idx[m]] == RankOf(xs, s[m])
  }

  /** One turn of the tie-group loop. */
  method RankGroup(r: array<real>, xs: seq<real>, idx: seq<nat>, i: nat, ghost s: seq<real>) returns (j: nat)
    requires r.Length == |idx| == |xs| && s == Sort(xs) && i < |xs|
    requires forall m :: 0 <= m < |idx| ==> idx[m] < |xs| && xs[idx[m]] == s[m]
    requires forall m, q :: 0 <= m < q < |idx| ==> idx[m] != idx[q]
    requires 0 < i ==> s[i - 1] < s[i]
    requires Ranked(r, xs, idx, s, i)
    modifies r
    ensures i <= j < |xs| && (j + 1 < |xs| ==> s[j] < s[j + 1])
    ensures Ranked(r, xs, idx, s, j + 1)
  {
    j := GroupEnd(xs, idx, i, s);
    TieGroupRank(xs, i, j);
    AssignGroup(r, idx, i, j, (i + j) as real / 2.0);
  }

  method FillRanks(r: array<real>, xs: seq<real>, idx: seq<nat>, ghost s: seq<real>)
    requires r.Length == |idx| == |xs| && s == Sort(xs)
    requires forall m :: 0 <= m < |idx| ==> idx[m] < |xs| && xs[idx[m]] == s[m]
    requires forall m, q :: 0 <= m < q < |idx| ==> idx[m] != idx[q]
    modifies r
    ensures Ranked(r, xs, idx, s, |idx|)
  {
    var i := 0;
    while i < |xs|
      invariant 0 <= i <= |xs|
      invariant 0 < i < |xs| ==> s[i - 1] < s[i]
      invariant Ranked(r, xs, idx, s, i)
    {
      var j := RankGroup(r, xs, idx, i, s);
      i := j + 1;
    }
  }

  function Sum(xs: seq<real>): real {
    if xs == [] then 0.0 else Sum(xs[..|xs| - 1]) + xs[|xs| - 1]
  }

  /** Twice the rank of each of `ys` within `xs`, plus one, summed: all comparisons of `ys` with `xs`. */
  function Comparisons(xs: seq<real>, ys: seq<real>): nat {
    if ys == [] then 0
    else
      var last := |ys| - 1;
      Comparisons(xs, ys[..last]) + CountLt(xs, ys[last]) + CountLe(xs, ys[last])
  }

  /** Adding one sample to the reference adds one comparison for each sample it is below, one more if at most. */
  lemma {:induction false} ComparisonsSnoc(xs: seq<real>, x: real, ys: seq<real>)
    ensures Comparisons(xs + [x], ys) == Comparisons(xs, ys) + 2 * |ys| - CountLe(ys, x) - CountLt(ys, x)
  {
    if ys != [] {
      var last := |ys| - 1;
      var y := ys[last];
      ComparisonsSnoc(xs, x, ys[..last]);
      CountAppend(xs, [x], y);
      assert ys == ys[..last] + [y];
      CountAppend(ys[..last], [y], x);
      assert CountLe([x], y) == (if x <= y then 1 else 0) && CountLt([x], y) == (if x < y then 1 else 0);
      assert CountLe([y], x) == (if y <= x then 1 else 0) && CountLt([y], x) == (if y < x then 1 else 0);
    }
  }

  function Square(n: nat): nat { n * n }

  lemma SquareNext(n: nat)
    ensures Square(n + 1) == Square(n) + 2 * n + 1
  {
  }

  lemma {:induction false} AllComparisons(xs: seq<real>)
    ensures Comparisons(xs, xs) == Square(|xs|)
  {
    if xs != [] {
      var last := |xs| - 1;
      var init, x := xs[..last], xs[last];
      AllComparisons(init);
      assert xs == init + [x];
      ComparisonsSnoc(init, x, init);
      CountAppend(init, [x], x);
      assert CountLe([x], x) == 1 && CountLt([x], x) == 0;
      SquareNext(last);
    }
  }

  lemma {:induction false} SumOfRanks(xs: seq<real>, ys: seq<real>)
    ensures 2.0 * Sum(seq(|ys|, k requires 0 <= k < |ys| => RankOf(xs, ys[k])))
         == Comparisons(xs, ys) as real - |ys| as real
  {
    var r := seq(|ys|, k requires 0 <= k < |ys| => RankOf(xs, ys[k]));
    if ys != [] {
      var last := |ys| - 1;
      SumOfRanks(xs, ys[..last]);
      assert r[..last] == seq(last, k requires 0 <= k < last => RankOf(xs, ys[..last][k]));
    }
  }

  /** The ranks of `n` samples sum to `n (n - 1) / 2`, ties or not. */
  lemma RanksSum(xs: seq<real>)
    ensures Sum(RanksOf(xs)) == (|xs| * (|xs| - 1)) as real / 2.0
  {
    SumOfRanks(xs, xs);
    AllComparisons(xs);
    assert |xs| * (|xs| - 1) == |xs| * |xs| - |xs|;
  }

  ghost predicate StrictlyIncreasing(f: real -> real) {
    forall x, y :: x < y ==> f(x) < f(y)
  }

  function Mapped(f: real -> real, xs: seq<real>): (r: seq<real>)
    ensures |r| == |xs|
  {
    seq(|xs|, k requires 0 <= k < |xs| => f(xs[k]))
  }

  lemma {:induction false} MappedCounts(f: real -> real, xs: seq<real>, v: real)
    requires StrictlyIncreasing(f)
    ensures CountLt(Mapped(f, xs), f(v)) == CountLt(xs, v)
    ensures CountLe(Mapped(f, xs), f(v)) == CountLe(xs, v)
  {
    if xs != [] {
      MappedCounts(f, xs[1..], v);
      assert Mapped(f, xs)[1..] == Mapped(f, xs[1..]);
    }
  }

  /** Any strictly increasing distortion of the samples leaves their ranks alone. */
  lemma RanksInvariant(f: real -> real, xs: seq<real>)
    requires StrictlyIncreasing(f)
    ensures RanksOf(Mapped(f, xs)) == RanksOf(xs)
  {
    forall k | 0 <= k < |xs|
      ensures RanksOf(Mapped(f, xs))[k] == RanksOf(xs)[k]
    {
      MappedCounts(f, xs, xs[k]);
    }
  }

  // --- Pearson ------------------------------------------------------------------

  /** A square root exact on every non-negative real. */
  ghost predicate IsSqrt(sqrt: real -> real) {
    forall x {:trigger sqrt(x)} :: x >= 0.0 ==> sqrt(x) >= 0.0 && sqrt(x) * sqrt(x) == x
  }

  function Mean(xs: seq<real>): real {
    if xs == [] then 0.0 else Sum(xs) / |xs| as real
  }

  function Times(x: real, y: real): real { x * y }

  /** The sum of products of the deviations of two series from `ma` and `mb`. */
  function Codeviation(a: seq<real>, b: seq<real>, ma: real, mb: real): real
    requires |a| == |b|
  {
    if a == [] then 0.0
    else
      var last := |a| - 1;
      Codeviation(a[..last], b[..last], ma, mb) + Times(a[last] - ma, b[last] - mb)
  }

  /** The correlation of two series of equal length, from its three sums. */
  function Ratio(sqrt: real -> real, num: real, da2: real, db2: real): real {
    var den := sqrt(da2) * sqrt(db2);
    if den == 0.0 then 0.0 else num / den
  }

  function PearsonOf(sqrt: real -> real, a: seq<real>, b: seq<real>): real {
    var n := Min(|a|, |b|);
    if n < 2 then 0.0
    else
      var x, y := a[..n], b[..n];
      Ratio(sqrt, Codeviation(x, y, Mean(x), Mean(y)), Codeviation(x, x, Mean(x), Mean(x)),
            Codeviation(y, y, Mean(y), Mean(y)))
  }

  lemma CodeviationStep(x: seq<real>, y: seq<real>, ma: real, mb: real, i: nat)
    requires i < |x| == |y|
    ensures Codeviation(x[..i + 1], y[..i + 1], ma, mb)
         == Codeviation(x[..i], y[..i], ma, mb) + Times(x[i] - ma, y[i] - mb)
  {
    assert x[..i + 1][..i] == x[..i] && y[..i + 1][..i] == y[..i];
  }

  method Pearson(sqrt: real -> real, a: seq<real>, b: seq<real>) returns (r: real)
    ensures r == PearsonOf(sqrt, a, b)
  {
    var n := Min(|a|, |b|);
    if n < 2 {
      return 0.0;
    }
    var x, y := a[..n], b[..n];
    var ma, mb := Mean(x), Mean(y);
    var num, da2, db2 := 0.0, 0.0, 0.0;
    var i := 0;
    while i < n
      invariant 0 <= i <= n
      invariant num == Codeviation(x[..i], y[..i], ma, mb)
      invariant da2 == Codeviation(x[..i], x[..i], ma, ma)
      invariant db2 == Codeviation(y[..i], y[..i], mb, mb)
    {
      var da, db := x[i] - ma, y[i] - mb;
      CodeviationStep(x, y, ma, mb, i);
      CodeviationStep(x, x, ma, ma, i);
      CodeviationStep(y, y, mb, mb, i);
      num := num + Times(da, db);
      da2 := da2 + Times(da, da);
      db2 := db2 + Times(db, db);
      i := i + 1;
    }
    assert x[..n] == x && y[..n] == y;
    r := Ratio(sqrt, num, da2, db2);
  }

  lemma SquareNonNegative(x: real)
    ensures x * x >= 0.0
  {
  }

  lemma ProductSign(p: real, g: real)
    requires p > 0.0 && p * g >= 0.0
    ensures g >= 0.0
  {
  }

  lemma ZeroProduct(p: real, q: real)
    requires p == 0.0
    ensures p * q == 0.0
  {
  }

  lemma ProductPositive(x: real, y: real, p: real)
    requires x > 0.0 && y > 0.0 && p == x * y
    ensures p > 0.0
  {
  }

  lemma NonzeroSquare(n: real, s: real)
    requires n != 0.0 && s == n * n
    ensures s > 0.0
  {
    if n > 0.0 {
      ProductPositive(n, n, s);
    } else {
      ProductPositive(-n, -n, s);
    }
  }

  lemma RootOfZero(n: real, s: real)
    requires s == n * n && s <= 0.0
    ensures n == 0.0
  {
    if n != 0.0 {
      NonzeroSquare(n, s);
    }
  }

  /** `n` is no larger than the geometric mean of `p` and `q`. */
  ghost predicate Dominated(n: real, p: real, q: real) {
    p >= 0.0 && q >= 0.0 && n * n <= p * q
  }

  /** From `n^2 <= p q`, a new pair of deviations keeps the mixed term below the squares. */
  lemma MixedTerm(n: real, p: real, q: real, d: real, e: real)
    requires Dominated(n, p, q)
    ensures 2.0 * n * (d * e) <= p * (e * e) + q * (d * d)
  {
    SquareNonNegative(d);
    assert q * (d * d) >= 0.0;
    if p == 0.0 {
      ZeroProduct(p, q);
      ZeroProduct(p, e * e);
      RootOfZero(n, n * n);
      ZeroProduct(n, d * e);
    } else {
      var gap := p * (e * e) + q * (d * d) - 2.0 * n * (d * e);
      SquareNonNegative(p * e - n * d);
      assert p * gap == (p * e - n * d) * (p * e - n * d) + (d * d) * (p * q - n * n);
      assert (d * d) * (p * q - n * n) >= 0.0;
      ProductSign(p, gap);
    }
  }

  /** One more pair of deviations keeps the inequality. */
  lemma ExpandStep(n: real, p: real, q: real, d: real, e: real)
    requires Dominated(n, p, q)
    ensures Dominated(n + Times(d, e), p + Times(d, d), q + Times(e, e))
  {
    SquareNonNegative(d);
    SquareNonNegative(e);
    MixedTerm(n, p, q, d, e);
    var n', p', q' := n + d * e, p + d * d, q + e * e;
    assert n' * n' == n * n + 2.0 * n * (d * e) + (d * e) * (d * e);
    assert p' * q' == p * q + p * (e * e) + q * (d * d) + (d * d) * (e * e);
    assert (d * e) * (d * e) == (d * d) * (e * e);
  }

  /** Cauchy-Schwarz for deviations from any two centres: `num^2 <= da2 * db2`. */
  lemma {:induction false} CauchySchwarz(a: seq<real>, b: seq<real>, ma: real, mb: real)
    requires |a| == |b|
    ensures Dominated(Codeviation(a, b, ma, mb), Codeviation(a, a, ma, ma), Codeviation(b, b, mb, mb))
  {
    if a != [] {
      var last := |a| - 1;
      var x, y := a[..last], b[..last];
      CauchySchwarz(x, y, ma, mb);
      var d, e := a[last] - ma, b[last] - mb;
      var n, p, q := Codeviation(x, y, ma, mb), Codeviation(x, x, ma, ma), Codeviation(y, y, mb, mb);
      ExpandStep(n, p, q, d, e);
    }
  }

  lemma SquareStrict(x: real, y: real)
    requires 0.0 <= y < x
    ensures x * x > y * y
  {
    ProductPositive(x - y, x + y, (x - y) * (x + y));
    assert x * x - y * y == (x - y) * (x + y);
  }

  lemma SquareOrder(x: real, y: real)
    requires y >= 0.0 && x * x <= y * y
    ensures -y <= x <= y
  {
    if x > y {
      SquareStrict(x, y);
    } else if -x > y {
      SquareStrict(-x, y);
    }
  }

  lemma QuotientInUnit(num: real, den: real)
    requires den > 0.0 && -den <= num <= den
    ensures -1.0 <= num / den <= 1.0
  {
  }

  /** Dividing by the product of the roots brings the ratio into [-1, 1]. */
  lemma RootBound(num: real, p: real, q: real, u: real, v: real, den: real)
    requires Dominated(num, p, q)
    requires u >= 0.0 && v >= 0.0 && u * u == p && v * v == q && den == u * v && den != 0.0
    ensures -1.0 <= num / den <= 1.0
  {
    assert den >= 0.0;
    assert den * den == (u * u) * (v * v);
    SquareOrder(num, den);
    QuotientInUnit(num, den);
  }

  lemma RatioBounded(sqrt: real -> real, num: real, da2: real, db2: real)
    requires IsSqrt(sqrt) && Dominated(num, da2, db2)
    ensures -1.0 <= Ratio(sqrt, num, da2, db2) <= 1.0
  {
    var u, v := sqrt(da2), sqrt(db2);
    var den := u * v;
    if den != 0.0 {
      RootBound(num, da2, db2, u, v, den);
      assert Ratio(sqrt, num, da2, db2) == num / den;
    }
  }

  /** Every correlation lies between -1 and 1. */
  lemma PearsonBounded(sqrt: real -> real, a: seq<real>, b: seq<real>)
    requires IsSqrt(sqrt)
    ensures -1.0 <= PearsonOf(sqrt, a, b) <= 1.0
  {
    var n := Min(|a|, |b|);
    if n >= 2 {
      var x, y := a[..n], b[..n];
      CauchySchwarz(x, y, Mean(x), Mean(y));
      RatioBounded(sqrt, Codeviation(x, y, Mean(x), Mean(y)), Codeviation(x, x, Mean(x), Mean(x)),
                   Codeviation(y, y, Mean(y), Mean(y)));
    }
  }

  function SpearmanOf(sqrt: real -> real, a: seq<real>, b: seq<real>): real {
    var n := Min(|a|, |b|);
    if n < 2 then 0.0 else PearsonOf(sqrt, RanksOf(a[..n]), RanksOf(b[..n]))
  }

  method Spearman(sqrt: real -> real, a: seq<real>, b: seq<real>) returns (r: real)
    ensures r == SpearmanOf(sqrt, a, b)
  {
    var n := Min(|a|, |b|);
    if n < 2 {
      return 0.0;
    }
    var ra := Ranks(a[..n]);
    var rb := Ranks(b[..n]);
    r := Pearson(sqrt, ra, rb);
  }

  /** Spearman sees through any strictly increasing distortion of either series. */
  lemma SpearmanInvariant(sqrt: real -> real, f: real -> real, g: real -> real, a: seq<real>, b: seq<real>)
    requires StrictlyIncreasing(f) && StrictlyIncreasing(g)
    ensures SpearmanOf(sqrt, Mapped(f, a), Mapped(g, b)) == SpearmanOf(sqrt, a, b)
  {
    var n := Min(|a|, |b|);
    if n >= 2 {
      assert Mapped(f, a)[..n] == Mapped(f, a[..n]);
      assert Mapped(g, b)[..n] == Mapped(g, b[..n]);
      RanksInvariant(f, a[..n]);
      RanksInvariant(g, b[..n]);
    }
  }

  // --- Lag search ------------------------------------------------------------------

  /** The pairs compared at `lag`: `a[i]` with `b[i - lag]` wherever both indices are below `n`. */
  function ShiftedA(a: seq<real>, n: nat, lag: int): seq<real>
    requires n <= |a| && AbsInt(lag) <= n
  {
    a[Max(0, lag)..n - Max(0, -lag)]
  }

  function ShiftedB(b: seq<real>, n: nat, lag: int): seq<real>
    requires n <= |b| && AbsInt(lag) <= n
  {
    b[Max(0, -lag)..n - Max(0, lag)]
  }

  function ShiftedPearsonOf(sqrt: real -> real, a: seq<real>, b: seq<real>, lag: int): real
    requires AbsInt(lag) <= Min(|a|, |b|)
  {
    var n := Min(|a|, |b|);
    PearsonOf(sqrt, ShiftedA(a, n, lag), ShiftedB(b, n, lag))
  }

  /** Exactly `n - |lag|` pairs are compared, all of them in range. */
  lemma OverlapSize(a: seq<real>, b: seq<real>, lag: int)
    requires AbsInt(lag) <= Min(|a|, |b|)
    ensures var n := Min(|a|, |b|);
      && |ShiftedA(a, n, lag)| == |ShiftedB(b, n, lag)| == n - AbsInt(lag)
      && forall m :: 0 <= m < n - AbsInt(lag) ==>
           var i := Max(0, lag) + m;
           0 <= i - lag < n && ShiftedA(a, n, lag)[m] == a[i] && ShiftedB(b, n, lag)[m] == b[i - lag]
  {
  }

  /** The `x[k]` among the first `i` whose partner `k - shift` is in range. */
  function Partnered(x: seq<real>, n: nat, shift: int, i: nat): seq<real>
    requires i <= n <= |x|
  {
    if i == 0 then []
    else Partnered(x, n, shift, i - 1) + (if 0 <= i - 1 - shift < n then [x[i - 1]] else [])
  }

  lemma SliceGrows(x: seq<real>, from: int, to: int)
    requires 0 <= from
    ensures from <= to < |x| ==> x[from..to + 1] == x[from..to] + [x[to]]
  {
  }

  /** They form a slice. */
  lemma {:induction false} PartneredIsSlice(x: seq<real>, n: nat, shift: int, i: nat)
    requires i <= n <= |x| && AbsInt(shift) <= n
    ensures
      var lo, hi := Max(0, shift), n - Max(0, -shift);
      Partnered(x, n, shift, i) == x[lo..Max(lo, Min(i, hi))]
  {
    if i > 0 {
      PartneredIsSlice(x, n, shift, i - 1);
      SliceGrows(x, Max(0, shift), i - 1);
    }
  }

  /** The partners of the first `i`, in order. */
  function Partners(y: seq<real>, n: nat, shift: int, i: nat): seq<real>
    requires i <= n <= |y|
  {
    if i == 0 then []
    else Partners(y, n, shift, i - 1) + (if 0 <= i - 1 - shift < n then [y[i - 1 - shift]] else [])
  }

  lemma {:induction false} PartnersAreSlice(y: seq<real>, n: nat, shift: int, i: nat)
    requires i <= n <= |y| && AbsInt(shift) <= n
    ensures
      var lo, hi := Max(0, -shift), n - Max(0, shift);
      Partners(y, n, shift, i) == y[lo..Max(lo, Min(i - shift, hi))]
  {
    if i > 0 {
      PartnersAreSlice(y, n, shift, i - 1);
      SliceGrows(y, Max(0, -shift), i - 1 - shift);
    }
  }

  lemma AllPartnered(a: seq<real>, n: nat, lag: int)
    requires n <= |a| && AbsInt(lag) <= n
    ensures Partnered(a, n, lag, n) == ShiftedA(a, n, lag)
  {
    PartneredIsSlice(a, n, lag, n);
    var lo, hi := Max(0, lag), n - Max(0, -lag);
    assert Max(lo, Min(n, hi)) == hi;
  }

  lemma AllPartners(b: seq<real>, n: nat, lag: int)
    requires n <= |b| && AbsInt(lag) <= n
    ensures Partners(b, n, lag, n) == ShiftedB(b, n, lag)
  {
    PartnersAreSlice(b, n, lag, n);
    var lo, hi := Max(0, -lag), n - Max(0, lag);
    assert Max(lo, Min(n - lag, hi)) == hi;
  }

  method ShiftedPearson(sqrt: real -> real, a: seq<real>, b: seq<real>, lag: int) returns (r: real)
    requires AbsInt(lag) <= Min(|a|, |b|)
    ensures r == ShiftedPearsonOf(sqrt, a, b, lag)
  {
    var n := Min(|a|, |b|);
    var xs: seq<real>, ys: seq<real> := [], [];
    var i := 0;
    while i < n
      invariant 0 <= i <= n
      invariant xs == Partnered(a, n, lag, i) && ys == Partners(b, n, lag, i)
    {
      var j := i - lag;
      if 0 <= j < n {
        xs := xs + [a[i]];
        ys := ys + [b[j]];
      }
      i := i + 1;
    }
    AllPartnered(a, n, lag);
    AllPartners(b, n, lag);
    r := Pearson(sqrt, xs, ys);
  }

  /** The widest lag searched: at least half the series, and never fewer than three pairs, overlap. */
  function LagLimit(n: nat, maxLag: nat): (limit: nat)
    ensures n >= 3 ==> limit <= n - Max(n / 2, 3)
  {
    Min(maxLag, Max(0, n - Max(n / 2, 3)))
  }

  /** A lag is searched when it is at most `maxLag` and leaves half the series, and three pairs, to compare. */
  lemma LagLimitIff(n: nat, maxLag: nat, lag: int)
    requires n >= 3
    ensures AbsInt(lag) <= LagLimit(n, maxLag) <==> AbsInt(lag) <= maxLag && n - AbsInt(lag) >= Max(n / 2, 3)
  {
  }

  /** The score of a lag: how strongly the overlapping parts correlate. */
  function Score(sqrt: real -> real, a: seq<real>, b: seq<real>, lag: int): (c: real)
    ensures c >= 0.0
  {
    if AbsInt(lag) <= Min(|a|, |b|) then AbsReal(ShiftedPearsonOf(sqrt, a, b, lag)) else 0.0
  }

  method AbsScore(sqrt: real -> real, a: seq<real>, b: seq<real>, lag: int) returns (c: real)
    requires AbsInt(lag) <= Min(|a|, |b|)
    ensures c == Score(sqrt, a, b, lag)
  {
    var r := ShiftedPearson(sqrt, a, b, lag);
    c := AbsReal(r);
  }

  /** `best` is the greatest score over the lags `-limit..=limit`, first reached at `bestLag` (or 0 everywhere). */
  ghost predicate IsPeak(sqrt: real -> real, a: seq<real>, b: seq<real>, limit: int, bestLag: int, best: real) {
    && (forall lag: int :: AbsInt(lag) <= limit ==> Score(sqrt, a, b, lag) <= best)
    && AbsInt(bestLag) <= limit
    && (if best == 0.0 then bestLag == 0
        else
          && best == Score(sqrt, a, b, bestLag)
          && forall lag: int :: -limit <= lag < bestLag ==> Score(sqrt, a, b, lag) < best)
  }

  /** What the search reports: below three pairs it visits no lag. */
  ghost predicate PeakFound(sqrt: real -> real, a: seq<real>, b: seq<real>, maxLag: nat, bestLag: int, best: real) {
    var n := Min(|a|, |b|);
    if n < 3 then best == 0.0 && bestLag == 0 else IsPeak(sqrt, a, b, LagLimit(n, maxLag), bestLag, best)
  }

  /** The same over the lags below `lag`. */
  ghost predicate PeakSoFar(sqrt: real -> real, a: seq<real>, b: seq<real>, limit: int, lag: int, bestLag: int, best: real) {
    && best >= 0.0 && AbsInt(bestLag) <= limit
    && (forall m: int :: -limit <= m < lag ==> Score(sqrt, a, b, m) <= best)
    && (if best == 0.0 then bestLag == 0
        else
          && bestLag < lag && best == Score(sqrt, a, b, bestLag)
          && forall m: int :: -limit <= m < bestLag ==> Score(sqrt, a, b, m) < best)
  }

  lemma PeakStep(sqrt: real -> real, a: seq<real>, b: seq<real>, limit: int, lag: int, bestLag: int, best: real)
    requires PeakSoFar(sqrt, a, b, limit, lag, bestLag, best) && -limit <= lag <= limit
    ensures
      var c := Score(sqrt, a, b, lag);
      PeakSoFar(sqrt, a, b, limit, lag + 1, if c > best then lag else bestLag, if c > best then c else best)
  {
  }

  method PeakCrossCorrelation(sqrt: real -> real, a: seq<real>, b: seq<real>, maxLag: nat)
    returns (bestLag: int, best: real)
    ensures PeakFound(sqrt, a, b, maxLag, bestLag, best)
  {
    var n := Min(|a|, |b|);
    var minOverlap := Max(n / 2, 3);
    bestLag, best := 0, 0.0;
    var limit: int := LagLimit(n, maxLag);
    var lag := -limit;
    while lag <= limit
      invariant -limit <= lag <= limit + 1
      invariant n < 3 ==> best == 0.0 && bestLag == 0
      invariant n >= 3 ==> PeakSoFar(sqrt, a, b, limit, lag, bestLag, best)
    {
      var overlap := n - AbsInt(lag);
      if overlap >= minOverlap {
        var c := AbsScore(sqrt, a, b, lag);
        PeakStep(sqrt, a, b, limit, lag, bestLag, best);
        if c > best {
          best, bestLag := c, lag;
        }
      }
      lag := lag + 1;
    }
  }

  lemma ZeroLagIsPearson(sqrt: real -> real, a: seq<real>, b: seq<real>)
    ensures ShiftedPearsonOf(sqrt, a, b, 0) == PearsonOf(sqrt, a, b)
  {
    var n := Min(|a|, |b|);
    assert a[0..n] == a[..n] && b[0..n] == b[..n];
    assert a[..n][..n] == a[..n] && b[..n][..n] == b[..n];
  }

  /** The peak never exceeds 1, and it is at least |Pearson| exactly when the search had three pairs to look at or there
      was nothing to find. */
  lemma PeakBounds(sqrt: real -> real, a: seq<real>, b: seq<real>, maxLag: nat, bestLag: int, best: real)
    requires IsSqrt(sqrt) && PeakFound(sqrt, a, b, maxLag, bestLag, best)
    ensures 0.0 <= best <= 1.0
    ensures AbsReal(PearsonOf(sqrt, a, b)) <= best <==> Min(|a|, |b|) >= 3 || PearsonOf(sqrt, a, b) == 0.0
  {
    var n := Min(|a|, |b|);
    if n >= 3 {
      ZeroLagIsPearson(sqrt, a, b);
      assert Score(sqrt, a, b, 0) <= best;
      if best != 0.0 {
        PearsonBounded(sqrt, ShiftedA(a, n, bestLag), ShiftedB(b, n, bestLag));
      }
    }
  }

  /** Two samples that correlate perfectly, for which the search reports 0. */
  lemma TwoSamplesHaveNoPeak(sqrt: real -> real, maxLag: nat, bestLag: int, best: real)
    requires IsSqrt(sqrt) && PeakFound(sqrt, [0.0, 2.0], [0.0, 2.0], maxLag, bestLag, best)
    ensures PearsonOf(sqrt, [0.0, 2.0], [0.0, 2.0]) == 1.0 && best == 0.0
  {
    var a := [0.0, 2.0];
    assert a[..2] == a && a[..1] == [0.0];
    assert Sum(a) == Sum([0.0]) + 2.0 && Sum([0.0]) == Sum([0.0][..0]) + 0.0;
    assert Mean(a) == 1.0;
    assert Codeviation([0.0], [0.0], 1.0, 1.0) == Codeviation([0.0][..0], [0.0][..0], 1.0, 1.0) + 1.0;
    assert Codeviation(a, a, 1.0, 1.0) == 2.0;
    assert sqrt(2.0) * sqrt(2.0) == 2.0;
  }
}
