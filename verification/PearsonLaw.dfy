/** What the correlation coefficient is: its defining equation, and how it transforms. */
module PearsonLaw {
  import opened Base
  import opened Correlation

  /** How far each sample is from the mean of all. */
  function Deviations(x: seq<real>): (d: seq<real>)
    requires x != []
    ensures |d| == |x|
  {
    seq(|x|, i requires 0 <= i < |x| => x[i] - Sum(x) / |x| as real)
  }

  /** The sum of the products of two series, sample by sample. */
  function Dot(u: seq<real>, v: seq<real>): real
    requires |u| == |v|
  {
    Sum(Products(u, v))
  }

  function Products(u: seq<real>, v: seq<real>): (p: seq<real>)
    requires |u| == |v|
    ensures |p| == |u|
  {
    seq(|u|, i requires 0 <= i < |u| => Times(u[i], v[i]))
  }

  lemma SumSnoc(x: seq<real>, v: real)
    ensures Sum(x + [v]) == Sum(x) + v
  {
  }

  lemma DotSnoc(u: seq<real>, v: seq<real>)
    requires |u| == |v| > 0
    ensures
      var last := |u| - 1;
      Dot(u, v) == Dot(u[..last], v[..last]) + u[last] * v[last]
  {
    var last := |u| - 1;
    var init := Products(u[..last], v[..last]);
    assert Products(u, v) == init + [Times(u[last], v[last])];
    SumSnoc(init, Times(u[last], v[last]));
  }

  /** The accumulated sums are the products of deviations, all added up. */
  lemma {:induction false} CodeviationIsDot(a: seq<real>, b: seq<real>, ma: real, mb: real, u: seq<real>, v: seq<real>)
    requires |a| == |b| == |u| == |v|
    requires forall i :: 0 <= i < |a| ==> u[i] == a[i] - ma && v[i] == b[i] - mb
    ensures Codeviation(a, b, ma, mb) == Dot(u, v)
  {
    if a != [] {
      var last := |a| - 1;
      CodeviationIsDot(a[..last], b[..last], ma, mb, u[..last], v[..last]);
      DotSnoc(u, v);
    }
  }

  /** The mean is the balance point: deviations from it cancel out. */
  lemma DeviationsCancel(x: seq<real>)
    requires x != []
    ensures Sum(Deviations(x)) == 0.0
  {
    SumOfShifted(x, Sum(x) / |x| as real, Deviations(x));
    assert |x| as real * (Sum(x) / |x| as real) == Sum(x);
  }

  lemma Multiple(n: nat, m: real)
    requires n > 0
    ensures n as real * m == (n - 1) as real * m + m
  {
    assert n as real == (n - 1) as real + 1.0;
  }

  lemma {:induction false} SumOfShifted(x: seq<real>, m: real, d: seq<real>)
    requires |d| == |x| && forall i :: 0 <= i < |x| ==> d[i] == x[i] - m
    ensures Sum(d) == Sum(x) - |x| as real * m
  {
    if x != [] {
      var last := |x| - 1;
      SumOfShifted(x[..last], m, d[..last]);
      Multiple(|x|, m);
    }
  }

  /** The defining equation, with the sign: `r` times the two deviations' lengths is their product. */
  predicate IsCoefficient(r: real, num: real, da2: real, db2: real) {
    && r * r * (da2 * db2) == num * num && r * num >= 0.0
    && (da2 * db2 == 0.0 ==> r == 0.0)
  }

  lemma RootProduct(u: real, v: real, p: real, q: real)
    requires u * u == p && v * v == q
    ensures (u * v) * (u * v) == p * q
  {
    assert (u * v) * (u * v) == (u * u) * (v * v);
    ProductOfEquals(u * u, p, v * v, q);
  }

  lemma ProductOfEquals(a: real, p: real, b: real, q: real)
    requires a == p && b == q
    ensures a * b == p * q
  {
  }

  lemma SquareOfQuotient(num: real, den: real, r: real, pq: real)
    requires den > 0.0 && r == num / den && den * den == pq
    ensures r * r * pq == num * num && r * num >= 0.0 && pq != 0.0
  {
    assert r * den == num;
    assert r * r * (den * den) == (r * den) * (r * den);
    ProductOfEquals(r * r, r * r, den * den, pq);
    ProductOfEquals(r * den, num, r * den, num);
    ProductOfEquals(r, r, r * den, num);
    SquareNonNegative(r);
    NonNegativeProduct(r * r, den);
    assert r * (r * den) == (r * r) * den;
    ProductPositive(den, den, pq);
  }

  lemma RatioIsCoefficient(sqrt: real -> real, num: real, da2: real, db2: real)
    requires IsSqrt(sqrt) && Dominated(num, da2, db2)
    ensures IsCoefficient(Ratio(sqrt, num, da2, db2), num, da2, db2)
  {
    QuotientIsCoefficient(num, da2, db2, sqrt(da2), sqrt(db2), sqrt(da2) * sqrt(db2), Ratio(sqrt, num, da2, db2));
  }

  lemma QuotientIsCoefficient(num: real, p: real, q: real, u: real, v: real, den: real, r: real)
    requires Dominated(num, p, q) && u >= 0.0 && v >= 0.0 && u * u == p && v * v == q && den == u * v
    requires r == if den == 0.0 then 0.0 else num / den
    ensures IsCoefficient(r, num, p, q)
  {
    RootProduct(u, v, p, q);
    NonNegativeProduct(u, v);
    if den == 0.0 {
      ZeroProduct(den, den);
      RootOfZero(num, num * num);
      ZeroIsCoefficient(p, q);
    } else {
      SquareOfQuotient(num, den, r, p * q);
    }
  }

  lemma ZeroIsCoefficient(da2: real, db2: real)
    ensures IsCoefficient(0.0, 0.0, da2, db2)
  {
  }

  lemma NonNegativeProduct(a: real, b: real)
    requires a >= 0.0 && b >= 0.0
    ensures a * b >= 0.0
  {
  }

  /** Two or more samples: the coefficient squared, times the two sums of squared deviations, is the square of the sum of
      products; it has the sign of that sum; and it is 0 where a series does not vary. */
  lemma PearsonIsCoefficient(sqrt: real -> real, a: seq<real>, b: seq<real>)
    requires IsSqrt(sqrt) && Min(|a|, |b|) >= 2
    ensures
      var n := Min(|a|, |b|);
      var u, v := Deviations(a[..n]), Deviations(b[..n]);
      IsCoefficient(PearsonOf(sqrt, a, b), Dot(u, v), Dot(u, u), Dot(v, v))
  {
    var n := Min(|a|, |b|);
    var x, y := a[..n], b[..n];
    var u, v := Deviations(x), Deviations(y);
    CodeviationIsDot(x, y, Mean(x), Mean(y), u, v);
    CodeviationIsDot(x, x, Mean(x), Mean(x), u, u);
    CodeviationIsDot(y, y, Mean(y), Mean(y), v, v);
    CauchySchwarz(x, y, Mean(x), Mean(y));
    RatioIsCoefficient(sqrt, Dot(u, v), Dot(u, u), Dot(v, v));
  }

  lemma SameSquare(r: real, s: real)
    requires r * r == s * s && r * s >= 0.0
    ensures r == s
  {
    assert (r - s) * (r + s) == 0.0;
    if r == -s {
      assert r * s == -(s * s);
      RootOfZero(s, s * s);
    }
  }

  lemma Cancel(pq: real, x: real, y: real)
    requires pq != 0.0 && x * pq == y * pq
    ensures x == y
  {
    assert (x - y) * pq == 0.0;
  }

  lemma SameSign(r: real, s: real, num: real)
    requires num != 0.0 && r * num >= 0.0 && s * num >= 0.0
    ensures r * s >= 0.0
  {
    if num > 0.0 {
      assert r >= 0.0 && s >= 0.0;
    } else {
      assert r <= 0.0 && s <= 0.0;
    }
  }

  /** The equation has one solution, so it says what the coefficient is. */
  lemma CoefficientIsUnique(r: real, s: real, num: real, da2: real, db2: real)
    requires IsCoefficient(r, num, da2, db2) && IsCoefficient(s, num, da2, db2)
    ensures r == s
  {
    var pq := da2 * db2;
    if pq != 0.0 {
      Cancel(pq, r * r, s * s);
      if num == 0.0 {
        assert r * r * pq == 0.0;
        Cancel(pq, r * r, 0.0);
        RootOfZero(r, r * r);
        RootOfZero(s, s * s);
      } else {
        SameSign(r, s, num);
        SameSquare(r, s);
      }
    }
  }

  // --- How it transforms --------------------------------------------------------------

  /** The same series in other units, from another origin. */
  predicate IsRescaled(x: seq<real>, y: seq<real>, s: real, t: real) {
    |y| == |x| && forall i :: 0 <= i < |x| ==> y[i] == Times(s, x[i]) + t
  }

  lemma Distributes(s: real, a: real, b: real)
    ensures Times(s, a + b) == Times(s, a) + Times(s, b)
    ensures Times(s, a - b) == Times(s, a) - Times(s, b)
  {
  }

  lemma {:induction false} SumRescaled(x: seq<real>, y: seq<real>, s: real, t: real)
    requires IsRescaled(x, y, s, t)
    ensures Sum(y) == Times(s, Sum(x)) + Times(|x| as real, t)
  {
    if x != [] {
      var last := |x| - 1;
      SumRescaled(x[..last], y[..last], s, t);
      Distributes(s, Sum(x[..last]), x[last]);
      Multiple(|x|, t);
    }
  }

  lemma MeanRescaled(n: real, sum: real, s: real, t: real)
    requires n > 0.0
    ensures (Times(s, sum) + Times(n, t)) / n == Times(s, sum / n) + t
  {
    var m := sum / n;
    assert sum == n * m;
    assert Times(s, sum) == n * Times(s, m);
    assert Times(s, sum) + Times(n, t) == n * (Times(s, m) + t);
  }

  /** Deviations only feel the unit. */
  lemma DeviationsRescaled(x: seq<real>, y: seq<real>, s: real, t: real)
    requires IsRescaled(x, y, s, t) && x != []
    ensures IsRescaled(Deviations(x), Deviations(y), s, 0.0)
  {
    var m, n := Sum(x) / |x| as real, Sum(y) / |y| as real;
    SumRescaled(x, y, s, t);
    MeanRescaled(|x| as real, Sum(x), s, t);
    assert n == Times(s, m) + t;
    forall i | 0 <= i < |x|
      ensures Deviations(y)[i] == Times(s, Deviations(x)[i]) + 0.0
    {
      Distributes(s, x[i], m);
    }
  }

  lemma ScaledFactor(s: real, a: real, b: real, c: real)
    requires c == Times(s, a) + 0.0
    ensures Times(c, b) == Times(s, Times(a, b)) && Times(b, c) == Times(s, Times(b, a))
  {
  }

  lemma {:induction false} DotScaled(u: seq<real>, w: seq<real>, v: seq<real>, s: real)
    requires IsRescaled(u, w, s, 0.0) && |v| == |u|
    ensures Dot(w, v) == Times(s, Dot(u, v)) && Dot(v, w) == Times(s, Dot(v, u))
  {
    if u != [] {
      var last := |u| - 1;
      DotScaled(u[..last], w[..last], v[..last], s);
      DotSnoc(u, v);
      DotSnoc(w, v);
      DotSnoc(v, u);
      DotSnoc(v, w);
      ScaledFactor(s, u[last], v[last], w[last]);
      Distributes(s, Dot(u[..last], v[..last]), Times(u[last], v[last]));
      Distributes(s, Dot(v[..last], u[..last]), Times(v[last], u[last]));
    }
  }

  function Sign(s: real): real { if s > 0.0 then 1.0 else if s < 0.0 then -1.0 else 0.0 }

  lemma Rearranged(s: real, r: real, da2: real, db2: real)
    ensures Times(s, Times(s, da2)) * db2 == (s * s) * (da2 * db2)
    ensures r * r * ((s * s) * (da2 * db2)) == (s * s) * (r * r * (da2 * db2))
  {
  }

  lemma SquareOfTimes(s: real, num: real)
    ensures Times(s, num) * Times(s, num) == (s * s) * (num * num)
  {
  }

  lemma SignedSquare(s: real, r: real, q: real, num: real)
    requires s != 0.0 && q == Sign(s) * r
    ensures q * q == r * r && q * Times(s, num) == (Sign(s) * s) * (r * num) && Sign(s) * s > 0.0
  {
    assert q == r || q == -r;
  }

  /** A solution for one series gives one for the rescaled series. */
  lemma CoefficientRescaled(r: real, num: real, da2: real, db2: real, s: real, q: real, num': real, da2': real)
    requires IsCoefficient(r, num, da2, db2) && s != 0.0
    requires q == Sign(s) * r && num' == Times(s, num) && da2' == Times(s, Times(s, da2))
    ensures IsCoefficient(q, num', da2', db2)
  {
    var p := da2 * db2;
    Rearranged(s, r, da2, db2);
    SquareOfTimes(s, num);
    SignedSquare(s, r, q, num);
    ProductOfEquals(q * q, r * r, da2' * db2, (s * s) * p);
    ProductOfEquals(s * s, s * s, r * r * p, num * num);
    NonNegativeProduct(Sign(s) * s, r * num);
    NonzeroSquare(s, s * s);
    if p != 0.0 && (s * s) * p == 0.0 {
      Cancel(s * s, p, 0.0);
    }
  }

  /** Pearson knows neither units nor origins: rescaling a series changes at most the sign, and that exactly when the
      series is turned upside down. */
  lemma PearsonRescaled(sqrt: real -> real, a: seq<real>, y: seq<real>, b: seq<real>, s: real, t: real)
    requires IsSqrt(sqrt) && Min(|a|, |b|) >= 2 && s != 0.0 && IsRescaled(a, y, s, t)
    ensures PearsonOf(sqrt, y, b) == Sign(s) * PearsonOf(sqrt, a, b)
  {
    var n := Min(|a|, |b|);
    var u, v, w := Deviations(a[..n]), Deviations(b[..n]), Deviations(y[..n]);
    DeviationsRescaled(a[..n], y[..n], s, t);
    PearsonIsCoefficient(sqrt, a, b);
    PearsonIsCoefficient(sqrt, y, b);
    RescaledSolution(u, v, w, s, PearsonOf(sqrt, a, b), PearsonOf(sqrt, y, b));
  }

  lemma RescaledSolution(u: seq<real>, v: seq<real>, w: seq<real>, s: real, r: real, q: real)
    requires |u| == |v| && IsRescaled(u, w, s, 0.0) && s != 0.0
    requires IsCoefficient(r, Dot(u, v), Dot(u, u), Dot(v, v)) && IsCoefficient(q, Dot(w, v), Dot(w, w), Dot(v, v))
    ensures q == Sign(s) * r
  {
    DotScaled(u, w, v, s);
    DotScaled(u, w, u, s);
    DotScaled(u, w, w, s);
    assert Dot(w, w) == Times(s, Dot(u, w)) == Times(s, Times(s, Dot(u, u)));
    CoefficientRescaled(r, Dot(u, v), Dot(u, u), Dot(v, v), s, Sign(s) * r, Dot(w, v), Dot(w, w));
    CoefficientIsUnique(q, Sign(s) * r, Dot(w, v), Dot(w, w), Dot(v, v));
  }

  /** A series that varies correlates perfectly with itself. */
  lemma PearsonWithItself(sqrt: real -> real, a: seq<real>)
    requires IsSqrt(sqrt) && |a| >= 2
    ensures PearsonOf(sqrt, a, a) == if Dot(Deviations(a), Deviations(a)) == 0.0 then 0.0 else 1.0
  {
    var d := Dot(Deviations(a), Deviations(a));
    assert a[..|a|] == a;
    PearsonIsCoefficient(sqrt, a, a);
    CodeviationIsDot(a, a, Mean(a), Mean(a), Deviations(a), Deviations(a));
    CauchySchwarz(a, a, Mean(a), Mean(a));
    if d == 0.0 {
      ZeroProduct(d, d);
    } else {
      NonzeroSquare(d, d * d);
      CoefficientIsUnique(PearsonOf(sqrt, a, a), 1.0, d, d, d);
    }
  }
}
