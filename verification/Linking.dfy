/** The volume and flow-linking attacks: binned series, and what a uniform wire leaves them. */
module Linking {
  import opened Base
  import opened Correlation

  datatype Event = WireFrame | RealBytes | OtherEvent

  /** One line of the traffic log, as far as the attacks read it. */
  datatype Record = Record(at: nat, event: Event, conn: nat, bytes: nat)

  /** The shared time grid: `bins` windows of `width` nanoseconds from `t0` on. */
  datatype Grid = Grid(t0: nat, width: nat, bins: nat)

  predicate Counted(r: Record, event: Event, conn: Option<nat>) {
    r.event == event && (conn == None || conn == Some(r.conn))
  }

  predicate Relevant(r: Record, conn: Option<nat>) {
    Counted(r, WireFrame, conn) || Counted(r, RealBytes, conn)
  }

  function BinOf(g: Grid, at: nat): nat
    requires g.width > 0
  {
    if at < g.t0 then 0 else (at - g.t0) / g.width
  }

  /** Window `k` is the instants from `t0 + k width` up to the next window. */
  lemma BinIsWindow(g: Grid, at: nat, k: nat)
    requires g.width > 0 && at >= g.t0
    ensures BinOf(g, at) == k <==> g.t0 + k * g.width <= at < g.t0 + k * g.width + g.width
  {
    var d := at - g.t0;
    var q := d / g.width;
    assert d == q * g.width + d % g.width;
    if q < k {
      BinsApart(q, k, g.width);
    } else if k < q {
      BinsApart(k, q, g.width);
    }
  }

  lemma BinsApart(a: nat, b: nat, width: nat)
    requires a < b
    ensures a * width + width <= b * width
  {
    assert b * width == a * width + (b - a) * width;
    assert (b - a) * width == width + (b - a - 1) * width;
  }

  /** The bytes that fall into window `k`. */
  function BinTotal(records: seq<Record>, event: Event, conn: Option<nat>, g: Grid, k: nat): real
    requires g.width > 0
  {
    if records == [] then 0.0
    else
      var r := records[|records| - 1];
      BinTotal(records[..|records| - 1], event, conn, g, k)
      + (if Counted(r, event, conn) && BinOf(g, r.at) == k then r.bytes as real else 0.0)
  }

  function Series(records: seq<Record>, event: Event, conn: Option<nat>, g: Grid): (s: seq<real>)
    requires g.width > 0
    ensures |s| == g.bins
  {
    seq(g.bins, k requires 0 <= k < g.bins => BinTotal(records, event, conn, g, k))
  }

  function Total(records: seq<Record>, event: Event, conn: Option<nat>): real {
    if records == [] then 0.0
    else
      var r := records[|records| - 1];
      Total(records[..|records| - 1], event, conn) + (if Counted(r, event, conn) then r.bytes as real else 0.0)
  }

  /** The grid spans every counted record: the first starts it, and none lies past its last window. */
  ghost predicate Spans(g: Grid, records: seq<Record>, conn: Option<nat>) {
    && g.width > 0
    && (forall i :: 0 <= i < |records| && Relevant(records[i], conn) ==>
          g.t0 <= records[i].at && BinOf(g, records[i].at) < g.bins)
    && (exists i :: 0 <= i < |records| && Relevant(records[i], conn) && records[i].at == g.t0)
    && (exists i :: 0 <= i < |records| && Relevant(records[i], conn) && BinOf(g, records[i].at) == g.bins - 1)
  }

  lemma AtLeastOne(width: nat, d: int)
    ensures d >= 1 ==> width * d >= width
  {
  }

  lemma QuotientsAscend(width: nat, p: nat, r: nat, q: nat, t: nat)
    requires r < width && t < width && width * p + r <= width * q + t
    ensures p <= q
  {
    AtLeastOne(width, p - q);
    assert width * p == width * q + width * (p - q);
  }

  lemma BinsAscend(a: nat, b: nat, width: nat)
    requires width > 0 && a <= b
    ensures a / width <= b / width
  {
    QuotientsAscend(width, a / width, a % width, b / width, b % width);
  }

  /** A series with one more record. */
  function Added(s: seq<real>, r: Record, event: Event, conn: Option<nat>, g: Grid): seq<real>
    requires g.width > 0 && |s| == g.bins
  {
    if Counted(r, event, conn) && BinOf(g, r.at) < g.bins then s[BinOf(g, r.at) := s[BinOf(g, r.at)] + r.bytes as real]
    else s
  }

  /** A record moves its own window and no other. */
  lemma SeriesStep(records: seq<Record>, i: nat, event: Event, conn: Option<nat>, g: Grid)
    requires g.width > 0 && i < |records|
    ensures Series(records[..i + 1], event, conn, g) == Added(Series(records[..i], event, conn, g), records[i], event, conn, g)
  {
    assert records[..i + 1][..i] == records[..i];
  }

  lemma {:induction false} SumOfZeros(s: seq<real>)
    requires forall k :: 0 <= k < |s| ==> s[k] == 0.0
    ensures Sum(s) == 0.0
  {
    if s != [] {
      SumOfZeros(s[..|s| - 1]);
    }
  }

  lemma {:induction false} SumOfUpdate(s: seq<real>, k: nat, x: real)
    requires k < |s|
    ensures Sum(s[k := s[k] + x]) == Sum(s) + x
  {
    var last := |s| - 1;
    if k == last {
      assert s[k := s[k] + x][..last] == s[..last];
    } else {
      SumOfUpdate(s[..last], k, x);
      assert s[k := s[k] + x][..last] == s[..last][k := s[k] + x];
    }
  }

  /** Binning loses no byte and counts none twice. */
  lemma {:induction false} SeriesConserves(records: seq<Record>, event: Event, conn: Option<nat>, g: Grid)
    requires g.width > 0
    requires forall i :: 0 <= i < |records| && Counted(records[i], event, conn) ==> BinOf(g, records[i].at) < g.bins
    ensures Sum(Series(records, event, conn, g)) == Total(records, event, conn)
  {
    if records == [] {
      SumOfZeros(Series(records, event, conn, g));
    } else {
      var last := |records| - 1;
      SeriesConserves(records[..last], event, conn, g);
      SeriesStep(records, last, event, conn, g);
      assert records[..last + 1] == records;
      var r := records[last];
      if Counted(r, event, conn) {
        SumOfUpdate(Series(records[..last], event, conn, g), BinOf(g, r.at), r.bytes as real);
      }
    }
  }

  /** The first and the last instant among the relevant records. */
  method TimeSpan(records: seq<Record>, conn: Option<nat>) returns (span: Option<(nat, nat)>)
    ensures span == None <==> forall i :: 0 <= i < |records| ==> !Relevant(records[i], conn)
    ensures span.Some? ==>
      && (forall i :: 0 <= i < |records| && Relevant(records[i], conn) ==> span.value.0 <= records[i].at <= span.value.1)
      && (exists i :: 0 <= i < |records| && Relevant(records[i], conn) && records[i].at == span.value.0)
      && (exists i :: 0 <= i < |records| && Relevant(records[i], conn) && records[i].at == span.value.1)
  {
    span := None;
    var i := 0;
    while i < |records|
      invariant 0 <= i <= |records|
      invariant span == None <==> forall j :: 0 <= j < i ==> !Relevant(records[j], conn)
      invariant span.Some? ==>
        && (forall j :: 0 <= j < i && Relevant(records[j], conn) ==> span.value.0 <= records[j].at <= span.value.1)
        && (exists j :: 0 <= j < i && Relevant(records[j], conn) && records[j].at == span.value.0)
        && (exists j :: 0 <= j < i && Relevant(records[j], conn) && records[j].at == span.value.1)
    {
      var at := records[i].at;
      if Relevant(records[i], conn) {
        span := match span
          case None => Some((at, at))
          case Some(s) => Some((Min(s.0, at), Max(s.1, at)));
      }
      i := i + 1;
    }
  }

  /** The grid from the first to the last relevant record. */
  method MakeGrid(records: seq<Record>, width: nat, conn: Option<nat>) returns (grid: Option<Grid>)
    ensures grid == None <==> width == 0 || forall i :: 0 <= i < |records| ==> !Relevant(records[i], conn)
    ensures grid.Some? ==> grid.value.width == width && Spans(grid.value, records, conn)
  {
    if width == 0 {
      return None;
    }
    var span := TimeSpan(records, conn);
    if span == None {
      return None;
    }
    var (t0, tEnd) := span.value;
    var g := Grid(t0, width, (tEnd - t0) / width + 1);
    forall i | 0 <= i < |records| && Relevant(records[i], conn)
      ensures BinOf(g, records[i].at) < g.bins
    {
      BinsAscend(records[i].at - t0, tEnd - t0, width);
    }
    var last :| 0 <= last < |records| && Relevant(records[last], conn) && records[last].at == tEnd;
    assert BinOf(g, records[last].at) == g.bins - 1;
    grid := Some(g);
  }

  method AddAt(a: array<real>, idx: nat, x: real)
    requires idx < a.Length
    modifies a
    ensures a[..] == old(a[..])[idx := old(a[idx]) + x]
  {
    a[idx] := a[idx] + x;
  }

  /** One record goes to its window of its own series. */
  method AddRecord(a: array<real>, b: array<real>, r: Record, conn: Option<nat>, g: Grid)
    requires a != b && g.width > 0 && a.Length == b.Length == g.bins
    requires Relevant(r, conn) ==> g.t0 <= r.at && BinOf(g, r.at) < g.bins
    modifies a, b
    ensures a[..] == Added(old(a[..]), r, WireFrame, conn, g)
    ensures b[..] == Added(old(b[..]), r, RealBytes, conn, g)
  {
    if Relevant(r, conn) {
      var idx := (r.at - g.t0) / g.width;
      if r.event == WireFrame {
        AddAt(a, idx, r.bytes as real);
      } else {
        AddAt(b, idx, r.bytes as real);
      }
    }
  }

  method FillSeries(records: seq<Record>, conn: Option<nat>, g: Grid) returns (wire: seq<real>, real_: seq<real>)
    requires Spans(g, records, conn)
    ensures wire == Series(records, WireFrame, conn, g) && real_ == Series(records, RealBytes, conn, g)
  {
    var a := new real[g.bins](_ => 0.0);
    var b := new real[g.bins](_ => 0.0);
    var i := 0;
    while i < |records|
      invariant 0 <= i <= |records|
      invariant a[..] == Series(records[..i], WireFrame, conn, g)
      invariant b[..] == Series(records[..i], RealBytes, conn, g)
    {
      SeriesStep(records, i, WireFrame, conn, g);
      SeriesStep(records, i, RealBytes, conn, g);
      AddRecord(a, b, records[i], conn, g);
      i := i + 1;
    }
    assert records[..i] == records;
    wire, real_ := a[..], b[..];
  }

  /** Wire and real byte series on one grid, comparable index for index, no byte lost. */
  method AlignedSeries(records: seq<Record>, width: nat, conn: Option<nat>)
    returns (series: Option<(seq<real>, seq<real>)>, ghost g: Grid)
    ensures series == None <==> width == 0 || forall i :: 0 <= i < |records| ==> !Relevant(records[i], conn)
    ensures series.Some? ==>
      && g.width == width && Spans(g, records, conn)
      && series.value == (Series(records, WireFrame, conn, g), Series(records, RealBytes, conn, g))
      && Sum(series.value.0) == Total(records, WireFrame, conn)
      && Sum(series.value.1) == Total(records, RealBytes, conn)
  {
    var grid := MakeGrid(records, width, conn);
    if grid == None {
      return None, Grid(0, 0, 0);
    }
    g := grid.value;
    var wire, real_ := FillSeries(records, conn, grid.value);
    SeriesConserves(records, WireFrame, conn, g);
    SeriesConserves(records, RealBytes, conn, g);
    series := Some((wire, real_));
  }

  // --- A flat wire -------------------------------------------------------------------

  predicate Flat(s: seq<real>) {
    forall i, j :: 0 <= i < j < |s| ==> s[i] == s[j]
  }

  function Scaled(n: nat, c: real): real { n as real * c }

  lemma {:induction false} SumOfFlat(s: seq<real>, c: real)
    requires forall i :: 0 <= i < |s| ==> s[i] == c
    ensures Sum(s) == Scaled(|s|, c)
  {
    if s != [] {
      SumOfFlat(s[..|s| - 1], c);
      assert Scaled(|s|, c) == Scaled(|s| - 1, c) + c;
    }
  }

  lemma ScaledBack(n: nat, c: real)
    requires n > 0
    ensures Scaled(n, c) / n as real == c
  {
  }

  lemma {:induction false} NoDeviation(a: seq<real>, b: seq<real>, ma: real, mb: real)
    requires |a| == |b| && forall i :: 0 <= i < |a| ==> a[i] == ma
    ensures Codeviation(a, b, ma, mb) == 0.0
  {
    if a != [] {
      var last := |a| - 1;
      NoDeviation(a[..last], b[..last], ma, mb);
      ZeroProduct(a[last] - ma, b[last] - mb);
    }
  }

  lemma RootOfZeroIsZero(sqrt: real -> real)
    requires IsSqrt(sqrt)
    ensures sqrt(0.0) == 0.0
  {
    var r := sqrt(0.0);
    assert r * r == 0.0;
    RootOfZero(r, r * r);
  }

  /** A constant series correlates with nothing. */
  lemma FlatCorrelatesWithNothing(sqrt: real -> real, a: seq<real>, b: seq<real>)
    requires IsSqrt(sqrt) && Flat(a)
    ensures PearsonOf(sqrt, a, b) == 0.0
  {
    var n := Min(|a|, |b|);
    if n >= 2 {
      var x, y := a[..n], b[..n];
      SumOfFlat(x, a[0]);
      ScaledBack(n, a[0]);
      NoDeviation(x, x, Mean(x), Mean(x));
      RootOfZeroIsZero(sqrt);
      ZeroProduct(sqrt(0.0), sqrt(Codeviation(y, y, Mean(y), Mean(y))));
    }
  }

  /** Against a constant wire series the volume attack scores 0 at every lag, whatever the real traffic. */
  lemma FlatWireScoresZero(sqrt: real -> real, wire: seq<real>, real_: seq<real>, lag: int)
    requires IsSqrt(sqrt) && Flat(wire)
    ensures Score(sqrt, wire, real_, lag) == 0.0
  {
    var n := Min(|wire|, |real_|);
    if AbsInt(lag) <= n {
      FlatCorrelatesWithNothing(sqrt, ShiftedA(wire, n, lag), ShiftedB(real_, n, lag));
    }
  }

  /** One flow's verdict of the volume attack. */
  method VolumeVerdict(sqrt: real -> real, wire: seq<real>, real_: seq<real>, maxLag: nat, threshold: real)
    returns (pearson: real, peak: real, leaks: bool)
    requires threshold >= 0.0
    ensures pearson == PearsonOf(sqrt, wire, real_) && IsScore(sqrt, wire, real_, maxLag, peak)
    ensures leaks <==> AbsReal(peak) > threshold || AbsReal(pearson) > threshold
    ensures IsSqrt(sqrt) && Flat(wire) ==> !leaks
  {
    pearson := Pearson(sqrt, wire, real_);
    var lag;
    lag, peak := PeakCrossCorrelation(sqrt, wire, real_, maxLag);
    leaks := AbsReal(peak) > threshold || AbsReal(pearson) > threshold;
    if IsSqrt(sqrt) && Flat(wire) {
      FlatCorrelatesWithNothing(sqrt, wire, real_);
      FlatWireScoresZero(sqrt, wire, real_, lag);
    }
  }

  // --- Linking -----------------------------------------------------------------------

  /** `v` is the peak of the two series. */
  ghost predicate IsScore(sqrt: real -> real, a: seq<real>, b: seq<real>, maxLag: nat, v: real) {
    exists lag :: PeakFound(sqrt, a, b, maxLag, lag, v)
  }

  lemma ScoreIsUnique(sqrt: real -> real, a: seq<real>, b: seq<real>, maxLag: nat, v: real, w: real)
    requires IsScore(sqrt, a, b, maxLag, v) && IsScore(sqrt, a, b, maxLag, w)
    ensures v == w
  {
  }

  /** Position `k` holds the first of the greatest scores of `wire` against the real series. */
  ghost predicate IsGuess(sqrt: real -> real, wire: seq<real>, reals: seq<seq<real>>, maxLag: nat, scores: seq<real>, k: nat) {
    && k < |reals| == |scores|
    && (forall j :: 0 <= j < |scores| ==> IsScore(sqrt, wire, reals[j], maxLag, scores[j]))
    && (forall j :: 0 <= j < |scores| ==> scores[j] <= scores[k])
    && (forall j :: 0 <= j < k ==> scores[j] < scores[k])
  }

  lemma GuessNext(sqrt: real -> real, wire: seq<real>, reals: seq<seq<real>>, maxLag: nat,
                  scores: seq<real>, k: nat, x: seq<real>, score: real)
    requires IsGuess(sqrt, wire, reals, maxLag, scores, k) && IsScore(sqrt, wire, x, maxLag, score)
    ensures IsGuess(sqrt, wire, reals + [x], maxLag, scores + [score], if score > scores[k] then |reals| else k)
  {
  }

  method Guess(sqrt: real -> real, wire: seq<real>, reals: seq<seq<real>>, maxLag: nat)
    returns (best: nat, ghost scores: seq<real>)
    requires reals != []
    ensures IsGuess(sqrt, wire, reals, maxLag, scores, best)
  {
    best, scores := 0, [];
    var bestScore: Option<real> := None;
    var j := 0;
    while j < |reals|
      invariant 0 <= j <= |reals|
      invariant j == 0 ==> bestScore == None && scores == []
      invariant j > 0 ==> IsGuess(sqrt, wire, reals[..j], maxLag, scores, best) && bestScore == Some(scores[best])
    {
      var lag, score := PeakCrossCorrelation(sqrt, wire, reals[j], maxLag);
      assert reals[..j + 1] == reals[..j] + [reals[j]];
      if j > 0 {
        GuessNext(sqrt, wire, reals[..j], maxLag, scores, best, reals[j], score);
      }
      scores := scores + [score];
      if bestScore == None || score > bestScore.value {
        best, bestScore := j, Some(score);
      }
      j := j + 1;
    }
    assert reals[..j] == reals;
  }

  ghost predicate IsMatch(sqrt: real -> real, wire: seq<real>, reals: seq<seq<real>>, maxLag: nat, k: nat) {
    exists scores :: IsGuess(sqrt, wire, reals, maxLag, scores, k)
  }

  /** The guess depends on the series alone. */
  lemma MatchIsUnique(sqrt: real -> real, wire: seq<real>, reals: seq<seq<real>>, maxLag: nat, k: nat, l: nat)
    requires IsMatch(sqrt, wire, reals, maxLag, k) && IsMatch(sqrt, wire, reals, maxLag, l)
    ensures k == l
  {
    var s :| IsGuess(sqrt, wire, reals, maxLag, s, k);
    var t :| IsGuess(sqrt, wire, reals, maxLag, t, l);
    forall j | 0 <= j < |reals|
      ensures s[j] == t[j]
    {
      ScoreIsUnique(sqrt, wire, reals[j], maxLag, s[j], t[j]);
    }
    assert s == t;
    assert t[k] <= t[l] && s[l] <= s[k];
  }

  /** Flow `i` is linked to flow `guesses[i]`; correctly, when that is itself. */
  ghost predicate Linked(sqrt: real -> real, wires: seq<seq<real>>, reals: seq<seq<real>>, maxLag: nat, guesses: seq<nat>) {
    |wires| == |reals| && Matched(sqrt, wires, reals, maxLag, guesses)
  }

  ghost predicate Matched(sqrt: real -> real, wires: seq<seq<real>>, reals: seq<seq<real>>, maxLag: nat, guesses: seq<nat>) {
    |guesses| == |wires| && forall i :: 0 <= i < |wires| ==> IsMatch(sqrt, wires[i], reals, maxLag, guesses[i])
  }

  function Hits(guesses: seq<nat>, n: nat): (h: set<nat>)
    requires n <= |guesses|
    ensures forall i: nat :: i in h <==> i < n && guesses[i] == i
  {
    if n == 0 then {}
    else if guesses[n - 1] == n - 1 then Hits(guesses, n - 1) + {n - 1}
    else Hits(guesses, n - 1)
  }

  datatype LinkingReport = LinkingReport(matches: seq<nat>, correct: nat, accuracy: real, chance: real, beatsChance: bool)

  /** Match every wire series to the real series it correlates with most. */
  method MatchFlows(sqrt: real -> real, wires: seq<seq<real>>, reals: seq<seq<real>>, maxLag: nat)
    returns (matches: seq<nat>, correct: nat)
    requires |wires| == |reals|
    ensures Linked(sqrt, wires, reals, maxLag, matches) && correct == HitCount(matches)
  {
    matches, correct := [], 0;
    var i := 0;
    while i < |wires|
      invariant 0 <= i <= |wires|
      invariant Matched(sqrt, wires[..i], reals, maxLag, matches)
      invariant correct == HitCount(matches)
    {
      var best := Match(sqrt, wires[i], reals, maxLag);
      OneMoreHit(matches, best);
      OneMoreLink(sqrt, wires, reals, maxLag, matches, best, i);
      matches := matches + [best];
      if best == i {
        correct := correct + 1;
      }
      i := i + 1;
    }
    assert wires[..i] == wires;
  }

  method Match(sqrt: real -> real, wire: seq<real>, reals: seq<seq<real>>, maxLag: nat) returns (best: nat)
    requires reals != []
    ensures IsMatch(sqrt, wire, reals, maxLag, best)
  {
    ghost var scores;
    best, scores := Guess(sqrt, wire, reals, maxLag);
  }

  lemma OneMoreLink(sqrt: real -> real, wires: seq<seq<real>>, reals: seq<seq<real>>, maxLag: nat, matches: seq<nat>,
                    best: nat, i: nat)
    requires i < |wires| && Matched(sqrt, wires[..i], reals, maxLag, matches)
    requires IsMatch(sqrt, wires[i], reals, maxLag, best)
    ensures Matched(sqrt, wires[..i + 1], reals, maxLag, matches + [best])
  {
    forall j | 0 <= j < i + 1
      ensures IsMatch(sqrt, wires[..i + 1][j], reals, maxLag, (matches + [best])[j])
    {
      if j < i {
        assert wires[..i][j] == wires[j];
      }
    }
  }

  /** How often the matches are right, against chance. */
  method LinkFlows(sqrt: real -> real, wires: seq<seq<real>>, reals: seq<seq<real>>, maxLag: nat)
    returns (report: Option<LinkingReport>)
    requires |wires| == |reals|
    ensures report == None <==> |wires| < 2
    ensures report.Some? ==>
      var r := report.value;
      && Linked(sqrt, wires, reals, maxLag, r.matches)
      && r.correct == |Hits(r.matches, |wires|)|
      && r.accuracy == r.correct as real / |wires| as real
      && r.chance == 1.0 / |wires| as real
      && (r.beatsChance <==> r.accuracy > r.chance + 0.000000001 && r.accuracy > 0.5)
  {
    var n := |wires|;
    if n < 2 {
      return None;
    }
    var matches, correct := MatchFlows(sqrt, wires, reals, maxLag);
    var accuracy, chance := correct as real / n as real, 1.0 / n as real;
    report := Some(LinkingReport(matches, correct, accuracy, chance, accuracy > chance + 0.000000001 && accuracy > 0.5));
  }

  function HitCount(guesses: seq<nat>): nat {
    |Hits(guesses, |guesses|)|
  }

  lemma OneMoreHit(a: seq<nat>, best: nat)
    ensures HitCount(a + [best]) == HitCount(a) + (if best == |a| then 1 else 0)
  {
    HitsExtend(a, a + [best], |a|);
    assert |a| !in Hits(a, |a|);
  }

  lemma HitsExtend(a: seq<nat>, b: seq<nat>, n: nat)
    requires n <= |a| && a <= b
    ensures Hits(b, n) == Hits(a, n)
  {
  }

  /** A guess that is right tells its flow's wire series from every other flow's. */
  lemma HitsHaveOwnSeries(sqrt: real -> real, wires: seq<seq<real>>, reals: seq<seq<real>>, maxLag: nat,
                          guesses: seq<nat>, i: nat, j: nat)
    requires Linked(sqrt, wires, reals, maxLag, guesses)
    requires i in Hits(guesses, |wires|) && j in Hits(guesses, |wires|) && wires[i] == wires[j]
    ensures i == j
  {
    MatchIsUnique(sqrt, wires[i], reals, maxLag, guesses[i], guesses[j]);
  }

  function Kinds(wires: seq<seq<real>>): set<seq<real>> {
    set i | 0 <= i < |wires| :: wires[i]
  }

  lemma {:induction false} InjectiveCount(wires: seq<seq<real>>, hits: set<nat>, kinds: set<seq<real>>)
    requires forall i :: i in hits ==> i < |wires| && wires[i] in kinds
    requires forall i, j :: i in hits && j in hits && wires[i] == wires[j] ==> i == j
    ensures |hits| <= |kinds|
  {
    if i :| i in hits {
      InjectiveCount(wires, hits - {i}, kinds - {wires[i]});
    }
  }

  /** However the real traffic differs, no more flows are linked correctly than there are distinct wire series. */
  lemma LinksAtMostDistinctSeries(sqrt: real -> real, wires: seq<seq<real>>, reals: seq<seq<real>>, maxLag: nat, guesses: seq<nat>)
    requires Linked(sqrt, wires, reals, maxLag, guesses)
    ensures |Hits(guesses, |wires|)| <= |Kinds(wires)|
  {
    var hits := Hits(guesses, |wires|);
    forall i, j | i in hits && j in hits && wires[i] == wires[j]
      ensures i == j
    {
      HitsHaveOwnSeries(sqrt, wires, reals, maxLag, guesses, i, j);
    }
    InjectiveCount(wires, hits, Kinds(wires));
  }

  /** When all flows look alike on the wire the attack links exactly one flow correctly: it scores chance. */
  lemma UniformWireIsChance(sqrt: real -> real, wires: seq<seq<real>>, reals: seq<seq<real>>, maxLag: nat, guesses: seq<nat>)
    requires Linked(sqrt, wires, reals, maxLag, guesses) && wires != []
    requires forall i :: 0 <= i < |wires| ==> wires[i] == wires[0]
    ensures |Hits(guesses, |wires|)| == 1
  {
    var hits := Hits(guesses, |wires|);
    var g := guesses[0];
    TheGuessedFlow(sqrt, wires, reals, maxLag, guesses);
    forall i | i in hits
      ensures i == g
    {
      HitsHaveOwnSeries(sqrt, wires, reals, maxLag, guesses, i, g);
    }
    Singleton(hits, g);
  }

  lemma Singleton(hits: set<nat>, g: nat)
    requires g in hits && forall i :: i in hits ==> i == g
    ensures |hits| == 1
  {
    assert hits == {g};
  }

  /** The flow that all guesses fall on is linked correctly. */
  lemma TheGuessedFlow(sqrt: real -> real, wires: seq<seq<real>>, reals: seq<seq<real>>, maxLag: nat, guesses: seq<nat>)
    requires Linked(sqrt, wires, reals, maxLag, guesses) && wires != []
    requires forall i :: 0 <= i < |wires| ==> wires[i] == wires[0]
    ensures guesses[0] in Hits(guesses, |wires|)
  {
    var g := guesses[0];
    assert IsMatch(sqrt, wires[0], reals, maxLag, g);
    assert g < |wires| && IsMatch(sqrt, wires[g], reals, maxLag, guesses[g]);
    MatchIsUnique(sqrt, wires[0], reals, maxLag, g, guesses[g]);
  }
}
