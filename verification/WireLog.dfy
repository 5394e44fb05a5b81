/** What the wire shows of a flow, and what the linking attack can make of it. */
module WireLog {
  import opened Base
  import opened Crypto
  import opened TimingCorrelation
  import opened Transport
  import opened FlowInvariants
  import opened FlowTiming
  import opened Linking

  /** How many frames have been sealed after `i` service calls. */
  function SealedAfter(p: Params, f: Flow, ios: seq<Io>, i: nat): nat
    requires p.clock.Valid() && i <= |ios|
  {
    RunFlow(p, f, ios[..i]).flow.wireSeq
  }

  /** The frames that the `i`-th service call seals. */
  function FramesBy(p: Params, f: Flow, ios: seq<Io>, i: nat): seq<Frame>
    requires p.clock.Valid() && i < |ios|
  {
    var before, after := RunFlow(p, f, ios[..i]).flow.frames, RunFlow(p, f, ios[..i + 1]).flow.frames;
    after[Min(|before|, |after|)..]
  }

  /** What the log keeps of frames sealed in one call: an instant and the length of each. */
  function Logged(frames: seq<Frame>, at: nat, conn: nat): (r: seq<Record>)
    ensures |r| == |frames|
  {
    seq(|frames|, i requires 0 <= i < |frames| => Record(at, WireFrame, conn, |frames[i].cell|))
  }

  /** The wire log of the first `i` service calls, stamped with the wall clock `stamp`. */
  function LogUpTo(p: Params, f: Flow, ios: seq<Io>, stamp: Instant -> nat, conn: nat, i: nat): seq<Record>
    requires p.clock.Valid() && i <= |ios|
  {
    if i == 0 then []
    else LogUpTo(p, f, ios, stamp, conn, i - 1) + Logged(FramesBy(p, f, ios, i - 1), stamp(ios[i - 1].now), conn)
  }

  function LogOf(p: Params, f: Flow, ios: seq<Io>, stamp: Instant -> nat, conn: nat): seq<Record>
    requires p.clock.Valid()
  {
    LogUpTo(p, f, ios, stamp, conn, |ios|)
  }

  /** A call seals as many frames as the sequence number rises, each exactly one cell long. */
  lemma CallSeals(p: Params, f: Flow, ios: seq<Io>, i: nat)
    requires p.clock.Valid() && i < |ios|
    ensures |FramesBy(p, f, ios, i)| == SealedAfter(p, f, ios, i + 1) - SealedAfter(p, f, ios, i)
    ensures Uniform(FramesBy(p, f, ios, i), p.clock.cellBytes)
  {
    var before := RunFlow(p, f, ios[..i]);
    assert ios[..i + 1][..i] == ios[..i] && ios[..i + 1][i] == ios[i];
    if before.keep {
      ServiceExtends(p, before.flow, ios[i]);
    }
  }

  lemma {:induction false} StillKept(p: Params, f: Flow, ios: seq<Io>, i: nat)
    requires p.clock.Valid() && i <= |ios| && RunFlow(p, f, ios).keep
    ensures RunFlow(p, f, ios[..i]).keep
    decreases |ios| - i
  {
    if i == |ios| {
      assert ios[..i] == ios;
    } else {
      StillKept(p, f, ios, i + 1);
      assert ios[..i + 1][..i] == ios[..i];
    }
  }

  lemma SameCount(p: Params, q: Params, f: Flow, g: Flow, a: seq<Io>, b: seq<Io>, i: nat)
    requires SameClock(p, q) && Alike(p, f, g) && SameSurroundings(a, b) && i <= |a|
    requires RunFlow(p, f, a).keep && RunFlow(q, g, b).keep
    ensures SealedAfter(p, f, a, i) == SealedAfter(q, g, b, i)
  {
    StillKept(p, f, a, i);
    StillKept(q, g, b, i);
    TimingIndependence(p, q, f, g, a[..i], b[..i]);
  }

  lemma UniformLogsAgree(a: seq<Frame>, b: seq<Frame>, cellBytes: nat, at: nat, conn: nat)
    requires |a| == |b| && Uniform(a, cellBytes) && Uniform(b, cellBytes)
    ensures Logged(a, at, conn) == Logged(b, at, conn)
  {
  }

  /** One call's part of the log is the same for both. */
  lemma SameCallLog(p: Params, q: Params, f: Flow, g: Flow, a: seq<Io>, b: seq<Io>, stamp: Instant -> nat, conn: nat, i: nat)
    requires SameClock(p, q) && Alike(p, f, g) && SameSurroundings(a, b) && i < |a|
    requires RunFlow(p, f, a).keep && RunFlow(q, g, b).keep
    ensures Logged(FramesBy(p, f, a, i), stamp(a[i].now), conn) == Logged(FramesBy(q, g, b, i), stamp(b[i].now), conn)
  {
    CallSeals(p, f, a, i);
    CallSeals(q, g, b, i);
    SameCount(p, q, f, g, a, b, i);
    SameCount(p, q, f, g, a, b, i + 1);
    UniformLogsAgree(FramesBy(p, f, a, i), FramesBy(q, g, b, i), p.clock.cellBytes, stamp(a[i].now), conn);
  }

  lemma {:induction false} LogsAgreeUpTo(p: Params, q: Params, f: Flow, g: Flow, a: seq<Io>, b: seq<Io>,
                                         stamp: Instant -> nat, conn: nat, i: nat)
    requires SameClock(p, q) && Alike(p, f, g) && SameSurroundings(a, b) && i <= |a|
    requires RunFlow(p, f, a).keep && RunFlow(q, g, b).keep
    ensures LogUpTo(p, f, a, stamp, conn, i) == LogUpTo(q, g, b, stamp, conn, i)
  {
    if i > 0 {
      LogsAgreeUpTo(p, q, f, g, a, b, stamp, conn, i - 1);
      SameCallLog(p, q, f, g, a, b, stamp, conn, i - 1);
    }
  }

  /** The whole wire log - every frame's instant and length - is the same for two flows with one clock, serviced
      alike, whatever they carry. */
  lemma LogIndependence(p: Params, q: Params, f: Flow, g: Flow, a: seq<Io>, b: seq<Io>, stamp: Instant -> nat, conn: nat)
    requires SameClock(p, q) && Alike(p, f, g) && SameSurroundings(a, b)
    requires RunFlow(p, f, a).keep && RunFlow(q, g, b).keep
    ensures LogOf(p, f, a, stamp, conn) == LogOf(q, g, b, stamp, conn)
  {
    LogsAgreeUpTo(p, q, f, g, a, b, stamp, conn, |a|);
  }

  // --- Exchanging the traffic of flows ------------------------------------------------

  /** What the wire is driven by: a flow with its own rate, seed and policies, and the instants and outcomes of its
      service calls. No two need have anything in common. */
  datatype Carrier = Carrier(p: Params, flow: Flow, calls: seq<(Instant, WriteOutcome)>)

  /** What is carried: the cells that arrive before and during each call, and the series of real bytes logged where
      they enter, which the attack tries to match. */
  datatype Traffic = Traffic(arrivals: seq<(Arrival, seq<Arrival>)>, secret: seq<real>)

  function Drive(x: Carrier, t: Traffic): (ios: seq<Io>)
    requires |t.arrivals| == |x.calls|
    ensures |ios| == |x.calls|
  {
    seq(|x.calls|, i requires 0 <= i < |x.calls| => Io(t.arrivals[i].0, t.arrivals[i].1, x.calls[i].0, x.calls[i].1))
  }

  /** A fixed-rate flow fed cell by cell, not dropped while it is observed. */
  ghost predicate Carries(x: Carrier, t: Traffic) {
    && |t.arrivals| == |x.calls|
    && SameClock(x.p, x.p) && Alike(x.p, x.flow, x.flow)
    && RunFlow(x.p, x.flow, Drive(x, t)).keep
  }

  function WireSeries(x: Carrier, t: Traffic, stamp: Instant -> nat, g: Grid): seq<real>
    requires x.p.clock.Valid() && g.width > 0 && |t.arrivals| == |x.calls|
  {
    Series(LogOf(x.p, x.flow, Drive(x, t), stamp, 0), WireFrame, None, g)
  }

  /** Exchanging the traffic of a flow leaves its wire series as it was. */
  lemma SeriesIgnoresTraffic(x: Carrier, t: Traffic, u: Traffic, stamp: Instant -> nat, g: Grid)
    requires Carries(x, t) && Carries(x, u) && g.width > 0
    ensures WireSeries(x, t, stamp, g) == WireSeries(x, u, stamp, g)
  {
    LogIndependence(x.p, x.p, x.flow, x.flow, Drive(x, t), Drive(x, u), stamp, 0);
  }

  /** Where `i` comes to lie when everything moves on by `r`, going round. */
  function Turned(i: nat, r: nat, n: nat): (k: nat)
    requires i < n && r < n
    ensures k < n
  {
    if i + r < n then i + r else i + r - n
  }

  /** The attack's input when flow `i` carries traffic `i + r`, going round. */
  ghost predicate Rotation(carriers: seq<Carrier>, traffics: seq<Traffic>, stamp: Instant -> nat, g: Grid, r: nat,
                           wires: seq<seq<real>>, reals: seq<seq<real>>)
    requires g.width > 0 && r < |carriers| == |traffics|
  {
    && |wires| == |reals| == |carriers|
    && forall i :: 0 <= i < |carriers| ==>
         var t := traffics[Turned(i, r, |carriers|)];
         Carries(carriers[i], t) && wires[i] == WireSeries(carriers[i], t, stamp, g) && reals[i] == t.secret
  }

  /** Where what lies at `m` lay `d` places before, going round. */
  function Back(m: nat, d: nat, n: nat): (k: nat)
    requires m < n && d < n
    ensures k < n && Turned(k, d, n) == m
  {
    if m >= d then m - d else m + n - d
  }

  /** By these scores no secret matches the wire better than `m`. */
  ghost predicate BestBy(sqrt: real -> real, wire: seq<real>, secrets: seq<seq<real>>, maxLag: nat, m: nat, scores: seq<real>) {
    && m < |secrets| == |scores|
    && (forall j :: 0 <= j < |scores| ==> IsScore(sqrt, wire, secrets[j], maxLag, scores[j]))
    && (forall j :: 0 <= j < |scores| ==> scores[j] <= scores[m])
  }

  ghost predicate IsBest(sqrt: real -> real, wire: seq<real>, secrets: seq<seq<real>>, maxLag: nat, m: nat) {
    exists scores: seq<real> :: BestBy(sqrt, wire, secrets, maxLag, m, scores)
  }

  /** Traffic `m` is among the best for the wire of flow `i`, and none of the `i` before it, going round, is. */
  ghost predicate Leads(sqrt: real -> real, wire: seq<real>, secrets: seq<seq<real>>, maxLag: nat, i: nat, m: nat)
    requires i < |secrets| && m < |secrets|
  {
    && IsBest(sqrt, wire, secrets, maxLag, m)
    && forall d: nat :: 1 <= d <= i ==> !IsBest(sqrt, wire, secrets, maxLag, Back(m, d, |secrets|))
  }

  /** When secrets have been handed round by `r`, the attack's scores say which of them are best. */
  lemma BestIff(sqrt: real -> real, wire: seq<real>, secrets: seq<seq<real>>, maxLag: nat, r: nat,
                reals: seq<seq<real>>, given: seq<real>, k: nat, j: nat)
    requires r < |secrets| == |reals| && j < |reals|
    requires forall x :: 0 <= x < |reals| ==> reals[x] == secrets[Turned(x, r, |reals|)]
    requires IsGuess(sqrt, wire, reals, maxLag, given, k)
    ensures IsBest(sqrt, wire, secrets, maxLag, Turned(j, r, |reals|)) <==> given[j] == given[k]
  {
    var n := |reals|;
    var scores := seq(n, m requires 0 <= m < n => given[Back(m, r, n)]);
    forall x: nat | x < n
      ensures scores[Turned(x, r, n)] == given[x] && IsScore(sqrt, wire, secrets[x], maxLag, scores[x])
    {
      assert Back(Turned(x, r, n), r, n) == x;
      assert reals[Back(x, r, n)] == secrets[x];
    }
    if given[j] == given[k] {
      assert BestBy(sqrt, wire, secrets, maxLag, Turned(j, r, n), scores);
    }
    if IsBest(sqrt, wire, secrets, maxLag, Turned(j, r, n)) {
      var best :| BestBy(sqrt, wire, secrets, maxLag, Turned(j, r, n), best);
      ScoreIsUnique(sqrt, wire, secrets[Turned(j, r, n)], maxLag, best[Turned(j, r, n)], scores[Turned(j, r, n)]);
      ScoreIsUnique(sqrt, wire, secrets[Turned(k, r, n)], maxLag, best[Turned(k, r, n)], scores[Turned(k, r, n)]);
    }
  }

  /** Flow `i` is linked to itself exactly when the traffic it carries leads: it is among the best for its wire, and
      none of those carried by the flows before it is. */
  lemma LinkedWhen(sqrt: real -> real, wire: seq<real>, secrets: seq<seq<real>>, maxLag: nat, r: nat,
                   reals: seq<seq<real>>, i: nat, guess: nat)
    requires r < |secrets| == |reals| && i < |reals|
    requires forall j :: 0 <= j < |reals| ==> reals[j] == secrets[Turned(j, r, |reals|)]
    requires IsMatch(sqrt, wire, reals, maxLag, guess)
    ensures guess == i <==> Leads(sqrt, wire, secrets, maxLag, i, Turned(i, r, |reals|))
  {
    var n := |reals|;
    var given :| IsGuess(sqrt, wire, reals, maxLag, given, guess);
    forall j: nat | j < n
      ensures IsBest(sqrt, wire, secrets, maxLag, Turned(j, r, n)) <==> given[j] == given[guess]
    {
      BestIff(sqrt, wire, secrets, maxLag, r, reals, given, guess, j);
    }
    forall d: nat | 1 <= d <= i
      ensures Back(Turned(i, r, n), d, n) == Turned(i - d, r, n)
    {
    }
    if guess < i {
      assert IsBest(sqrt, wire, secrets, maxLag, Turned(guess, r, n)) && Back(Turned(i, r, n), i - guess, n) == Turned(guess, r, n);
    } else if i < guess {
      assert given[i] < given[guess];
    }
  }

  // --- Counting over all rotations -----------------------------------------------------

  function CountTrue(q: seq<bool>): nat {
    if q == [] then 0 else CountTrue(q[..|q| - 1]) + (if q[|q| - 1] then 1 else 0)
  }

  lemma {:induction false} CountTrueAppend(a: seq<bool>, b: seq<bool>)
    ensures CountTrue(a + b) == CountTrue(a) + CountTrue(b)
  {
    if b == [] {
      assert a + b == a;
    } else {
      assert (a + b)[..|a + b| - 1] == a + b[..|b| - 1];
      CountTrueAppend(a, b[..|b| - 1]);
    }
  }

  /** Going round changes no count. */
  lemma TurnedCount(q: seq<bool>, t: seq<bool>, i: nat)
    requires |q| == |t| && i < |q| && forall r :: 0 <= r < |t| ==> t[r] == q[Turned(i, r, |q|)]
    ensures CountTrue(t) == CountTrue(q)
  {
    assert t == q[i..] + q[..i];
    assert q == q[..i] + q[i..];
    CountTrueAppend(q[i..], q[..i]);
    CountTrueAppend(q[..i], q[i..]);
  }

  function TotalTrue(rows: seq<seq<bool>>): nat {
    if rows == [] then 0 else TotalTrue(rows[..|rows| - 1]) + CountTrue(rows[|rows| - 1])
  }

  ghost predicate Rows(rows: seq<seq<bool>>, n: nat) {
    forall i :: 0 <= i < |rows| ==> |rows[i]| == n
  }

  /** How many rows are true at `r`. */
  function Column(rows: seq<seq<bool>>, n: nat, r: nat): nat
    requires Rows(rows, n) && r < n
  {
    if rows == [] then 0 else Column(rows[..|rows| - 1], n, r) + (if rows[|rows| - 1][r] then 1 else 0)
  }

  function ColumnsUpTo(rows: seq<seq<bool>>, n: nat, r: nat): nat
    requires Rows(rows, n) && r <= n
  {
    if r == 0 then 0 else ColumnsUpTo(rows, n, r - 1) + Column(rows, n, r - 1)
  }

  lemma {:induction false} ColumnsOfLast(rows: seq<seq<bool>>, n: nat, r: nat)
    requires Rows(rows, n) && r <= n && rows != []
    ensures ColumnsUpTo(rows, n, r) == ColumnsUpTo(rows[..|rows| - 1], n, r) + CountTrue(rows[|rows| - 1][..r])
  {
    if r > 0 {
      ColumnsOfLast(rows, n, r - 1);
      assert rows[|rows| - 1][..r][..r - 1] == rows[|rows| - 1][..r - 1];
    }
  }

  lemma {:induction false} NoColumns(n: nat, r: nat)
    requires r <= n
    ensures ColumnsUpTo([], n, r) == 0
  {
    if r > 0 {
      NoColumns(n, r - 1);
    }
  }

  /** Counting by columns or by rows comes to the same. */
  lemma {:induction false} ColumnsAreRows(rows: seq<seq<bool>>, n: nat)
    requires Rows(rows, n)
    ensures ColumnsUpTo(rows, n, n) == TotalTrue(rows)
  {
    if rows == [] {
      NoColumns(n, n);
    } else {
      ColumnsOfLast(rows, n, n);
      assert rows[|rows| - 1][..n] == rows[|rows| - 1];
      ColumnsAreRows(rows[..|rows| - 1], n);
    }
  }

  lemma {:induction false} HitsAreColumn(guesses: seq<nat>, rows: seq<seq<bool>>, n: nat, r: nat)
    requires Rows(rows, n) && r < n && |rows| <= |guesses|
    requires forall i :: 0 <= i < |rows| ==> (guesses[i] == i <==> rows[i][r])
    ensures |Hits(guesses, |rows|)| == Column(rows, n, r)
  {
    if rows != [] {
      var k := |rows| - 1;
      HitsAreColumn(guesses, rows[..k], n, r);
      assert k !in Hits(guesses, k);
    }
  }

  /** The correct links of the first `r` rotations. */
  function HitsUpTo(guesses: seq<seq<nat>>, n: nat, r: nat): nat
    requires r <= |guesses| && forall q :: 0 <= q < |guesses| ==> |guesses[q]| == n
  {
    if r == 0 then 0 else HitsUpTo(guesses, n, r - 1) + |Hits(guesses[r - 1], n)|
  }

  lemma {:induction false} HitsAreColumns(guesses: seq<seq<nat>>, rows: seq<seq<bool>>, n: nat, r: nat)
    requires Rows(rows, n) && |rows| == n == |guesses| && r <= n
    requires forall q :: 0 <= q < n ==> |guesses[q]| == n
    requires forall q, i :: 0 <= q < n && 0 <= i < n ==> (guesses[q][i] == i <==> rows[i][q])
    ensures HitsUpTo(guesses, n, r) == ColumnsUpTo(rows, n, r)
  {
    if r > 0 {
      HitsAreColumns(guesses, rows, n, r - 1);
      HitsAreColumn(guesses[r - 1], rows, n, r - 1);
    }
  }

  function Secrets(traffics: seq<Traffic>): (r: seq<seq<real>>)
    ensures |r| == |traffics|
  {
    seq(|traffics|, j requires 0 <= j < |traffics| => traffics[j].secret)
  }

  lemma RotatedSecrets(carriers: seq<Carrier>, traffics: seq<Traffic>, stamp: Instant -> nat, g: Grid, r: nat,
                       wires: seq<seq<real>>, reals: seq<seq<real>>)
    requires g.width > 0 && r < |carriers| == |traffics| && Rotation(carriers, traffics, stamp, g, r, wires, reals)
    ensures forall j :: 0 <= j < |reals| ==> reals[j] == Secrets(traffics)[Turned(j, r, |reals|)]
  {
  }

  /** The wires of rotation `r` are those of rotation 0. */
  lemma WiresStay(carriers: seq<Carrier>, traffics: seq<Traffic>, stamp: Instant -> nat, g: Grid, r: nat,
                  wires: seq<seq<real>>, reals: seq<seq<real>>, wires0: seq<seq<real>>, reals0: seq<seq<real>>)
    requires g.width > 0 && r < |carriers| == |traffics|
    requires Rotation(carriers, traffics, stamp, g, r, wires, reals) && Rotation(carriers, traffics, stamp, g, 0, wires0, reals0)
    ensures wires == wires0
  {
    var n := |carriers|;
    forall i | 0 <= i < n
      ensures wires[i] == wires0[i]
    {
      SeriesIgnoresTraffic(carriers[i], traffics[Turned(i, r, n)], traffics[Turned(i, 0, n)], stamp, g);
    }
  }

  /** For one flow: which traffics lead on its wire. */
  ghost function LeadRow(sqrt: real -> real, wire: seq<real>, secrets: seq<seq<real>>, maxLag: nat, i: nat): (row: seq<bool>)
    requires i < |secrets|
    ensures |row| == |secrets|
  {
    seq(|secrets|, m requires 0 <= m < |secrets| => Leads(sqrt, wire, secrets, maxLag, i, m))
  }

  ghost function LeadRows(sqrt: real -> real, wires: seq<seq<real>>, secrets: seq<seq<real>>, maxLag: nat): (rows: seq<seq<bool>>)
    requires |wires| == |secrets|
    ensures |rows| == |wires|
  {
    seq(|wires|, i requires 0 <= i < |wires| => LeadRow(sqrt, wires[i], secrets, maxLag, i))
  }

  /** The same by rotations instead of by traffics. */
  ghost function TurnRow(sqrt: real -> real, wire: seq<real>, secrets: seq<seq<real>>, maxLag: nat, i: nat): (row: seq<bool>)
    requires i < |secrets|
    ensures |row| == |secrets|
    ensures CountTrue(row) == CountTrue(LeadRow(sqrt, wire, secrets, maxLag, i))
  {
    var n := |secrets|;
    var row := seq(n, r requires 0 <= r < n => Leads(sqrt, wire, secrets, maxLag, i, Turned(i, r, n)));
    TurnedCount(LeadRow(sqrt, wire, secrets, maxLag, i), row, i);
    row
  }

  lemma {:induction false} SameTotals(a: seq<seq<bool>>, b: seq<seq<bool>>)
    requires |a| == |b| && forall i :: 0 <= i < |a| ==> CountTrue(a[i]) == CountTrue(b[i])
    ensures TotalTrue(a) == TotalTrue(b)
  {
    if a != [] {
      SameTotals(a[..|a| - 1], b[..|b| - 1]);
    }
  }

  /** The attack has been run on rotation `r`. */
  ghost predicate RotationRun(sqrt: real -> real, carriers: seq<Carrier>, traffics: seq<Traffic>,
                              stamp: Instant -> nat, g: Grid, maxLag: nat,
                              wires: seq<seq<seq<real>>>, reals: seq<seq<seq<real>>>, guesses: seq<seq<nat>>, r: nat)
    requires g.width > 0 && r < |carriers| == |traffics| == |wires| == |reals| == |guesses|
  {
    && Rotation(carriers, traffics, stamp, g, r, wires[r], reals[r])
    && Linked(sqrt, wires[r], reals[r], maxLag, guesses[r])
  }

  /** And on every other. */
  ghost predicate AllRotations(sqrt: real -> real, carriers: seq<Carrier>, traffics: seq<Traffic>,
                               stamp: Instant -> nat, g: Grid, maxLag: nat,
                               wires: seq<seq<seq<real>>>, reals: seq<seq<seq<real>>>, guesses: seq<seq<nat>>)
  {
    && g.width > 0 && |carriers| == |traffics| == |wires| == |reals| == |guesses|
    && forall r :: 0 <= r < |carriers| ==> RotationRun(sqrt, carriers, traffics, stamp, g, maxLag, wires, reals, guesses, r)
  }

  lemma RotationsShareWires(sqrt: real -> real, carriers: seq<Carrier>, traffics: seq<Traffic>,
                            stamp: Instant -> nat, g: Grid, maxLag: nat,
                            wires: seq<seq<seq<real>>>, reals: seq<seq<seq<real>>>, guesses: seq<seq<nat>>, r: nat)
    requires AllRotations(sqrt, carriers, traffics, stamp, g, maxLag, wires, reals, guesses) && r < |carriers|
    ensures wires[r] == wires[0] && |wires[r]| == |guesses[r]| == |carriers|
  {
    assert RotationRun(sqrt, carriers, traffics, stamp, g, maxLag, wires, reals, guesses, r);
    assert RotationRun(sqrt, carriers, traffics, stamp, g, maxLag, wires, reals, guesses, 0);
    WiresStay(carriers, traffics, stamp, g, r, wires[r], reals[r], wires[0], reals[0]);
  }

  lemma RightWhen(sqrt: real -> real, carriers: seq<Carrier>, traffics: seq<Traffic>,
                  stamp: Instant -> nat, g: Grid, maxLag: nat,
                  wires: seq<seq<seq<real>>>, reals: seq<seq<seq<real>>>, guesses: seq<seq<nat>>, r: nat, i: nat)
    requires AllRotations(sqrt, carriers, traffics, stamp, g, maxLag, wires, reals, guesses)
    requires r < |carriers| && i < |carriers|
    ensures |wires[0]| == |guesses[r]| == |carriers|
    ensures guesses[r][i] == i <==> TurnRow(sqrt, wires[0][i], Secrets(traffics), maxLag, i)[r]
  {
    RotationsShareWires(sqrt, carriers, traffics, stamp, g, maxLag, wires, reals, guesses, r);
    assert RotationRun(sqrt, carriers, traffics, stamp, g, maxLag, wires, reals, guesses, r);
    RotatedSecrets(carriers, traffics, stamp, g, r, wires[r], reals[r]);
    LinkedWhen(sqrt, wires[0][i], Secrets(traffics), maxLag, r, reals[r], i, guesses[r][i]);
  }

  lemma AllShareWires(sqrt: real -> real, carriers: seq<Carrier>, traffics: seq<Traffic>,
                      stamp: Instant -> nat, g: Grid, maxLag: nat,
                      wires: seq<seq<seq<real>>>, reals: seq<seq<seq<real>>>, guesses: seq<seq<nat>>)
    requires AllRotations(sqrt, carriers, traffics, stamp, g, maxLag, wires, reals, guesses)
    ensures forall r :: 0 <= r < |carriers| ==> wires[r] == wires[0] && |wires[r]| == |guesses[r]| == |carriers|
  {
    forall r | 0 <= r < |carriers|
      ensures wires[r] == wires[0] && |wires[r]| == |guesses[r]| == |carriers|
    {
      RotationsShareWires(sqrt, carriers, traffics, stamp, g, maxLag, wires, reals, guesses, r);
    }
  }

  ghost function TurnRows(sqrt: real -> real, wires: seq<seq<real>>, secrets: seq<seq<real>>, maxLag: nat): (rows: seq<seq<bool>>)
    requires |wires| == |secrets|
    ensures |rows| == |wires| && Rows(rows, |secrets|)
    ensures TotalTrue(rows) == TotalTrue(LeadRows(sqrt, wires, secrets, maxLag))
  {
    var rows := seq(|wires|, i requires 0 <= i < |wires| => TurnRow(sqrt, wires[i], secrets, maxLag, i));
    SameTotals(rows, LeadRows(sqrt, wires, secrets, maxLag));
    rows
  }

  lemma RightExactlyWhen(sqrt: real -> real, carriers: seq<Carrier>, traffics: seq<Traffic>,
                         stamp: Instant -> nat, g: Grid, maxLag: nat,
                         wires: seq<seq<seq<real>>>, reals: seq<seq<seq<real>>>, guesses: seq<seq<nat>>, n: nat,
                         rows: seq<seq<bool>>)
    requires AllRotations(sqrt, carriers, traffics, stamp, g, maxLag, wires, reals, guesses) && 0 < n == |carriers|
    requires |wires[0]| == n && rows == TurnRows(sqrt, wires[0], Secrets(traffics), maxLag)
    requires forall q :: 0 <= q < n ==> |guesses[q]| == n
    ensures forall q, i :: 0 <= q < n && 0 <= i < n ==> (guesses[q][i] == i <==> rows[i][q])
  {
    forall q, i | 0 <= q < n && 0 <= i < n
      ensures guesses[q][i] == i <==> rows[i][q]
    {
      RightAt(sqrt, carriers, traffics, stamp, g, maxLag, wires, reals, guesses, q, i, rows);
    }
  }

  lemma RightAt(sqrt: real -> real, carriers: seq<Carrier>, traffics: seq<Traffic>,
                stamp: Instant -> nat, g: Grid, maxLag: nat,
                wires: seq<seq<seq<real>>>, reals: seq<seq<seq<real>>>, guesses: seq<seq<nat>>, r: nat, i: nat,
                rows: seq<seq<bool>>)
    requires AllRotations(sqrt, carriers, traffics, stamp, g, maxLag, wires, reals, guesses)
    requires r < |carriers| && i < |carriers| && |wires[0]| == |guesses[r]| == |carriers|
    requires rows == TurnRows(sqrt, wires[0], Secrets(traffics), maxLag)
    ensures guesses[r][i] == i <==> rows[i][r]
  {
    RightWhen(sqrt, carriers, traffics, stamp, g, maxLag, wires, reals, guesses, r, i);
    assert rows[i] == TurnRow(sqrt, wires[0][i], Secrets(traffics), maxLag, i);
  }

  /** End to end: take any flows, each with its own rate, seed and wire, and hand their traffics round. No rotation
      changes any wire series, and over all rotations the linking attack, on any grid and lag window, is right about
      flow `i` once for each traffic that matches its wire best and has no other such among the `i` before it. */
  lemma LinkingOverRotations(sqrt: real -> real, carriers: seq<Carrier>, traffics: seq<Traffic>,
                             stamp: Instant -> nat, g: Grid, maxLag: nat,
                             wires: seq<seq<seq<real>>>, reals: seq<seq<seq<real>>>, guesses: seq<seq<nat>>)
    requires AllRotations(sqrt, carriers, traffics, stamp, g, maxLag, wires, reals, guesses) && carriers != []
    ensures forall r :: 0 <= r < |carriers| ==> wires[r] == wires[0] && |wires[r]| == |guesses[r]| == |carriers|
    ensures HitsUpTo(guesses, |carriers|, |carriers|) == TotalTrue(LeadRows(sqrt, wires[0], Secrets(traffics), maxLag))
  {
    AllShareWires(sqrt, carriers, traffics, stamp, g, maxLag, wires, reals, guesses);
    var rows := TurnRows(sqrt, wires[0], Secrets(traffics), maxLag);
    RightExactlyWhen(sqrt, carriers, traffics, stamp, g, maxLag, wires, reals, guesses, |carriers|, rows);
    HitsTotal(guesses, rows, |carriers|);
  }

  lemma HitsTotal(guesses: seq<seq<nat>>, rows: seq<seq<bool>>, n: nat)
    requires Rows(rows, n) && |rows| == n == |guesses|
    requires forall q :: 0 <= q < n ==> |guesses[q]| == n
    requires forall q, i :: 0 <= q < n && 0 <= i < n ==> (guesses[q][i] == i <==> rows[i][q])
    ensures HitsUpTo(guesses, n, n) == TotalTrue(rows)
  {
    HitsAreColumns(guesses, rows, n, n);
    ColumnsAreRows(rows, n);
  }

  lemma {:induction false} OneTrue(q: seq<bool>, m: nat)
    requires m < |q| && forall j :: 0 <= j < |q| ==> (q[j] <==> j == m)
    ensures CountTrue(q) == 1
  {
    var last := |q| - 1;
    if m < last {
      OneTrue(q[..last], m);
    } else {
      NoneTrue(q[..last]);
    }
  }

  lemma {:induction false} NoneTrue(q: seq<bool>)
    requires forall j :: 0 <= j < |q| ==> !q[j]
    ensures CountTrue(q) == 0
  {
    if q != [] {
      NoneTrue(q[..|q| - 1]);
    }
  }

  /** One of the secrets matches the wire best, and no other as well. */
  ghost predicate UniqueBest(sqrt: real -> real, wire: seq<real>, secrets: seq<seq<real>>, maxLag: nat, m: nat) {
    m < |secrets| && forall j: nat :: j < |secrets| ==> (IsBest(sqrt, wire, secrets, maxLag, j) <==> j == m)
  }

  lemma OneLeader(sqrt: real -> real, wire: seq<real>, secrets: seq<seq<real>>, maxLag: nat, i: nat, m: nat)
    requires i < |secrets| && UniqueBest(sqrt, wire, secrets, maxLag, m)
    ensures CountTrue(LeadRow(sqrt, wire, secrets, maxLag, i)) == 1
  {
    OneTrue(LeadRow(sqrt, wire, secrets, maxLag, i), m);
  }

  lemma {:induction false} OnesTotal(rows: seq<seq<bool>>)
    requires forall i :: 0 <= i < |rows| ==> CountTrue(rows[i]) == 1
    ensures TotalTrue(rows) == |rows|
  {
    if rows != [] {
      OnesTotal(rows[..|rows| - 1]);
    }
  }

  /** So when no two traffics match a wire equally well, the attack is right exactly once per flow over all rotations:
      as often as a blind guess. */
  lemma LinkingIsChanceOverRotations(sqrt: real -> real, carriers: seq<Carrier>, traffics: seq<Traffic>,
                                     stamp: Instant -> nat, g: Grid, maxLag: nat,
                                     wires: seq<seq<seq<real>>>, reals: seq<seq<seq<real>>>, guesses: seq<seq<nat>>,
                                     best: seq<nat>)
    requires AllRotations(sqrt, carriers, traffics, stamp, g, maxLag, wires, reals, guesses) && carriers != []
    requires |best| == |carriers| && forall i :: 0 <= i < |carriers| ==>
      i < |wires[0]| && UniqueBest(sqrt, wires[0][i], Secrets(traffics), maxLag, best[i])
    ensures forall r :: 0 <= r < |carriers| ==> wires[r] == wires[0] && |guesses[r]| == |carriers|
    ensures HitsUpTo(guesses, |carriers|, |carriers|) == |carriers|
  {
    LinkingOverRotations(sqrt, carriers, traffics, stamp, g, maxLag, wires, reals, guesses);
    var rows := LeadRows(sqrt, wires[0], Secrets(traffics), maxLag);
    forall i | 0 <= i < |rows|
      ensures CountTrue(rows[i]) == 1
    {
      OneLeader(sqrt, wires[0][i], Secrets(traffics), maxLag, i, best[i]);
    }
    OnesTotal(rows);
  }
}
