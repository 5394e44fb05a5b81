/** Timing of a flow: independence from content, rate, queue depth and lifetime. */
module FlowTiming {
  import opened Base
  import opened Cells
  import opened Crypto
  import opened TimingCorrelation
  import opened ClockContent
  import opened ShapedSessions
  import opened Tails
  import opened Transport
  import opened FlowInvariants

  // --- Two runs: what an observer sees does not depend on what is carried ----------

  /** Two flows with one clock whose departures cannot follow arrivals. Keys, tail policies and entry gates may differ. */
  ghost predicate SameClock(p: Params, q: Params) {
    p.clock.Valid() && p.clock == q.clock && p.noise == q.noise && IgnoresArrivals(p.clock)
  }

  /** What an observer of the wire and the clock can tell of a flow. */
  datatype Visible = Visible(
    rng: int, nextDeparture: Instant, clockStarted: bool, wireSeq: nat, pendingBytes: nat, writtenBytes: nat)

  function View(f: Flow): Visible {
    Visible(f.session.clock.rng, f.session.clock.nextDeparture, f.clockStarted,
            f.wireSeq, |f.pending|, |f.written|)
  }

  /** Alike to an observer, and at one rate unless that makes no difference. */
  ghost predicate Alike(p: Params, f: Flow, g: Flow) {
    && View(f) == View(g)
    && (p.clock.adaptRate || f.session.clock.meanIatMs == g.session.clock.meanIatMs)
    && QueueUniform(p.clock, f.session.clock) && QueueUniform(p.clock, g.session.clock)
  }

  lemma PullKeepsView(p: Params, f: Flow, now: Instant)
    requires p.clock.Valid() && QueueUniform(p.clock, f.session.clock)
    ensures View(Pulled(p, f, now)) == View(f) && QueueUniform(p.clock, Pulled(p, f, now).session.clock)
    ensures p.clock.adaptRate || Pulled(p, f, now).session.clock.meanIatMs == f.session.clock.meanIatMs
  {
  }

  /** What a slot shows: one more frame of one size, and where the clock has moved on to. */
  lemma EmitShows(p: Params, f: Flow, now: Instant)
    requires p.clock.Valid() && QueueUniform(p.clock, f.session.clock)
    ensures
      var g, t := Emit(p, f, now), Fired(p.clock, p.noise, f.session.clock, now);
      && View(g) == Visible(t.rng, t.nextDeparture, f.clockStarted, f.wireSeq + 1,
                            |f.pending| + EncFrameLen(p.clock.cellBytes), |f.written|)
      && g.session.clock == t && QueueUniform(p.clock, t)
  {
  }

  lemma EmitAlike(p: Params, q: Params, f: Flow, g: Flow, now: Instant)
    requires SameClock(p, q) && Alike(p, f, g)
    ensures Alike(p, Emit(p, f, now), Emit(q, g, now))
    ensures |Emit(p, f, now).pending| == |f.pending| + EncFrameLen(p.clock.cellBytes)
  {
    CellSizedPacketsKeepTheClock(p.clock, p.noise, f.session.clock, g.session.clock, now);
    EmitShows(p, f, now);
    EmitShows(q, g, now);
  }

  lemma SlotAlike(p: Params, q: Params, f: Flow, g: Flow, now: Instant, gateF: bool, gateG: bool)
    requires SameClock(p, q) && Alike(p, f, g)
    ensures Alike(p, Slot(p, f, now, gateF), Slot(q, g, now, gateG))
  {
    PullKeepsView(p, f, now);
    PullKeepsView(q, g, now);
    EmitAlike(p, q, if CanPull(p, f, gateF) then Pulled(p, f, now) else f,
              if CanPull(q, g, gateG) then Pulled(q, g, now) else g, now);
  }

  lemma {:induction false} SlotsAlike(p: Params, q: Params, f: Flow, g: Flow, now: Instant,
                                      gateF: bool, gateG: bool, duringF: seq<Arrival>, duringG: seq<Arrival>)
    requires SameClock(p, q) && Alike(p, f, g)
    ensures Alike(p, Slots(p, f, now, gateF, duringF), Slots(q, g, now, gateG, duringG))
    decreases PENDING_CAP - |f.pending|
  {
    if SlotDue(f, now) {
      var f', g' := Arrive(f, FirstArrival(duringF)), Arrive(g, FirstArrival(duringG));
      SlotAlike(p, q, f', g', now, gateF, gateG);
      SlotsAlike(p, q, Slot(p, f', now, gateF), Slot(q, g', now, gateG), now, gateF, gateG,
                 LaterArrivals(duringF), LaterArrivals(duringG));
    }
  }

  /** The same instants and the same behaviour of the wire; the traffic may be anything. */
  predicate SameSurroundings(a: seq<Io>, b: seq<Io>) {
    |a| == |b| && forall i :: 0 <= i < |a| ==> a[i].now == b[i].now && a[i].outcome == b[i].outcome
  }

  lemma StartAlike(p: Params, q: Params, f: Flow, g: Flow, a: Arrival, b: Arrival, now: Instant)
    requires SameClock(p, q) && Alike(p, f, g)
    ensures Alike(p, Started(p, Arrive(f, a), now), Started(q, Arrive(g, b), now))
  {
    if !f.clockStarted {
      StepRange(p.clock, p.noise, f.session.clock.rng, f.session.clock.meanIatMs);
      StepRange(p.clock, p.noise, g.session.clock.rng, g.session.clock.meanIatMs);
    }
  }

  lemma ServiceAlike(p: Params, q: Params, f: Flow, g: Flow, a: Io, b: Io)
    requires SameClock(p, q) && Alike(p, f, g)
    requires a.now == b.now && a.outcome == b.outcome
    ensures Alike(p, Service(p, f, a).flow, Service(q, g, b).flow)
  {
    var f', g' := Started(p, Arrive(f, a.before), a.now), Started(q, Arrive(g, b.before), b.now);
    StartAlike(p, q, f, g, a.before, b.before, a.now);
    SlotsAlike(p, q, f', g', a.now, a.now >= p.realHoldUntil, b.now >= q.realHoldUntil, a.during, b.during);
    FlushAlike(p, Clocked(p, f, a), Clocked(q, g, b), a.outcome);
  }

  lemma FlushAlike(p: Params, f: Flow, g: Flow, outcome: WriteOutcome)
    requires Alike(p, f, g)
    ensures Alike(p, Flushed(f, outcome).flow, Flushed(g, outcome).flow)
  {
  }

  /** Timing independence: two flows with one clock, of fixed rate or with intervals that all round alike, serviced
      at the same instants over wires that behave alike, have emitted the same number of equally long frames, written
      the same number of bytes and scheduled the same next slot - whatever cells, sizes and arrival times they carry -
      as long as neither has been dropped. Every prefix of a run is a run, so this holds at every service. */
  lemma {:induction false} TimingIndependence(p: Params, q: Params, f: Flow, g: Flow, a: seq<Io>, b: seq<Io>)
    requires SameClock(p, q) && Alike(p, f, g) && SameSurroundings(a, b)
    requires RunFlow(p, f, a).keep && RunFlow(q, g, b).keep
    ensures Alike(p, RunFlow(p, f, a).flow, RunFlow(q, g, b).flow)
  {
    if a != [] {
      var last := |a| - 1;
      TimingIndependence(p, q, f, g, a[..last], b[..last]);
      ServiceAlike(p, q, RunFlow(p, f, a[..last]).flow, RunFlow(q, g, b[..last]).flow, a[last], b[last]);
    }
  }

  /** Two fresh flows are alike exactly when their clocks stand alike; what they will carry has no say. */
  lemma FreshAlike(p: Params, s: Session, t: Session)
    requires FreshSession(s) && FreshSession(t)
    ensures Alike(p, Fresh(s, 0), Fresh(t, 0)) <==>
      && s.clock.rng == t.clock.rng && s.clock.nextDeparture == t.clock.nextDeparture
      && (p.clock.adaptRate || s.clock.meanIatMs == t.clock.meanIatMs)
  {
  }

  /** One cell more at the source does not move the departure after the slot that is due. */
  predicate SameDeparture(p: Params, g: Flow, cell: seq<Byte>)
    requires p.clock.Valid()
  {
    var now := g.session.clock.nextDeparture;
    Slot(p, Arrive(g, Arrival([cell], false)), now, true).session.clock.nextDeparture
    == Slot(p, g, now, true).session.clock.nextDeparture
  }

  /** Departures ignore what arrives exactly when the rate is fixed or all intervals round alike: in every other
      configuration, for any logarithm, one waiting cell moves a departure. */
  lemma DeparturesIgnoreArrivalsIff(cfg: Config, ln: real -> real, aead: Aead)
    requires cfg.Valid() && TakesUnit(ln)
    ensures IgnoresArrivals(cfg) <==>
      forall p: Params, g: Flow, cell: seq<Byte> ::
        p.clock == cfg && p.noise.ln == ln && UnitNoise(p.noise) && Alike(p, g, g) ==> SameDeparture(p, g, cell)
  {
    if IgnoresArrivals(cfg) {
      forall p: Params, g: Flow, cell: seq<Byte> | p.clock == cfg && Alike(p, g, g)
        ensures SameDeparture(p, g, cell)
      {
        SlotAlike(p, p, Arrive(g, Arrival([cell], false)), g, g.session.clock.nextDeparture, true, true);
      }
    } else {
      var p, g, cell := AdaptiveClockFollowsContent(cfg, ln, aead);
      assert Alike(p, g, g) && !SameDeparture(p, g, cell);
    }
  }

  /** The failing side: a generator that always draws the same, and a flow of no unusual history. */
  lemma AdaptiveClockFollowsContent(cfg: Config, ln: real -> real, aead: Aead) returns (p: Params, g: Flow, cell: seq<Byte>)
    requires cfg.Valid() && cfg.adaptRate && !ConstantSteps(cfg) && TakesUnit(ln)
    ensures p.clock == cfg && p.noise.ln == ln && UnitNoise(p.noise) && Alike(p, g, g) && |cell| == cfg.cellBytes
    ensures !SameDeparture(p, g, cell)
  {
    var b := LastBoundary(cfg);
    BoundarySeparates(cfg, cfg.minIatMs);
    var k := b / cfg.maxIatMs;
    UnitQuotient(b, cfg.maxIatMs);
    assert Attains(ln, -k);
    var u :| Attained(ln, -k, u);
    p := Params(cfg, DrawingNoise(u, ln), aead, Off, Thresholds(0, 0, 0), 0, 0);
    g := Fresh(Session(State(0, 0, [], 0, cfg.maxIatMs, Some(0), 0, 0), 0), 0);
    cell := seq<Byte>(cfg.cellBytes, _ => 0);
    var mean := Adapted(cfg, cfg.maxIatMs, 0.0);
    assert MillisBetween(0, 0) == 0.0;
    DrawnSteps(cfg, u, k, ln, mean);
    var f := Arrive(g, Arrival([cell], false));
    assert f.channel == [cell];
    assert Pulled(p, f, 0).session.clock.meanIatMs == mean;
  }

  /** A generator that always draws `u`. */
  function DrawingNoise(u: real, ln: real -> real): Noise {
    Noise((_: int) => u, (r: int) => r + 1, (_, _) => 0, (r: int, n: nat) => r + n, (_, _) => 0, (r: int) => r + 1, ln)
  }

  lemma UnitQuotient(b: real, c: real)
    requires 0.0 < b <= c
    ensures 0.0 < b / c <= 1.0 && b / c * c == b
  {
  }

  /** The draw is chosen so that the longest mean reaches the last boundary and a mean lowered by one arrival does not. */
  lemma DrawnSteps(cfg: Config, u: real, k: real, ln: real -> real, mean: real)
    requires cfg.Valid() && !ConstantSteps(cfg) && Attained(ln, -k, u)
    requires 0.0 < k <= 1.0 && k * cfg.maxIatMs == LastBoundary(cfg) && mean == Adapted(cfg, cfg.maxIatMs, 0.0)
    ensures Step(cfg, DrawingNoise(u, ln), 0, cfg.maxIatMs) != Step(cfg, DrawingNoise(u, ln), 0, mean)
  {
    Lowered(cfg, mean);
    DrawnSample(ln, u, k, cfg.maxIatMs, LastBoundary(cfg));
    DrawnBelow(ln, u, k, mean, cfg.maxIatMs, LastBoundary(cfg));
    SamplesSeparate(cfg, DrawingNoise(u, ln), 0, cfg.maxIatMs, mean);
  }

  lemma DrawnSample(ln: real -> real, u: real, k: real, mean: real, x: real)
    requires Attained(ln, -k, u) && k * mean == x
    ensures ExponentialSample(DrawingNoise(u, ln), 0, mean) == x
  {
    var m := -mean;
    assert ln(u) == -k && MaxReal(u, F64_EPSILON) == u;
    assert m * -k == x;
  }

  lemma DrawnBelow(ln: real -> real, u: real, k: real, mean: real, longest: real, x: real)
    requires Attained(ln, -k, u) && k > 0.0 && mean < longest && k * longest == x
    ensures ExponentialSample(DrawingNoise(u, ln), 0, mean) < x
  {
    ScaledBelow(k, mean, longest);
    DrawnSample(ln, u, k, mean, k * mean);
  }

  lemma Lowered(cfg: Config, mean: real)
    requires cfg.Valid() && mean == Adapted(cfg, cfg.maxIatMs, 0.0)
    ensures cfg.minIatMs <= mean < cfg.maxIatMs
  {
    ScaledBelow(cfg.maxIatMs, 1.0 - cfg.emaAlpha, 1.0);
    assert (1.0 - cfg.emaAlpha) * cfg.maxIatMs == cfg.maxIatMs * (1.0 - cfg.emaAlpha);
  }

  lemma ScaledBelow(k: real, x: real, y: real)
    requires k > 0.0 && x < y
    ensures k * x < k * y
  {
    assert k * (y - x) > 0.0;
  }

  // --- Rate of a flow -----------------------------------------------------------

  /** Past the first `n` frames each has moved the schedule on from `from` by a minimum step at least, and the last
      was due by `until`. */
  ghost predicate FlowPaced(p: Params, n: nat, from: Instant, g: Flow, until: Instant)
    requires p.clock.Valid()
  {
    var k := g.wireSeq - n;
    && k >= -1
    && (k >= 0 ==> g.clockStarted && g.session.clock.nextDeparture >= from + StepSpan(p.clock, k))
    && (k >= 1 ==> from + StepSpan(p.clock, k - 1) <= until)
  }

  /** The frame before the count starts is sent no earlier than this. */
  predicate Late(n: nat, from: Instant, g: Flow, now: Instant) { g.wireSeq < n ==> now >= from + MAX_CATCHUP_LAG }

  lemma SlotPaced(p: Params, n: nat, from: Instant, g: Flow, now: Instant, gateOpen: bool, until: Instant)
    requires p.clock.Valid() && FlowPaced(p, n, from, g, until) && Late(n, from, g, now)
    requires g.clockStarted && g.session.clock.nextDeparture <= now <= until
    ensures FlowPaced(p, n, from, Slot(p, g, now, gateOpen), until) && Slot(p, g, now, gateOpen).clockStarted
  {
    var h := if CanPull(p, g, gateOpen) then Pulled(p, g, now) else g;
    AdvanceProgress(p.clock, p.noise, h.session.clock, now);
    StepSpanZero(p.clock);
    StepSpanNext(p.clock, g.wireSeq - n);
  }

  lemma {:induction false} SlotsPaced(p: Params, n: nat, from: Instant, g: Flow, now: Instant, gateOpen: bool,
                                      during: seq<Arrival>, until: Instant)
    requires p.clock.Valid() && FlowPaced(p, n, from, g, until) && Late(n, from, g, now)
    requires g.clockStarted && now <= until
    ensures FlowPaced(p, n, from, Slots(p, g, now, gateOpen, during), until)
    decreases PENDING_CAP - |g.pending|
  {
    if SlotDue(g, now) {
      var h := Arrive(g, FirstArrival(during));
      SlotPaced(p, n, from, h, now, gateOpen, until);
      SlotsPaced(p, n, from, Slot(p, h, now, gateOpen), now, gateOpen, LaterArrivals(during), until);
    }
  }

  /** What moves neither the sequence number nor a running clock keeps the pace. */
  lemma SamePace(p: Params, n: nat, from: Instant, g: Flow, h: Flow, until: Instant)
    requires p.clock.Valid() && FlowPaced(p, n, from, g, until) && h.wireSeq == g.wireSeq
    requires g.clockStarted ==> h.clockStarted && h.session.clock.nextDeparture == g.session.clock.nextDeparture
    ensures FlowPaced(p, n, from, h, until)
  {
  }

  lemma ServicePaced(p: Params, n: nat, from: Instant, g: Flow, io: Io, until: Instant)
    requires p.clock.Valid() && FlowPaced(p, n, from, g, until) && Late(n, from, g, io.now) && io.now <= until
    ensures FlowPaced(p, n, from, Service(p, g, io).flow, until)
  {
    var h := Started(p, Arrive(g, io.before), io.now);
    SamePace(p, n, from, g, h, until);
    SlotsPaced(p, n, from, h, io.now, io.now >= p.realHoldUntil, io.during, until);
    SamePace(p, n, from, Clocked(p, g, io), Service(p, g, io).flow, until);
  }

  lemma {:induction false} RunPaced(p: Params, n: nat, from: Instant, f: Flow, ios: seq<Io>, until: Instant)
    requires p.clock.Valid() && FlowPaced(p, n, from, f, until)
    requires forall i :: 0 <= i < |ios| ==> ios[i].now <= until
    requires f.wireSeq < n ==> forall i :: 0 <= i < |ios| ==> ios[i].now >= from + MAX_CATCHUP_LAG
    ensures FlowPaced(p, n, from, RunFlow(p, f, ios).flow, until) && RunFlow(p, f, ios).flow.wireSeq >= f.wireSeq
  {
    if ios != [] {
      var last := |ios| - 1;
      RunPaced(p, n, from, f, ios[..last], until);
      var before := RunFlow(p, f, ios[..last]);
      if before.keep {
        ServicePaced(p, n, from, before.flow, ios[last], until);
        ServiceCountsUp(p, before.flow, ios[last]);
      }
    }
  }

  lemma {:induction false} SlotsCountUp(p: Params, g: Flow, now: Instant, gateOpen: bool, during: seq<Arrival>)
    requires p.clock.Valid()
    ensures Slots(p, g, now, gateOpen, during).wireSeq >= g.wireSeq
    decreases PENDING_CAP - |g.pending|
  {
    if SlotDue(g, now) {
      var h := Arrive(g, FirstArrival(during));
      SlotsCountUp(p, Slot(p, h, now, gateOpen), now, gateOpen, LaterArrivals(during));
    }
  }

  lemma ServiceCountsUp(p: Params, g: Flow, io: Io)
    requires p.clock.Valid()
    ensures Service(p, g, io).flow.wireSeq >= g.wireSeq
  {
    SlotsCountUp(p, Started(p, Arrive(g, io.before), io.now), io.now, io.now >= p.realHoldUntil, io.during);
  }

  /** Rate of a running flow: from a state whose schedule is at most 200 ms behind `t0`, no more frames are sealed by
      `t1` than the minimum step allows, whatever the traffic, the polling and the wire do. */
  lemma FlowRateBound(p: Params, f: Flow, ios: seq<Io>, t0: Instant, t1: Instant)
    requires p.clock.Valid() && MinStep(p.clock) > 0 && t0 <= t1
    requires f.clockStarted && f.session.clock.nextDeparture >= t0 - MAX_CATCHUP_LAG
    requires forall i :: 0 <= i < |ios| ==> ios[i].now <= t1
    ensures RunFlow(p, f, ios).flow.wireSeq - f.wireSeq <= SlotBudget(p.clock, t1 - t0 + MAX_CATCHUP_LAG)
  {
    var from := f.session.clock.nextDeparture;
    StepSpanZero(p.clock);
    RunPaced(p, f.wireSeq, from, f, ios, t1);
    SlotsFit(p.clock, RunFlow(p, f, ios).flow.wireSeq - f.wireSeq, from, t0, t1);
  }

  /** From any state at all, a window opening in the middle of a write stall or before the first service included, it
      is at most one frame more. */
  lemma AnyWindowRateBound(p: Params, f: Flow, ios: seq<Io>, t0: Instant, t1: Instant)
    requires p.clock.Valid() && MinStep(p.clock) > 0 && t0 <= t1
    requires forall i :: 0 <= i < |ios| ==> t0 <= ios[i].now <= t1
    ensures RunFlow(p, f, ios).flow.wireSeq - f.wireSeq <= SlotBudget(p.clock, t1 - t0 + MAX_CATCHUP_LAG) + 1
  {
    var from := t0 - MAX_CATCHUP_LAG;
    RunPaced(p, f.wireSeq + 1, from, f, ios, t1);
    var k := RunFlow(p, f, ios).flow.wireSeq - f.wireSeq;
    SlotsFit(p.clock, if k > 0 then k - 1 else 0, from, t0, t1);
  }

  // --- Tail accounting and lifetime -----------------------------------------------

  /** The tail fixed at the end of the source, with the totals of that moment `at`, not after `until`. */
  ghost predicate TailFixed(p: Params, f: Flow, until: Instant) {
    f.readerDone ==>
      && f.finishBy.Some?
      && (f.tail.Some? ==> f.finishBy.value == f.tail.value.deadline + BACKSTOP)
      && exists seqAt: nat, at: Instant :: TailSetAt(p, f, seqAt, at) && at <= until
  }

  ghost predicate TailSetAt(p: Params, f: Flow, seqAt: nat, at: Instant) {
    f.tail == TailTargets(f.realBytes, seqAt, p.policy, p.thresholds, p.sessionStart, at)
  }

  lemma PullFixesTail(p: Params, f: Flow, now: Instant, gateOpen: bool)
    requires CanPull(p, f, gateOpen)
    ensures TailFixed(p, Pulled(p, f, now), now)
  {
    if f.channel == [] && f.closed {
      assert TailSetAt(p, Pulled(p, f, now), f.wireSeq, now);
    }
  }

  /** Whatever happens after the end of the source leaves its totals and its deadlines alone. */
  predicate SameEnding(f: Flow, g: Flow) {
    f.readerDone ==> g.readerDone && g.tail == f.tail && g.finishBy == f.finishBy && g.realBytes == f.realBytes
  }

  lemma SameTail(p: Params, f: Flow, g: Flow, from: Instant, until: Instant)
    requires TailFixed(p, f, from) && from <= until
    requires g.readerDone == f.readerDone && SameEnding(f, g)
    ensures TailFixed(p, g, until)
  {
    if f.readerDone {
      var seqAt: nat, at: Instant :| TailSetAt(p, f, seqAt, at) && at <= from;
      assert TailSetAt(p, g, seqAt, at);
    }
  }

  lemma SlotKeepsTail(p: Params, f: Flow, now: Instant, gateOpen: bool, until: Instant)
    requires p.clock.Valid() && TailFixed(p, f, until) && now <= until
    ensures TailFixed(p, Slot(p, f, now, gateOpen), until) && SameEnding(f, Slot(p, f, now, gateOpen))
  {
    var g := Slot(p, f, now, gateOpen);
    if CanPull(p, f, gateOpen) {
      PullFixesTail(p, f, now, gateOpen);
      SameTail(p, Pulled(p, f, now), g, now, until);
    } else {
      SameTail(p, f, g, until, until);
    }
  }

  lemma {:induction false} SlotsKeepTail(p: Params, f: Flow, now: Instant, gateOpen: bool,
                                         during: seq<Arrival>, until: Instant)
    requires p.clock.Valid() && TailFixed(p, f, until) && now <= until
    ensures TailFixed(p, Slots(p, f, now, gateOpen, during), until)
    ensures SameEnding(f, Slots(p, f, now, gateOpen, during))
    decreases PENDING_CAP - |f.pending|
  {
    if SlotDue(f, now) {
      var g := Arrive(f, FirstArrival(during));
      SameTail(p, f, g, until, until);
      SlotKeepsTail(p, g, now, gateOpen, until);
      SlotsKeepTail(p, Slot(p, g, now, gateOpen), now, gateOpen, LaterArrivals(during), until);
    }
  }

  lemma ServiceKeepsTail(p: Params, f: Flow, io: Io, until: Instant)
    requires p.clock.Valid() && TailFixed(p, f, until) && io.now <= until
    ensures TailFixed(p, Service(p, f, io).flow, until) && SameEnding(f, Service(p, f, io).flow)
  {
    var g := Started(p, Arrive(f, io.before), io.now);
    SameTail(p, f, g, until, until);
    SlotsKeepTail(p, g, io.now, io.now >= p.realHoldUntil, io.during, until);
    SameTail(p, Clocked(p, f, io), Service(p, f, io).flow, until, until);
  }

  predicate Until(ios: seq<Io>, until: Instant) {
    forall i :: 0 <= i < |ios| ==> ios[i].now <= until
  }

  lemma {:induction false} RunKeepsTail(p: Params, f: Flow, ios: seq<Io>, until: Instant)
    requires p.clock.Valid() && TailFixed(p, f, until) && Until(ios, until)
    ensures TailFixed(p, RunFlow(p, f, ios).flow, until) && SameEnding(f, RunFlow(p, f, ios).flow)
  {
    if ios != [] {
      var last := |ios| - 1;
      RunKeepsTail(p, f, ios[..last], until);
      var before := RunFlow(p, f, ios[..last]);
      if before.keep {
        ServiceKeepsTail(p, before.flow, ios[last], until);
      }
    }
  }

  /** The totals behind the tail: once the reader is done, `realBytes` is the payload of all cells
      ever sent (saturating at 2^64 - 1), however the source cut its writes. */
  lemma RealBytesIsTotal(p: Params, session: Session, ios: seq<Io>)
    requires p.clock.Valid() && FreshSession(session) && WholeCellRun(p, ios)
    ensures
      var f := RunFlow(p, Fresh(session, 0), ios).flow;
      f.readerDone ==> f.realBytes == Min(|Payload(f.sent)|, U64_SIZE - 1)
  {
    FreshConserved(p, session);
    RunConserves(p, Fresh(session, 0), ios);
    var f := RunFlow(p, Fresh(session, 0), ios).flow;
    if f.readerDone {
      assert f.sent == Taken(f);
    }
  }

  /** Two flows that carried the same number of source bytes get the same class, however fragmented. */
  lemma FragmentationDoesNotChangeTheClass(thresholds: Thresholds, id: U16, pad: nat -> (nat -> Byte),
                                           a: seq<seq<Byte>>, b: seq<seq<Byte>>)
    requires |Concat(a)| == |Concat(b)|
    ensures thresholds.Classify(Min(|Payload(CellsOfReads(id, a, pad))|, U64_SIZE - 1))
         == thresholds.Classify(Min(|Payload(CellsOfReads(id, b, pad))|, U64_SIZE - 1))
  {
    ReadsRoundTrip(id, a, pad);
    ReadsRoundTrip(id, b, pad);
  }

  /** The write of this call failed or found the connection closed. */
  predicate WriteFailed(p: Params, f: Flow, io: Io)
    requires p.clock.Valid()
  {
    Clocked(p, f, io).pending != [] && (io.outcome == Accepts(0) || io.outcome == WireError)
  }

  /** The flow as the `i`-th service call of a run finds it. */
  function FoundBy(p: Params, f: Flow, ios: seq<Io>, i: nat): Flow
    requires p.clock.Valid() && i < |ios|
  {
    RunFlow(p, f, ios[..i]).flow
  }

  /** At that call the write fails, or the flow is finished. */
  predicate EndsAt(p: Params, f: Flow, ios: seq<Io>, i: nat)
    requires p.clock.Valid() && i < |ios|
  {
    var before := FoundBy(p, f, ios, i);
    WriteFailed(p, before, ios[i]) || Finished(Service(p, before, ios[i]).flow, ios[i].now)
  }

  lemma {:induction false} RunEndsIff(p: Params, f: Flow, ios: seq<Io>)
    requires p.clock.Valid()
    ensures !RunFlow(p, f, ios).keep <==> exists i :: 0 <= i < |ios| && EndsAt(p, f, ios, i)
  {
    if ios != [] {
      var last := |ios| - 1;
      RunEndsIff(p, f, ios[..last]);
      forall i | 0 <= i < last
        ensures EndsAt(p, f, ios[..last], i) <==> EndsAt(p, f, ios, i)
      {
        EndsAtPrefix(p, f, ios, i, last);
      }
      LastCallEnds(p, f, ios);
      EndsSplit(p, f, ios, last);
    }
  }

  lemma EndsAtPrefix(p: Params, f: Flow, ios: seq<Io>, i: nat, n: nat)
    requires p.clock.Valid() && i < n <= |ios|
    ensures EndsAt(p, f, ios[..n], i) <==> EndsAt(p, f, ios, i)
  {
    assert ios[..n][..i] == ios[..i];
  }

  /** Some call ends the flow: one before the last, or the last. */
  lemma EndsSplit(p: Params, f: Flow, ios: seq<Io>, last: nat)
    requires p.clock.Valid() && |ios| == last + 1
    requires forall i :: 0 <= i < last ==> (EndsAt(p, f, ios[..last], i) <==> EndsAt(p, f, ios, i))
    ensures (exists i :: 0 <= i < |ios| && EndsAt(p, f, ios, i))
       <==> (exists i :: 0 <= i < last && EndsAt(p, f, ios[..last], i)) || EndsAt(p, f, ios, last)
  {
    if i :| 0 <= i < |ios| && EndsAt(p, f, ios, i) {
      assert i < last ==> EndsAt(p, f, ios[..last], i);
    }
  }

  lemma LastCallEnds(p: Params, f: Flow, ios: seq<Io>)
    requires p.clock.Valid() && ios != []
    ensures
      var last := |ios| - 1;
      RunFlow(p, f, ios).keep <==> RunFlow(p, f, ios[..last]).keep && !EndsAt(p, f, ios, last)
  {
  }

  /** Lifetime: over a whole run a flow is dropped exactly when at some call its write failed, or its source had ended
      and it was drained with its tail met or past its backstop; and a call that finds it finished is never before
      the deadline. */
  lemma DroppedExactlyWhen(p: Params, session: Session, ios: seq<Io>)
    requires p.clock.Valid()
    ensures
      var f := Fresh(session, 0);
      && (!RunFlow(p, f, ios).keep <==> exists i :: 0 <= i < |ios| && EndsAt(p, f, ios, i))
      && forall i :: 0 <= i < |ios| && Finished(Service(p, FoundBy(p, f, ios, i), ios[i]).flow, ios[i].now) ==>
           var tail := Service(p, FoundBy(p, f, ios, i), ios[i]).flow.tail;
           tail.Some? ==> ios[i].now >= tail.value.deadline
  {
    var f := Fresh(session, 0);
    RunEndsIff(p, f, ios);
    forall i | 0 <= i < |ios|
      ensures TailFixed(p, Service(p, FoundBy(p, f, ios, i), ios[i]).flow, LatestOf(ios))
    {
      LatestIsLatest(ios);
      RunKeepsTail(p, f, ios[..i], LatestOf(ios));
      ServiceKeepsTail(p, FoundBy(p, f, ios, i), ios[i], LatestOf(ios));
    }
  }

  function LatestOf(ios: seq<Io>): Instant {
    if ios == [] then 0 else Max(LatestOf(ios[..|ios| - 1]), ios[|ios| - 1].now)
  }

  lemma {:induction false} LatestIsLatest(ios: seq<Io>)
    ensures Until(ios, LatestOf(ios))
  {
    if ios != [] {
      LatestIsLatest(ios[..|ios| - 1]);
      assert forall i :: 0 <= i < |ios| - 1 ==> ios[..|ios| - 1][i] == ios[i];
    }
  }

  /** A flow whose source has ended is gone at the first service at or past its backstop, even if the
      peer no longer reads. */
  lemma BackstopCloses(p: Params, session: Session, ios: seq<Io>, io: Io, until: Instant)
    requires p.clock.Valid() && Until(ios + [io], until)
    requires
      var before := RunFlow(p, Fresh(session, 0), ios).flow;
      before.readerDone && io.now >= before.finishBy.GetOr(io.now)
    ensures RunFlow(p, Fresh(session, 0), ios).flow.finishBy.Some?
    ensures !RunFlow(p, Fresh(session, 0), ios + [io]).keep
  {
    var f := Fresh(session, 0);
    assert (ios + [io])[..|ios|] == ios && (ios + [io])[|ios|] == io;
    assert forall i :: 0 <= i < |ios| ==> ios[i] == (ios + [io])[i];
    RunKeepsTail(p, f, ios, until);
    var before := RunFlow(p, f, ios);
    if before.keep {
      ServiceKeepsTail(p, before.flow, io, until);
    }
  }

  const LONGEST_FLOOR: Duration := 7200 * NANOS_PER_SEC

  /** Under the Epoch policy a flow whose source has ended is due to end on a boundary of the shared grid,
      after its class floor; `Tails.SharedDeadline` says when two anchors share that boundary. */
  lemma EpochFlowsEndOnTheGrid(p: Params, session: Session, ios: seq<Io>, clock: EpochClock, until: Instant)
    requires p.clock.Valid() && p.policy == Epoch(clock) && Until(ios, until)
    requires clock.period > 0 && clock.origin <= p.sessionStart <= until
    requires InRange(clock, until + LONGEST_FLOOR)
    requires RunFlow(p, Fresh(session, 0), ios).flow.readerDone
    ensures
      var f := RunFlow(p, Fresh(session, 0), ios).flow;
      && f.tail.Some?
      && IsBoundary(clock, f.tail.value.deadline)
      && f.tail.value.deadline > p.sessionStart + p.thresholds.Classify(f.realBytes).TargetDuration()
      && f.finishBy == Some(f.tail.value.deadline + BACKSTOP)
  {
    RunKeepsTail(p, Fresh(session, 0), ios, until);
    var f := RunFlow(p, Fresh(session, 0), ios).flow;
    var seqAt: nat, at: Instant :| TailSetAt(p, f, seqAt, at) && at <= until;
    var anchor := Anchor(f.realBytes, p.thresholds, p.sessionStart, at);
    InRangeBelow(clock, anchor, until + LONGEST_FLOOR);
    NextBoundaryIsLeast(clock, anchor);
  }
}
