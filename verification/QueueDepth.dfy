/** How deep the queue behind the clock gets: bounds over every run, and runs that reach them. */
module QueueDepth {
  import opened Base
  import opened Crypto
  import opened TimingCorrelation
  import opened ClockContent
  import opened ShapedSessions
  import opened Tails
  import opened Transport
  import opened FlowInvariants

  /** The queue never outgrows the slots reserved for dummies so far, nor its capacity. */
  lemma QueueDepthBound(p: Params, session: Session, ios: seq<Io>)
    requires p.clock.Valid() && FreshSession(session)
    ensures
      var f := RunFlow(p, Fresh(session, 0), ios).flow;
      |f.session.clock.queue| <= Min(f.forced, p.clock.maxQueueDepth)
  {
    FreshInv(p, session);
    RunKeepsInv(p, Fresh(session, 0), ios);
  }

  /** An unreserved slot takes out what it pulled in: it only drains the queue when the channel is empty. */
  lemma UnreservedSlot(p: Params, f: Flow, now: Instant)
    requires p.clock.Valid() && CanPull(p, f, true)
    requires f.channel != [] ==> f.channel[0] != []
    requires !ForceDummy(p.clock, p.noise, p.noise.afterUniform(f.session.clock.rng))
    ensures |Slot(p, f, now, true).session.clock.queue|
         == if f.channel != [] then |f.session.clock.queue| else Max(0, |f.session.clock.queue| - 1)
  {
  }

  // --- Without a dummy floor nothing ever waits -------------------------------------

  lemma {:induction false} SlotsReserveNothing(p: Params, f: Flow, now: Instant, gateOpen: bool, during: seq<Arrival>)
    requires p.clock.Valid() && p.clock.minDummyFraction == 0.0
    ensures Slots(p, f, now, gateOpen, during).forced == f.forced
    decreases PENDING_CAP - |f.pending|
  {
    if SlotDue(f, now) {
      var g := Arrive(f, FirstArrival(during));
      SlotsReserveNothing(p, Slot(p, g, now, gateOpen), now, gateOpen, LaterArrivals(during));
    }
  }

  lemma ServiceReservesNothing(p: Params, f: Flow, io: Io)
    requires p.clock.Valid() && p.clock.minDummyFraction == 0.0
    ensures Service(p, f, io).flow.forced == f.forced
  {
    SlotsReserveNothing(p, Started(p, Arrive(f, io.before), io.now), io.now, io.now >= p.realHoldUntil, io.during);
  }

  lemma {:induction false} RunReservesNothing(p: Params, f: Flow, ios: seq<Io>)
    requires p.clock.Valid() && p.clock.minDummyFraction == 0.0
    ensures RunFlow(p, f, ios).flow.forced == f.forced
  {
    if ios != [] {
      var last := |ios| - 1;
      RunReservesNothing(p, f, ios[..last]);
      var before := RunFlow(p, f, ios[..last]);
      if before.keep {
        ServiceReservesNothing(p, before.flow, ios[last]);
      }
    }
  }

  // --- A run that fills the queue ---------------------------------------------------

  /** Every coin reserves its slot. */
  ghost predicate CoinsReserve(cfg: Config, noise: Noise) {
    forall rng :: ForceDummy(cfg, noise, rng)
  }

  /** A generator of that kind for any logarithm, whatever the fraction. */
  function ReservingNoise(ln: real -> real): Noise {
    Noise((_: int) => 0.0, (r: int) => r + 1, (_, _) => 0, (r: int, n: nat) => r + n, (_, _) => 0, (r: int) => r + 1, ln)
  }

  function ReservedParams(cfg: Config, noise: Noise, aead: Aead): Params {
    Params(cfg, noise, aead, Off, Thresholds(0, 0, 0), 0, 0)
  }

  function StillSession(cfg: Config): Session { Session(State(0, 0, [], 0, cfg.initialIatMs, None, 0, 0), 0) }

  /** `n` cells wait in the queue, none in the channel; the source may still send. */
  predicate Waiting(f: Flow, n: nat) {
    |f.session.clock.queue| == n && f.channel == [] && !f.closed && !f.readerDone
  }

  ghost predicate Reserving(p: Params) {
    p.clock.Valid() && CoinsReserve(p.clock, p.noise) && p.realHoldUntil == 0
  }

  /** With nothing to pull, reserved slots leave the queue alone. */
  lemma {:induction false} IdleSlots(p: Params, f: Flow, now: Instant, gateOpen: bool, n: nat)
    requires Reserving(p) && Waiting(f, n)
    ensures
      var g := Slots(p, f, now, gateOpen, []);
      Waiting(g, n) && g.session.clock.nextDeparture >= f.session.clock.nextDeparture && g.clockStarted == f.clockStarted
    decreases PENDING_CAP - |f.pending|
  {
    if SlotDue(f, now) {
      var g := Slot(p, f, now, gateOpen);
      assert Arrive(f, NOTHING) == f by { assert f.channel + [] == f.channel && f.sent + [] == f.sent; }
      AdvanceProgress(p.clock, p.noise, f.session.clock, now);
      IdleSlots(p, g, now, gateOpen, n);
    }
  }

  /** The first of the slots that are due moves one cell from the channel into the queue. */
  lemma FillingSlots(p: Params, f: Flow, n: nat)
    requires Reserving(p) && n < p.clock.maxQueueDepth && f.session.clock.nextDeparture >= 0 && |f.pending| < PENDING_CAP
    requires |f.channel| == 1 && f.channel[0] != [] && Waiting(f.(channel := []), n)
    ensures
      var now := f.session.clock.nextDeparture;
      var g := Slots(p, f, now, true, []);
      Waiting(g, n + 1) && g.session.clock.nextDeparture >= now && g.clockStarted == f.clockStarted
  {
    var now := f.session.clock.nextDeparture;
    assert Arrive(f, NOTHING) == f by { assert f.channel + [] == f.channel && f.sent + [] == f.sent; }
    var g := Slot(p, f, now, true);
    AdvanceProgress(p.clock, p.noise, Pulled(p, f, now).session.clock, now);
    assert Waiting(g, n + 1);
    IdleSlots(p, g, now, true, n + 1);
  }

  /** Everything sealed is on the wire, the clock runs, and `n` cells wait. */
  predicate Filled(f: Flow, n: nat) {
    Waiting(f, n) && f.pending == [] && f.clockStarted && f.session.clock.nextDeparture >= 0
  }

  /** A service call whose write takes everything. */
  function TakingAll(p: Params, f: Flow, before: Arrival, now: Instant): Io
    requires p.clock.Valid()
  {
    Io(before, [], now, Accepts(|Clocked(p, f, Io(before, [], now, WouldBlock)).pending| + 1))
  }

  lemma TakingAllFlushes(p: Params, f: Flow, before: Arrival, now: Instant, n: nat)
    requires p.clock.Valid()
    requires Waiting(Clocked(p, f, Io(before, [], now, WouldBlock)), n)
    ensures
      var s := Service(p, f, TakingAll(p, f, before, now));
      s.keep && s.flow.pending == [] && Waiting(s.flow, n)
      && s.flow.session == Clocked(p, f, Io(before, [], now, WouldBlock)).session
      && s.flow.clockStarted == Clocked(p, f, Io(before, [], now, WouldBlock)).clockStarted
  {
    var io := TakingAll(p, f, before, now);
    assert Clocked(p, f, io) == Clocked(p, f, Io(before, [], now, WouldBlock));
  }

  function OneCell(cfg: Config): Arrival { Arrival([seq<Byte>(cfg.cellBytes, _ => 0)], false) }

  /** One more service call, at the instant the next slot is due, with one more cell: one more waits. */
  lemma FillOne(p: Params, f: Flow, n: nat) returns (io: Io)
    requires Reserving(p) && Filled(f, n) && n < p.clock.maxQueueDepth
    ensures io.now == f.session.clock.nextDeparture && WholeCellIo(p, io)
    ensures Service(p, f, io).keep && Filled(Service(p, f, io).flow, n + 1)
    ensures Service(p, f, io).flow.session.clock.nextDeparture >= io.now
  {
    var now := f.session.clock.nextDeparture;
    io := TakingAll(p, f, OneCell(p.clock), now);
    var g := Arrive(f, OneCell(p.clock));
    assert g.channel == OneCell(p.clock).cells;
    FillingSlots(p, g, n);
    TakingAllFlushes(p, f, OneCell(p.clock), now, n + 1);
  }

  /** The first service call starts the clock; nothing waits yet. */
  lemma StartEmpty(p: Params, cfg: Config) returns (io: Io)
    requires Reserving(p) && p.clock == cfg
    ensures io.now == 0 && WholeCellIo(p, io)
    ensures var s := Service(p, Fresh(StillSession(cfg), 0), io); s.keep && Filled(s.flow, 0)
  {
    var f := Fresh(StillSession(cfg), 0);
    io := TakingAll(p, f, NOTHING, 0);
    var g := Started(p, Arrive(f, NOTHING), 0);
    AdvanceProgress(p.clock, p.noise, f.session.clock.(nextDeparture := 0), 0);
    assert Waiting(g, 0) && g.session.clock.nextDeparture >= 0;
    IdleSlots(p, g, 0, true, 0);
    TakingAllFlushes(p, f, NOTHING, 0, 0);
  }

  /** Instants never go back. */
  predicate Chronological(ios: seq<Io>) {
    forall i, j :: 0 <= i < j < |ios| ==> ios[i].now <= ios[j].now
  }

  predicate UntilInstant(ios: seq<Io>, until: Instant) {
    forall i :: 0 <= i < |ios| ==> ios[i].now <= until
  }

  lemma RunExtends(p: Params, f: Flow, ios: seq<Io>, io: Io)
    requires p.clock.Valid() && RunFlow(p, f, ios).keep
    ensures RunFlow(p, f, ios + [io]) == Service(p, RunFlow(p, f, ios).flow, io)
  {
    assert (ios + [io])[..|ios|] == ios && (ios + [io])[|ios|] == io;
  }

  /** A run that leaves `n` cells waiting: a source that sends whole cells, at instants that never go back. */
  ghost predicate Fills(p: Params, f: Flow, ios: seq<Io>, n: nat)
    requires p.clock.Valid()
  {
    var r := RunFlow(p, f, ios);
    && r.keep && Filled(r.flow, n) && UntilInstant(ios, r.flow.session.clock.nextDeparture)
    && Chronological(ios) && WholeCellRun(p, ios)
  }

  /** One more call at or after the last. */
  lemma FillsNext(p: Params, f: Flow, ios: seq<Io>, io: Io, n: nat)
    requires p.clock.Valid() && RunFlow(p, f, ios).keep
    requires Chronological(ios) && UntilInstant(ios, io.now) && WholeCellRun(p, ios) && WholeCellIo(p, io)
    requires
      var s := Service(p, RunFlow(p, f, ios).flow, io);
      s.keep && Filled(s.flow, n) && s.flow.session.clock.nextDeparture >= io.now
    ensures Fills(p, f, ios + [io], n)
  {
    RunExtends(p, f, ios, io);
    InstantsNext(ios, io, Service(p, RunFlow(p, f, ios).flow, io).flow.session.clock.nextDeparture);
  }

  lemma InstantsNext(ios: seq<Io>, io: Io, until: Instant)
    requires Chronological(ios) && UntilInstant(ios, io.now) && io.now <= until
    ensures Chronological(ios + [io]) && UntilInstant(ios + [io], until)
  {
  }

  lemma {:induction false} FillRun(p: Params, cfg: Config, n: nat) returns (ios: seq<Io>)
    requires Reserving(p) && p.clock == cfg && n <= cfg.maxQueueDepth
    ensures Fills(p, Fresh(StillSession(cfg), 0), ios, n)
  {
    var f := Fresh(StillSession(cfg), 0);
    if n == 0 {
      var io := StartEmpty(p, cfg);
      FillsNext(p, f, [], io, 0);
      ios := [] + [io];
    } else {
      var init := FillRun(p, cfg, n - 1);
      var io := FillOne(p, RunFlow(p, f, init).flow, n - 1);
      FillsNext(p, f, init, io, n);
      ios := init + [io];
    }
  }

  /** Every depth up to the capacity is reached by a run from a fresh flow, at instants that never go back, by a
      source that sends whole cells, under any generator whose coins reserve every slot. */
  lemma DepthReached(cfg: Config, noise: Noise, aead: Aead, n: nat) returns (p: Params, session: Session, ios: seq<Io>)
    requires cfg.Valid() && CoinsReserve(cfg, noise) && n <= cfg.maxQueueDepth
    ensures p.clock == cfg && p.noise == noise && FreshSession(session) && Chronological(ios) && WholeCellRun(p, ios)
    ensures RunFlow(p, Fresh(session, 0), ios).keep
    ensures |RunFlow(p, Fresh(session, 0), ios).flow.session.clock.queue| == n
  {
    p, session := ReservedParams(cfg, noise, aead), StillSession(cfg);
    ios := FillRun(p, cfg, n);
  }

  ghost predicate DepthAtMost(p: Params, session: Session, ios: seq<Io>, k: nat)
    requires p.clock.Valid()
  {
    |RunFlow(p, Fresh(session, 0), ios).flow.session.clock.queue| <= k
  }

  /** A configuration with a dummy floor has a generator whose coins reserve every slot, for any logarithm. */
  lemma SomeCoinsReserve(cfg: Config, ln: real -> real)
    requires cfg.Valid() && cfg.minDummyFraction > 0.0
    ensures CoinsReserve(cfg, ReservingNoise(ln)) && UnitNoise(ReservingNoise(ln)) && ReservingNoise(ln).ln == ln
  {
  }

  /** The queue is held at `k` over every run of a configuration, for any logarithm, exactly when it reserves no slots
      or has no room for more; at 0-1, say, only without a dummy floor or with a capacity of one cell. */
  lemma HeldAtIff(cfg: Config, ln: real -> real, aead: Aead, k: nat)
    requires cfg.Valid()
    ensures (forall p: Params, session, ios ::
              p.clock == cfg && p.noise.ln == ln && UnitNoise(p.noise) && FreshSession(session) ==> DepthAtMost(p, session, ios, k))
      <==> cfg.minDummyFraction == 0.0 || cfg.maxQueueDepth <= k
  {
    if cfg.minDummyFraction == 0.0 || cfg.maxQueueDepth <= k {
      forall p: Params, session, ios | p.clock == cfg && FreshSession(session)
        ensures DepthAtMost(p, session, ios, k)
      {
        QueueDepthBound(p, session, ios);
        if cfg.minDummyFraction == 0.0 {
          RunReservesNothing(p, Fresh(session, 0), ios);
        }
      }
    } else {
      SomeCoinsReserve(cfg, ln);
      var p, session, ios := DepthReached(cfg, ReservingNoise(ln), aead, k + 1);
      assert !DepthAtMost(p, session, ios, k);
    }
  }

  /** The clock the transport configures, at a rate of `iatMs`: fixed rate, 12 slots in 100 reserved. */
  function TransportConfig(iatMs: real): Config { Config(514, iatMs, 0.05, 1.0, 60.0, 128, false, 0.12) }

  /** With the transport's own settings a run fills the queue to its capacity of 128 cells. */
  lemma TransportQueueFills(iatMs: real, ln: real -> real, aead: Aead) returns (p: Params, session: Session, ios: seq<Io>)
    requires 2.5 <= iatMs <= 5.0
    ensures p.clock == TransportConfig(iatMs) && p.noise.ln == ln && UnitNoise(p.noise)
    ensures FreshSession(session) && Chronological(ios) && WholeCellRun(p, ios)
    ensures |RunFlow(p, Fresh(session, 0), ios).flow.session.clock.queue| == 128
  {
    SomeCoinsReserve(TransportConfig(iatMs), ln);
    p, session, ios := DepthReached(TransportConfig(iatMs), ReservingNoise(ln), aead, 128);
  }
}
