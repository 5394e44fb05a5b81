/** What a service call brings about: the entry gate, the bytes that leave, and the end of a flow. */
module FlowProgress {
  import opened Base
  import opened Cells
  import opened Crypto
  import opened TimingCorrelation
  import opened ShapedSessions
  import opened Tails
  import opened Transport
  import opened FlowInvariants

  // --- The entry gate -----------------------------------------------------------------

  /** Nothing of the source has gone beyond the channel. */
  ghost predicate HeldBack(f: Flow) {
    && RealCells(f.frames) == [] && f.session.clock.queue == []
    && f.channel == f.sent && !f.readerDone && f.realBytes == 0
  }

  lemma ShutSlotHoldsBack(p: Params, f: Flow, now: Instant)
    requires p.clock.Valid() && HeldBack(f)
    ensures HeldBack(Slot(p, f, now, false))
  {
    RealCellsSnoc(f.frames, ToFrame(SlotFrame(p.clock, p.noise, f.session.clock)));
  }

  lemma {:induction false} ShutSlotsHoldBack(p: Params, f: Flow, now: Instant, during: seq<Arrival>)
    requires p.clock.Valid() && HeldBack(f)
    ensures HeldBack(Slots(p, f, now, false, during))
    decreases PENDING_CAP - |f.pending|
  {
    if SlotDue(f, now) {
      var g := Arrive(f, FirstArrival(during));
      ShutSlotHoldsBack(p, g, now);
      ShutSlotsHoldBack(p, Slot(p, g, now, false), now, LaterArrivals(during));
    }
  }

  lemma ShutServiceHoldsBack(p: Params, f: Flow, io: Io)
    requires p.clock.Valid() && HeldBack(f) && io.now < p.realHoldUntil
    ensures HeldBack(Service(p, f, io).flow)
  {
    ShutSlotsHoldBack(p, Started(p, Arrive(f, io.before), io.now), io.now, io.during);
  }

  /** Until the entry gate opens nothing of the source leaves its channel: over every run before that instant no real
      cell is sealed or queued, and not even the end of the source is noticed. Cover goes on as always. */
  lemma {:induction false} HeldUntilGate(p: Params, session: Session, ios: seq<Io>)
    requires p.clock.Valid() && FreshSession(session)
    requires forall i :: 0 <= i < |ios| ==> ios[i].now < p.realHoldUntil
    ensures HeldBack(RunFlow(p, Fresh(session, 0), ios).flow)
  {
    if ios != [] {
      var last := |ios| - 1;
      HeldUntilGate(p, session, ios[..last]);
      var before := RunFlow(p, Fresh(session, 0), ios[..last]);
      if before.keep {
        ShutServiceHoldsBack(p, before.flow, ios[last]);
      }
    }
  }

  /** The cells taken out of the channel so far. */
  function TakenCount(f: Flow): int { |f.sent| - |f.channel| }

  lemma SlotTakes(p: Params, f: Flow, now: Instant, gateOpen: bool)
    requires p.clock.Valid()
    ensures TakenCount(Slot(p, f, now, gateOpen)) - TakenCount(f)
         == if gateOpen && !f.readerDone && |f.session.clock.queue| < p.clock.maxQueueDepth && f.channel != [] then 1 else 0
  {
  }

  lemma {:induction false} SlotsTake(p: Params, f: Flow, now: Instant, gateOpen: bool, during: seq<Arrival>)
    requires p.clock.Valid()
    ensures TakenCount(Slots(p, f, now, gateOpen, during)) >= TakenCount(f)
    ensures !gateOpen ==> TakenCount(Slots(p, f, now, gateOpen, during)) == TakenCount(f)
    decreases PENDING_CAP - |f.pending|
  {
    if SlotDue(f, now) {
      var g := Arrive(f, FirstArrival(during));
      SlotTakes(p, g, now, gateOpen);
      SlotsTake(p, Slot(p, g, now, gateOpen), now, gateOpen, LaterArrivals(during));
    }
  }

  /** A call that finds a slot due, a cell in the channel and room for it in the queue. */
  predicate CouldTake(p: Params, f: Flow, io: Io)
    requires p.clock.Valid()
  {
    var g := Started(p, Arrive(f, io.before), io.now);
    && SlotDue(g, io.now) && g.channel != []
    && !g.readerDone && |g.session.clock.queue| < p.clock.maxQueueDepth
  }

  /** Such a call takes a cell into the session exactly when it happens at the gate or after it. */
  lemma TakesIffGateOpen(p: Params, f: Flow, io: Io)
    requires p.clock.Valid() && Conserved(p, f) && WholeCellIo(p, io) && CouldTake(p, f, io)
    ensures Taken(f) < Taken(Service(p, f, io).flow) <==> io.now >= p.realHoldUntil
    ensures io.now < p.realHoldUntil ==> Taken(Service(p, f, io).flow) == Taken(f)
  {
    ServiceConserves(p, f, io);
    TakesCount(p, f, io);
    TakenByCount(f, Service(p, f, io).flow);
    SentGrows(p, f, io);
  }

  lemma TakesCount(p: Params, f: Flow, io: Io)
    requires p.clock.Valid() && CouldTake(p, f, io)
    ensures TakenCount(f) < TakenCount(Service(p, f, io).flow) <==> io.now >= p.realHoldUntil
    ensures TakenCount(f) <= TakenCount(Service(p, f, io).flow)
  {
    var g := Started(p, Arrive(f, io.before), io.now);
    var h := Arrive(g, FirstArrival(io.during));
    var open := io.now >= p.realHoldUntil;
    SlotsTurn(p, g, io.now, open, io.during);
    SlotTakes(p, h, io.now, open);
    SlotsTake(p, Slot(p, h, io.now, open), io.now, open, LaterArrivals(io.during));
  }

  lemma SlotSends(p: Params, f: Flow, a: Arrival, now: Instant, gateOpen: bool)
    requires p.clock.Valid()
    ensures f.sent <= Slot(p, Arrive(f, a), now, gateOpen).sent
  {
  }

  lemma {:induction false} SlotsSend(p: Params, f: Flow, now: Instant, gateOpen: bool, during: seq<Arrival>)
    requires p.clock.Valid()
    ensures f.sent <= Slots(p, f, now, gateOpen, during).sent
    decreases PENDING_CAP - |f.pending|
  {
    if SlotDue(f, now) {
      SlotSends(p, f, FirstArrival(during), now, gateOpen);
      SlotsSend(p, Slot(p, Arrive(f, FirstArrival(during)), now, gateOpen), now, gateOpen, LaterArrivals(during));
    }
  }

  lemma SentGrows(p: Params, f: Flow, io: Io)
    requires p.clock.Valid()
    ensures f.sent <= Service(p, f, io).flow.sent
  {
    ClockedSends(p, f, io);
    assert Service(p, f, io).flow.sent == Clocked(p, f, io).sent;
  }

  lemma ClockedSends(p: Params, f: Flow, io: Io)
    requires p.clock.Valid()
    ensures f.sent <= Clocked(p, f, io).sent
  {
    SlotsSend(p, Started(p, Arrive(f, io.before), io.now), io.now, io.now >= p.realHoldUntil, io.during);
  }

  /** What was taken, from how much was taken. */
  lemma TakenByCount(f: Flow, g: Flow)
    requires f.sent == Taken(f) + f.channel && g.sent == Taken(g) + g.channel && TakenCount(f) <= TakenCount(g)
    ensures f.sent <= g.sent ==>
      Taken(f) <= Taken(g) && |Taken(f)| == TakenCount(f) && |Taken(g)| == TakenCount(g)
  {
    assert Taken(f) == f.sent[..|Taken(f)|] && Taken(g) == g.sent[..|Taken(g)|];
  }

  lemma {:induction false} SlotsKeepDone(p: Params, f: Flow, now: Instant, gateOpen: bool, during: seq<Arrival>)
    requires p.clock.Valid()
    ensures f.readerDone ==> Slots(p, f, now, gateOpen, during).readerDone
    ensures !gateOpen ==> Slots(p, f, now, gateOpen, during).readerDone == f.readerDone
    decreases PENDING_CAP - |f.pending|
  {
    if SlotDue(f, now) {
      SlotsKeepDone(p, Slot(p, Arrive(f, FirstArrival(during)), now, gateOpen), now, gateOpen, LaterArrivals(during));
    }
  }

  /** A call that finds a slot due, room in the queue, and the source closed with nothing left in the channel. */
  predicate CouldNotice(p: Params, f: Flow, io: Io)
    requires p.clock.Valid()
  {
    var g := Started(p, Arrive(f, io.before), io.now);
    && SlotDue(g, io.now) && g.channel == [] && g.closed
    && !g.readerDone && |g.session.clock.queue| < p.clock.maxQueueDepth
  }

  /** Such a call notices the end of the source exactly when it happens at the gate or after it. */
  lemma NoticesEndIffGateOpen(p: Params, f: Flow, io: Io)
    requires p.clock.Valid() && CouldNotice(p, f, io)
    ensures Service(p, f, io).flow.readerDone <==> io.now >= p.realHoldUntil
  {
    var g := Started(p, Arrive(f, io.before), io.now);
    var open := io.now >= p.realHoldUntil;
    SlotsTurn(p, g, io.now, open, io.during);
    SlotsKeepDone(p, Slot(p, Arrive(g, FirstArrival(io.during)), io.now, open), io.now, open, LaterArrivals(io.during));
  }

  // --- The channel --------------------------------------------------------------------

  /** The reader puts in all it has, or fills the channel to the brim and waits; only then is it held up, and it never
      closes with cells in hand. */
  lemma ChannelTakesWhatFits(f: Flow, a: Arrival)
    requires !f.closed && |f.channel| <= STEADY_CHANNEL_CAP
    ensures
      var g := Arrive(f, a);
      && f.sent <= g.sent <= f.sent + a.cells && |g.channel| <= STEADY_CHANNEL_CAP
      && (g.sent == f.sent + a.cells || |g.channel| == STEADY_CHANNEL_CAP)
      && (g.closed <==> a.close && g.sent == f.sent + a.cells)
  {
    assert Accepted(f, a) <= a.cells;
  }

  // --- The bytes that leave -----------------------------------------------------------

  /** The bytes a call hands to the wire: what the wire accepts, as far as there is anything. */
  function TakenByWire(p: Params, f: Flow, io: Io): nat
    requires p.clock.Valid()
  {
    match io.outcome
    case Accepts(n) => Min(n, |Clocked(p, f, io).pending|)
    case _ => 0
  }

  /** All the bytes handed to the wire in a run. */
  function TakenInAll(p: Params, f: Flow, ios: seq<Io>): nat
    requires p.clock.Valid()
  {
    if ios == [] then 0
    else
      var last := |ios| - 1;
      var before := RunFlow(p, f, ios[..last]);
      TakenInAll(p, f, ios[..last]) + (if before.keep then TakenByWire(p, before.flow, ios[last]) else 0)
  }

  lemma {:induction false} SlotsWriteNothing(p: Params, f: Flow, now: Instant, gateOpen: bool, during: seq<Arrival>)
    requires p.clock.Valid()
    ensures Slots(p, f, now, gateOpen, during).written == f.written
    decreases PENDING_CAP - |f.pending|
  {
    if SlotDue(f, now) {
      SlotsWriteNothing(p, Slot(p, Arrive(f, FirstArrival(during)), now, gateOpen), now, gateOpen, LaterArrivals(during));
    }
  }

  lemma ServiceWrites(p: Params, f: Flow, io: Io)
    requires p.clock.Valid()
    ensures |Service(p, f, io).flow.written| == |f.written| + TakenByWire(p, f, io)
  {
    ClockedWritesNothing(p, f, io);
    FlushWrites(Clocked(p, f, io), io.outcome);
  }

  lemma ClockedWritesNothing(p: Params, f: Flow, io: Io)
    requires p.clock.Valid()
    ensures Clocked(p, f, io).written == f.written
  {
    SlotsWriteNothing(p, Started(p, Arrive(f, io.before), io.now), io.now, io.now >= p.realHoldUntil, io.during);
  }

  lemma FlushWrites(f: Flow, outcome: WriteOutcome)
    ensures |Flushed(f, outcome).flow.written| == |f.written| + (if outcome.Accepts? then Min(outcome.n, |f.pending|) else 0)
  {
  }

  /** Over every run as many bytes are written as the wire has accepted, call by call; by the byte account they are the
      first bytes of the sealed frames. */
  lemma {:induction false} WrittenIsAccepted(p: Params, session: Session, ios: seq<Io>)
    requires p.clock.Valid() && FreshSession(session)
    ensures
      var f := RunFlow(p, Fresh(session, 0), ios).flow;
      && |f.written| == TakenInAll(p, Fresh(session, 0), ios)
      && f.written + f.pending == Wire(p.aead, f.frames, 0)
  {
    FreshInv(p, session);
    RunKeepsInv(p, Fresh(session, 0), ios);
    if ios != [] {
      var last := |ios| - 1;
      WrittenIsAccepted(p, session, ios[..last]);
      var before := RunFlow(p, Fresh(session, 0), ios[..last]);
      if before.keep {
        ServiceWrites(p, before.flow, ios[last]);
      }
    }
  }

  // --- The end ------------------------------------------------------------------------

  /** The source has ended, everything sealed is on the wire, no cell waits, and the tail has run its time and volume. */
  predicate AllDone(f: Flow, now: Instant) {
    && f.readerDone && f.session.clock.queue == [] && f.pending == []
    && match f.tail
       case None => true
       case Some(tail) => now >= tail.deadline && |f.frames| >= tail.volume
  }

  /** The source has ended, and the backstop has come. */
  predicate TimedOut(f: Flow, now: Instant) { f.readerDone && f.finishBy.Some? && now >= f.finishBy.value }

  /** A flow is dropped by the first call that leaves it with everything done or past its backstop, and by no other,
      unless the wire fails: from then on it would only send cover nobody needs, before then it would cut a tail short. */
  lemma DroppedAtOnce(p: Params, session: Session, ios: seq<Io>, io: Io)
    requires p.clock.Valid() && FreshSession(session) && RunFlow(p, Fresh(session, 0), ios).keep
    ensures
      var f := RunFlow(p, Fresh(session, 0), ios).flow;
      var g := Service(p, f, io).flow;
      var wireFails := Clocked(p, f, io).pending != [] && (io.outcome == Accepts(0) || io.outcome == WireError);
      Service(p, f, io).keep <==> !wireFails && !AllDone(g, io.now) && !TimedOut(g, io.now)
  {
    FreshInv(p, session);
    RunKeepsInv(p, Fresh(session, 0), ios);
    ServiceKeepsInv(p, RunFlow(p, Fresh(session, 0), ios).flow, io);
  }

  // --- What dummies carry ---------------------------------------------------------------

  /** The dummy cells among the frames, in order. */
  function DummyCells(frames: seq<Frame>): seq<seq<Byte>> {
    if frames == [] then []
    else
      var last := |frames| - 1;
      DummyCells(frames[..last]) + (if frames[last].kind == KIND_DUMMY then [frames[last].cell] else [])
  }

  lemma DummyCellsSnoc(frames: seq<Frame>, f: Frame)
    ensures DummyCells(frames + [f]) == DummyCells(frames) + (if f.kind == KIND_DUMMY then [f.cell] else [])
  {
    assert (frames + [f])[..|frames|] == frames;
  }

  /** The content generator after `n` dummies. */
  function ContentAt(cfg: Config, noise: Noise, rng: int, n: nat): int {
    if n == 0 then rng else noise.afterFill(ContentAt(cfg, noise, rng, n - 1), cfg.cellBytes)
  }

  /** Every dummy sealed since the content generator stood at `rng` carries its own fresh bytes of it. */
  ghost predicate Drawn(p: Params, rng: int, f: Flow) {
    var dummies := DummyCells(f.frames);
    && f.session.clock.contentRng == ContentAt(p.clock, p.noise, rng, |dummies|)
    && forall i :: 0 <= i < |dummies| ==>
         dummies[i] == p.noise.Fill(ContentAt(p.clock, p.noise, rng, i), p.clock.cellBytes)
  }

  lemma EmitFresh(p: Params, rng: int, f: Flow, now: Instant)
    requires p.clock.Valid() && Drawn(p, rng, f)
    ensures Drawn(p, rng, Emit(p, f, now))
  {
    DummyCellsSnoc(f.frames, ToFrame(SlotFrame(p.clock, p.noise, f.session.clock)));
  }

  lemma PullFresh(p: Params, rng: int, f: Flow, now: Instant)
    requires Drawn(p, rng, f)
    ensures Drawn(p, rng, Pulled(p, f, now))
  {
  }

  lemma {:induction false} SlotsFresh(p: Params, rng: int, f: Flow, now: Instant, gateOpen: bool, during: seq<Arrival>)
    requires p.clock.Valid() && Drawn(p, rng, f)
    ensures Drawn(p, rng, Slots(p, f, now, gateOpen, during))
    decreases PENDING_CAP - |f.pending|
  {
    if SlotDue(f, now) {
      var g := Arrive(f, FirstArrival(during));
      PullFresh(p, rng, g, now);
      EmitFresh(p, rng, if CanPull(p, g, gateOpen) then Pulled(p, g, now) else g, now);
      SlotsFresh(p, rng, Slot(p, g, now, gateOpen), now, gateOpen, LaterArrivals(during));
    }
  }

  lemma ServiceFresh(p: Params, rng: int, f: Flow, io: Io)
    requires p.clock.Valid() && Drawn(p, rng, f)
    ensures Drawn(p, rng, Service(p, f, io).flow)
  {
    SlotsFresh(p, rng, Started(p, Arrive(f, io.before), io.now), io.now, io.now >= p.realHoldUntil, io.during);
  }

  /** Over every run the i-th dummy carries the i-th cell's worth of the content generator: none is sent twice, and
      neither the clock's generator nor what is queued has a say in it. */
  lemma {:induction false} DummiesAreFresh(p: Params, session: Session, ios: seq<Io>)
    requires p.clock.Valid()
    ensures Drawn(p, session.clock.contentRng, RunFlow(p, Fresh(session, 0), ios).flow)
  {
    if ios != [] {
      var last := |ios| - 1;
      DummiesAreFresh(p, session, ios[..last]);
      var before := RunFlow(p, Fresh(session, 0), ios[..last]);
      if before.keep {
        ServiceFresh(p, session.clock.contentRng, before.flow, ios[last]);
      }
    }
  }
}
