/** What every run of a flow keeps: the lossless pipe, the queue bound and the byte accounts. */
module FlowInvariants {
  import opened Base
  import opened Cells
  import opened Crypto
  import opened TimingCorrelation
  import opened ShapedSessions
  import opened Tails
  import opened Transport

  /** A whole run: service calls in order, until the emitter drops the flow. */
  function RunFlow(p: Params, f: Flow, ios: seq<Io>): Serviced
    requires p.clock.Valid()
  {
    if ios == [] then Serviced(f, true)
    else
      var last := |ios| - 1;
      var before := RunFlow(p, f, ios[..last]);
      if before.keep then Service(p, before.flow, ios[last]) else before
  }

  /** The real cells among the frames, in order. */
  function RealCells(frames: seq<Frame>): seq<seq<Byte>> {
    if frames == [] then []
    else (if frames[0].kind == KIND_REAL then [frames[0].cell] else []) + RealCells(frames[1..])
  }

  lemma {:induction false} RealCellsAppend(a: seq<Frame>, b: seq<Frame>)
    ensures RealCells(a + b) == RealCells(a) + RealCells(b)
  {
    if a == [] {
      assert a + b == b;
    } else {
      assert (a + b)[1..] == a[1..] + b;
      RealCellsAppend(a[1..], b);
    }
  }

  lemma RealCellsSnoc(frames: seq<Frame>, f: Frame)
    ensures RealCells(frames + [f]) == RealCells(frames) + (if f.kind == KIND_REAL then [f.cell] else [])
  {
    RealCellsAppend(frames, [f]);
    assert RealCells([f][1..]) == [];
  }

  // --- Shape: cipher and sequence in lockstep, bytes accounted for --------------

  /** The cipher counter is the frame count, every frame fills a cell, and what was
      written followed by what is pending is the sealed frames, byte for byte. */
  ghost predicate Lockstep(p: Params, f: Flow) {
    && f.counter == CounterOf(|f.frames|)
    && f.wireSeq == |f.frames|
    && Uniform(f.frames, p.clock.cellBytes)
    && f.written + f.pending == Wire(p.aead, f.frames, 0)
  }

  /** The queue holds full cells, at most as many as slots were reserved for dummies. */
  ghost predicate QueueBound(p: Params, f: Flow) {
    && QueueUniform(p.clock, f.session.clock)
    && |f.session.clock.queue| <= Min(f.forced, p.clock.maxQueueDepth)
  }

  ghost predicate Inv(p: Params, f: Flow) {
    && Lockstep(p, f)
    && QueueBound(p, f)
    && (f.readerDone ==> f.closed && f.channel == [] && f.finishBy.Some?)
  }

  lemma SealKeepsLockstep(p: Params, f: Flow, frame: Frame)
    requires Lockstep(p, f) && |frame.cell| == p.clock.cellBytes
    ensures Lockstep(p, Sealed(p, f, frame))
  {
    var sealed_ := Seal(p.aead, f.counter, frame);
    CounterNext(|f.frames|);
    WireSnoc(p.aead, f.frames, frame, 0);
    assert f.written + (f.pending + sealed_) == (f.written + f.pending) + sealed_;
  }

  lemma EmitKeepsLockstep(p: Params, f: Flow, now: Instant)
    requires p.clock.Valid() && Lockstep(p, f)
    ensures Lockstep(p, Emit(p, f, now))
  {
    SealKeepsLockstep(p, f, ToFrame(SlotFrame(p.clock, p.noise, f.session.clock)));
  }

  lemma PullKeepsLockstep(p: Params, f: Flow, now: Instant)
    requires Lockstep(p, f)
    ensures Lockstep(p, Pulled(p, f, now))
  {
  }

  /** A slot lengthens the queue by one cell at most, only when its own coin reserves it for a dummy, and never past
      the capacity. */
  lemma SlotKeepsQueueBound(p: Params, f: Flow, now: Instant, gateOpen: bool)
    requires p.clock.Valid() && QueueBound(p, f)
    ensures QueueBound(p, Slot(p, f, now, gateOpen))
    ensures
      var grown := |Slot(p, f, now, gateOpen).session.clock.queue| - |f.session.clock.queue|;
      grown <= 1 && (grown == 1 ==> ForceDummy(p.clock, p.noise, p.noise.afterUniform(f.session.clock.rng)))
  {
  }

  lemma SlotKeepsInv(p: Params, f: Flow, now: Instant, gateOpen: bool)
    requires p.clock.Valid() && Inv(p, f)
    ensures Inv(p, Slot(p, f, now, gateOpen))
  {
    var g := if CanPull(p, f, gateOpen) then Pulled(p, f, now) else f;
    assert Lockstep(p, Emit(p, g, now)) by {
      PullKeepsLockstep(p, f, now);
      EmitKeepsLockstep(p, g, now);
    }
    SlotKeepsQueueBound(p, f, now, gateOpen);
  }

  lemma {:induction false} SlotsKeepInv(p: Params, f: Flow, now: Instant, gateOpen: bool, during: seq<Arrival>)
    requires p.clock.Valid() && Inv(p, f)
    ensures Inv(p, Slots(p, f, now, gateOpen, during))
    decreases PENDING_CAP - |f.pending|
  {
    if SlotDue(f, now) {
      var g := Arrive(f, FirstArrival(during));
      SlotKeepsInv(p, g, now, gateOpen);
      SlotsKeepInv(p, Slot(p, g, now, gateOpen), now, gateOpen, LaterArrivals(during));
    }
  }

  lemma FlushKeepsInv(p: Params, f: Flow, outcome: WriteOutcome)
    requires Inv(p, f)
    ensures Inv(p, Flushed(f, outcome).flow)
  {
    if f.pending != [] && outcome.Accepts? {
      var k := Min(outcome.n, |f.pending|);
      assert (f.written + f.pending[..k]) + f.pending[k..] == f.written + f.pending;
    }
  }

  lemma ServiceKeepsInv(p: Params, f: Flow, io: Io)
    requires p.clock.Valid() && Inv(p, f)
    ensures Inv(p, Service(p, f, io).flow)
  {
    SlotsKeepInv(p, Started(p, Arrive(f, io.before), io.now), io.now, io.now >= p.realHoldUntil, io.during);
    FlushKeepsInv(p, Clocked(p, f, io), io.outcome);
  }

  lemma {:induction false} RunKeepsInv(p: Params, f: Flow, ios: seq<Io>)
    requires p.clock.Valid() && Inv(p, f)
    ensures Inv(p, RunFlow(p, f, ios).flow)
  {
    if ios != [] {
      var last := |ios| - 1;
      RunKeepsInv(p, f, ios[..last]);
      var before := RunFlow(p, f, ios[..last]);
      if before.keep {
        ServiceKeepsInv(p, before.flow, ios[last]);
      }
    }
  }

  predicate FreshSession(s: Session) { s.clock.queue == [] }

  lemma FreshInv(p: Params, session: Session)
    requires FreshSession(session)
    ensures Inv(p, Fresh(session, 0))
  {
  }

  // --- Frames only accumulate ------------------------------------------------------

  /** From `f` to `g` frames were only added, as many as the sequence number rose, each filling a cell. */
  ghost predicate Extends(p: Params, f: Flow, g: Flow) {
    && f.frames <= g.frames
    && |g.frames| - |f.frames| == g.wireSeq - f.wireSeq
    && forall i :: |f.frames| <= i < |g.frames| ==> |g.frames[i].cell| == p.clock.cellBytes
  }

  lemma SlotExtends(p: Params, f: Flow, a: Arrival, now: Instant, gateOpen: bool)
    requires p.clock.Valid()
    ensures Extends(p, f, Slot(p, Arrive(f, a), now, gateOpen))
  {
  }

  lemma {:induction false} SlotsExtend(p: Params, f: Flow, now: Instant, gateOpen: bool, during: seq<Arrival>)
    requires p.clock.Valid()
    ensures Extends(p, f, Slots(p, f, now, gateOpen, during))
    decreases PENDING_CAP - |f.pending|
  {
    if SlotDue(f, now) {
      SlotExtends(p, f, FirstArrival(during), now, gateOpen);
      SlotsExtend(p, Slot(p, Arrive(f, FirstArrival(during)), now, gateOpen), now, gateOpen, LaterArrivals(during));
    }
  }

  lemma ServiceExtends(p: Params, f: Flow, io: Io)
    requires p.clock.Valid()
    ensures Extends(p, f, Service(p, f, io).flow)
  {
    SlotsExtend(p, Started(p, Arrive(f, io.before), io.now), io.now, io.now >= p.realHoldUntil, io.during);
  }

  // --- Conservation of real cells ---------------------------------------------

  /** The reader only ever sends whole cells. */
  predicate WholeCells(p: Params, a: Arrival) {
    forall i :: 0 <= i < |a.cells| ==> |a.cells[i]| == p.clock.cellBytes
  }

  predicate WholeCellIo(p: Params, io: Io) {
    && WholeCells(p, io.before)
    && forall i :: 0 <= i < |io.during| ==> WholeCells(p, io.during[i])
  }

  predicate WholeCellRun(p: Params, ios: seq<Io>) {
    forall i :: 0 <= i < |ios| ==> WholeCellIo(p, ios[i])
  }

  /** The cells the emitter has taken out of the channel. */
  function Taken(f: Flow): seq<seq<Byte>> { RealCells(f.frames) + f.session.clock.queue }

  /** Nothing is lost, doubled or reordered between the channel and the sealed frames, and
      `realBytes` is the payload taken so far (saturating), not a multiple of the cell size. */
  ghost predicate Conserved(p: Params, f: Flow) {
    && f.sent == Taken(f) + f.channel
    && f.realBytes == Min(|Payload(Taken(f))|, U64_SIZE - 1)
    && (forall i :: 0 <= i < |f.channel| ==> |f.channel[i]| == p.clock.cellBytes)
    && QueueUniform(p.clock, f.session.clock)
    && (f.readerDone ==> f.channel == [] && f.closed)
  }

  lemma ArriveConserves(p: Params, f: Flow, a: Arrival)
    requires Conserved(p, f) && WholeCells(p, a)
    ensures Conserved(p, Arrive(f, a))
  {
  }

  lemma PullConserves(p: Params, f: Flow, now: Instant, gateOpen: bool)
    requires p.clock.Valid() && Conserved(p, f) && CanPull(p, f, gateOpen)
    ensures Conserved(p, Pulled(p, f, now))
  {
    if f.channel != [] {
      var cell, rest := f.channel[0], f.channel[1..];
      var g := Pulled(p, f, now);
      assert g.session.clock.queue == f.session.clock.queue + [cell];
      assert Taken(g) == Taken(f) + [cell];
      assert f.channel == [cell] + rest;
      assert Taken(f) + ([cell] + rest) == (Taken(f) + [cell]) + rest;
      PayloadAppend(Taken(f), [cell]);
      assert Payload([cell]) == DecodeRealCell(cell).data + Payload([cell][1..]);
    }
  }

  /** What the emission counters say beyond the frames sealed in this run, real and dummy. */
  function Uncounted(f: Flow): (int, int) {
    var reals := |RealCells(f.frames)|;
    (f.session.clock.realEmitted - reals, f.session.clock.dummyEmitted - (|f.frames| - reals))
  }

  lemma SealRealConserves(p: Params, f: Flow, now: Instant)
    requires p.clock.Valid() && Conserved(p, f) && EmitsReal(p.clock, p.noise, f.session.clock)
    ensures Taken(Emit(p, f, now)) == Taken(f) && Uncounted(Emit(p, f, now)) == Uncounted(f)
  {
    var s := f.session.clock;
    var reals := RealCells(f.frames);
    RealCellsSnoc(f.frames, ToFrame(SlotFrame(p.clock, p.noise, s)));
    assert s.queue[0][..p.clock.cellBytes] == s.queue[0];
    assert s.queue == [s.queue[0]] + s.queue[1..];
    assert reals + ([s.queue[0]] + s.queue[1..]) == (reals + [s.queue[0]]) + s.queue[1..];
  }

  lemma SealDummyConserves(p: Params, f: Flow, now: Instant)
    requires p.clock.Valid() && Conserved(p, f) && !EmitsReal(p.clock, p.noise, f.session.clock)
    ensures Taken(Emit(p, f, now)) == Taken(f) && Uncounted(Emit(p, f, now)) == Uncounted(f)
  {
    RealCellsSnoc(f.frames, ToFrame(SlotFrame(p.clock, p.noise, f.session.clock)));
    assert RealCells(Emit(p, f, now).frames) == RealCells(f.frames);
  }

  lemma EmitConserves(p: Params, f: Flow, now: Instant)
    requires p.clock.Valid() && Conserved(p, f)
    ensures Conserved(p, Emit(p, f, now)) && Taken(Emit(p, f, now)) == Taken(f)
    ensures Uncounted(Emit(p, f, now)) == Uncounted(f)
  {
    if EmitsReal(p.clock, p.noise, f.session.clock) {
      SealRealConserves(p, f, now);
    } else {
      SealDummyConserves(p, f, now);
    }
  }

  /** Cells and emission counts are conserved from `f` to `g`. */
  ghost predicate Conserves(p: Params, f: Flow, g: Flow) { Conserved(p, g) && Uncounted(g) == Uncounted(f) }

  lemma SlotConserves(p: Params, f: Flow, now: Instant, gateOpen: bool)
    requires p.clock.Valid() && Conserved(p, f)
    ensures Conserves(p, f, Slot(p, f, now, gateOpen))
  {
    if CanPull(p, f, gateOpen) {
      PullConserves(p, f, now, gateOpen);
      EmitConserves(p, Pulled(p, f, now), now);
    } else {
      EmitConserves(p, f, now);
    }
  }

  lemma ArrivedSlotConserves(p: Params, f: Flow, a: Arrival, now: Instant, gateOpen: bool)
    requires p.clock.Valid() && Conserved(p, f) && WholeCells(p, a)
    ensures Conserves(p, f, Slot(p, Arrive(f, a), now, gateOpen))
  {
    ArriveConserves(p, f, a);
    assert Uncounted(Arrive(f, a)) == Uncounted(f);
    SlotConserves(p, Arrive(f, a), now, gateOpen);
  }

  lemma {:induction false} SlotsConserve(p: Params, f: Flow, now: Instant, gateOpen: bool, during: seq<Arrival>)
    requires p.clock.Valid() && Conserved(p, f)
    requires forall i :: 0 <= i < |during| ==> WholeCells(p, during[i])
    ensures Conserves(p, f, Slots(p, f, now, gateOpen, during))
    decreases PENDING_CAP - |f.pending|
  {
    if SlotDue(f, now) {
      var g := Slot(p, Arrive(f, FirstArrival(during)), now, gateOpen);
      ArrivedSlotConserves(p, f, FirstArrival(during), now, gateOpen);
      SlotsConserve(p, g, now, gateOpen, LaterArrivals(during));
    }
  }

  lemma StartConserves(p: Params, f: Flow, now: Instant)
    requires p.clock.Valid() && Conserved(p, f)
    ensures Conserves(p, f, Started(p, f, now))
  {
    assert Taken(Started(p, f, now)) == Taken(f);
  }

  lemma FlushConserves(p: Params, f: Flow, outcome: WriteOutcome)
    requires Conserved(p, f)
    ensures Conserves(p, f, Flushed(f, outcome).flow)
  {
    assert Taken(Flushed(f, outcome).flow) == Taken(f);
  }

  lemma ServiceConserves(p: Params, f: Flow, io: Io)
    requires p.clock.Valid() && Conserved(p, f) && WholeCellIo(p, io)
    ensures Conserves(p, f, Service(p, f, io).flow)
  {
    var a := Arrive(f, io.before);
    var g := Started(p, a, io.now);
    ArriveConserves(p, f, io.before);
    StartConserves(p, a, io.now);
    SlotsConserve(p, g, io.now, io.now >= p.realHoldUntil, io.during);
    FlushConserves(p, Clocked(p, f, io), io.outcome);
  }

  lemma {:induction false} RunConserves(p: Params, f: Flow, ios: seq<Io>)
    requires p.clock.Valid() && Conserved(p, f) && WholeCellRun(p, ios)
    ensures Conserves(p, f, RunFlow(p, f, ios).flow)
  {
    if ios != [] {
      var last := |ios| - 1;
      RunConserves(p, f, ios[..last]);
      var before := RunFlow(p, f, ios[..last]);
      if before.keep {
        ServiceConserves(p, before.flow, ios[last]);
      }
    }
  }

  lemma FreshConserved(p: Params, session: Session)
    requires FreshSession(session)
    ensures Conserved(p, Fresh(session, 0))
  {
  }
}
