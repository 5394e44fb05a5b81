/** One flow of the shared emitter: bounded cell channel, session, cipher and partial writes. */
module Transport {
  import opened Base
  import opened Cells
  import opened Crypto
  import opened TimingCorrelation
  import opened ShapedSessions
  import opened Tails

  const STEADY_CHANNEL_CAP: nat := 1024
  const PENDING_CAP: nat := 64 * 1024
  const BACKSTOP: Duration := 5 * NANOS_PER_SEC

  /** What is fixed for the life of a flow. */
  datatype Params = Params(
    clock: Config,
    noise: Noise,
    aead: Aead,
    policy: TailPolicy,
    thresholds: Thresholds,
    sessionStart: Instant,
    realHoldUntil: Instant)

  /** The state of a flow, with the histories its properties are about:
      `sent` are the cells the reader put into the channel, `frames` the frames sealed,
      `written` the bytes the wire took, `forced` the slots reserved for dummies. */
  datatype Flow = Flow(
    session: Session,
    channel: seq<seq<Byte>>,
    closed: bool,
    wireSeq: nat,
    pending: seq<Byte>,
    readerDone: bool,
    tail: Option<Tail>,
    finishBy: Option<Instant>,
    realBytes: nat,
    counter: U64,
    clockStarted: bool,
    sent: seq<seq<Byte>>,
    frames: seq<Frame>,
    written: seq<Byte>,
    forced: nat)

  /** What the reader task does between two looks of the emitter at the channel. */
  datatype Arrival = Arrival(cells: seq<seq<Byte>>, close: bool)

  /** What `try_write` does: take up to `n` bytes, refuse for now, or fail. */
  datatype WriteOutcome = Accepts(n: nat) | WouldBlock | WireError

  /** The surroundings of one service call: `before` arrives ahead of it, `during[k]` ahead of
      the `k`-th slot's look at the channel; the whole call happens at `now`. */
  datatype Io = Io(before: Arrival, during: seq<Arrival>, now: Instant, outcome: WriteOutcome)

  datatype Serviced = Serviced(flow: Flow, keep: bool)

  const NOTHING: Arrival := Arrival([], false)

  /** A full channel blocks the reader, so only what fits is sent, and a blocked reader cannot close. */
  function Accepted(f: Flow, a: Arrival): seq<seq<Byte>> {
    if f.closed then []
    else a.cells[..Min(|a.cells|, Max(0, STEADY_CHANNEL_CAP - |f.channel|))]
  }

  function Arrive(f: Flow, a: Arrival): Flow {
    var cells := Accepted(f, a);
    f.(channel := f.channel + cells, sent := f.sent + cells, closed := f.closed || (a.close && cells == a.cells))
  }

  function SaturatingAdd(a: nat, b: nat): nat { Min(a + b, U64_SIZE - 1) }

  function Started(p: Params, f: Flow, now: Instant): Flow
    requires p.clock.Valid()
  {
    if f.clockStarted then f
    else f.(session := f.session.(clock := Restarted(p.clock, p.noise, f.session.clock, now)), clockStarted := true)
  }

  predicate CanPull(p: Params, f: Flow, gateOpen: bool) {
    !f.readerDone && |f.session.clock.queue| < p.clock.maxQueueDepth && gateOpen
  }

  function BackstopOf(tail: Option<Tail>, now: Instant): Instant {
    (if tail.Some? then tail.value.deadline else now) + BACKSTOP
  }

  /** One attempt to move a cell from the channel into the session. */
  function Pulled(p: Params, f: Flow, now: Instant): Flow {
    if f.channel != [] then
      var cell := f.channel[0];
      var g := f.(channel := f.channel[1..]);
      if cell == [] then g
      else g.(session := SessionInjected(p.clock, p.noise, f.session, cell, now),
              realBytes := SaturatingAdd(f.realBytes, |DecodeRealCell(cell).data|))
    else if f.closed then
      var tail := TailTargets(f.realBytes, f.wireSeq, p.policy, p.thresholds, p.sessionStart, now);
      f.(readerDone := true, tail := tail, finishBy := Some(BackstopOf(tail, now)))
    else f
  }

  function ToFrame(m: MixedFrame): Frame {
    match m
    case Real(packet) => Frame(KIND_REAL, packet)
    case Dummy(bytes) => Frame(KIND_DUMMY, bytes)
  }

  /** One frame sealed and queued for the wire. */
  function Sealed(p: Params, f: Flow, frame: Frame): Flow {
    f.(counter := (f.counter + 1) % U64_SIZE,
       wireSeq := f.wireSeq + 1,
       pending := f.pending + Seal(p.aead, f.counter, frame),
       frames := f.frames + [frame])
  }

  /** The slot that is due emits its frame into `pending`. */
  function Emit(p: Params, f: Flow, now: Instant): Flow
    requires p.clock.Valid()
  {
    var s := f.session.clock;
    var coin := ForceDummy(p.clock, p.noise, p.noise.afterUniform(s.rng));
    Sealed(p, f, ToFrame(SlotFrame(p.clock, p.noise, s)))
      .(session := f.session.(clock := Fired(p.clock, p.noise, s, now)), forced := f.forced + (if coin then 1 else 0))
  }

  function Slot(p: Params, f: Flow, now: Instant, gateOpen: bool): Flow
    requires p.clock.Valid()
  {
    Emit(p, if CanPull(p, f, gateOpen) then Pulled(p, f, now) else f, now)
  }

  predicate SlotDue(f: Flow, now: Instant) {
    now >= f.session.clock.nextDeparture && |f.pending| < PENDING_CAP
  }

  function FirstArrival(during: seq<Arrival>): Arrival { if during == [] then NOTHING else during[0] }

  function LaterArrivals(during: seq<Arrival>): seq<Arrival> { if during == [] then [] else during[1..] }

  /** Every slot that is due, up to the cap on unwritten bytes. */
  function Slots(p: Params, f: Flow, now: Instant, gateOpen: bool, during: seq<Arrival>): Flow
    requires p.clock.Valid()
    decreases PENDING_CAP - |f.pending|
  {
    if SlotDue(f, now) then
      Slots(p, Slot(p, Arrive(f, FirstArrival(during)), now, gateOpen), now, gateOpen, LaterArrivals(during))
    else f
  }

  /** One turn of the slot loop. */
  lemma SlotsTurn(p: Params, f: Flow, now: Instant, gateOpen: bool, during: seq<Arrival>)
    requires p.clock.Valid() && SlotDue(f, now)
    ensures Slots(p, f, now, gateOpen, during)
         == Slots(p, Slot(p, Arrive(f, FirstArrival(during)), now, gateOpen), now, gateOpen, LaterArrivals(during))
  {
  }

  function Flushed(f: Flow, outcome: WriteOutcome): Serviced {
    if f.pending == [] then Serviced(f, true)
    else
      match outcome
      case Accepts(n) =>
        var k := Min(n, |f.pending|);
        Serviced(f.(written := f.written + f.pending[..k], pending := f.pending[k..]), n != 0)
      case WouldBlock => Serviced(f, true)
      case WireError => Serviced(f, false)
  }

  predicate Drained(f: Flow) { f.session.clock.queue == [] && f.pending == [] }

  predicate TailMet(f: Flow, now: Instant) {
    f.tail.Some? ==> now >= f.tail.value.deadline && f.wireSeq >= f.tail.value.volume
  }

  predicate PastBackstop(f: Flow, now: Instant) { f.finishBy.Some? && now >= f.finishBy.value }

  predicate Finished(f: Flow, now: Instant) {
    f.readerDone && ((Drained(f) && TailMet(f, now)) || PastBackstop(f, now))
  }

  /** The flow after the slots of one service call, before its write. */
  function Clocked(p: Params, f: Flow, io: Io): Flow
    requires p.clock.Valid()
  {
    Slots(p, Started(p, Arrive(f, io.before), io.now), io.now, io.now >= p.realHoldUntil, io.during)
  }

  function Service(p: Params, f: Flow, io: Io): Serviced
    requires p.clock.Valid()
  {
    var flushed := Flushed(Clocked(p, f, io), io.outcome);
    Serviced(flushed.flow, flushed.keep && !Finished(flushed.flow, io.now))
  }

  class FlowSlot {
    const p: Params
    const session: ShapedSession
    const cipher: FrameCipher
    var channel: seq<seq<Byte>>
    var closed: bool
    var wireSeq: nat
    var pending: seq<Byte>
    var readerDone: bool
    var tail: Option<Tail>
    var finishBy: Option<Instant>
    var realBytes: nat
    var clockStarted: bool
    ghost var sent: seq<seq<Byte>>
    ghost var frames: seq<Frame>
    ghost var written: seq<Byte>
    ghost var forced: nat

    ghost const Repr: set<object> := {this, session, session.correlator, cipher}

    ghost predicate Valid() {
      && p.clock.Valid()
      && session.correlator.cfg == p.clock
      && session.correlator.noise == p.noise
      && cipher.aead == p.aead
    }

    ghost function Abs(): Flow
      reads Repr
    {
      Flow(session.Abs(), channel, closed, wireSeq, pending, readerDone, tail, finishBy, realBytes,
           cipher.counter, clockStarted, sent, frames, written, forced)
    }

    constructor (p: Params, session: ShapedSession, cipher: FrameCipher)
      requires p.clock.Valid() && session.correlator.cfg == p.clock && session.correlator.noise == p.noise
      requires cipher.aead == p.aead
      ensures Valid() && this.p == p && this.session == session && this.cipher == cipher
      ensures Abs() == Fresh(session.Abs(), cipher.counter)
    {
      this.p := p;
      this.session := session;
      this.cipher := cipher;
      channel, closed, wireSeq, pending, readerDone := [], false, 0, [], false;
      tail, finishBy, realBytes, clockStarted := None, None, 0, false;
      sent, frames, written, forced := [], [], [], 0;
    }

    /** The reader's side of the channel. */
    method ReceiveArrival(a: Arrival)
      modifies this`channel, this`closed, this`sent
      ensures Abs() == Arrive(old(Abs()), a)
    {
      ghost var before := Abs();
      var k := if closed then 0 else Min(|a.cells|, Max(0, STEADY_CHANNEL_CAP - |channel|));
      var cells := a.cells[..k];
      assert cells == Accepted(before, a);
      channel := channel + cells;
      sent := sent + cells;
      closed := closed || (a.close && k == |a.cells|);
    }

    method PullCell(now: Instant)
      requires Valid() && |session.correlator.realQueue| < p.clock.maxQueueDepth
      modifies Repr
      ensures Abs() == Pulled(p, old(Abs()), now)
    {
      if channel != [] {
        var cell := channel[0];
        channel := channel[1..];
        var trueLen := |DecodeRealCell(cell).data|;
        if cell != [] {
          var ok := session.InjectReal(cell, now);
          if ok {
            realBytes := SaturatingAdd(realBytes, trueLen);
          }
        }
      } else if closed {
        readerDone := true;
        tail := TailTargets(realBytes, wireSeq, p.policy, p.thresholds, p.sessionStart, now);
        finishBy := Some(BackstopOf(tail, now));
      }
    }

    method EmitSlot(now: Instant)
      requires Valid() && now >= session.correlator.nextDeparture
      modifies Repr
      ensures Abs() == Emit(p, old(Abs()), now)
    {
      ghost var coin := p.noise.afterUniform(session.correlator.rng);
      var frame := TickSession(now);
      SealInto(ToFrame(frame));
      forced := forced + (if ForceDummy(p.clock, p.noise, coin) then 1 else 0);
    }

    /** The frame of the slot that is due. */
    method TickSession(now: Instant) returns (frame: MixedFrame)
      requires Valid() && now >= session.correlator.nextDeparture
      modifies session.correlator
      ensures frame == SlotFrame(p.clock, p.noise, old(session.correlator.Abs()))
      ensures Abs() == old(Abs()).(session := old(session.Abs()).(clock := Fired(p.clock, p.noise, old(session.correlator.Abs()), now)))
    {
      var f := session.Tick(now);
      frame := f.value;
    }

    /** Seal one frame and queue its bytes for the wire. */
    method SealInto(f: Frame)
      requires Valid()
      modifies this`wireSeq, this`pending, this`frames, cipher
      ensures Abs() == Sealed(p, old(Abs()), f)
    {
      var bytes := cipher.SealFrame(f);
      wireSeq := wireSeq + 1;
      pending := pending + bytes;
      frames := frames + [f];
    }

    method FlushPending(outcome: WriteOutcome) returns (keep: bool)
      modifies this`pending, this`written
      ensures Serviced(Abs(), keep) == Flushed(old(Abs()), outcome)
    {
      keep := true;
      if pending != [] {
        match outcome {
          case Accepts(n) =>
            var k := Min(n, |pending|);
            written := written + pending[..k];
            pending := pending[k..];
            keep := n != 0;
          case WouldBlock =>
          case WireError => keep := false;
        }
      }
    }

    /** One turn of the slot loop: at most one pull, then exactly one frame. */
    method RunSlot(arrival: Arrival, now: Instant, gateOpen: bool)
      requires Valid() && now >= session.correlator.nextDeparture
      modifies Repr
      ensures Abs() == Slot(p, Arrive(old(Abs()), arrival), now, gateOpen)
    {
      ReceiveArrival(arrival);
      if !readerDone && session.correlator.HasQueueSpace() && gateOpen {
        PullCell(now);
      }
      EmitSlot(now);
    }

    method RunSlots(now: Instant, gateOpen: bool, arrivals: seq<Arrival>)
      requires Valid()
      modifies Repr
      ensures Abs() == Slots(p, old(Abs()), now, gateOpen, arrivals)
    {
      var during := arrivals;
      while session.correlator.SlotReady(now) && |pending| < PENDING_CAP
        invariant Slots(p, Abs(), now, gateOpen, during) == Slots(p, old(Abs()), now, gateOpen, arrivals)
        decreases PENDING_CAP - |pending|
      {
        SlotsTurn(p, Abs(), now, gateOpen, during);
        RunSlot(FirstArrival(during), now, gateOpen);
        during := LaterArrivals(during);
      }
    }

    method StartClock(now: Instant)
      requires Valid()
      modifies Repr
      ensures Abs() == Started(p, old(Abs()), now)
    {
      if !clockStarted {
        session.RestartClock(now);
        clockStarted := true;
      }
    }

    /** The close decision, taken from the flow's own fields. */
    predicate ShouldClose(now: Instant)
      reads Repr
      ensures ShouldClose(now) <==> Finished(Abs(), now)
    {
      && readerDone
      && (|| (&& session.correlator.QueueDepth() == 0
              && pending == []
              && (tail.Some? ==> now >= tail.value.deadline && wireSeq >= tail.value.volume))
          || (finishBy.Some? && now >= finishBy.value))
    }

    /** One emitter tick of this flow; `keep` tells the emitter whether to hold on to it. */
    method ServiceFlow(io: Io) returns (keep: bool)
      requires Valid()
      modifies Repr
      ensures Serviced(Abs(), keep) == Service(p, old(Abs()), io)
    {
      ReceiveArrival(io.before);
      StartClock(io.now);
      RunSlots(io.now, io.now >= p.realHoldUntil, io.during);
      keep := FlushPending(io.outcome);
      if keep && ShouldClose(io.now) {
        keep := false;
      }
    }
  }

  /** A flow as it is registered with the emitter. */
  function Fresh(session: Session, counter: U64): Flow {
    Flow(session, [], false, 0, [], false, None, None, 0, counter, false, [], [], [], 0)
  }
}
