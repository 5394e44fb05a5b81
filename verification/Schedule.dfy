/** The departure schedule is absolute: how often and how late the clock is polled does not move it. */
module Schedule {
  import opened Base
  import opened Crypto
  import opened TimingCorrelation
  import opened ShapedSessions
  import opened Tails
  import opened Transport
  import opened FlowInvariants

  // --- One clock, any events ----------------------------------------------------------

  /** The slot that fires at event `e`, if one does, draws an interval. */
  predicate Fires(s: State, e: Event) { e.Tick? && e.at >= s.nextDeparture }

  /** The intervals drawn by the slots of a run, in order. */
  function Drawn(cfg: Config, noise: Noise, s: State, events: seq<Event>): seq<Duration>
    requires cfg.Valid()
  {
    if events == [] then []
    else
      var init, last := events[..|events| - 1], events[|events| - 1];
      var before := RunEvents(cfg, noise, s, init);
      Drawn(cfg, noise, s, init)
      + (if Fires(before, last) then [Step(cfg, noise, before.rng, before.meanIatMs)] else [])
  }

  function SumOf(ds: seq<Duration>): Duration {
    if ds == [] then 0 else SumOf(ds[..|ds| - 1]) + ds[|ds| - 1]
  }

  lemma SumOfSnoc(ds: seq<Duration>, d: Duration)
    ensures SumOf(ds + [d]) == SumOf(ds) + d
  {
  }

  /** The departure that follows the `i`-th event's slot on the absolute schedule. */
  function Following(cfg: Config, noise: Noise, s: State, events: seq<Event>, i: nat): Instant
    requires cfg.Valid() && i < |events|
  {
    s.nextDeparture + SumOf(Drawn(cfg, noise, s, events[..i + 1]))
  }

  /** The slot of the `i`-th event, if it has one, is serviced at most 200 ms after the departure that follows it. */
  predicate OnTimeAt(cfg: Config, noise: Noise, s: State, events: seq<Event>, i: nat)
    requires cfg.Valid() && i < |events|
  {
    Fires(RunEvents(cfg, noise, s, events[..i]), events[i]) ==>
      events[i].at <= Following(cfg, noise, s, events, i) + MAX_CATCHUP_LAG
  }

  ghost predicate Punctual(cfg: Config, noise: Noise, s: State, events: seq<Event>)
    requires cfg.Valid()
  {
    forall i :: 0 <= i < |events| ==> OnTimeAt(cfg, noise, s, events, i)
  }

  lemma OnTimeBefore(cfg: Config, noise: Noise, s: State, events: seq<Event>, n: nat, i: nat)
    requires cfg.Valid() && i < n <= |events|
    ensures OnTimeAt(cfg, noise, s, events[..n], i) <==> OnTimeAt(cfg, noise, s, events, i)
  {
    assert events[..n][..i] == events[..i] && events[..n][..i + 1] == events[..i + 1];
  }

  lemma PunctualSnoc(cfg: Config, noise: Noise, s: State, events: seq<Event>)
    requires cfg.Valid() && events != []
    ensures
      var last := |events| - 1;
      Punctual(cfg, noise, s, events) <==>
        Punctual(cfg, noise, s, events[..last]) && OnTimeAt(cfg, noise, s, events, last)
  {
    var last := |events| - 1;
    forall i | 0 <= i < last
      ensures OnTimeAt(cfg, noise, s, events[..last], i) <==> OnTimeAt(cfg, noise, s, events, i)
    {
      OnTimeBefore(cfg, noise, s, events, last, i);
    }
  }

  /** Absolute schedule: over every run the next departure is never before the first one plus all intervals drawn since,
      and it is exactly that iff no slot was serviced more than 200 ms after the departure that follows it. */
  lemma {:induction false} ScheduleIsAbsoluteIff(cfg: Config, noise: Noise, s: State, events: seq<Event>)
    requires cfg.Valid()
    ensures
      var due, t := s.nextDeparture + SumOf(Drawn(cfg, noise, s, events)), RunEvents(cfg, noise, s, events);
      t.nextDeparture >= due && (t.nextDeparture == due <==> Punctual(cfg, noise, s, events))
  {
    if events != [] {
      var last := |events| - 1;
      ScheduleIsAbsoluteIff(cfg, noise, s, events[..last]);
      PunctualSnoc(cfg, noise, s, events);
      EventMovesOn(cfg, noise, s, events);
      assert events[..last + 1] == events;
    }
  }

  /** One event more: its slot, if it has one, moves the schedule on by its interval from where it stood, or, when that
      is more than 200 ms ago, from `now`. */
  lemma EventMovesOn(cfg: Config, noise: Noise, s: State, events: seq<Event>)
    requires cfg.Valid() && events != []
    ensures
      var last := |events| - 1;
      var before, after := RunEvents(cfg, noise, s, events[..last]), RunEvents(cfg, noise, s, events);
      if Fires(before, events[last]) then
        var d := Step(cfg, noise, before.rng, before.meanIatMs);
        && SumOf(Drawn(cfg, noise, s, events)) == SumOf(Drawn(cfg, noise, s, events[..last])) + d
        && (events[last].at <= before.nextDeparture + d + MAX_CATCHUP_LAG ==> after.nextDeparture == before.nextDeparture + d)
        && (events[last].at > before.nextDeparture + d + MAX_CATCHUP_LAG ==> after.nextDeparture == events[last].at + d)
      else
        Drawn(cfg, noise, s, events) == Drawn(cfg, noise, s, events[..last]) && after.nextDeparture == before.nextDeparture
  {
    var last := |events| - 1;
    var before := RunEvents(cfg, noise, s, events[..last]);
    if Fires(before, events[last]) {
      SumOfSnoc(Drawn(cfg, noise, s, events[..last]), Step(cfg, noise, before.rng, before.meanIatMs));
    }
  }

  // --- A flow at a fixed rate ---------------------------------------------------------

  /** The generator before slot `k` draws its interval, when no packet needs padding. */
  function RngBefore(cfg: Config, noise: Noise, rng: int, k: nat): int {
    if k == 0 then rng else AfterCoin(cfg, noise, noise.afterUniform(RngBefore(cfg, noise, rng, k - 1)))
  }

  /** The first `k` intervals together. */
  function Elapsed(cfg: Config, noise: Noise, rng: int, meanMs: real, k: nat): Duration
    requires cfg.Valid()
  {
    if k == 0 then 0
    else Elapsed(cfg, noise, rng, meanMs, k - 1) + Step(cfg, noise, RngBefore(cfg, noise, rng, k - 1), meanMs)
  }

  /** When slot `k` of a session that is first serviced at `start` is due: one interval after `start`, and so on. */
  function Departure(p: Params, s: Session, start: Instant, k: nat): Instant
    requires p.clock.Valid()
  {
    start + Step(p.clock, p.noise, s.clock.rng, s.clock.meanIatMs)
    + Elapsed(p.clock, p.noise, p.noise.afterUniform(s.clock.rng), s.clock.meanIatMs, k)
  }

  lemma DepartureNext(p: Params, s: Session, start: Instant, k: nat)
    requires p.clock.Valid()
    ensures Departure(p, s, start, k + 1) == Departure(p, s, start, k)
         + Step(p.clock, p.noise, RngBefore(p.clock, p.noise, p.noise.afterUniform(s.clock.rng), k), s.clock.meanIatMs)
  {
  }

  /** The clock stands where the schedule says after as many slots as frames have been sealed. */
  predicate OnSchedule(p: Params, s: Session, start: Instant, f: Flow)
    requires p.clock.Valid()
  {
    var c := f.session.clock;
    && f.clockStarted && QueueUniform(p.clock, c) && c.meanIatMs == s.clock.meanIatMs
    && c.rng == RngBefore(p.clock, p.noise, p.noise.afterUniform(s.clock.rng), |f.frames|)
    && c.nextDeparture == Departure(p, s, start, |f.frames|)
  }

  lemma FiredOnSchedule(cfg: Config, noise: Noise, c: State, now: Instant)
    requires cfg.Valid() && QueueUniform(cfg, c)
    requires now <= c.nextDeparture + Step(cfg, noise, c.rng, c.meanIatMs) + MAX_CATCHUP_LAG
    ensures
      var t := Fired(cfg, noise, c, now);
      && t.rng == AfterCoin(cfg, noise, noise.afterUniform(c.rng)) && t.meanIatMs == c.meanIatMs && QueueUniform(cfg, t)
      && t.nextDeparture == c.nextDeparture + Step(cfg, noise, c.rng, c.meanIatMs)
  {
  }

  lemma EmitOnSchedule(p: Params, s: Session, start: Instant, f: Flow, now: Instant)
    requires p.clock.Valid() && OnSchedule(p, s, start, f)
    requires now <= Departure(p, s, start, |f.frames| + 1) + MAX_CATCHUP_LAG
    ensures OnSchedule(p, s, start, Emit(p, f, now)) && |Emit(p, f, now).frames| == |f.frames| + 1
  {
    DepartureNext(p, s, start, |f.frames|);
    FiredOnSchedule(p.clock, p.noise, f.session.clock, now);
  }

  lemma PullOnSchedule(p: Params, s: Session, start: Instant, f: Flow, now: Instant)
    requires p.clock.Valid() && !p.clock.adaptRate && OnSchedule(p, s, start, f)
    ensures OnSchedule(p, s, start, Pulled(p, f, now)) && Pulled(p, f, now).frames == f.frames
  {
  }

  lemma SlotOnSchedule(p: Params, s: Session, start: Instant, f: Flow, now: Instant, gateOpen: bool)
    requires p.clock.Valid() && !p.clock.adaptRate && OnSchedule(p, s, start, f)
    requires now <= Departure(p, s, start, |f.frames| + 1) + MAX_CATCHUP_LAG
    ensures OnSchedule(p, s, start, Slot(p, f, now, gateOpen)) && |Slot(p, f, now, gateOpen).frames| == |f.frames| + 1
  {
    PullOnSchedule(p, s, start, f, now);
    EmitOnSchedule(p, s, start, if CanPull(p, f, gateOpen) then Pulled(p, f, now) else f, now);
  }

  /** From `f` to `g` slots were fired on schedule, and none before it was due. */
  predicate Reached(p: Params, s: Session, start: Instant, f: Flow, g: Flow, now: Instant)
    requires p.clock.Valid()
  {
    && OnSchedule(p, s, start, g) && |f.frames| <= |g.frames|
    && (|f.frames| < |g.frames| ==> Departure(p, s, start, |g.frames| - 1) <= now)
  }

  lemma SlotReached(p: Params, s: Session, start: Instant, f: Flow, a: Arrival, now: Instant, gateOpen: bool)
    requires p.clock.Valid() && !p.clock.adaptRate && OnSchedule(p, s, start, f) && SlotDue(f, now)
    requires now <= Departure(p, s, start, |f.frames| + 1) + MAX_CATCHUP_LAG
    ensures Reached(p, s, start, f, Slot(p, Arrive(f, a), now, gateOpen), now)
    ensures |Slot(p, Arrive(f, a), now, gateOpen).frames| == |f.frames| + 1
  {
    SlotOnSchedule(p, s, start, Arrive(f, a), now, gateOpen);
  }

  lemma {:induction false} SlotsOnSchedule(p: Params, s: Session, start: Instant, f: Flow, now: Instant, gateOpen: bool,
                                           during: seq<Arrival>)
    requires p.clock.Valid() && !p.clock.adaptRate && OnSchedule(p, s, start, f)
    requires now <= Departure(p, s, start, |f.frames| + 1) + MAX_CATCHUP_LAG
    ensures Reached(p, s, start, f, Slots(p, f, now, gateOpen, during), now)
    decreases PENDING_CAP - |f.pending|
  {
    if SlotDue(f, now) {
      var g := Slot(p, Arrive(f, FirstArrival(during)), now, gateOpen);
      SlotsTurn(p, f, now, gateOpen, during);
      SlotReached(p, s, start, f, FirstArrival(during), now, gateOpen);
      DepartureNext(p, s, start, |g.frames|);
      SlotsOnSchedule(p, s, start, g, now, gateOpen, LaterArrivals(during));
    }
  }

  /** All slots that are due are fired, unless too many bytes are unwritten. */
  lemma {:induction false} AllDueFired(p: Params, f: Flow, now: Instant, gateOpen: bool, during: seq<Arrival>)
    requires p.clock.Valid()
    ensures !SlotDue(Slots(p, f, now, gateOpen, during), now)
    decreases PENDING_CAP - |f.pending|
  {
    if SlotDue(f, now) {
      AllDueFired(p, Slot(p, Arrive(f, FirstArrival(during)), now, gateOpen), now, gateOpen, LaterArrivals(during));
    }
  }

  /** A flow that has started on schedule, or starts now. */
  predicate MayGoOn(p: Params, s: Session, start: Instant, f: Flow, now: Instant)
    requires p.clock.Valid()
  {
    OnSchedule(p, s, start, f) || (f == Fresh(s, 0) && FreshSession(s) && now == start)
  }

  lemma StartOnSchedule(p: Params, s: Session, start: Instant, f: Flow, a: Arrival, now: Instant)
    requires p.clock.Valid() && MayGoOn(p, s, start, f, now)
    ensures OnSchedule(p, s, start, Started(p, Arrive(f, a), now)) && Started(p, Arrive(f, a), now).frames == f.frames
  {
  }

  lemma FlushOnSchedule(p: Params, s: Session, start: Instant, f: Flow, g: Flow, outcome: WriteOutcome, now: Instant)
    requires p.clock.Valid() && Reached(p, s, start, f, g, now)
    ensures Reached(p, s, start, f, Flushed(g, outcome).flow, now) && Flushed(g, outcome).flow.frames == g.frames
  {
  }

  /** A service call stays on schedule, and fires every slot due by then unless too many bytes are unwritten. */
  lemma ServiceOnSchedule(p: Params, s: Session, start: Instant, f: Flow, io: Io)
    requires p.clock.Valid() && !p.clock.adaptRate && MayGoOn(p, s, start, f, io.now)
    requires io.now <= Departure(p, s, start, |f.frames| + 1) + MAX_CATCHUP_LAG
    ensures Reached(p, s, start, f, Service(p, f, io).flow, io.now)
    ensures |Clocked(p, f, io).pending| < PENDING_CAP ==>
      Departure(p, s, start, |Service(p, f, io).flow.frames|) > io.now
  {
    ClockedOnSchedule(p, s, start, f, io);
    FlushOnSchedule(p, s, start, f, Clocked(p, f, io), io.outcome, io.now);
  }

  lemma ClockedOnSchedule(p: Params, s: Session, start: Instant, f: Flow, io: Io)
    requires p.clock.Valid() && !p.clock.adaptRate && MayGoOn(p, s, start, f, io.now)
    requires io.now <= Departure(p, s, start, |f.frames| + 1) + MAX_CATCHUP_LAG
    ensures
      var g := Clocked(p, f, io);
      && Reached(p, s, start, f, g, io.now)
      && (|g.pending| < PENDING_CAP ==> Departure(p, s, start, |g.frames|) > io.now)
  {
    StartOnSchedule(p, s, start, f, io.before, io.now);
    StartedOnSchedule(p, s, start, Started(p, Arrive(f, io.before), io.now), io.now, io.now >= p.realHoldUntil, io.during);
  }

  lemma StartedOnSchedule(p: Params, s: Session, start: Instant, f: Flow, now: Instant, gateOpen: bool, during: seq<Arrival>)
    requires p.clock.Valid() && !p.clock.adaptRate && OnSchedule(p, s, start, f)
    requires now <= Departure(p, s, start, |f.frames| + 1) + MAX_CATCHUP_LAG
    ensures
      var g := Slots(p, f, now, gateOpen, during);
      && Reached(p, s, start, f, g, now)
      && (|g.pending| < PENDING_CAP ==> Departure(p, s, start, |g.frames|) > now)
  {
    SlotsOnSchedule(p, s, start, f, now, gateOpen, during);
    AllDueFired(p, f, now, gateOpen, during);
  }

  /** The frames sealed in the first `i` calls of a run. */
  function SealedBy(p: Params, s: Session, ios: seq<Io>, i: nat): nat
    requires p.clock.Valid() && i <= |ios|
  {
    |RunFlow(p, Fresh(s, 0), ios[..i]).flow.frames|
  }

  /** No slot is serviced more than 200 ms after the departure that follows it. */
  ghost predicate PunctualRun(p: Params, s: Session, ios: seq<Io>)
    requires p.clock.Valid()
  {
    forall i :: 0 <= i < |ios| ==>
      ios[i].now <= Departure(p, s, ios[0].now, SealedBy(p, s, ios, i) + 1) + MAX_CATCHUP_LAG
  }

  predicate InOrder(ios: seq<Io>) { forall i, j :: 0 <= i < j < |ios| ==> ios[i].now <= ios[j].now }

  lemma PunctualInit(p: Params, s: Session, ios: seq<Io>)
    requires p.clock.Valid() && |ios| > 1 && InOrder(ios) && PunctualRun(p, s, ios)
    ensures
      var init := ios[..|ios| - 1];
      && PunctualRun(p, s, init) && InOrder(init) && init[0] == ios[0]
      && init[|init| - 1] == ios[|ios| - 2] && ios[|ios| - 2].now <= ios[|ios| - 1].now
  {
    var init := ios[..|ios| - 1];
    forall i | 0 <= i < |init|
      ensures init[..i] == ios[..i] && init[i] == ios[i]
    {
    }
  }

  lemma LastCall(p: Params, f: Flow, ios: seq<Io>)
    requires p.clock.Valid() && ios != []
    ensures
      var last := |ios| - 1;
      var before := RunFlow(p, f, ios[..last]);
      RunFlow(p, f, ios) == if before.keep then Service(p, before.flow, ios[last]) else before
  {
  }

  /** Some call of the run sealed the last frame, and not before its slot was due. */
  predicate DueBy(p: Params, s: Session, start: Instant, f: Flow, now: Instant)
    requires p.clock.Valid()
  {
    |f.frames| > 0 ==> Departure(p, s, start, |f.frames| - 1) <= now
  }

  lemma GoesOnDue(p: Params, s: Session, start: Instant, f: Serviced, io: Io, earlier: Instant)
    requires p.clock.Valid() && !p.clock.adaptRate && MayGoOn(p, s, start, f.flow, io.now)
    requires f.keep ==> io.now <= Departure(p, s, start, |f.flow.frames| + 1) + MAX_CATCHUP_LAG
    requires earlier <= io.now && DueBy(p, s, start, f.flow, earlier) && (OnSchedule(p, s, start, f.flow) || f.keep)
    ensures
      var g := if f.keep then Service(p, f.flow, io).flow else f.flow;
      OnSchedule(p, s, start, g) && DueBy(p, s, start, g, io.now)
  {
    if f.keep {
      ServiceOnSchedule(p, s, start, f.flow, io);
    }
  }

  /** Over every punctual run the clock stands on the absolute schedule: the slot after `n` frames is due one interval
      after the first call, and `n` intervals more. No frame was sealed before its slot was due. */
  lemma {:induction false} RunOnSchedule(p: Params, s: Session, ios: seq<Io>)
    requires p.clock.Valid() && !p.clock.adaptRate && FreshSession(s)
    requires ios != [] && InOrder(ios) && PunctualRun(p, s, ios)
    ensures OnSchedule(p, s, ios[0].now, RunFlow(p, Fresh(s, 0), ios).flow)
    ensures DueBy(p, s, ios[0].now, RunFlow(p, Fresh(s, 0), ios).flow, ios[|ios| - 1].now)
  {
    var last := |ios| - 1;
    var before := RunFlow(p, Fresh(s, 0), ios[..last]);
    BeforeLast(p, s, ios);
    LastCall(p, Fresh(s, 0), ios);
    if last > 0 {
      PunctualInit(p, s, ios);
      RunOnSchedule(p, s, ios[..last]);
      GoesOnDue(p, s, ios[0].now, before, ios[last], ios[last - 1].now);
    } else {
      assert before == Serviced(Fresh(s, 0), true);
      GoesOnDue(p, s, ios[0].now, before, ios[last], ios[last].now);
    }
  }

  lemma BeforeLast(p: Params, s: Session, ios: seq<Io>)
    requires p.clock.Valid() && ios != [] && PunctualRun(p, s, ios)
    ensures
      var last := |ios| - 1;
      ios[last].now <= Departure(p, s, ios[0].now, |RunFlow(p, Fresh(s, 0), ios[..last]).flow.frames| + 1) + MAX_CATCHUP_LAG
  {
    var last := |ios| - 1;
    assert ios[last].now <= Departure(p, s, ios[0].now, SealedBy(p, s, ios, last) + 1) + MAX_CATCHUP_LAG;
  }

  lemma {:induction false} DeparturesAscend(p: Params, s: Session, start: Instant, i: nat, j: nat)
    requires p.clock.Valid() && i <= j
    ensures Departure(p, s, start, i) <= Departure(p, s, start, j)
    decreases j - i
  {
    if i < j {
      DeparturesAscend(p, s, start, i, j - 1);
      DepartureNext(p, s, start, j - 1);
    }
  }

  /** The last call of a run happened, and left no slot for want of room. */
  predicate Caught(p: Params, s: Session, ios: seq<Io>)
    requires p.clock.Valid() && ios != []
  {
    var last := |ios| - 1;
    var before := RunFlow(p, Fresh(s, 0), ios[..last]);
    before.keep && |Clocked(p, before.flow, ios[last]).pending| < PENDING_CAP
  }

  /** After a punctual run exactly the slots due by its last call have been sealed: slot `k` has iff its departure, a
      fact of the clock alone, is not after that call. */
  lemma SealedIffDue(p: Params, s: Session, ios: seq<Io>, k: nat)
    requires p.clock.Valid() && !p.clock.adaptRate && FreshSession(s)
    requires ios != [] && InOrder(ios) && PunctualRun(p, s, ios) && Caught(p, s, ios)
    ensures k < SealedBy(p, s, ios, |ios|) <==> Departure(p, s, ios[0].now, k) <= ios[|ios| - 1].now
  {
    var n := |RunFlow(p, Fresh(s, 0), ios).flow.frames|;
    assert n > 0 ==> Departure(p, s, ios[0].now, n - 1) <= ios[|ios| - 1].now by {
      RunOnSchedule(p, s, ios);
    }
    assert Departure(p, s, ios[0].now, n) > ios[|ios| - 1].now by {
      LastCallCaught(p, s, ios);
    }
    SplitsSchedule(p, s, ios[0].now, ios[|ios| - 1].now, n, k);
    SealedInAll(p, s, ios);
  }

  lemma SealedInAll(p: Params, s: Session, ios: seq<Io>)
    requires p.clock.Valid()
    ensures SealedBy(p, s, ios, |ios|) == |RunFlow(p, Fresh(s, 0), ios).flow.frames|
  {
    assert ios[..|ios|] == ios;
  }

  lemma SplitsSchedule(p: Params, s: Session, start: Instant, now: Instant, n: nat, k: nat)
    requires p.clock.Valid() && Departure(p, s, start, n) > now
    requires n > 0 ==> Departure(p, s, start, n - 1) <= now
    ensures k < n <==> Departure(p, s, start, k) <= now
  {
    if k < n {
      DeparturesAscend(p, s, start, k, n - 1);
    } else {
      DeparturesAscend(p, s, start, n, k);
    }
  }

  lemma LastCallCaught(p: Params, s: Session, ios: seq<Io>)
    requires p.clock.Valid() && !p.clock.adaptRate && FreshSession(s)
    requires ios != [] && InOrder(ios) && PunctualRun(p, s, ios) && Caught(p, s, ios)
    ensures Departure(p, s, ios[0].now, |RunFlow(p, Fresh(s, 0), ios).flow.frames|) > ios[|ios| - 1].now
  {
    var last := |ios| - 1;
    if last > 0 {
      PunctualInit(p, s, ios);
      RunOnSchedule(p, s, ios[..last]);
    }
    BeforeLast(p, s, ios);
    ServiceOnSchedule(p, s, ios[0].now, RunFlow(p, Fresh(s, 0), ios[..last]).flow, ios[last]);
  }

  /** Polling does not matter: two flows with one clock, first serviced together and last serviced together, have sealed
      equally many frames and are due next at the same instant, however often and whenever each was serviced between,
      whatever they carry and however their wires behave, as long as both were punctual and had room. */
  lemma PollingDoesNotMatter(p: Params, q: Params, s: Session, t: Session, a: seq<Io>, b: seq<Io>)
    requires p.clock.Valid() && p.clock == q.clock && p.noise == q.noise && !p.clock.adaptRate
    requires FreshSession(s) && FreshSession(t) && s.clock.rng == t.clock.rng && s.clock.meanIatMs == t.clock.meanIatMs
    requires a != [] && InOrder(a) && PunctualRun(p, s, a) && Caught(p, s, a)
    requires b != [] && InOrder(b) && PunctualRun(q, t, b) && Caught(q, t, b)
    requires a[0].now == b[0].now && a[|a| - 1].now == b[|b| - 1].now
    ensures SealedBy(p, s, a, |a|) == SealedBy(q, t, b, |b|)
    ensures RunFlow(p, Fresh(s, 0), a).flow.session.clock.nextDeparture
         == RunFlow(q, Fresh(t, 0), b).flow.session.clock.nextDeparture
  {
    var m, n := SealedBy(p, s, a, |a|), SealedBy(q, t, b, |b|);
    forall k: nat
      ensures Departure(p, s, a[0].now, k) == Departure(q, t, b[0].now, k)
    {
    }
    SealedIffDue(p, s, a, Min(m, n));
    SealedIffDue(q, t, b, Min(m, n));
    RunOnSchedule(p, s, a);
    RunOnSchedule(q, t, b);
    SealedInAll(p, s, a);
    SealedInAll(q, t, b);
  }
}
