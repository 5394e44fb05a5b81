/** Tail cover: when a drained flow may close. */
module Tails {
  import opened Base

  const CELL_BYTES: nat := 514
  const TAIL_VOLUME_QUANTUM_CELLS: nat := 256
  const NANOS_PER_SEC: nat := 1_000_000_000

  /** An epoch grid: boundaries at `origin + k * period`. */
  datatype EpochClock = EpochClock(origin: Instant, period: Duration)

  function NextBoundary(clock: EpochClock, now: Instant): Instant {
    if clock.period == 0 then now
    else clock.origin + ((Max(0, now - clock.origin) / clock.period + 1) * clock.period) % U64_SIZE
  }

  datatype SessionClass = Short | Medium | Long | VeryLong {
    function TargetVolumeBytes(): nat {
      match this
      case Short => 64 * 1024
      case Medium => 1024 * 1024
      case Long => 16 * 1024 * 1024
      case VeryLong => 256 * 1024 * 1024
    }

    function TargetDuration(): Duration {
      match this
      case Short => 30 * NANOS_PER_SEC
      case Medium => 300 * NANOS_PER_SEC
      case Long => 1800 * NANOS_PER_SEC
      case VeryLong => 7200 * NANOS_PER_SEC
    }
  }

  datatype Thresholds = Thresholds(shortMax: nat, mediumMax: nat, longMax: nat) {
    function Classify(realBytes: nat): SessionClass {
      if realBytes <= shortMax then Short
      else if realBytes <= mediumMax then Medium
      else if realBytes <= longMax then Long
      else VeryLong
    }
  }

  datatype TailPolicy = Off | Fixed(floor: Duration) | ByClass | Epoch(clock: EpochClock)

  datatype Tail = Tail(deadline: Instant, volume: nat)

  /** The instant an Epoch tail is rounded up from. */
  function Anchor(realBytes: nat, thresholds: Thresholds, sessionStart: Instant, now: Instant): Instant {
    Max(sessionStart + thresholds.Classify(realBytes).TargetDuration(), now)
  }

  function TailTargets(realBytes: nat, wireSeq: nat, policy: TailPolicy, thresholds: Thresholds,
                       sessionStart: Instant, now: Instant): Option<Tail>
  {
    match policy
    case Off => None
    case Fixed(d) =>
      Some(Tail(sessionStart + d,
                (wireSeq + TAIL_VOLUME_QUANTUM_CELLS - 1) / TAIL_VOLUME_QUANTUM_CELLS * TAIL_VOLUME_QUANTUM_CELLS))
    case ByClass =>
      var class_ := thresholds.Classify(realBytes);
      Some(Tail(sessionStart + class_.TargetDuration(), class_.TargetVolumeBytes() / CELL_BYTES))
    case Epoch(clock) => Some(Tail(NextBoundary(clock, Anchor(realBytes, thresholds, sessionStart, now)), 0))
  }

  // --- Epoch boundaries -------------------------------------------------------

  ghost predicate IsBoundary(clock: EpochClock, t: Instant) {
    exists k: nat :: t == clock.origin + k * clock.period
  }

  /** The number of the epoch `t` falls in. */
  function EpochOf(clock: EpochClock, t: Instant): nat
    requires clock.period > 0 && t >= clock.origin
  {
    (t - clock.origin) / clock.period
  }

  lemma EpochBounds(clock: EpochClock, t: Instant)
    requires clock.period > 0 && t >= clock.origin
    ensures clock.origin + EpochOf(clock, t) * clock.period <= t
    ensures t < clock.origin + (EpochOf(clock, t) + 1) * clock.period
  {
  }

  lemma MultipleOrder(a: nat, b: nat, d: nat)
    requires a * d < b * d
    ensures a < b
  {
  }

  lemma MultipleMonotone(a: nat, b: nat, d: nat)
    requires a <= b
    ensures a * d <= b * d
  {
  }

  /** The 64-bit nanosecond count of the next boundary does not overflow (584 years of uptime). */
  predicate InRange(clock: EpochClock, now: Instant)
    requires clock.period > 0 && now >= clock.origin
  {
    (EpochOf(clock, now) + 1) * clock.period < U64_SIZE
  }

  lemma InRangeBelow(clock: EpochClock, a: Instant, b: Instant)
    requires clock.period > 0 && clock.origin <= a <= b && InRange(clock, b)
    ensures InRange(clock, a)
  {
    EpochBounds(clock, a);
    EpochBounds(clock, b);
    MultipleOrder(EpochOf(clock, a), EpochOf(clock, b) + 1, clock.period);
    MultipleMonotone(EpochOf(clock, a) + 1, EpochOf(clock, b) + 1, clock.period);
  }

  /** The next boundary is the least boundary strictly after `now`. */
  lemma NextBoundaryIsLeast(clock: EpochClock, now: Instant)
    requires clock.period > 0 && now >= clock.origin && InRange(clock, now)
    ensures NextBoundary(clock, now) > now && IsBoundary(clock, NextBoundary(clock, now))
    ensures forall b :: IsBoundary(clock, b) && b > now ==> NextBoundary(clock, now) <= b
  {
    var e := EpochOf(clock, now);
    EpochBounds(clock, now);
    assert NextBoundary(clock, now) == clock.origin + (e + 1) * clock.period;
    forall b | IsBoundary(clock, b) && b > now
      ensures NextBoundary(clock, now) <= b
    {
      var k: nat :| b == clock.origin + k * clock.period;
      MultipleOrder(e, k, clock.period);
      MultipleMonotone(e + 1, k, clock.period);
    }
  }

  /** A zero period is the one configuration with no boundary after `now`: the gate is `now` itself. */
  lemma NextBoundaryIsLaterIff(clock: EpochClock, now: Instant)
    requires now >= clock.origin && (clock.period > 0 ==> InRange(clock, now))
    ensures NextBoundary(clock, now) > now <==> clock.period > 0
  {
  }

  /** Two flows whose anchors fall in the same epoch, and only such flows, end on the same boundary. */
  lemma SharedDeadline(clock: EpochClock, a: Instant, b: Instant)
    requires clock.period > 0 && a >= clock.origin && b >= clock.origin
    requires InRange(clock, a) && InRange(clock, b)
    ensures NextBoundary(clock, a) == NextBoundary(clock, b) <==> EpochOf(clock, a) == EpochOf(clock, b)
  {
    var ea, eb := EpochOf(clock, a), EpochOf(clock, b);
    assert NextBoundary(clock, a) == clock.origin + (ea + 1) * clock.period;
    assert NextBoundary(clock, b) == clock.origin + (eb + 1) * clock.period;
    if ea < eb {
      MultipleMonotone(ea + 2, eb + 1, clock.period);
      assert (ea + 2) * clock.period == (ea + 1) * clock.period + clock.period;
    } else if eb < ea {
      MultipleMonotone(eb + 2, ea + 1, clock.period);
      assert (eb + 2) * clock.period == (eb + 1) * clock.period + clock.period;
    }
  }

  /** An Epoch tail lasts at least the class floor and never ends before it is computed. */
  lemma EpochTail(realBytes: nat, wireSeq: nat, clock: EpochClock, thresholds: Thresholds,
                  sessionStart: Instant, now: Instant)
    requires clock.period > 0 && now >= clock.origin
    requires InRange(clock, Anchor(realBytes, thresholds, sessionStart, now))
    ensures
      var tail := TailTargets(realBytes, wireSeq, Epoch(clock), thresholds, sessionStart, now);
      && tail.Some? && tail.value.volume == 0 && IsBoundary(clock, tail.value.deadline)
      && tail.value.deadline > now
      && tail.value.deadline > sessionStart + thresholds.Classify(realBytes).TargetDuration()
      && forall b :: IsBoundary(clock, b) && b > Anchor(realBytes, thresholds, sessionStart, now)
           ==> tail.value.deadline <= b
  {
    NextBoundaryIsLeast(clock, Anchor(realBytes, thresholds, sessionStart, now));
  }

  /** A fixed tail rounds the volume up to whole quanta, by less than one, and lasts the fixed time. */
  lemma FixedTail(realBytes: nat, wireSeq: nat, d: Duration, thresholds: Thresholds, sessionStart: Instant, now: Instant)
    ensures
      var tail := TailTargets(realBytes, wireSeq, Fixed(d), thresholds, sessionStart, now);
      && tail.Some? && tail.value.deadline == sessionStart + d
      && tail.value.volume % TAIL_VOLUME_QUANTUM_CELLS == 0
      && wireSeq <= tail.value.volume < wireSeq + TAIL_VOLUME_QUANTUM_CELLS
  {
    var up := wireSeq + TAIL_VOLUME_QUANTUM_CELLS - 1;
    assert up == up / TAIL_VOLUME_QUANTUM_CELLS * TAIL_VOLUME_QUANTUM_CELLS + up % TAIL_VOLUME_QUANTUM_CELLS;
  }

  /** A size limit of a class: the most real bytes it stands for; the last has none. */
  function LimitOf(thresholds: Thresholds, c: SessionClass): Option<nat> {
    match c
    case Short => Some(thresholds.shortMax)
    case Medium => Some(thresholds.mediumMax)
    case Long => Some(thresholds.longMax)
    case VeryLong => None
  }

  predicate FitsClass(thresholds: Thresholds, c: SessionClass, realBytes: nat) {
    LimitOf(thresholds, c).Some? ==> realBytes <= LimitOf(thresholds, c).value
  }

  /** The class is the first that is big enough. */
  lemma ClassIsFirstFit(thresholds: Thresholds, realBytes: nat, c: SessionClass)
    ensures FitsClass(thresholds, thresholds.Classify(realBytes), realBytes)
    ensures FitsClass(thresholds, c, realBytes) ==>
      thresholds.Classify(realBytes).TargetVolumeBytes() <= c.TargetVolumeBytes()
      && thresholds.Classify(realBytes).TargetDuration() <= c.TargetDuration()
  {
  }

  /** A class tail ends with the duration of the class, and its volume is as many cells as the class's bytes fill. */
  lemma ClassTailIsTarget(realBytes: nat, wireSeq: nat, thresholds: Thresholds, sessionStart: Instant, now: Instant)
    ensures
      var tail := TailTargets(realBytes, wireSeq, ByClass, thresholds, sessionStart, now);
      var c := thresholds.Classify(realBytes);
      && tail.Some? && tail.value.deadline - sessionStart == c.TargetDuration()
      && tail.value.volume * CELL_BYTES <= c.TargetVolumeBytes() < (tail.value.volume + 1) * CELL_BYTES
  {
    var v := thresholds.Classify(realBytes).TargetVolumeBytes();
    assert v == v / CELL_BYTES * CELL_BYTES + v % CELL_BYTES;
  }

  /** The more was carried, the longer and the bigger the tail of its class; the clock and the frame count
      have no say. */
  lemma ClassTailGrows(a: nat, b: nat, seqA: nat, seqB: nat, thresholds: Thresholds, sessionStart: Instant,
                       nowA: Instant, nowB: Instant)
    requires a <= b
    ensures
      var x := TailTargets(a, seqA, ByClass, thresholds, sessionStart, nowA);
      var y := TailTargets(b, seqB, ByClass, thresholds, sessionStart, nowB);
      && x.Some? && y.Some? && x.value.deadline <= y.value.deadline && x.value.volume <= y.value.volume
  {
  }
}
