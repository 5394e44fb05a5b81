/** The clumping pool: packets leave in bursts, by count or by a randomised deadline. */
module Clumping {
  import opened Base
  import opened TimingCorrelation

  type Packet = seq<Byte>

  datatype CycleThresholds = CycleThresholds(maxPackets: nat, timeout: Duration)

  datatype FlushReason = SizeThreshold | Timeout | Manual

  datatype Burst = Burst(packets: seq<Packet>, threshold: CycleThresholds, reason: FlushReason)

  datatype ClumpingConfig = ClumpingConfig(
    minPackets: nat, maxPackets: nat, minTimeout: Duration, maxTimeout: Duration)
  {
    predicate Valid() {
      0 < minPackets <= maxPackets && 0 < minTimeout <= maxTimeout
    }
  }

  /** Fresh thresholds: a packet count and a whole number of microseconds, each within its range. */
  function NextThresholds(cfg: ClumpingConfig, noise: Noise, rng: int): (t: CycleThresholds)
    requires cfg.Valid()
    ensures cfg.minPackets <= t.maxPackets <= cfg.maxPackets
    ensures cfg.minTimeout < t.timeout + NANOS_PER_MICRO && t.timeout <= cfg.maxTimeout
  {
    var lo, hi := cfg.minTimeout / NANOS_PER_MICRO, cfg.maxTimeout / NANOS_PER_MICRO;
    CycleThresholds(
      cfg.minPackets + noise.Below(rng, cfg.maxPackets - cfg.minPackets + 1),
      (lo + noise.Below(noise.afterRange(rng), hi - lo + 1)) * NANOS_PER_MICRO)
  }

  /** A generator that draws `count` first and `micros` next. */
  function TwoDraws(count: nat, micros: nat, ln: real -> real): Noise {
    Noise((_: int) => 0.0, (r: int) => r + 1, (_, _) => 0, (r: int, n: nat) => r + n,
          (r: int, _) => if r == 0 then count else micros, (r: int) => r + 1, ln)
  }

  /** Every count of the configured range, and every whole number of microseconds of the other, can be drawn together. */
  lemma ThresholdsReachAll(cfg: ClumpingConfig, count: nat, micros: nat, ln: real -> real)
    requires cfg.Valid() && cfg.minPackets <= count <= cfg.maxPackets
    requires cfg.minTimeout / NANOS_PER_MICRO <= micros <= cfg.maxTimeout / NANOS_PER_MICRO
    ensures exists noise: Noise, rng ::
      noise.ln == ln && NextThresholds(cfg, noise, rng) == CycleThresholds(count, micros * NANOS_PER_MICRO)
  {
    var lo, hi := cfg.minTimeout / NANOS_PER_MICRO, cfg.maxTimeout / NANOS_PER_MICRO;
    var noise := TwoDraws(count - cfg.minPackets, micros - lo, ln);
    BelowItsRange(count - cfg.minPackets, cfg.maxPackets - cfg.minPackets + 1);
    BelowItsRange(micros - lo, hi - lo + 1);
    assert noise.Below(0, cfg.maxPackets - cfg.minPackets + 1) == count - cfg.minPackets;
    assert noise.Below(noise.afterRange(0), hi - lo + 1) == micros - lo;
    assert NextThresholds(cfg, noise, 0) == CycleThresholds(count, micros * NANOS_PER_MICRO);
  }

  lemma BelowItsRange(v: nat, n: nat)
    requires v < n
    ensures v % n == v
  {
  }

  datatype Pool = Pool(rng: int, buffered: seq<Packet>, thresholds: CycleThresholds, deadline: Option<Instant>)

  function FlushedPool(cfg: ClumpingConfig, noise: Noise, s: Pool, now: Instant): Pool
    requires cfg.Valid()
  {
    var rest := s.buffered[Min(|s.buffered|, s.thresholds.maxPackets)..];
    var next := NextThresholds(cfg, noise, s.rng);
    Pool(noise.afterRange(noise.afterRange(s.rng)), rest, next, if rest == [] then None else Some(now + next.timeout))
  }

  function FlushedBurst(s: Pool, reason: FlushReason): Burst {
    Burst(s.buffered[..Min(|s.buffered|, s.thresholds.maxPackets)], s.thresholds, reason)
  }

  datatype Pushed = Pushed(pool: Pool, bursts: seq<Burst>)

  /** The overflow loop of `push`. */
  function Overflow(cfg: ClumpingConfig, noise: Noise, s: Pool, now: Instant): Pushed
    requires cfg.Valid() && s.thresholds.maxPackets > 0
    decreases |s.buffered|
  {
    if |s.buffered| < s.thresholds.maxPackets then Pushed(s, [])
    else
      var next := FlushedPool(cfg, noise, s, now);
      var rest := Overflow(cfg, noise, next, now);
      Pushed(rest.pool, [FlushedBurst(s, SizeThreshold)] + rest.bursts)
  }

  /** One more packet waits; the first one sets the deadline. */
  function WithPacket(s: Pool, packet: Packet, now: Instant): Pool {
    s.(buffered := s.buffered + [packet],
       deadline := if s.buffered == [] then Some(now + s.thresholds.timeout) else s.deadline)
  }

  function PushPacket(cfg: ClumpingConfig, noise: Noise, s: Pool, packet: Packet, now: Instant): Pushed
    requires cfg.Valid() && s.thresholds.maxPackets > 0
  {
    Overflow(cfg, noise, WithPacket(s, packet, now), now)
  }

  /** Below its threshold, within the configured ranges, with a deadline exactly when something waits. */
  predicate Settled(cfg: ClumpingConfig, s: Pool) {
    && cfg.Valid()
    && |s.buffered| < s.thresholds.maxPackets <= cfg.maxPackets
    && s.thresholds.timeout <= cfg.maxTimeout
    && (s.deadline.Some? <==> s.buffered != [])
  }

  class ClumpingPool {
    const cfg: ClumpingConfig
    const noise: Noise
    var rng: int
    var buffered: seq<Packet>
    var thresholds: CycleThresholds
    var deadline: Option<Instant>

    function Abs(): Pool
      reads this
    {
      Pool(rng, buffered, thresholds, deadline)
    }

    ghost predicate Valid()
      reads this
    {
      Settled(cfg, Abs())
    }

    constructor (cfg: ClumpingConfig, noise: Noise, rng: int)
      requires cfg.Valid()
      ensures Valid() && this.cfg == cfg && this.noise == noise
      ensures Abs() == Pool(noise.afterRange(noise.afterRange(rng)), [], NextThresholds(cfg, noise, rng), None)
    {
      this.cfg := cfg;
      this.noise := noise;
      this.rng := noise.afterRange(noise.afterRange(rng));
      buffered := [];
      thresholds := NextThresholds(cfg, noise, rng);
      deadline := None;
    }

    method FlushReady(reason: FlushReason, now: Instant) returns (burst: Burst)
      requires cfg.Valid()
      modifies this
      ensures Abs() == FlushedPool(cfg, noise, old(Abs()), now)
      ensures burst == FlushedBurst(old(Abs()), reason)
    {
      var threshold := thresholds;
      var count := Min(|buffered|, threshold.maxPackets);
      burst := Burst(buffered[..count], threshold, reason);
      buffered := buffered[count..];
      thresholds := NextThresholds(cfg, noise, rng);
      rng := noise.afterRange(noise.afterRange(rng));
      deadline := if buffered == [] then None else Some(now + thresholds.timeout);
    }

    /** At most one burst leaves, and it takes the whole buffer and the new packet with it. */
    method Push(packet: Packet, now: Instant) returns (bursts: seq<Burst>)
      requires Valid()
      modifies this
      ensures Valid()
      ensures Pushed(Abs(), bursts) == PushPacket(cfg, noise, old(Abs()), packet, now)
      ensures |old(buffered)| + 1 < old(thresholds).maxPackets ==>
        bursts == [] && buffered == old(buffered) + [packet]
      ensures |old(buffered)| + 1 == old(thresholds).maxPackets ==>
        bursts == [Burst(old(buffered) + [packet], old(thresholds), SizeThreshold)] && buffered == []
    {
      if buffered == [] {
        deadline := Some(now + thresholds.timeout);
      }
      buffered := buffered + [packet];
      bursts := [];
      ghost var start := Abs();
      assert start.buffered[..|start.buffered|] == start.buffered;
      while |buffered| >= thresholds.maxPackets
        invariant thresholds.maxPackets > 0 && thresholds.maxPackets <= cfg.maxPackets
        invariant thresholds.timeout <= cfg.maxTimeout
        invariant deadline.Some? <==> buffered != []
        invariant (Abs() == start && bursts == [])
               || (|start.buffered| == start.thresholds.maxPackets && buffered == []
                   && bursts == [FlushedBurst(start, SizeThreshold)])
        invariant
          var rest := Overflow(cfg, noise, Abs(), now);
          Pushed(rest.pool, bursts + rest.bursts) == Overflow(cfg, noise, start, now)
        decreases |buffered|
      {
        ghost var before, done := Abs(), bursts;
        var burst := FlushReady(SizeThreshold, now);
        bursts := bursts + [burst];
        ghost var rest := Overflow(cfg, noise, Abs(), now);
        assert done + ([burst] + rest.bursts) == bursts + rest.bursts;
        // A flush takes everything, so there is never a remainder to re-arm the deadline for.
        assert buffered == [];
      }
    }

    /** A pool past its deadline is emptied, down to a single packet. */
    method Tick(now: Instant) returns (burst: Option<Burst>)
      requires Valid()
      modifies this
      ensures Valid()
      ensures burst.Some? <==> old(deadline.Some? && now >= deadline.value)
      ensures burst.Some? ==> burst.value == Burst(old(buffered), old(thresholds), Timeout) && buffered == []
      ensures burst.Some? ==> Abs() == FlushedPool(cfg, noise, old(Abs()), now)
      ensures burst == None ==> Abs() == old(Abs())
    {
      if deadline.Some? && now >= deadline.value && buffered != [] {
        assert buffered[..|buffered|] == buffered;
        var b := FlushReady(Timeout, now);
        return Some(b);
      }
      burst := None;
    }

    method Flush(now: Instant) returns (burst: Option<Burst>)
      requires Valid()
      modifies this
      ensures Valid() && buffered == []
      ensures burst == if old(buffered) == [] then None else Some(Burst(old(buffered), old(thresholds), Manual))
      ensures Abs() == if old(buffered) == [] then old(Abs()) else FlushedPool(cfg, noise, old(Abs()), now)
    {
      if buffered == [] {
        burst := None;
      } else {
        assert buffered[..|buffered|] == buffered;
        var b := FlushReady(Manual, now);
        burst := Some(b);
      }
    }
  }

  // --- Whole runs ----------------------------------------------------------------

  datatype Event = PushAt(packet: Packet, at: Instant) | TickAt(at: Instant) | FlushAt(at: Instant)

  /** A pool with its history: every packet pushed, every burst flushed, and when the oldest
      waiting packet came in. */
  datatype Run = Run(pool: Pool, pushed: seq<Packet>, bursts: seq<Burst>, firstEntry: Instant)

  function Step(cfg: ClumpingConfig, noise: Noise, r: Run, e: Event): Run
    requires cfg.Valid() && r.pool.thresholds.maxPackets > 0
  {
    match e
    case PushAt(packet, at) =>
      var p := PushPacket(cfg, noise, r.pool, packet, at);
      Run(p.pool, r.pushed + [packet], r.bursts + p.bursts, if r.pool.buffered == [] then at else r.firstEntry)
    case TickAt(at) =>
      if r.pool.deadline.Some? && at >= r.pool.deadline.value && r.pool.buffered != [] then
        r.(pool := FlushedPool(cfg, noise, r.pool, at), bursts := r.bursts + [FlushedBurst(r.pool, Timeout)])
      else r
    case FlushAt(at) =>
      if r.pool.buffered == [] then r
      else r.(pool := FlushedPool(cfg, noise, r.pool, at), bursts := r.bursts + [FlushedBurst(r.pool, Manual)])
  }

  function Released(bursts: seq<Burst>): seq<Packet> {
    if bursts == [] then [] else Released(bursts[..|bursts| - 1]) + bursts[|bursts| - 1].packets
  }

  lemma ReleasedSnoc(bursts: seq<Burst>, b: Burst)
    ensures Released(bursts + [b]) == Released(bursts) + b.packets
  {
  }

  /** Nothing is lost or reordered, every burst is within its own threshold and never empty, the
      buffer is below the current threshold, and the deadline is the oldest packet's. */
  ghost predicate Accounted(cfg: ClumpingConfig, r: Run) {
    && Settled(cfg, r.pool)
    && r.pushed == Released(r.bursts) + r.pool.buffered
    && (forall i :: 0 <= i < |r.bursts| ==> 0 < |r.bursts[i].packets| <= r.bursts[i].threshold.maxPackets)
    && (r.pool.deadline.Some? ==> r.pool.deadline.value == r.firstEntry + r.pool.thresholds.timeout)
  }

  lemma FlushEmpties(cfg: ClumpingConfig, noise: Noise, s: Pool, now: Instant, reason: FlushReason)
    requires cfg.Valid() && |s.buffered| <= s.thresholds.maxPackets
    ensures FlushedPool(cfg, noise, s, now).buffered == [] && FlushedPool(cfg, noise, s, now).deadline == None
    ensures FlushedBurst(s, reason).packets == s.buffered
    ensures Settled(cfg, FlushedPool(cfg, noise, s, now))
  {
  }

  /** A buffer that has just reached its threshold overflows once. */
  lemma OverflowOnce(cfg: ClumpingConfig, noise: Noise, s: Pool, now: Instant)
    requires cfg.Valid() && 0 < s.thresholds.maxPackets && |s.buffered| <= s.thresholds.maxPackets
    ensures Overflow(cfg, noise, s, now)
         == if |s.buffered| < s.thresholds.maxPackets then Pushed(s, [])
            else Pushed(FlushedPool(cfg, noise, s, now), [FlushedBurst(s, SizeThreshold)])
  {
    if |s.buffered| == s.thresholds.maxPackets {
      var next := FlushedPool(cfg, noise, s, now);
      FlushEmpties(cfg, noise, s, now, SizeThreshold);
      assert Overflow(cfg, noise, next, now) == Pushed(next, []);
    }
  }

  /** The packet is accounted for, whether it is the one that fills the buffer or not. */
  lemma PacketWaits(cfg: ClumpingConfig, r: Run, full: Pool, packet: Packet, at: Instant)
    requires Accounted(cfg, r) && full == WithPacket(r.pool, packet, at) && |full.buffered| < full.thresholds.maxPackets
    ensures Accounted(cfg, Run(full, r.pushed + [packet], r.bursts, if r.pool.buffered == [] then at else r.firstEntry))
  {
    assert (Released(r.bursts) + r.pool.buffered) + [packet] == Released(r.bursts) + full.buffered;
  }

  lemma PacketFlushes(cfg: ClumpingConfig, noise: Noise, r: Run, full: Pool, packet: Packet, at: Instant, first: Instant)
    requires Accounted(cfg, r) && full == WithPacket(r.pool, packet, at) && |full.buffered| == full.thresholds.maxPackets
    ensures Accounted(cfg, Run(FlushedPool(cfg, noise, full, at), r.pushed + [packet],
                               r.bursts + [FlushedBurst(full, SizeThreshold)], first))
  {
    FlushEmpties(cfg, noise, full, at, SizeThreshold);
    ReleasedSnoc(r.bursts, FlushedBurst(full, SizeThreshold));
    assert (Released(r.bursts) + r.pool.buffered) + [packet] == Released(r.bursts) + full.buffered;
  }

  lemma PushAccounted(cfg: ClumpingConfig, noise: Noise, r: Run, packet: Packet, at: Instant)
    requires Accounted(cfg, r)
    ensures Accounted(cfg, Step(cfg, noise, r, PushAt(packet, at)))
    ensures |Step(cfg, noise, r, PushAt(packet, at)).bursts| <= |r.bursts| + 1
  {
    var full := WithPacket(r.pool, packet, at);
    var first := if r.pool.buffered == [] then at else r.firstEntry;
    OverflowOnce(cfg, noise, full, at);
    if |full.buffered| < full.thresholds.maxPackets {
      PacketWaits(cfg, r, full, packet, at);
      assert r.bursts + [] == r.bursts;
      assert Step(cfg, noise, r, PushAt(packet, at)) == Run(full, r.pushed + [packet], r.bursts, first);
    } else {
      PacketFlushes(cfg, noise, r, full, packet, at, first);
    }
  }

  lemma FlushAccounted(cfg: ClumpingConfig, noise: Noise, r: Run, at: Instant, reason: FlushReason)
    requires Accounted(cfg, r) && r.pool.buffered != []
    ensures Accounted(cfg, r.(pool := FlushedPool(cfg, noise, r.pool, at), bursts := r.bursts + [FlushedBurst(r.pool, reason)]))
  {
  }

  lemma StepAccounted(cfg: ClumpingConfig, noise: Noise, r: Run, e: Event)
    requires Accounted(cfg, r)
    ensures Accounted(cfg, Step(cfg, noise, r, e))
    ensures |Step(cfg, noise, r, e).bursts| <= |r.bursts| + 1
  {
    match e
    case PushAt(packet, at) => PushAccounted(cfg, noise, r, packet, at);
    case TickAt(at) =>
      if r.pool.buffered != [] {
        FlushAccounted(cfg, noise, r, at, Timeout);
      }
    case FlushAt(at) =>
      if r.pool.buffered != [] {
        FlushAccounted(cfg, noise, r, at, Manual);
      }
  }

  function RunPool(cfg: ClumpingConfig, noise: Noise, rng: int, events: seq<Event>): (r: Run)
    requires cfg.Valid()
    ensures Accounted(cfg, r)
  {
    if events == [] then
      Run(Pool(noise.afterRange(noise.afterRange(rng)), [], NextThresholds(cfg, noise, rng), None), [], [], 0)
    else
      var before := RunPool(cfg, noise, rng, events[..|events| - 1]);
      StepAccounted(cfg, noise, before, events[|events| - 1]);
      Step(cfg, noise, before, events[|events| - 1])
  }

  /** Latency: a tick `maxTimeout` or more after the oldest packet came in leaves nothing waiting, so by then
      every packet ever pushed has been released. */
  lemma TimelyRelease(cfg: ClumpingConfig, noise: Noise, rng: int, events: seq<Event>, at: Instant)
    requires cfg.Valid()
    requires at >= RunPool(cfg, noise, rng, events).firstEntry + cfg.maxTimeout
    ensures RunPool(cfg, noise, rng, events + [TickAt(at)]).pool.buffered == []
    ensures
      var r := RunPool(cfg, noise, rng, events + [TickAt(at)]);
      Released(r.bursts) == r.pushed
  {
  }

  /** The generator at the beginning of cycle `n`. */
  function CycleRng(noise: Noise, rng: int, n: nat): int {
    if n == 0 then rng else noise.afterRange(noise.afterRange(CycleRng(noise, rng, n - 1)))
  }

  /** Each burst went by the thresholds drawn for its own cycle, and the pool goes by those of the next. */
  ghost predicate CycleByCycle(cfg: ClumpingConfig, noise: Noise, rng: int, r: Run)
    requires cfg.Valid()
  {
    && r.pool.rng == CycleRng(noise, rng, |r.bursts| + 1)
    && r.pool.thresholds == NextThresholds(cfg, noise, CycleRng(noise, rng, |r.bursts|))
    && forall i :: 0 <= i < |r.bursts| ==> r.bursts[i].threshold == NextThresholds(cfg, noise, CycleRng(noise, rng, i))
  }

  lemma FlushNextCycle(cfg: ClumpingConfig, noise: Noise, rng: int, r: Run, full: Pool, at: Instant, reason: FlushReason, s: Run)
    requires cfg.Valid() && CycleByCycle(cfg, noise, rng, r)
    requires full.rng == r.pool.rng && full.thresholds == r.pool.thresholds
    requires s.pool == FlushedPool(cfg, noise, full, at) && s.bursts == r.bursts + [FlushedBurst(full, reason)]
    ensures CycleByCycle(cfg, noise, rng, s)
  {
  }

  lemma StepCycle(cfg: ClumpingConfig, noise: Noise, rng: int, r: Run, e: Event)
    requires Accounted(cfg, r) && CycleByCycle(cfg, noise, rng, r)
    ensures CycleByCycle(cfg, noise, rng, Step(cfg, noise, r, e))
  {
    var s := Step(cfg, noise, r, e);
    match e
    case PushAt(packet, at) =>
      var full := WithPacket(r.pool, packet, at);
      OverflowOnce(cfg, noise, full, at);
      if |full.buffered| == full.thresholds.maxPackets {
        FlushNextCycle(cfg, noise, rng, r, full, at, SizeThreshold, s);
      } else {
        assert s.bursts == r.bursts;
      }
    case TickAt(at) =>
      if s != r {
        FlushNextCycle(cfg, noise, rng, r, r.pool, at, Timeout, s);
      }
    case FlushAt(at) =>
      if s != r {
        FlushNextCycle(cfg, noise, rng, r, r.pool, at, Manual, s);
      }
  }

  /** Over every run the thresholds are drawn afresh for every burst, and no draw is used twice. */
  lemma {:induction false} CyclesAreDrawn(cfg: ClumpingConfig, noise: Noise, rng: int, events: seq<Event>)
    requires cfg.Valid()
    ensures CycleByCycle(cfg, noise, rng, RunPool(cfg, noise, rng, events))
  {
    if events != [] {
      var last := |events| - 1;
      CyclesAreDrawn(cfg, noise, rng, events[..last]);
      StepCycle(cfg, noise, rng, RunPool(cfg, noise, rng, events[..last]), events[last]);
    } else {
      assert CycleRng(noise, rng, 1) == noise.afterRange(noise.afterRange(CycleRng(noise, rng, 0)));
    }
  }
}
