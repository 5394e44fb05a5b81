/** The unified departure clock: one slot schedule for real and dummy frames alike. */
module TimingCorrelation {
  import opened Base

  datatype Config = Config(
    cellBytes: nat,
    initialIatMs: real,
    emaAlpha: real,
    minIatMs: real,
    maxIatMs: real,
    maxQueueDepth: nat,
    adaptRate: bool,
    minDummyFraction: real)
  {
    predicate Valid() {
      && cellBytes > 0
      && initialIatMs > 0.0
      && 0.0 < emaAlpha <= 1.0
      && 0.0 < minIatMs < maxIatMs
      && maxQueueDepth > 0
      && 0.0 <= minDummyFraction < 1.0
    }
  }

  /** Everything the scheduler gets from outside: a deterministic generator whose state is an
      opaque integer, and the natural logarithm. Nothing is assumed of any of them. */
  datatype Noise = Noise(
    uniform: int -> real,
    afterUniform: int -> int,
    byteAt: (int, nat) -> Byte,
    afterFill: (int, nat) -> int,
    range: (int, nat) -> nat,
    afterRange: int -> int,
    ln: real -> real)
  {
    /** A draw from `0..n`. */
    function Below(rng: int, n: nat): (r: nat)
      requires n > 0
      ensures r < n
    {
      range(rng, n) % n
    }

    function Fill(rng: int, n: nat): (bytes: seq<Byte>)
      ensures |bytes| == n
    {
      seq<Byte>(n, i requires 0 <= i => byteAt(rng, i))
    }
  }

  datatype MixedFrame = Real(packet: seq<Byte>) | Dummy(bytes: seq<Byte>) {
    function Bytes(): seq<Byte> { if Real? then packet else bytes }
  }

  const F64_EPSILON: real := 1.0 / 4503599627370496.0

  /** Debt beyond this is dropped instead of being made up by a burst: 200 ms. */
  const MAX_CATCHUP_LAG: Duration := 200_000_000

  const NANOS_PER_MICRO: nat := 1_000

  function Clamp(x: real, lo: real, hi: real): real {
    if x < lo then lo else if x > hi then hi else x
  }

  /** `(ms * 1000).round()` microseconds, as nanoseconds. */
  function RoundMs(ms: real): Duration
    requires ms >= 0.0
  {
    (ms * 1000.0 + 0.5).Floor * NANOS_PER_MICRO
  }

  /** The exponential sample at a uniform draw of `u`. */
  function SampleAt(ln: real -> real, meanMs: real, u: real): real { -meanMs * ln(MaxReal(u, F64_EPSILON)) }

  function ExponentialSample(noise: Noise, rng: int, meanMs: real): real {
    SampleAt(noise.ln, meanMs, noise.uniform(rng))
  }

  /** The interval drawn at generator state `rng`. */
  function Step(cfg: Config, noise: Noise, rng: int, meanMs: real): (d: Duration)
    requires cfg.Valid()
    ensures d >= MinStep(cfg)
  {
    var ms := Clamp(ExponentialSample(noise, rng, meanMs), cfg.minIatMs, cfg.maxIatMs);
    assert cfg.minIatMs * 1000.0 <= ms * 1000.0;
    RoundMs(ms)
  }

  function MinStep(cfg: Config): Duration
    requires cfg.Valid()
  {
    RoundMs(cfg.minIatMs)
  }

  datatype State = State(
    rng: int,
    contentRng: int,
    queue: seq<seq<Byte>>,
    nextDeparture: Instant,
    meanIatMs: real,
    lastRealArrival: Option<Instant>,
    realEmitted: nat,
    dummyEmitted: nat)

  /** The departure after the one at `scheduled`, seen from `now`. */
  function NextDeparture(scheduled: Instant, step: Duration, now: Instant): Instant {
    if scheduled + step + MAX_CATCHUP_LAG < now then now + step else scheduled + step
  }

  function Advanced(cfg: Config, noise: Noise, s: State, now: Instant): State
    requires cfg.Valid()
  {
    s.(rng := noise.afterUniform(s.rng),
       nextDeparture := NextDeparture(s.nextDeparture, Step(cfg, noise, s.rng, s.meanIatMs), now))
  }

  function Restarted(cfg: Config, noise: Noise, s: State, now: Instant): State
    requires cfg.Valid()
  {
    Advanced(cfg, noise, s.(nextDeparture := now), now)
  }

  function MillisBetween(earlier: Instant, later: Instant): real {
    Max(0, later - earlier) as real / 1_000_000.0
  }

  /** The rate estimate after an arrival `iatMs` after the previous one. */
  function Adapted(cfg: Config, meanIatMs: real, iatMs: real): real {
    Clamp(cfg.emaAlpha * iatMs + (1.0 - cfg.emaAlpha) * meanIatMs, cfg.minIatMs, cfg.maxIatMs)
  }

  function Injected(cfg: Config, s: State, packet: seq<Byte>, now: Instant): State {
    if |s.queue| >= cfg.maxQueueDepth then s
    else
      var mean :=
        if cfg.adaptRate && s.lastRealArrival.Some? then
          Adapted(cfg, s.meanIatMs, MillisBetween(s.lastRealArrival.value, now))
        else s.meanIatMs;
      s.(meanIatMs := mean,
         lastRealArrival := if cfg.adaptRate then Some(now) else s.lastRealArrival,
         queue := s.queue + [packet])
  }

  /** The dummy-floor coin of a slot, thrown at generator state `rng`. */
  predicate ForceDummy(cfg: Config, noise: Noise, rng: int) {
    cfg.minDummyFraction > 0.0 && noise.uniform(rng) < cfg.minDummyFraction
  }

  function AfterCoin(cfg: Config, noise: Noise, rng: int): int {
    if cfg.minDummyFraction > 0.0 then noise.afterUniform(rng) else rng
  }

  /** The slot that is due emits a real frame: no reserved dummy, and something queued. */
  predicate EmitsReal(cfg: Config, noise: Noise, s: State) {
    !ForceDummy(cfg, noise, noise.afterUniform(s.rng)) && s.queue != []
  }

  function PadToCell(cfg: Config, noise: Noise, rng: int, data: seq<Byte>): (r: (seq<Byte>, int))
    ensures |r.0| == cfg.cellBytes
    ensures |data| >= cfg.cellBytes ==> r.0 == data[..cfg.cellBytes] && r.1 == rng
    ensures data <= r.0 || |data| > cfg.cellBytes
  {
    if |data| < cfg.cellBytes then
      var padLen := cfg.cellBytes - |data|;
      (data + noise.Fill(rng, padLen), noise.afterFill(rng, padLen))
    else (data[..cfg.cellBytes], rng)
  }

  /** The frame of the slot that is due. */
  function SlotFrame(cfg: Config, noise: Noise, s: State): (f: MixedFrame)
    ensures |f.Bytes()| == cfg.cellBytes
    ensures f.Real? <==> EmitsReal(cfg, noise, s)
  {
    if EmitsReal(cfg, noise, s) then
      Real(PadToCell(cfg, noise, AfterCoin(cfg, noise, noise.afterUniform(s.rng)), s.queue[0]).0)
    else Dummy(noise.Fill(s.contentRng, cfg.cellBytes))
  }

  /** The state after the slot that is due has fired at `now`. */
  function Fired(cfg: Config, noise: Noise, s: State, now: Instant): State
    requires cfg.Valid()
  {
    var a := Advanced(cfg, noise, s, now);
    var rng := AfterCoin(cfg, noise, a.rng);
    if EmitsReal(cfg, noise, s) then
      a.(rng := PadToCell(cfg, noise, rng, s.queue[0]).1, queue := s.queue[1..], realEmitted := s.realEmitted + 1)
    else
      a.(rng := rng, contentRng := noise.afterFill(s.contentRng, cfg.cellBytes), dummyEmitted := s.dummyEmitted + 1)
  }

  class TimingCorrelator {
    const cfg: Config
    const noise: Noise
    var rng: int
    var contentRng: int
    var realQueue: seq<seq<Byte>>
    var nextDeparture: Instant
    var meanIatMs: real
    var lastRealArrival: Option<Instant>
    var realEmitted: nat
    var dummyEmitted: nat

    ghost function Abs(): State
      reads this
    {
      State(rng, contentRng, realQueue, nextDeparture, meanIatMs, lastRealArrival, realEmitted, dummyEmitted)
    }

    /** `contentRng` is the generator seeded from the first 32 bytes of `rng`. */
    constructor (cfg: Config, noise: Noise, rng: int, contentRng: int, now: Instant)
      requires cfg.Valid()
      ensures this.cfg == cfg && this.noise == noise
      ensures Abs() == Advanced(cfg, noise,
        State(noise.afterFill(rng, 32), contentRng, [], now, cfg.initialIatMs, None, 0, 0), now)
    {
      this.cfg := cfg;
      this.noise := noise;
      this.rng := noise.afterFill(rng, 32);
      this.contentRng := contentRng;
      realQueue := [];
      nextDeparture := now;
      meanIatMs := cfg.initialIatMs;
      lastRealArrival := None;
      realEmitted := 0;
      dummyEmitted := 0;
      new;
      AdvanceClock(now);
    }

    method InjectReal(packet: seq<Byte>, now: Instant) returns (ok: bool)
      modifies this
      ensures ok <==> old(|realQueue|) < cfg.maxQueueDepth
      ensures Abs() == Injected(cfg, old(Abs()), packet, now)
    {
      if |realQueue| >= cfg.maxQueueDepth {
        return false;
      }
      if cfg.adaptRate {
        if lastRealArrival.Some? {
          meanIatMs := Adapted(cfg, meanIatMs, MillisBetween(lastRealArrival.value, now));
        }
        lastRealArrival := Some(now);
      }
      realQueue := realQueue + [packet];
      ok := true;
    }

    method Tick(now: Instant) returns (frame: Option<MixedFrame>)
      requires cfg.Valid()
      modifies this
      ensures frame.Some? <==> now >= old(nextDeparture)
      ensures frame == None ==> Abs() == old(Abs())
      ensures frame.Some? ==> frame.value == SlotFrame(cfg, noise, old(Abs()))
      ensures frame.Some? ==> Abs() == Fired(cfg, noise, old(Abs()), now)
    {
      if now < nextDeparture {
        return None;
      }
      AdvanceClock(now);
      var forceDummy := false;
      if cfg.minDummyFraction > 0.0 {
        forceDummy := noise.uniform(rng) < cfg.minDummyFraction;
        rng := noise.afterUniform(rng);
      }
      if !forceDummy && realQueue != [] {
        var packet := realQueue[0];
        realQueue := realQueue[1..];
        var (padded, rest) := PadToCell(cfg, noise, rng, packet);
        rng := rest;
        realEmitted := realEmitted + 1;
        return Some(Real(padded));
      }
      var bytes := noise.Fill(contentRng, cfg.cellBytes);
      contentRng := noise.afterFill(contentRng, cfg.cellBytes);
      dummyEmitted := dummyEmitted + 1;
      frame := Some(Dummy(bytes));
    }

    method RestartClock(now: Instant)
      requires cfg.Valid()
      modifies this
      ensures Abs() == Restarted(cfg, noise, old(Abs()), now)
    {
      nextDeparture := now;
      AdvanceClock(now);
    }

    predicate SlotReady(now: Instant)
      reads this
    {
      now >= nextDeparture
    }

    function QueueDepth(): nat
      reads this
    {
      |realQueue|
    }

    predicate HasQueueSpace()
      reads this
    {
      |realQueue| < cfg.maxQueueDepth
    }

    method AdvanceClock(now: Instant)
      requires cfg.Valid()
      modifies this`rng, this`nextDeparture
      ensures Abs() == Advanced(cfg, noise, old(Abs()), now)
    {
      var step := Step(cfg, noise, rng, meanIatMs);
      rng := noise.afterUniform(rng);
      var candidate := nextDeparture + step;
      if candidate + MAX_CATCHUP_LAG < now {
        nextDeparture := now + step;
      } else {
        nextDeparture := candidate;
      }
    }
  }

  lemma NonNegative(x: real, y: real)
    requires x >= 0.0 && y >= 0.0
    ensures x * y >= 0.0
  {
  }

  lemma Blend(alpha: real, x: real, y: real, lo: real, hi: real)
    requires 0.0 < alpha <= 1.0 && lo <= x <= hi && lo <= y <= hi
    ensures lo <= alpha * x + (1.0 - alpha) * y <= hi
  {
    NonNegative(alpha, x - lo);
    NonNegative(1.0 - alpha, y - lo);
    NonNegative(alpha, hi - x);
    NonNegative(1.0 - alpha, hi - y);
    assert alpha * (x - lo) + (1.0 - alpha) * (y - lo) == alpha * x + (1.0 - alpha) * y - lo;
    assert alpha * (hi - x) + (1.0 - alpha) * (hi - y) == hi - (alpha * x + (1.0 - alpha) * y);
  }

  /** The estimate stays in the configured band, moves towards the last gap without passing it, and forgets
      all earlier ones when alpha is 1. */
  lemma AdaptedFollows(cfg: Config, mean: real, iat: real)
    requires cfg.Valid() && cfg.minIatMs <= mean <= cfg.maxIatMs
    ensures cfg.minIatMs <= Adapted(cfg, mean, iat) <= cfg.maxIatMs
    ensures cfg.minIatMs <= iat <= cfg.maxIatMs ==> MinReal(mean, iat) <= Adapted(cfg, mean, iat) <= MaxReal(mean, iat)
    ensures cfg.emaAlpha == 1.0 ==> Adapted(cfg, mean, iat) == Clamp(iat, cfg.minIatMs, cfg.maxIatMs)
  {
    var lo, hi := MinReal(mean, iat), MaxReal(mean, iat);
    var blended := cfg.emaAlpha * iat + (1.0 - cfg.emaAlpha) * mean;
    Blend(cfg.emaAlpha, iat, mean, lo, hi);
    assert lo <= blended <= hi;
    assert Adapted(cfg, mean, iat) == Clamp(blended, cfg.minIatMs, cfg.maxIatMs);
    assert cfg.emaAlpha == 1.0 ==> blended == iat;
  }

  // --- Departure rate over whole runs ----------------------------------------

  datatype Event = Inject(packet: seq<Byte>, at: Instant) | Tick(at: Instant)

  function Handle(cfg: Config, noise: Noise, s: State, e: Event): State
    requires cfg.Valid()
  {
    match e
    case Inject(packet, at) => Injected(cfg, s, packet, at)
    case Tick(at) => if at < s.nextDeparture then s else Fired(cfg, noise, s, at)
  }

  function RunEvents(cfg: Config, noise: Noise, s: State, events: seq<Event>): State
    requires cfg.Valid()
  {
    if events == [] then s
    else Handle(cfg, noise, RunEvents(cfg, noise, s, events[..|events| - 1]), events[|events| - 1])
  }

  function Emitted(s: State): nat { s.realEmitted + s.dummyEmitted }

  /** One slot moves the schedule on by at least the minimum step, also when debt is
      dropped, and never leaves it more than the catch-up lag behind. */
  lemma AdvanceProgress(cfg: Config, noise: Noise, s: State, now: Instant)
    requires cfg.Valid()
    ensures Advanced(cfg, noise, s, now).nextDeparture >= s.nextDeparture + MinStep(cfg)
    ensures Advanced(cfg, noise, s, now).nextDeparture >= now - MAX_CATCHUP_LAG
  {
  }

  /** The least time `k` slots take. */
  function StepSpan(cfg: Config, k: int): int
    requires cfg.Valid()
  {
    k * MinStep(cfg)
  }

  lemma StepSpanNext(cfg: Config, k: int)
    requires cfg.Valid()
    ensures StepSpan(cfg, k + 1) == StepSpan(cfg, k) + MinStep(cfg)
  {
  }

  lemma StepSpanZero(cfg: Config)
    requires cfg.Valid()
    ensures StepSpan(cfg, 0) == 0
  {
  }

  /** The frames emitted since `s` have moved the schedule one minimum step each at least, and the last of
      them was due by `until`. */
  ghost predicate Paced(cfg: Config, s: State, t: State, until: Instant)
    requires cfg.Valid()
  {
    && Emitted(t) >= Emitted(s)
    && t.nextDeparture >= s.nextDeparture + StepSpan(cfg, Emitted(t) - Emitted(s))
    && (Emitted(t) > Emitted(s) ==>
          s.nextDeparture + StepSpan(cfg, Emitted(t) - Emitted(s) - 1) <= until)
  }

  lemma HandlePaced(cfg: Config, noise: Noise, s: State, t: State, e: Event, until: Instant)
    requires cfg.Valid() && Paced(cfg, s, t, until) && e.at <= until
    ensures Paced(cfg, s, Handle(cfg, noise, t, e), until)
  {
    if e.Tick? && e.at >= t.nextDeparture {
      AdvanceProgress(cfg, noise, t, e.at);
      StepSpanNext(cfg, Emitted(t) - Emitted(s));
    }
  }

  lemma {:induction false} RunPaced(cfg: Config, noise: Noise, s: State, events: seq<Event>, until: Instant)
    requires cfg.Valid()
    requires forall i :: 0 <= i < |events| ==> events[i].at <= until
    ensures Paced(cfg, s, RunEvents(cfg, noise, s, events), until)
  {
    if events == [] {
      StepSpanZero(cfg);
    } else {
      var last := |events| - 1;
      RunPaced(cfg, noise, s, events[..last], until);
      HandlePaced(cfg, noise, s, RunEvents(cfg, noise, s, events[..last]), events[last], until);
    }
  }

  /** The number of slots a window of `span` has room for. */
  function SlotBudget(cfg: Config, span: nat): nat
    requires cfg.Valid() && MinStep(cfg) > 0
  {
    span / MinStep(cfg) + 1
  }

  lemma {:induction false} MulMonotone(a: int, b: int, d: nat)
    requires a <= b
    ensures a * d <= b * d
  {
  }

  lemma QuotientBound(q: int, d: nat, n: int)
    requires d > 0 && q * d <= n
    ensures q <= n / d
  {
    var e := n / d;
    assert n == d * e + n % d && (e + 1) * d == d * e + d;
    if q > e {
      MulMonotone(e + 1, q, d);
    }
  }

  /** Departure-rate bound: after an advance at `t0`, whatever is injected and however often the
      clock is polled, at most `(t1 - t0 + 200 ms) / s + 1` frames are emitted by `t1`, `s` being
      the minimum step. */
  lemma DepartureRateBound(cfg: Config, noise: Noise, s: State, t0: Instant, events: seq<Event>, t1: Instant)
    requires cfg.Valid() && MinStep(cfg) > 0 && t0 <= t1
    requires forall i :: 0 <= i < |events| ==> events[i].at <= t1
    ensures
      var a := Advanced(cfg, noise, s, t0);
      Emitted(RunEvents(cfg, noise, a, events)) - Emitted(a) <= SlotBudget(cfg, t1 - t0 + MAX_CATCHUP_LAG)
  {
    var a := Advanced(cfg, noise, s, t0);
    var k := Emitted(RunEvents(cfg, noise, a, events)) - Emitted(a);
    RunPaced(cfg, noise, a, events, t1);
    AdvanceProgress(cfg, noise, s, t0);
    SlotsFit(cfg, k, a.nextDeparture, t0, t1);
  }

  lemma SlotsFit(cfg: Config, k: nat, nextDeparture: Instant, t0: Instant, t1: Instant)
    requires cfg.Valid() && MinStep(cfg) > 0 && t0 <= t1
    requires nextDeparture >= t0 - MAX_CATCHUP_LAG
    requires k > 0 ==> nextDeparture + StepSpan(cfg, k - 1) <= t1
    ensures k <= SlotBudget(cfg, t1 - t0 + MAX_CATCHUP_LAG)
  {
    if k > 0 {
      QuotientBound(k - 1, MinStep(cfg), t1 - t0 + MAX_CATCHUP_LAG);
    }
  }
}
