/** What the departure clock depends on, and when what is queued can move a departure. */
module ClockContent {
  import opened Base
  import opened TimingCorrelation

  /** All intervals round to the same number of microseconds. */
  predicate ConstantSteps(cfg: Config)
    requires cfg.Valid()
  {
    RoundMs(cfg.minIatMs) == RoundMs(cfg.maxIatMs)
  }

  lemma RoundMonotone(x: real, y: real)
    requires 0.0 <= x <= y
    ensures RoundMs(x) <= RoundMs(y)
  {
    assert x * 1000.0 + 0.5 <= y * 1000.0 + 0.5;
  }

  lemma StepRange(cfg: Config, noise: Noise, rng: int, meanMs: real)
    requires cfg.Valid()
    ensures RoundMs(cfg.minIatMs) <= Step(cfg, noise, rng, meanMs) <= RoundMs(cfg.maxIatMs)
  {
    var ms := Clamp(ExponentialSample(noise, rng, meanMs), cfg.minIatMs, cfg.maxIatMs);
    RoundMonotone(cfg.minIatMs, ms);
    RoundMonotone(ms, cfg.maxIatMs);
  }

  /** Generator and schedule after a slot do not depend on what is queued when every queued packet already fills
      a cell, nor on the rate when that makes no difference. */
  lemma CellSizedPacketsKeepTheClock(cfg: Config, noise: Noise, s: State, t: State, now: Instant)
    requires cfg.Valid()
    requires s.rng == t.rng && s.nextDeparture == t.nextDeparture && (s.meanIatMs == t.meanIatMs || ConstantSteps(cfg))
    requires s.queue != [] ==> |s.queue[0]| >= cfg.cellBytes
    requires t.queue != [] ==> |t.queue[0]| >= cfg.cellBytes
    ensures Fired(cfg, noise, s, now).rng == Fired(cfg, noise, t, now).rng
    ensures Fired(cfg, noise, s, now).nextDeparture == Fired(cfg, noise, t, now).nextDeparture
    ensures Fired(cfg, noise, s, now).meanIatMs == s.meanIatMs && Fired(cfg, noise, t, now).meanIatMs == t.meanIatMs
  {
    StepRange(cfg, noise, s.rng, s.meanIatMs);
    StepRange(cfg, noise, t.rng, t.meanIatMs);
  }

  // --- Short packets ------------------------------------------------------------

  /** The interval that a uniform draw of `u` gives. */
  function IntervalAt(cfg: Config, ln: real -> real, meanMs: real, u: real): Duration
    requires cfg.Valid()
  {
    RoundMs(Clamp(SampleAt(ln, meanMs, u), cfg.minIatMs, cfg.maxIatMs))
  }

  lemma StepIsInterval(cfg: Config, noise: Noise, rng: int, meanMs: real)
    requires cfg.Valid()
    ensures Step(cfg, noise, rng, meanMs) == IntervalAt(cfg, noise.ln, meanMs, noise.uniform(rng))
  {
  }

  predicate Unit(u: real) { 0.0 <= u < 1.0 }

  /** Uniform draws lie in [0, 1). */
  ghost predicate UnitNoise(noise: Noise) {
    forall r :: Unit(noise.uniform(r))
  }

  /** Some two draws give different intervals. */
  ghost predicate Varies(cfg: Config, ln: real -> real, meanMs: real)
    requires cfg.Valid()
  {
    exists u, v :: Unit(u) && Unit(v) && IntervalAt(cfg, ln, meanMs, u) != IntervalAt(cfg, ln, meanMs, v)
  }

  /** The slot that is due fires on time. */
  function OnTime(cfg: Config, noise: Noise, s: State): (t: State)
    requires cfg.Valid()
    ensures t.nextDeparture == s.nextDeparture + Step(cfg, noise, s.rng, s.meanIatMs) && t.meanIatMs == s.meanIatMs
  {
    Fired(cfg, noise, s, s.nextDeparture)
  }

  /** Two slots on, departures depend on whether `packet` was queued. */
  predicate Parts(cfg: Config, noise: Noise, s: State, packet: seq<Byte>)
    requires cfg.Valid()
  {
    OnTime(cfg, noise, OnTime(cfg, noise, s.(queue := [packet]))).nextDeparture
    != OnTime(cfg, noise, OnTime(cfg, noise, s.(queue := []))).nextDeparture
  }

  /** A generator that counts its own calls and draws `coin` just before call `turn`, `u` up to it and `v` after. */
  function TurningNoise(ln: real -> real, coin: real, u: real, v: real, turn: int): Noise {
    Noise((r: int) => if r == turn - 1 then coin else if r <= turn then u else v, (r: int) => r + 1,
          (_, _) => 0, (r: int, n: nat) => r + n, (_, _) => 0, (r: int) => r + 1, ln)
  }

  lemma TurningIsUnit(ln: real -> real, coin: real, u: real, v: real, turn: int)
    requires Unit(coin) && Unit(u) && Unit(v)
    ensures TurningNoise(ln, coin, u, v, turn).ln == ln && UnitNoise(TurningNoise(ln, coin, u, v, turn))
  {
  }

  /** For this generator a queued packet moves the departure after next exactly when it is shorter than a cell. */
  ghost predicate Tells(cfg: Config, noise: Noise, s: State)
    requires cfg.Valid()
  {
    forall packet: seq<Byte> :: Parts(cfg, noise, s, packet) <==> |packet| < cfg.cellBytes
  }

  /** The cell-size condition is needed: for every configuration and logarithm under which intervals vary at all there
      is a generator that tells whether the queued packet is shorter than a cell. */
  lemma ShortPacketPerturbsTheClock(cfg: Config, ln: real -> real, s: State) returns (noise: Noise)
    requires cfg.Valid() && Varies(cfg, ln, s.meanIatMs)
    ensures noise.ln == ln && UnitNoise(noise) && Tells(cfg, noise, s)
  {
    var u, v :| Unit(u) && Unit(v) && IntervalAt(cfg, ln, s.meanIatMs, u) != IntervalAt(cfg, ln, s.meanIatMs, v);
    var turn := if cfg.minDummyFraction > 0.0 then s.rng + 2 else s.rng + 1;
    noise := TurningNoise(ln, cfg.minDummyFraction, u, v, turn);
    TurningIsUnit(ln, cfg.minDummyFraction, u, v, turn);
    TurningTells(cfg, ln, s, u, v, turn);
  }

  lemma TurningTells(cfg: Config, ln: real -> real, s: State, u: real, v: real, turn: int)
    requires cfg.Valid() && turn == (if cfg.minDummyFraction > 0.0 then s.rng + 2 else s.rng + 1)
    requires IntervalAt(cfg, ln, s.meanIatMs, u) != IntervalAt(cfg, ln, s.meanIatMs, v)
    ensures Tells(cfg, TurningNoise(ln, cfg.minDummyFraction, u, v, turn), s)
  {
    forall packet: seq<Byte>
      ensures Parts(cfg, TurningNoise(ln, cfg.minDummyFraction, u, v, turn), s, packet) <==> |packet| < cfg.cellBytes
    {
      PartsAtTurn(cfg, ln, s, u, v, turn, packet);
    }
  }

  lemma PartsAtTurn(cfg: Config, ln: real -> real, s: State, u: real, v: real, turn: int, packet: seq<Byte>)
    requires cfg.Valid() && turn == (if cfg.minDummyFraction > 0.0 then s.rng + 2 else s.rng + 1)
    requires IntervalAt(cfg, ln, s.meanIatMs, u) != IntervalAt(cfg, ln, s.meanIatMs, v)
    ensures Parts(cfg, TurningNoise(ln, cfg.minDummyFraction, u, v, turn), s, packet) <==> |packet| < cfg.cellBytes
  {
    var noise := TurningNoise(ln, cfg.minDummyFraction, u, v, turn);
    var a := OnTime(cfg, noise, s.(queue := [packet]));
    var b := OnTime(cfg, noise, s.(queue := []));
    assert b.rng == turn;
    assert a.rng == if |packet| < cfg.cellBytes then turn + (cfg.cellBytes - |packet|) else turn;
    StepIsInterval(cfg, noise, a.rng, s.meanIatMs);
    StepIsInterval(cfg, noise, b.rng, s.meanIatMs);
  }

  /** So short packets can move departures exactly when intervals vary. */
  lemma ShortPacketsMoveDeparturesIff(cfg: Config, ln: real -> real, meanMs: real)
    requires cfg.Valid()
    ensures Varies(cfg, ln, meanMs) <==>
      exists noise: Noise, s: State, packet: seq<Byte> ::
        noise.ln == ln && UnitNoise(noise) && s.meanIatMs == meanMs && |packet| < cfg.cellBytes && Parts(cfg, noise, s, packet)
  {
    if Varies(cfg, ln, meanMs) {
      var s := State(0, 0, [], 0, meanMs, None, 0, 0);
      var noise := ShortPacketPerturbsTheClock(cfg, ln, s);
      assert Tells(cfg, noise, s) && Parts(cfg, noise, s, []);
    }
    if noise: Noise, s: State, packet: seq<Byte> :|
         noise.ln == ln && UnitNoise(noise) && s.meanIatMs == meanMs && |packet| < cfg.cellBytes && Parts(cfg, noise, s, packet)
    {
      var a := OnTime(cfg, noise, s.(queue := [packet]));
      var b := OnTime(cfg, noise, s.(queue := []));
      StepIsInterval(cfg, noise, a.rng, meanMs);
      StepIsInterval(cfg, noise, b.rng, meanMs);
      assert Unit(noise.uniform(a.rng)) && Unit(noise.uniform(b.rng));
    }
  }

  /** And when draws reach both ends of the band, intervals vary exactly when the two ends round differently. */
  lemma VariesIff(cfg: Config, ln: real -> real, meanMs: real, u: real, v: real)
    requires cfg.Valid() && Unit(u) && Unit(v)
    requires SampleAt(ln, meanMs, u) <= cfg.minIatMs && SampleAt(ln, meanMs, v) >= cfg.maxIatMs
    ensures Varies(cfg, ln, meanMs) <==> !ConstantSteps(cfg)
  {
    assert IntervalAt(cfg, ln, meanMs, u) == RoundMs(cfg.minIatMs);
    assert IntervalAt(cfg, ln, meanMs, v) == RoundMs(cfg.maxIatMs);
    forall w: real
      ensures RoundMs(cfg.minIatMs) <= IntervalAt(cfg, ln, meanMs, w) <= RoundMs(cfg.maxIatMs)
    {
      var ms := Clamp(SampleAt(ln, meanMs, w), cfg.minIatMs, cfg.maxIatMs);
      RoundMonotone(cfg.minIatMs, ms);
      RoundMonotone(ms, cfg.maxIatMs);
    }
  }

  // --- Adaptive rates -------------------------------------------------------------

  /** A configuration whose departures cannot follow arrivals. */
  predicate IgnoresArrivals(cfg: Config)
    requires cfg.Valid()
  {
    !cfg.adaptRate || ConstantSteps(cfg)
  }

  /** The least interval that rounds like the longest. */
  function LastBoundary(cfg: Config): (b: real)
    requires cfg.Valid()
  {
    ((cfg.maxIatMs * 1000.0 + 0.5).Floor as real - 0.5) / 1000.0
  }

  lemma BoundarySeparates(cfg: Config, x: real)
    requires cfg.Valid() && !ConstantSteps(cfg) && x >= cfg.minIatMs
    ensures cfg.minIatMs < LastBoundary(cfg) <= cfg.maxIatMs
    ensures x < LastBoundary(cfg) ==> RoundMs(x) < RoundMs(LastBoundary(cfg)) == RoundMs(cfg.maxIatMs)
  {
    var h := (cfg.maxIatMs * 1000.0 + 0.5).Floor;
    var b := LastBoundary(cfg);
    assert b * 1000.0 + 0.5 == h as real;
    RoundMonotone(cfg.minIatMs, cfg.maxIatMs);
    assert (cfg.minIatMs * 1000.0 + 0.5).Floor < h;
    if x < b {
      assert x * 1000.0 + 0.5 < h as real;
    }
  }

  /** The last boundary tells clamped values apart. */
  lemma ClampSeparates(cfg: Config, x: real)
    requires cfg.Valid() && !ConstantSteps(cfg)
    ensures x == LastBoundary(cfg) ==> RoundMs(Clamp(x, cfg.minIatMs, cfg.maxIatMs)) == RoundMs(cfg.maxIatMs)
    ensures x < LastBoundary(cfg) ==> RoundMs(Clamp(x, cfg.minIatMs, cfg.maxIatMs)) < RoundMs(cfg.maxIatMs)
  {
    BoundarySeparates(cfg, MaxReal(x, cfg.minIatMs));
  }

  /** So do two samples, one at the boundary and one below it. */
  lemma SamplesSeparate(cfg: Config, noise: Noise, rng: int, a: real, b: real)
    requires cfg.Valid() && !ConstantSteps(cfg)
    requires ExponentialSample(noise, rng, a) == LastBoundary(cfg) && ExponentialSample(noise, rng, b) < LastBoundary(cfg)
    ensures Step(cfg, noise, rng, a) != Step(cfg, noise, rng, b)
  {
    ClampSeparates(cfg, ExponentialSample(noise, rng, a));
    ClampSeparates(cfg, ExponentialSample(noise, rng, b));
  }

  predicate Attained(ln: real -> real, y: real, u: real) { F64_EPSILON <= u < 1.0 && ln(u) == y }

  ghost predicate Attains(ln: real -> real, y: real) { exists u :: Attained(ln, y, u) }

  /** `ln` takes the values of a logarithm between 1/e and 1. */
  ghost predicate TakesUnit(ln: real -> real) {
    forall y :: -1.0 <= y < 0.0 ==> Attains(ln, y)
  }
}
