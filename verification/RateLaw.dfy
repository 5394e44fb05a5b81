/** The law of the intervals, and what the rate estimate follows. */
module RateLaw {
  import opened Base
  import opened TimingCorrelation

  // --- Intervals --------------------------------------------------------------------

  /** A time in milliseconds is rounded to the nearest microsecond. */
  lemma RoundsToNearest(ms: real)
    requires ms >= 0.0
    ensures RoundMs(ms) % NANOS_PER_MICRO == 0
    ensures -500.0 < RoundMs(ms) as real - ms * 1_000_000.0 <= 500.0
  {
    var n := (ms * 1000.0 + 0.5).Floor;
    assert n as real <= ms * 1000.0 + 0.5 < n as real + 1.0;
    assert RoundMs(ms) == n * 1000 && RoundMs(ms) as real == n as real * 1000.0;
    assert (n * 1000) % 1000 == 0;
  }

  /** `exp` undoes `ln`, which increases. */
  ghost predicate AreInverse(ln: real -> real, exp: real -> real) {
    && (forall x, y :: 0.0 < x < y ==> ln(x) < ln(y))
    && (forall y :: exp(y) > 0.0 && ln(exp(y)) == y)
  }

  lemma Quotient(mean: real, x: real)
    requires mean > 0.0
    ensures mean * (-x / mean) == -x
  {
  }

  lemma TimesOrder(mean: real, a: real, b: real)
    requires mean > 0.0
    ensures a < b <==> mean * a < mean * b
  {
    if a < b {
      assert mean * (b - a) > 0.0;
    } else {
      assert mean * (a - b) >= 0.0;
    }
  }

  /** Samples are exponential with the given mean: a sample exceeds `x` exactly when the uniform draw is below
      exp(-x / mean), so with that probability; draws too small for a logarithm count as the least that is not. */
  lemma SamplesAreExponential(ln: real -> real, exp: real -> real, mean: real, u: real, x: real)
    requires AreInverse(ln, exp) && mean > 0.0
    ensures u >= F64_EPSILON ==> (SampleAt(ln, mean, u) > x <==> u < exp(-x / mean))
    ensures u < F64_EPSILON ==> (SampleAt(ln, mean, u) > x <==> F64_EPSILON < exp(-x / mean))
  {
    var v, y := MaxReal(u, F64_EPSILON), -x / mean;
    Quotient(mean, x);
    TimesOrder(mean, ln(v), y);
    assert SampleAt(ln, mean, u) == -mean * ln(v) == -(mean * ln(v));
    assert v < exp(y) <==> ln(v) < ln(exp(y));
  }

  /** The interval is the sample to the nearest microsecond, or the end of the band that the sample is beyond. */
  lemma IntervalFollowsSample(cfg: Config, noise: Noise, rng: int, mean: real)
    requires cfg.Valid()
    ensures
      var x, d := ExponentialSample(noise, rng, mean), Step(cfg, noise, rng, mean);
      && d % NANOS_PER_MICRO == 0
      && (cfg.minIatMs <= x <= cfg.maxIatMs ==> -500.0 < d as real - x * 1_000_000.0 <= 500.0)
      && (x <= cfg.minIatMs ==> -500.0 < d as real - cfg.minIatMs * 1_000_000.0 <= 500.0)
      && (x >= cfg.maxIatMs ==> -500.0 < d as real - cfg.maxIatMs * 1_000_000.0 <= 500.0)
  {
    RoundsToNearest(Clamp(ExponentialSample(noise, rng, mean), cfg.minIatMs, cfg.maxIatMs));
  }

  // --- The dummy-floor coin -----------------------------------------------------------

  /** How many of the generator states below `k` throw a coin that reserves the slot. */
  function ReservedAmong(cfg: Config, noise: Noise, k: nat): nat {
    if k == 0 then 0
    else ReservedAmong(cfg, noise, k - 1) + (if ForceDummy(cfg, noise, k - 1) then 1 else 0)
  }

  /** The states below `n` draw 0, 1/n, 2/n and so on. */
  ghost predicate EvenDraws(noise: Noise, n: nat)
    requires n > 0
  {
    forall i :: 0 <= i < n ==> noise.uniform(i) == i as real / n as real
  }

  lemma DrawBelow(i: nat, n: nat, share: real)
    requires n > 0
    ensures i as real / n as real < share <==> i as real < share * n as real
  {
    var d := i as real / n as real;
    TimesOrder(n as real, d, share);
    assert n as real * d == i as real;
  }

  lemma {:induction false} ReservedUpTo(cfg: Config, noise: Noise, n: nat, k: nat)
    requires cfg.Valid() && n > 0 && EvenDraws(noise, n) && k <= n
    ensures
      var share := cfg.minDummyFraction * n as real;
      var reserved := ReservedAmong(cfg, noise, k);
      reserved <= k && (if k as real <= share then reserved == k else reserved as real - 1.0 < share <= reserved as real)
  {
    if k == 0 {
      NonNegative(cfg.minDummyFraction, n as real);
    } else {
      ReservedUpTo(cfg, noise, n, k - 1);
      DrawBelow(k - 1, n, cfg.minDummyFraction);
    }
  }

  /** Of `n` evenly spaced draws the coin reserves the configured share, rounded up to whole slots and no more. */
  lemma CoinReservesItsShare(cfg: Config, noise: Noise, n: nat)
    requires cfg.Valid() && n > 0 && EvenDraws(noise, n)
    ensures
      var share, reserved := cfg.minDummyFraction * n as real, ReservedAmong(cfg, noise, n);
      reserved as real - 1.0 < share <= reserved as real
  {
    ReservedUpTo(cfg, noise, n, n);
    TimesOrder(n as real, cfg.minDummyFraction, 1.0);
    assert cfg.minDummyFraction * n as real < n as real;
  }

  // --- The rate estimate --------------------------------------------------------------

  function Power(x: real, n: nat): real { if n == 0 then 1.0 else x * Power(x, n - 1) }

  /** The estimate after `n` more arrivals that are `iatMs` apart. */
  function Settling(cfg: Config, meanMs: real, iatMs: real, n: nat): real {
    if n == 0 then meanMs else Adapted(cfg, Settling(cfg, meanMs, iatMs, n - 1), iatMs)
  }

  /** Within the band one arrival takes the estimate the fraction alpha of the way to its gap. */
  lemma AdaptedMoves(cfg: Config, mean: real, iat: real)
    requires cfg.Valid() && cfg.minIatMs <= mean <= cfg.maxIatMs && cfg.minIatMs <= iat <= cfg.maxIatMs
    ensures cfg.minIatMs <= Adapted(cfg, mean, iat) <= cfg.maxIatMs
    ensures Adapted(cfg, mean, iat) - iat == (1.0 - cfg.emaAlpha) * (mean - iat)
  {
    Blend(cfg.emaAlpha, iat, mean, cfg.minIatMs, cfg.maxIatMs);
    assert cfg.emaAlpha * iat + (1.0 - cfg.emaAlpha) * mean - iat == (1.0 - cfg.emaAlpha) * (mean - iat);
  }

  /** What is left of `error` is the share `k` of it. */
  predicate Share(left: real, k: real, error: real) { left == k * error }

  lemma ShareOfShare(k: real, p: real, error: real, before: real, after: real)
    requires Share(before, p, error) && Share(after, k, before)
    ensures Share(after, k * p, error)
  {
  }

  lemma {:induction false} SettlesInBand(cfg: Config, mean: real, iat: real, n: nat)
    requires cfg.Valid() && cfg.minIatMs <= mean <= cfg.maxIatMs && cfg.minIatMs <= iat <= cfg.maxIatMs
    ensures cfg.minIatMs <= Settling(cfg, mean, iat, n) <= cfg.maxIatMs
  {
    if n > 0 {
      SettlesInBand(cfg, mean, iat, n - 1);
      AdaptedMoves(cfg, Settling(cfg, mean, iat, n - 1), iat);
    }
  }

  lemma ShareOnce(cfg: Config, mean: real, iat: real, k: real)
    requires cfg.Valid() && cfg.minIatMs <= mean <= cfg.maxIatMs && cfg.minIatMs <= iat <= cfg.maxIatMs
    requires cfg.emaAlpha + k == 1.0
    ensures Share(Adapted(cfg, mean, iat) - iat, k, mean - iat)
  {
    AdaptedMoves(cfg, mean, iat);
    assert k == 1.0 - cfg.emaAlpha;
  }

  /** The error left after `n` steady arrivals. */
  ghost predicate LeavesShare(cfg: Config, mean: real, iat: real, k: real, n: nat) {
    Share(Settling(cfg, mean, iat, n) - iat, Power(k, n), mean - iat)
  }

  lemma OneMoreShare(before: real, after: real, iat: real, k: real, n: nat, error: real)
    requires Share(before - iat, Power(k, n), error) && Share(after - iat, k, before - iat)
    ensures Share(after - iat, Power(k, n + 1), error)
  {
    ShareOfShare(k, Power(k, n), error, before - iat, after - iat);
  }

  lemma ConvergesNext(cfg: Config, mean: real, iat: real, n: nat, k: real)
    requires cfg.Valid() && cfg.minIatMs <= mean <= cfg.maxIatMs && cfg.minIatMs <= iat <= cfg.maxIatMs
    requires cfg.emaAlpha + k == 1.0 && LeavesShare(cfg, mean, iat, k, n)
    ensures LeavesShare(cfg, mean, iat, k, n + 1)
  {
    var before, after := Settling(cfg, mean, iat, n), Settling(cfg, mean, iat, n + 1);
    assert Share(after - iat, k, before - iat) by {
      SettlesInBand(cfg, mean, iat, n);
      ShareOnce(cfg, before, iat, k);
    }
    OneMoreShare(before, after, iat, k, n, mean - iat);
  }

  /** Steady arrivals: the estimate converges to their gap geometrically, the share `k` of its error left each time. */
  lemma {:induction false} EstimateConverges(cfg: Config, mean: real, iat: real, n: nat, k: real)
    requires cfg.Valid() && cfg.minIatMs <= mean <= cfg.maxIatMs && cfg.minIatMs <= iat <= cfg.maxIatMs
    requires cfg.emaAlpha + k == 1.0
    ensures LeavesShare(cfg, mean, iat, k, n)
  {
    if n > 0 {
      EstimateConverges(cfg, mean, iat, n - 1, k);
      ConvergesNext(cfg, mean, iat, n - 1, k);
    }
  }

  /** The instants of the packets that found room, in a run. */
  function Arrivals(cfg: Config, noise: Noise, s: State, events: seq<Event>): seq<Instant>
    requires cfg.Valid()
  {
    if events == [] then []
    else
      var init, last := events[..|events| - 1], events[|events| - 1];
      Arrivals(cfg, noise, s, init)
      + (if last.Inject? && |RunEvents(cfg, noise, s, init).queue| < cfg.maxQueueDepth then [last.at] else [])
  }

  /** The arrival before the `i`-th: the one before it in the run, or the last before the run. */
  function Previous(s: State, arrivals: seq<Instant>, i: nat): Option<Instant>
    requires i <= |arrivals|
  {
    if i == 0 then s.lastRealArrival else Some(arrivals[i - 1])
  }

  /** The moving average over the gaps between arrivals. */
  function MeanOf(cfg: Config, s: State, arrivals: seq<Instant>): real {
    if arrivals == [] then s.meanIatMs
    else
      var last := |arrivals| - 1;
      var mean, previous := MeanOf(cfg, s, arrivals[..last]), Previous(s, arrivals, last);
      if previous == None then mean else Adapted(cfg, mean, MillisBetween(previous.value, arrivals[last]))
  }

  lemma MeanOfSnoc(cfg: Config, s: State, arrivals: seq<Instant>, at: Instant)
    ensures
      var mean, previous := MeanOf(cfg, s, arrivals), Previous(s, arrivals, |arrivals|);
      MeanOf(cfg, s, arrivals + [at]) == if previous == None then mean else Adapted(cfg, mean, MillisBetween(previous.value, at))
  {
    assert (arrivals + [at])[..|arrivals|] == arrivals;
  }

  /** What the estimate should be after the arrivals so far. */
  predicate Follows(cfg: Config, s: State, arrivals: seq<Instant>, t: State) {
    if cfg.adaptRate then t.meanIatMs == MeanOf(cfg, s, arrivals) && t.lastRealArrival == Previous(s, arrivals, |arrivals|)
    else t.meanIatMs == s.meanIatMs
  }

  lemma InjectFollows(cfg: Config, s: State, arrivals: seq<Instant>, t: State, packet: seq<Byte>, at: Instant)
    requires Follows(cfg, s, arrivals, t)
    ensures Follows(cfg, s, arrivals + (if |t.queue| < cfg.maxQueueDepth then [at] else []), Injected(cfg, t, packet, at))
  {
    if |t.queue| < cfg.maxQueueDepth {
      MeanOfSnoc(cfg, s, arrivals, at);
    } else {
      assert arrivals + [] == arrivals;
    }
  }

  /** Over every run the estimate is the moving average over the gaps between the arrivals that found room when the rate
      is adaptive, and does not move when it is fixed. */
  lemma {:induction false} EstimateIsAverageOfGaps(cfg: Config, noise: Noise, s: State, events: seq<Event>)
    requires cfg.Valid()
    ensures Follows(cfg, s, Arrivals(cfg, noise, s, events), RunEvents(cfg, noise, s, events))
  {
    if events != [] {
      var last := |events| - 1;
      var arrivals, t := Arrivals(cfg, noise, s, events[..last]), RunEvents(cfg, noise, s, events[..last]);
      EstimateIsAverageOfGaps(cfg, noise, s, events[..last]);
      match events[last]
      case Inject(packet, at) => InjectFollows(cfg, s, arrivals, t, packet, at);
      case Tick(_) => assert arrivals + [] == arrivals;
    }
  }
}
