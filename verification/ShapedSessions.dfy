/** The session layer: every packet is padded to a full cell before it reaches the clock. */
module ShapedSessions {
  import opened Base
  import opened TimingCorrelation

  /** Pad or cut a packet to `cell` bytes with the composer's own generator. */
  function PadRealPacket(cell: Option<nat>, noise: Noise, rng: int, packet: seq<Byte>): (r: (seq<Byte>, int))
    ensures cell.Some? ==> |r.0| == cell.value
    ensures cell == None || |packet| == cell.value ==> r.0 == packet && r.1 == rng
    ensures cell.Some? && |packet| > cell.value ==> r.0 == packet[..cell.value]
    ensures cell == None || |packet| <= cell.value ==> packet <= r.0
    ensures cell.Some? && |packet| < cell.value ==> r.0[|packet|..] == noise.Fill(rng, cell.value - |packet|)
  {
    if cell == None || |packet| == cell.value then (packet, rng)
    else if |packet| < cell.value then
      var padLen := cell.value - |packet|;
      (packet + noise.Fill(rng, padLen), noise.afterFill(rng, padLen))
    else (packet[..cell.value], rng)
  }

  datatype Session = Session(clock: State, composerRng: int)

  function SessionInjected(cfg: Config, noise: Noise, s: Session, packet: seq<Byte>, now: Instant): Session {
    var (padded, rng) := PadRealPacket(Some(cfg.cellBytes), noise, s.composerRng, packet);
    Session(Injected(cfg, s.clock, padded, now), rng)
  }

  /** Every queued packet fills a cell, so no slot draws padding from the clock's generator. */
  predicate QueueUniform(cfg: Config, s: State) {
    forall i :: 0 <= i < |s.queue| ==> |s.queue[i]| == cfg.cellBytes
  }

  class ShapedSession {
    const correlator: TimingCorrelator
    var composerRng: int

    ghost function Abs(): Session
      reads this, correlator
    {
      Session(correlator.Abs(), composerRng)
    }

    constructor (correlator: TimingCorrelator, composerRng: int)
      ensures this.correlator == correlator && this.composerRng == composerRng
    {
      this.correlator := correlator;
      this.composerRng := composerRng;
    }

    method InjectReal(packet: seq<Byte>, now: Instant) returns (ok: bool)
      modifies this, correlator
      ensures ok <==> old(|correlator.realQueue|) < correlator.cfg.maxQueueDepth
      ensures Abs() == SessionInjected(correlator.cfg, correlator.noise, old(Abs()), packet, now)
    {
      var (padded, rng) := PadRealPacket(Some(correlator.cfg.cellBytes), correlator.noise, composerRng, packet);
      composerRng := rng;
      ok := correlator.InjectReal(padded, now);
    }

    /** A frame is emitted exactly when its slot is due, and it always fills a cell. */
    method Tick(now: Instant) returns (frame: Option<MixedFrame>)
      requires correlator.cfg.Valid()
      modifies correlator
      ensures frame.Some? <==> now >= old(correlator.nextDeparture)
      ensures frame == None ==> Abs() == old(Abs())
      ensures frame.Some? ==>
        && |frame.value.Bytes()| == correlator.cfg.cellBytes
        && frame.value == SlotFrame(correlator.cfg, correlator.noise, old(correlator.Abs()))
        && Abs() == old(Abs()).(clock := Fired(correlator.cfg, correlator.noise, old(correlator.Abs()), now))
    {
      frame := correlator.Tick(now);
    }

    method RestartClock(now: Instant)
      requires correlator.cfg.Valid()
      modifies correlator
      ensures Abs() == old(Abs()).(clock := Restarted(correlator.cfg, correlator.noise, old(correlator.Abs()), now))
    {
      correlator.RestartClock(now);
    }
  }
}
