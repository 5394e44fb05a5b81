/** What one wire can make the server hold, whatever its client puts on it. */
module MuxBounds {
  import opened Base
  import opened Cells
  import opened MuxRouting
  import opened MuxIsolation

  /** A step of the protocol, or a client that puts any cell of any stream on the wire at any time: ids never handed
      out, 0 among them, data after a close, closes of streams never opened. A cell carries at most 510 bytes
      whatever its bytes are. */
  datatype AnyStep = Protocol(step: Step) | Inject(cell: Cell)

  function AnyNext(s: State, a: AnyStep): State {
    match a
    case Protocol(step) => Next(s, step)
    case Inject(cell) =>
      if cell.item.Some? && !CellSized(cell.item.value.data) then s else s.(uplink := s.uplink + [cell])
  }

  function RunAny(steps: seq<AnyStep>): State {
    if steps == [] then START else AnyNext(RunAny(steps[..|steps| - 1]), steps[|steps| - 1])
  }

  lemma HeldSnoc(held: seq<Item>, x: Item)
    ensures HeldBytes(held + [x]) == HeldBytes(held) + |x.data|
  {
    assert (held + [x])[..|held|] == held;
  }

  lemma {:induction false} HeldHead(held: seq<Item>)
    requires held != []
    ensures HeldBytes(held) == |held[0].data| + HeldBytes(held[1..])
  {
    var last := |held| - 1;
    if last > 0 {
      HeldHead(held[..last]);
      assert held[..last][1..] == held[1..][..last - 1];
    }
  }

  /** The channel of a relay within its capacity and cell by cell, and its hold buffer less than one cell over the cap. */
  predicate RelayBounded(x: Bridge) {
    && |x.up| <= STREAM_CHANNEL_CAP
    && (forall i :: 0 <= i < |x.up| ==> |x.up[i].data| <= CELL_PAYLOAD)
    && HeldBytes(x.held) < EPOCH_HOLD_MAX_BYTES + CELL_PAYLOAD
  }

  predicate FitsACell(cell: Cell) { cell.item.Some? ==> |cell.item.value.data| <= CELL_PAYLOAD }

  ghost predicate Bounded(s: State) {
    && (forall b :: 0 <= b < |s.bridges| ==> RelayBounded(s.bridges[b]))
    && (forall p :: 0 <= p < |s.uplink| ==> FitsACell(s.uplink[p]))
    && |s.serverMap| <= MAX_STREAMS_PER_WIRE
  }

  /** A change inside one relay. */
  lemma RelayChanged(s: State, t: State, b: nat)
    requires Bounded(s) && t.uplink == s.uplink && t.serverMap == s.serverMap
    requires b < |s.bridges| == |t.bridges| && RelayBounded(t.bridges[b])
    requires forall d :: 0 <= d < |s.bridges| && d != b ==> t.bridges[d] == s.bridges[d]
    ensures Bounded(t)
  {
  }

  lemma HoldBounded(s: State, b: nat)
    requires Bounded(s)
    ensures Bounded(Next(s, RelayHold(b)))
  {
    var t := Next(s, RelayHold(b));
    if t != s {
      var x := s.bridges[b];
      HeldSnoc(x.held, x.up[0]);
      RelayChanged(s, t, b);
    }
  }

  lemma ForwardBounded(s: State, b: nat)
    requires Bounded(s)
    ensures Bounded(Next(s, RelayForward(b)))
  {
    var t := Next(s, RelayForward(b));
    if t != s {
      if s.bridges[b].held != [] {
        HeldHead(s.bridges[b].held);
      }
      RelayChanged(s, t, b);
    }
  }

  lemma DetachedBounded(s: State, id: U16)
    requires Bounded(s)
    ensures Bounded(Detached(s, id))
  {
    MapShrinks(s.serverMap, id);
  }

  lemma ToBridgeBounded(s: State, id: U16, b: nat, it: Item)
    requires Bounded(s) && |it.data| <= CELL_PAYLOAD
    ensures Bounded(ToBridge(s, id, b, it))
  {
    if b >= |s.bridges| || !s.bridges[b].writerOpen {
      DetachedBounded(s, id);
    }
  }

  lemma StoppedBounded(s: State)
    requires Bounded(s)
    ensures Bounded(Stopped(s))
  {
  }

  lemma OpenedBounded(s: State, id: U16, c: nat, gone: bool)
    requires Bounded(s) && |s.serverMap| < MAX_STREAMS_PER_WIRE
    ensures Bounded(Opened(s, id, c, gone))
  {
    var m := s.serverMap[id := |s.bridges|];
    assert m.Keys == s.serverMap.Keys + {id};
    assert |m.Keys| <= |s.serverMap.Keys| + 1;
  }

  lemma NewBridgeBounded(s: State, id: U16, it: Item, refused: bool, gone: bool)
    requires Bounded(s) && |it.data| <= CELL_PAYLOAD
    ensures Bounded(NewBridge(s, id, it, refused, gone))
  {
    if |s.serverMap| >= MAX_STREAMS_PER_WIRE {
      StoppedBounded(s);
    } else if !refused {
      OpenedBounded(s, id, it.origin, gone);
      ToBridgeBounded(Opened(s, id, it.origin, gone), id, |s.bridges|, it);
    }
  }

  lemma ServerRouteBounded(s: State, refused: bool, gone: bool)
    requires Bounded(s)
    ensures Bounded(RouteUp(s, refused, gone))
  {
    if s.uplink != [] && s.serverAlive {
      var cell, t := s.uplink[0], s.(uplink := s.uplink[1..]);
      assert FitsACell(cell) && Bounded(t);
      match cell.item
      case None => DetachedBounded(t, cell.id);
      case Some(it) =>
        if cell.id in t.serverMap {
          ToBridgeBounded(t, cell.id, t.serverMap[cell.id], it);
        } else {
          NewBridgeBounded(t, cell.id, it, refused, gone);
        }
    }
  }

  lemma InjectBounded(s: State, cell: Cell)
    requires Bounded(s)
    ensures Bounded(AnyNext(s, Inject(cell)))
  {
  }

  lemma CircuitStepBounded(s: State, step: Step)
    requires Bounded(s)
    requires step.OpenCircuit? || step.CircuitSend? || step.CircuitClose? || step.CircuitDeliver? || step.CircuitWriterStops?
    ensures Bounded(Next(s, step))
  {
  }

  lemma ClientRouteBounded(s: State)
    requires Bounded(s)
    ensures Bounded(RouteDown(s))
  {
  }

  lemma RelayStepBounded(s: State, step: Step)
    requires Bounded(s)
    requires step.RelayHoldEnds? || step.GateOpens? || step.RelayWriterStops? || step.BridgeReply? || step.BridgeReaderStops?
    ensures Bounded(Next(s, step))
  {
    var t := Next(s, step);
    if t != s {
      assert RelayBounded(s.bridges[step.b]);
      RelayChanged(s, t, step.b);
    }
  }

  lemma StepBounded(s: State, step: Step)
    requires Bounded(s)
    ensures Bounded(Next(s, step))
  {
    match step
    case RelayHold(b) => HoldBounded(s, b);
    case RelayForward(b) => ForwardBounded(s, b);
    case ServerRoute(refused, gone) => ServerRouteBounded(s, refused, gone);
    case ServerStops => StoppedBounded(s);
    case ClientRoute => ClientRouteBounded(s);
    case OpenCircuit => CircuitStepBounded(s, step);
    case CircuitSend(_, _) => CircuitStepBounded(s, step);
    case CircuitClose(_, _) => CircuitStepBounded(s, step);
    case CircuitDeliver(_) => CircuitStepBounded(s, step);
    case CircuitWriterStops(_) => CircuitStepBounded(s, step);
    case _ => RelayStepBounded(s, step);
  }

  lemma {:induction false} RunBounded(steps: seq<AnyStep>)
    ensures Bounded(RunAny(steps))
  {
    if steps != [] {
      var s, last := RunAny(steps[..|steps| - 1]), steps[|steps| - 1];
      RunBounded(steps[..|steps| - 1]);
      match last
      case Protocol(step) => StepBounded(s, step);
      case Inject(cell) => InjectBounded(s, cell);
    }
  }

  /** Server memory per stream: whatever cells the client puts on the wire, whether it keeps the protocol or not, and
      however long the gate stays shut, a relay never has more than 256 cells of at most 510 bytes in its channel and
      fewer than 256 KiB plus one cell held back; and all relays a wire can route to are at most 512. */
  lemma StreamMemory(steps: seq<AnyStep>, b: nat)
    requires b < |RunAny(steps).bridges|
    ensures
      var x := RunAny(steps).bridges[b];
      && |x.up| <= 256 && (forall i :: 0 <= i < |x.up| ==> |x.up[i].data| <= 510)
      && HeldBytes(x.held) < 256 * 1024 + 510
    ensures |RunAny(steps).serverMap| <= 512
  {
    RunBounded(steps);
    assert RelayBounded(RunAny(steps).bridges[b]);
  }
}
