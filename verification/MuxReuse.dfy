/** After the id counter has wrapped: when a circuit can be given replies meant for an earlier one of its id. */
module MuxReuse {
  import opened Base
  import opened Cells
  import opened MuxStreams
  import opened MuxRouting
  import opened MuxIsolation

  /** A circuit that has just been opened under `id`, and how many bridge connections there were by then. */
  datatype Opening = Opening(c: nat, id: U16, n: nat)

  /** It has been given a reply of a connection that was there before it. */
  ghost predicate GotOld(s: State, o: Opening) {
    o.c < |s.circuits| && exists it :: it in DownRoute(s.circuits[o.c]) && it.origin < o.n
  }

  /** A data cell of its id, from such a connection, is on the downlink at `p`. */
  predicate OldAt(s: State, o: Opening, p: nat) {
    p < |s.downlink| && s.downlink[p].id == o.id && s.downlink[p].item.Some? && s.downlink[p].item.value.origin < o.n
  }

  /** A close of its id is on the downlink before `p`. */
  predicate ClosedBefore(s: State, o: Opening, p: nat) {
    exists q: nat :: q < p && q < |s.downlink| && s.downlink[q] == Cell(o.id, None)
  }

  /** Such a connection can still reply. */
  predicate OldReads(s: State, o: Opening, b: nat) {
    b < o.n && b < |s.bridges| && s.bridges[b].id == o.id && s.bridges[b].readerOpen
  }

  /** A cell of a predecessor is in flight, or may still come, with no close of the id ahead of it. */
  ghost predicate Exposed(s: State, o: Opening) {
    || (exists p :: OldAt(s, o, p) && !ClosedBefore(s, o, p))
    || (exists b :: OldReads(s, o, b) && !ClosedBefore(s, o, |s.downlink|))
  }

  /** The client routes to the circuit nothing but its own id. */
  predicate OwnId(s: State, o: Opening) { forall id :: id in s.clientMap && s.clientMap[id] == o.c ==> id == o.id }

  /** The client still routes its id to the circuit. */
  predicate Routes(s: State, o: Opening) { o.id in s.clientMap && s.clientMap[o.id] == o.c }

  // --- Not exposed: no future gives it anything old ------------------------------------

  ghost predicate Shielded(s: State, o: Opening) {
    && (forall p :: OldAt(s, o, p) ==> ClosedBefore(s, o, p))
    && (forall b :: OldReads(s, o, b) ==> ClosedBefore(s, o, |s.downlink|))
  }

  ghost predicate Safe(s: State, o: Opening) {
    && o.c < |s.circuits| && o.n <= |s.bridges|
    && !GotOld(s, o) && OwnId(s, o)
    && (Routes(s, o) ==> Shielded(s, o))
  }

  /** What a step may do without bringing anything old nearer: closes may be added to the downlink, new connections
      opened, and old ones stop reading. */
  ghost predicate Harmless(s: State, t: State, o: Opening) {
    && |s.circuits| <= |t.circuits| && |s.bridges| <= |t.bridges|
    && (o.c < |s.circuits| ==> forall it :: it in DownRoute(t.circuits[o.c]) ==> it in DownRoute(s.circuits[o.c]))
    && (forall id :: id in t.clientMap && t.clientMap[id] == o.c ==> id in s.clientMap && s.clientMap[id] == o.c)
    && (t.downlink == s.downlink || exists id :: t.downlink == s.downlink + [Cell(id, None)])
    && (forall b :: OldReads(t, o, b) ==> OldReads(s, o, b))
  }

  lemma HarmlessSafe(s: State, t: State, o: Opening)
    requires Safe(s, o) && Harmless(s, t, o)
    ensures Safe(t, o)
  {
    if Routes(t, o) {
      forall p: nat | OldAt(t, o, p)
        ensures ClosedBefore(t, o, p)
      {
        assert p < |s.downlink| && t.downlink[p] == s.downlink[p];
        assert OldAt(s, o, p);
        var q: nat :| q < p && q < |s.downlink| && s.downlink[q] == Cell(o.id, None);
        assert t.downlink[q] == s.downlink[q];
      }
      forall b: nat | OldReads(t, o, b)
        ensures ClosedBefore(t, o, |t.downlink|)
      {
        assert OldReads(s, o, b);
        var q: nat :| q < |s.downlink| && s.downlink[q] == Cell(o.id, None);
        assert t.downlink[q] == s.downlink[q];
      }
    }
  }

  lemma OpenHarmless(s: State, o: Opening)
    requires o.c < |s.circuits|
    ensures Harmless(s, Next(s, OpenCircuit), o)
  {
  }

  lemma CircuitHarmless(s: State, step: Step, o: Opening)
    requires o.c < |s.circuits| && (step.CircuitSend? || step.CircuitClose? || step.CircuitWriterStops?)
    ensures Harmless(s, Next(s, step), o)
  {
  }

  lemma DeliverHarmless(s: State, c: nat, o: Opening)
    requires o.c < |s.circuits|
    ensures Harmless(s, Next(s, CircuitDeliver(c)), o)
  {
    if Next(s, CircuitDeliver(c)) != s {
      var x := s.circuits[c];
      assert x.down == [x.down[0]] + x.down[1..];
    }
  }

  /** A change inside one relay that does not open its reader. */
  lemma InRelayHarmless(s: State, t: State, b: nat, o: Opening)
    requires t.circuits == s.circuits && t.clientMap == s.clientMap && t.downlink == s.downlink
    requires b < |s.bridges| == |t.bridges| && t.bridges[b].id == s.bridges[b].id
    requires t.bridges[b].readerOpen ==> s.bridges[b].readerOpen
    requires forall d :: 0 <= d < |s.bridges| && d != b ==> t.bridges[d] == s.bridges[d]
    ensures Harmless(s, t, o)
  {
  }

  lemma RelayHarmless(s: State, step: Step, o: Opening)
    requires step.RelayHold? || step.RelayHoldEnds? || step.GateOpens? || step.RelayForward? || step.RelayWriterStops?
    ensures Harmless(s, Next(s, step), o)
  {
    if Next(s, step) != s {
      InRelayHarmless(s, Next(s, step), step.b, o);
    }
  }

  lemma ReaderStopsHarmless(s: State, b: nat, sentinel: bool, o: Opening)
    ensures Harmless(s, Next(s, BridgeReaderStops(b, sentinel)), o)
  {
  }

  lemma StoppedHarmless(s: State, o: Opening)
    ensures Harmless(s, Stopped(s), o)
  {
  }

  lemma DetachedHarmless(s: State, id: U16, o: Opening)
    ensures Harmless(s, Detached(s, id), o) && Detached(s, id).downlink == s.downlink
  {
  }

  lemma ToBridgeHarmless(s: State, id: U16, b: nat, it: Item, o: Opening)
    ensures Harmless(s, ToBridge(s, id, b, it), o) && ToBridge(s, id, b, it).downlink == s.downlink
  {
    DetachedHarmless(s, id, o);
  }

  lemma OpenedHarmless(s: State, id: U16, c: nat, gone: bool, o: Opening)
    requires o.n <= |s.bridges|
    ensures Harmless(s, Opened(s, id, c, gone), o) && Opened(s, id, c, gone).downlink == s.downlink
  {
  }

  lemma HarmlessBoth(s: State, u: State, t: State, o: Opening)
    requires Harmless(s, u, o) && Harmless(u, t, o) && u.downlink == s.downlink
    ensures Harmless(s, t, o)
  {
  }

  lemma NewBridgeHarmless(s: State, id: U16, it: Item, refused: bool, gone: bool, o: Opening)
    requires o.n <= |s.bridges|
    ensures Harmless(s, NewBridge(s, id, it, refused, gone), o)
  {
    if |s.serverMap| >= MAX_STREAMS_PER_WIRE {
      StoppedHarmless(s, o);
    } else if !refused {
      var u := Opened(s, id, it.origin, gone);
      OpenedHarmless(s, id, it.origin, gone, o);
      ToBridgeHarmless(u, id, |s.bridges|, it, o);
      HarmlessBoth(s, u, ToBridge(u, id, |s.bridges|, it), o);
    }
  }

  lemma DataHarmless(s: State, id: U16, it: Item, refused: bool, gone: bool, o: Opening)
    requires o.n <= |s.bridges|
    ensures Harmless(s, if id in s.serverMap then ToBridge(s, id, s.serverMap[id], it) else NewBridge(s, id, it, refused, gone), o)
  {
    if id in s.serverMap {
      ToBridgeHarmless(s, id, s.serverMap[id], it, o);
    } else {
      NewBridgeHarmless(s, id, it, refused, gone, o);
    }
  }

  /** The uplink has no part in it. */
  lemma HarmlessAnyUplink(s: State, u: State, t: State, o: Opening)
    requires u == s.(uplink := u.uplink) && Harmless(u, t, o)
    ensures Harmless(s, t, o)
  {
  }

  lemma CloseRouteHarmless(s: State, id: U16, o: Opening)
    ensures Harmless(s, Detached(s, id).(downlink := s.downlink + [Cell(id, None)]), o)
  {
    DetachedHarmless(s, id, o);
  }

  lemma RouteUpHarmless(s: State, refused: bool, gone: bool, o: Opening)
    requires o.n <= |s.bridges|
    ensures Harmless(s, RouteUp(s, refused, gone), o)
  {
    if s.uplink != [] && s.serverAlive {
      var id, u := s.uplink[0].id, s.(uplink := s.uplink[1..]);
      match s.uplink[0].item {
        case None => CloseRouteHarmless(u, id, o);
        case Some(it) => DataHarmless(u, id, it, refused, gone, o);
      }
      HarmlessAnyUplink(s, u, RouteUp(s, refused, gone), o);
    }
  }

  /** An old connection replies only behind a close. */
  lemma ReplySafe(s: State, b: nat, data: seq<Byte>, o: Opening)
    requires Safe(s, o)
    ensures Safe(Next(s, BridgeReply(b, data)), o)
  {
    var t := Next(s, BridgeReply(b, data));
    if t != s && Routes(s, o) {
      forall p: nat | OldAt(t, o, p)
        ensures ClosedBefore(t, o, p)
      {
        if p < |s.downlink| {
          assert OldAt(s, o, p);
          var q: nat :| q < p && q < |s.downlink| && s.downlink[q] == Cell(o.id, None);
          assert t.downlink[q] == s.downlink[q];
        } else {
          assert OldReads(s, o, b);
          var q: nat :| q < |s.downlink| && s.downlink[q] == Cell(o.id, None);
          assert t.downlink[q] == s.downlink[q];
        }
      }
      forall d: nat | OldReads(t, o, d)
        ensures ClosedBefore(t, o, |t.downlink|)
      {
        assert OldReads(s, o, d);
        var q: nat :| q < |s.downlink| && s.downlink[q] == Cell(o.id, None);
        assert t.downlink[q] == s.downlink[q];
      }
    }
  }

  /** Taking the head off the downlink leaves what is shielded shielded, unless the head is the close itself. */
  lemma ShieldMovesUp(s: State, t: State, o: Opening)
    requires Shielded(s, o) && s.downlink != [] && t.downlink == s.downlink[1..] && t.bridges == s.bridges
    requires s.downlink[0] != Cell(o.id, None)
    ensures Shielded(t, o)
  {
    forall p: nat | OldAt(t, o, p)
      ensures ClosedBefore(t, o, p)
    {
      assert OldAt(s, o, p + 1);
      var q: nat :| q < p + 1 && q < |s.downlink| && s.downlink[q] == Cell(o.id, None);
      assert t.downlink[q - 1] == s.downlink[q];
    }
    forall b: nat | OldReads(t, o, b)
      ensures ClosedBefore(t, o, |t.downlink|)
    {
      assert OldReads(s, o, b);
      var q: nat :| q < |s.downlink| && s.downlink[q] == Cell(o.id, None);
      assert t.downlink[q - 1] == s.downlink[q];
    }
  }

  lemma ClientRouteSafe(s: State, o: Opening)
    requires Safe(s, o)
    ensures Safe(RouteDown(s), o)
  {
    var t := RouteDown(s);
    if s.downlink != [] {
      if Routes(t, o) {
        assert Routes(s, o) && s.downlink[0] != Cell(o.id, None);
        ShieldMovesUp(s, t, o);
      }
      HeadIsNotOld(s, o);
    }
  }

  lemma HeadIsNotOld(s: State, o: Opening)
    requires Safe(s, o) && s.downlink != []
    ensures !GotOld(RouteDown(s), o)
  {
    var t := RouteDown(s);
    assert !OldAt(s, o, 0) || !Routes(s, o);
    forall it | it in DownRoute(t.circuits[o.c])
      ensures it.origin >= o.n
    {
      assert it in DownRoute(s.circuits[o.c]) || (s.downlink[0].item == Some(it) && s.downlink[0].id in s.clientMap
                                                  && s.clientMap[s.downlink[0].id] == o.c);
    }
  }

  lemma StepSafe(s: State, step: Step, o: Opening)
    requires Safe(s, o)
    ensures Safe(Next(s, step), o)
  {
    match step
    case BridgeReply(b, data) => ReplySafe(s, b, data, o);
    case ClientRoute => ClientRouteSafe(s, o);
    case _ =>
      StepHarmless(s, step, o);
      HarmlessSafe(s, Next(s, step), o);
  }

  lemma StepHarmless(s: State, step: Step, o: Opening)
    requires o.c < |s.circuits| && o.n <= |s.bridges| && !step.BridgeReply? && !step.ClientRoute?
    ensures Harmless(s, Next(s, step), o)
  {
    match step
    case OpenCircuit => OpenHarmless(s, o);
    case CircuitSend(_, _) => CircuitHarmless(s, step, o);
    case CircuitClose(_, _) => CircuitHarmless(s, step, o);
    case CircuitWriterStops(_) => CircuitHarmless(s, step, o);
    case CircuitDeliver(c) => DeliverHarmless(s, c, o);
    case ServerRoute(refused, gone) => RouteUpHarmless(s, refused, gone, o);
    case ServerStops => StoppedHarmless(s, o);
    case BridgeReaderStops(b, sentinel) => ReaderStopsHarmless(s, b, sentinel, o);
    case _ => RelayHarmless(s, step, o);
  }

  lemma {:induction false} FutureSafe(s: State, steps: seq<Step>, o: Opening)
    requires Safe(s, o)
    ensures Safe(RunFrom(s, steps), o)
    decreases |steps|
  {
    if steps != [] {
      StepSafe(s, steps[0], o);
      FutureSafe(Next(s, steps[0]), steps[1..], o);
    }
  }

  // --- Exposed: some future gives it something old ----------------------------------------

  /** The circuit still writes, and its channel is empty. */
  predicate Ready(s: State, o: Opening) {
    o.c < |s.circuits| && s.circuits[o.c].writerOpen && s.circuits[o.c].down == [] && Routes(s, o)
  }

  /** Routing a head that does not close the id, and passing on what it gave, keeps the circuit ready. */
  lemma StaysReady(s: State, o: Opening)
    requires Ready(s, o) && s.downlink != [] && s.downlink[0] != Cell(o.id, None)
    ensures Ready(Next(RouteDown(s), CircuitDeliver(o.c)), o)
    ensures Next(RouteDown(s), CircuitDeliver(o.c)).downlink == s.downlink[1..]
  {
  }

  /** Cell by cell the old one comes to the front and is given to the circuit. */
  lemma {:induction false} ComesThrough(s: State, o: Opening, p: nat) returns (steps: seq<Step>)
    requires Ready(s, o) && OldAt(s, o, p) && !ClosedBefore(s, o, p)
    ensures GotOld(RunFrom(s, steps), o)
    decreases p
  {
    if p == 0 {
      steps := [ClientRoute] + [];
      RunFromCons(s, ClientRoute, []);
      assert s.downlink[0].item.value in DownRoute(RouteDown(s).circuits[o.c]);
    } else {
      var t := Next(RouteDown(s), CircuitDeliver(o.c));
      StaysReady(s, o);
      assert !ClosedBefore(t, o, p - 1) by { NotClosedUp(s, t, o, p - 1); }
      var rest := ComesThrough(t, o, p - 1);
      steps := [ClientRoute] + ([CircuitDeliver(o.c)] + rest);
      RunFromCons(s, ClientRoute, [CircuitDeliver(o.c)] + rest);
      RunFromCons(RouteDown(s), CircuitDeliver(o.c), rest);
    }
  }

  lemma NotClosedUp(s: State, t: State, o: Opening, p: nat)
    requires s.downlink != [] && t.downlink == s.downlink[1..] && !ClosedBefore(s, o, p + 1)
    ensures !ClosedBefore(t, o, p)
  {
    forall q: nat | q < p && q < |t.downlink|
      ensures t.downlink[q] != Cell(o.id, None)
    {
      assert t.downlink[q] == s.downlink[q + 1];
    }
  }

  /** An old connection that still reads replies once its gate is open. */
  lemma RepliesThrough(s: State, o: Opening, b: nat) returns (steps: seq<Step>)
    requires Ready(s, o) && OldReads(s, o, b) && !ClosedBefore(s, o, |s.downlink|)
    ensures GotOld(RunFrom(s, steps), o)
  {
    var u := Next(s, GateOpens(b));
    var t := Next(u, BridgeReply(b, [0]));
    var p := |s.downlink|;
    assert CellSized([0]);
    assert t.downlink[..p] == s.downlink && OldAt(t, o, p);
    forall q: nat | q < p
      ensures t.downlink[q] != Cell(o.id, None)
    {
      assert t.downlink[q] == s.downlink[q];
    }
    var rest := ComesThrough(t, o, p);
    steps := [GateOpens(b)] + ([BridgeReply(b, [0])] + rest);
    RunFromCons(s, GateOpens(b), [BridgeReply(b, [0])] + rest);
    RunFromCons(u, BridgeReply(b, [0]), rest);
  }

  // --- The theorem ---------------------------------------------------------------------

  /** The client's map names circuits that exist: true of every run, wrapped or not. */
  ghost predicate MapInRange(s: State) { forall id :: id in s.clientMap ==> s.clientMap[id] < |s.circuits| }

  lemma StepInRange(s: State, step: Step)
    requires MapInRange(s)
    ensures MapInRange(Next(s, step))
  {
    if step.ServerRoute? {
      RouteUpStays(s, step.refused, step.gone);
    }
  }

  lemma {:induction false} RunInRange(steps: seq<Step>)
    ensures MapInRange(Run(steps))
  {
    if steps != [] {
      RunInRange(steps[..|steps| - 1]);
      StepInRange(Run(steps[..|steps| - 1]), steps[|steps| - 1]);
    }
  }

  /** The circuit that opening one more in `s` gives. */
  function OpenedIn(s: State): Opening {
    Opening(|s.circuits|, Scan(s.nextId, s.clientMap.Keys, 0), |s.bridges|)
  }

  lemma JustOpened(s: State)
    requires MapInRange(s) && |s.clientMap| < MAX_LIVE_IDS
    ensures
      var t, o := Next(s, OpenCircuit), OpenedIn(s);
      && Ready(t, o) && OwnId(t, o) && !GotOld(t, o) && o.n == |t.bridges|
  {
  }

  /** Some future gives it something old. */
  ghost predicate CanGetOld(t: State, o: Opening) { exists future :: GetsOldBy(t, o, future) }

  ghost predicate GetsOldBy(t: State, o: Opening, future: seq<Step>) { GotOld(RunFrom(t, future), o) }

  lemma ExposedCan(t: State, o: Opening)
    requires Ready(t, o) && Exposed(t, o)
    ensures CanGetOld(t, o)
  {
    if p: nat :| OldAt(t, o, p) && !ClosedBefore(t, o, p) {
      var future := ComesThrough(t, o, p);
      assert GetsOldBy(t, o, future);
    } else {
      var b: nat :| OldReads(t, o, b) && !ClosedBefore(t, o, |t.downlink|);
      var future := RepliesThrough(t, o, b);
      assert GetsOldBy(t, o, future);
    }
  }

  lemma UnexposedCannot(t: State, o: Opening)
    requires Ready(t, o) && OwnId(t, o) && !GotOld(t, o) && o.n <= |t.bridges| && !Exposed(t, o)
    ensures !CanGetOld(t, o)
  {
    assert Safe(t, o);
    forall future
      ensures !GetsOldBy(t, o, future)
    {
      FutureSafe(t, future, o);
    }
  }

  /** After any run, wrapped or not, a newly opened circuit can be given a reply of an earlier connection exactly when,
      with no close of its id ahead on the downlink, a cell of a connection opened for its id is in flight or such a
      connection still reads. */
  lemma LateRepliesIff(steps: seq<Step>)
    requires |Run(steps).clientMap| < MAX_LIVE_IDS
    ensures
      var t, o := Next(Run(steps), OpenCircuit), OpenedIn(Run(steps));
      CanGetOld(t, o) <==> Exposed(t, o)
  {
    var t, o := Next(Run(steps), OpenCircuit), OpenedIn(Run(steps));
    RunInRange(steps);
    JustOpened(Run(steps));
    if Exposed(t, o) {
      ExposedCan(t, o);
    } else {
      UnexposedCannot(t, o);
    }
  }
}
