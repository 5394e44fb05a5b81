/** What the single steps of a mux wire bring about over whole runs: sending, holding, closing and stopping. */
module MuxLifecycle {
  import opened Base
  import opened MuxStreams
  import opened MuxRouting
  import opened MuxIsolation
  import opened MuxProgress

  // --- Sending ------------------------------------------------------------------------

  predicate AllCellSized(cells: seq<seq<Byte>>) { forall i :: 0 <= i < |cells| ==> CellSized(cells[i]) }

  function Sends(c: nat, cells: seq<seq<Byte>>): seq<Step> {
    seq(|cells|, i requires 0 <= i < |cells| => CircuitSend(c, cells[i]))
  }

  function Answers(b: nat, cells: seq<seq<Byte>>): seq<Step> {
    seq(|cells|, i requires 0 <= i < |cells| => BridgeReply(b, cells[i]))
  }

  /** A circuit whose reader is open can send whatever it likes, at any time. */
  lemma {:induction false} SendsAreSent(s: State, c: nat, cells: seq<seq<Byte>>)
    requires c < |s.circuits| && s.circuits[c].readerOpen && AllCellSized(cells)
    ensures
      var t := RunFrom(s, Sends(c, cells));
      && |t.circuits| == |s.circuits| && t.circuits[c] == s.circuits[c].(sent := s.circuits[c].sent + cells)
      && |t.uplink| == |s.uplink| + |cells|
    decreases |cells|
  {
    if cells == [] {
      assert s.circuits[c].sent + [] == s.circuits[c].sent;
    } else {
      assert Sends(c, cells) == [CircuitSend(c, cells[0])] + Sends(c, cells[1..]);
      RunFromCons(s, CircuitSend(c, cells[0]), Sends(c, cells[1..]));
      SendsAreSent(Next(s, CircuitSend(c, cells[0])), c, cells[1..]);
      assert (s.circuits[c].sent + [cells[0]]) + cells[1..] == s.circuits[c].sent + cells;
    }
  }

  /** A bridge past its gate whose reader is open can reply whatever it likes, at any time. */
  lemma {:induction false} AnswersAreGiven(s: State, b: nat, cells: seq<seq<Byte>>)
    requires b < |s.bridges| && !s.bridges[b].holding && s.bridges[b].readerOpen && AllCellSized(cells)
    ensures
      var t := RunFrom(s, Answers(b, cells));
      && |t.bridges| == |s.bridges| && t.bridges[b] == s.bridges[b].(replies := s.bridges[b].replies + cells)
      && |t.downlink| == |s.downlink| + |cells|
    decreases |cells|
  {
    if cells == [] {
      assert s.bridges[b].replies + [] == s.bridges[b].replies;
    } else {
      assert Answers(b, cells) == [BridgeReply(b, cells[0])] + Answers(b, cells[1..]);
      RunFromCons(s, BridgeReply(b, cells[0]), Answers(b, cells[1..]));
      AnswersAreGiven(Next(s, BridgeReply(b, cells[0])), b, cells[1..]);
      assert (s.bridges[b].replies + [cells[0]]) + cells[1..] == s.bridges[b].replies + cells;
    }
  }

  /** A circuit can be opened exactly while fewer than 65534 ids are live; it then has an id that no live one had. */
  lemma OpensIff(steps: seq<Step>)
    ensures
      var s, t := Run(steps), Next(Run(steps), OpenCircuit);
      && (|t.circuits| > |s.circuits| <==> |s.clientMap| < 65534)
      && (|t.circuits| > |s.circuits| ==>
            var id := t.circuits[|s.circuits|].id;
            id != 0 && id !in s.clientMap && id in t.clientMap && t.clientMap[id] == |s.circuits|)
  {
    var s := Run(steps);
    if |s.clientMap| < MAX_LIVE_IDS {
      ScanIsUsable(s.nextId, s.clientMap.Keys);
    }
  }

  lemma ScanIsUsable(from: U16, taken: set<U16>)
    requires |taken| < MAX_LIVE_IDS
    ensures Usable(Scan(from, taken, 0), taken)
  {
    var id := FreeId(taken);
    var d := Reached(from, id);
    UsableFound(from, taken, 0, d);
  }

  lemma {:induction false} UsableFound(from: U16, taken: set<U16>, k: nat, d: nat)
    requires k <= d < ID_SPACE && Usable(Candidate(from, d), taken)
    ensures Usable(Scan(from, taken, k), taken)
    decreases d - k
  {
    if !Usable(Candidate(from, k), taken) {
      UsableFound(from, taken, k + 1, d);
    }
  }

  // --- Holding ------------------------------------------------------------------------

  /** The hold has room for everything that waits: before the last cell it is below its cap. */
  predicate HoldHasRoom(x: Bridge) { x.up == [] || HeldBytes(x.held + x.up[..|x.up| - 1]) < EPOCH_HOLD_MAX_BYTES }

  /** A relay that has held back all that waited. */
  function Holding(x: Bridge): Bridge { x.(held := x.held + x.up, up := []) }

  lemma HeldGrows(held: seq<Item>, more: seq<Item>)
    ensures HeldBytes(held) <= HeldBytes(held + more)
    decreases |more|
  {
    if more == [] {
      assert held + more == held;
    } else {
      var last := |more| - 1;
      assert (held + more)[..|held| + last] == held + more[..last];
      HeldGrows(held, more[..last]);
    }
  }

  lemma HoldOne(s: State, b: nat) returns (y: Bridge)
    requires b < |s.bridges| && s.bridges[b].holding && s.bridges[b].writerOpen && s.bridges[b].up != []
    requires HoldHasRoom(s.bridges[b])
    ensures Next(s, RelayHold(b)) == WithBridge(s, b, y) && Holding(y) == Holding(s.bridges[b]) && HoldHasRoom(y)
    ensures y.holding && y.writerOpen && |y.up| + 1 == |s.bridges[b].up|
  {
    var x := s.bridges[b];
    y := x.(held := x.held + [x.up[0]], up := x.up[1..]);
    HeldGrows(x.held, x.up[..|x.up| - 1]);
    HeadHeld(x.held, x.up);
  }

  lemma HeadHeld(held: seq<Item>, up: seq<Item>)
    requires up != []
    ensures (held + [up[0]]) + up[1..] == held + up
    ensures up[1..] != [] ==> (held + [up[0]]) + up[1..][..|up| - 2] == held + up[..|up| - 1]
  {
  }

  /** While its gate is shut a relay with room in its hold takes over everything its channel has, oldest first, one
      cell a turn. */
  lemma {:induction false} HoldDrains(s: State, b: nat, n: nat)
    requires b < |s.bridges| && s.bridges[b].holding && s.bridges[b].writerOpen && HoldHasRoom(s.bridges[b])
    requires n == |s.bridges[b].up|
    ensures RunFrom(s, Repeat(RelayHold(b), n)) == WithBridge(s, b, Holding(s.bridges[b]))
    decreases n
  {
    var x := s.bridges[b];
    if n == 0 {
      assert Holding(x) == x;
      ChangedTwice(s, b, x, x);
    } else {
      RepeatCons(RelayHold(b), n);
      RunFromCons(s, RelayHold(b), Repeat(RelayHold(b), n - 1));
      var y := HoldOne(s, b);
      HoldDrains(WithBridge(s, b, y), b, n - 1);
      ChangedTwice(s, b, y, Holding(x));
    }
  }

  /** A relay whose gate is shut has written nothing and passed no reply on. */
  ghost predicate GateShut(s: State) {
    forall b :: 0 <= b < |s.bridges| && s.bridges[b].holding ==> s.bridges[b].written == [] && s.bridges[b].replies == []
  }

  lemma ToBridgeGateShut(s: State, id: U16, b: nat, it: Item)
    requires GateShut(s)
    ensures GateShut(ToBridge(s, id, b, it))
  {
  }

  lemma RouteUpGateShut(s: State, refused: bool, gone: bool)
    requires GateShut(s)
    ensures GateShut(RouteUp(s, refused, gone))
  {
    if s.uplink != [] && s.serverAlive && s.uplink[0].item.Some? {
      var id, it, t := s.uplink[0].id, s.uplink[0].item.value, s.(uplink := s.uplink[1..]);
      if id in t.serverMap {
        ToBridgeGateShut(t, id, t.serverMap[id], it);
      } else {
        ToBridgeGateShut(Opened(t, id, it.origin, gone), id, |t.bridges|, it);
      }
    }
  }

  lemma RelayStepGateShut(s: State, step: Step)
    requires GateShut(s) && AtRelay(step)
    ensures GateShut(Next(s, step))
  {
  }

  lemma StepGateShut(s: State, step: Step)
    requires GateShut(s)
    ensures GateShut(Next(s, step))
  {
    if step.ServerRoute? {
      RouteUpGateShut(s, step.refused, step.gone);
    } else if AtRelay(step) {
      RelayStepGateShut(s, step);
    }
  }

  /** Under every interleaving nothing passes a relay whose gate is shut, in either direction. */
  lemma {:induction false} NothingPassesTheGate(steps: seq<Step>)
    ensures GateShut(Run(steps))
  {
    if steps != [] {
      NothingPassesTheGate(steps[..|steps| - 1]);
      StepGateShut(Run(steps[..|steps| - 1]), steps[|steps| - 1]);
    }
  }

  predicate HoldsNoMore(s: State, t: State, b: nat) {
    b < |s.bridges| && b < |t.bridges| && !t.bridges[b].holding && |t.bridges[b].held| <= |s.bridges[b].held|
  }

  lemma ReplyHoldsNoMore(s: State, step: Step, b: nat)
    requires (step.BridgeReply? || step.BridgeReaderStops?) && b < |s.bridges| && !s.bridges[b].holding
    ensures HoldsNoMore(s, Next(s, step), b)
  {
  }

  /** Past its gate a relay holds nothing more back, and never shuts the gate again. */
  lemma GateStaysOpen(s: State, step: Step, b: nat)
    requires AtRelay(step) && b < |s.bridges| && !s.bridges[b].holding
    ensures HoldsNoMore(s, Next(s, step), b)
  {
    if step.BridgeReply? || step.BridgeReaderStops? {
      ReplyHoldsNoMore(s, step, b);
    }
  }

  // --- Closing ------------------------------------------------------------------------

  /** No end of the wire routes `id` any more. */
  predicate Forgotten(s: State, id: U16) { id !in s.serverMap && id !in s.clientMap }

  lemma {:induction false} ClientReads(s: State, n: nat)
    requires n <= |s.downlink|
    ensures
      var t := RunFrom(s, Repeat(ClientRoute, n));
      && t.downlink == s.downlink[n..] && t.clientMap.Keys <= s.clientMap.Keys && t.serverMap == s.serverMap
    decreases n
  {
    if n > 0 {
      RepeatCons(ClientRoute, n);
      RunFromCons(s, ClientRoute, Repeat(ClientRoute, n - 1));
      ClientReadsOne(s);
      ClientReads(Next(s, ClientRoute), n - 1);
      assert s.downlink[1..][n - 1..] == s.downlink[n..];
    }
  }

  lemma ClientReadsOne(s: State)
    requires s.downlink != []
    ensures
      var t := Next(s, ClientRoute);
      && t.downlink == s.downlink[1..] && t.clientMap.Keys <= s.clientMap.Keys && t.serverMap == s.serverMap
      && (s.downlink[0].item == None ==> s.downlink[0].id !in t.clientMap)
  {
  }

  /** When a circuit closes on an uplink that has been read, its relay is told at once, and its id is free at both ends
      as soon as the client has read what is on the downlink and the answer. */
  lemma CloseFreesId(s: State, c: nat, id: U16)
    requires c < |s.circuits| && s.circuits[c].readerOpen && s.circuits[c].id == id && s.uplink == [] && s.serverAlive
    ensures
      var t := Next(Next(s, CircuitClose(c, true)), ServerRoute(false, false));
      && (id in s.serverMap && s.serverMap[id] < |s.bridges| ==>
            |t.bridges| == |s.bridges| && !t.bridges[s.serverMap[id]].attached)
      && Forgotten(RunFrom(t, Repeat(ClientRoute, |s.downlink| + 1)), id)
  {
    var u := Next(s, CircuitClose(c, true));
    CloseSent(s, c, id);
    CloseAnswered(u, id);
    CloseRead(RouteUp(u, false, false), id);
  }

  lemma CloseSent(s: State, c: nat, id: U16)
    requires c < |s.circuits| && s.circuits[c].readerOpen && s.circuits[c].id == id && s.uplink == []
    ensures
      var u := Next(s, CircuitClose(c, true));
      && u.uplink == [Cell(id, None)] && u.serverAlive == s.serverAlive && u.downlink == s.downlink
      && u.bridges == s.bridges && u.serverMap == s.serverMap
  {
  }

  lemma CloseAnswered(u: State, id: U16)
    requires u.uplink == [Cell(id, None)] && u.serverAlive
    ensures
      var t := RouteUp(u, false, false);
      && t.downlink == u.downlink + [Cell(id, None)] && id !in t.serverMap && |t.bridges| == |u.bridges|
      && (id in u.serverMap && u.serverMap[id] < |u.bridges| ==> !t.bridges[u.serverMap[id]].attached)
  {
  }

  /** Once the client has read a close of `id` it does not route it. */
  lemma CloseRead(t: State, id: U16)
    requires t.downlink != [] && t.downlink[|t.downlink| - 1] == Cell(id, None)
    ensures
      var u := RunFrom(t, Repeat(ClientRoute, |t.downlink|));
      id !in u.clientMap && u.serverMap == t.serverMap
  {
    var n := |t.downlink| - 1;
    assert Repeat(ClientRoute, n + 1) == Repeat(ClientRoute, n) + [ClientRoute];
    RunFromAppend(t, Repeat(ClientRoute, n), [ClientRoute]);
    ClientReads(t, n);
    ClientReadsOne(RunFrom(t, Repeat(ClientRoute, n)));
    RunFromCons(RunFrom(t, Repeat(ClientRoute, n)), ClientRoute, []);
    assert [ClientRoute] + [] == [ClientRoute];
  }

  /** When a bridge closes, the client routes its id no more as soon as it has read what is on the downlink. */
  lemma BridgeCloseEndsRouting(s: State, b: nat)
    requires b < |s.bridges| && !s.bridges[b].holding && s.bridges[b].readerOpen
    ensures
      var t := Next(s, BridgeReaderStops(b, true));
      s.bridges[b].id !in RunFrom(t, Repeat(ClientRoute, |s.downlink| + 1)).clientMap
  {
    CloseRead(Next(s, BridgeReaderStops(b, true)), s.bridges[b].id);
  }

  /** A cell for a half that has stopped frees its id at that end: for a relay at the server, for a circuit at the
      client. */
  lemma DeadEndIsForgotten(s: State, refused: bool, gone: bool)
    ensures
      && (s.serverAlive && s.uplink != [] && s.uplink[0].item.Some? && s.uplink[0].id in s.serverMap
          && s.serverMap[s.uplink[0].id] < |s.bridges| && !s.bridges[s.serverMap[s.uplink[0].id]].writerOpen ==>
            s.uplink[0].id !in Next(s, ServerRoute(refused, gone)).serverMap)
      && (s.downlink != [] && s.downlink[0].item.Some? && s.downlink[0].id in s.clientMap
          && s.clientMap[s.downlink[0].id] < |s.circuits| && !s.circuits[s.clientMap[s.downlink[0].id]].writerOpen ==>
            s.downlink[0].id !in Next(s, ClientRoute).clientMap)
  {
  }

  /** A relay that is full at the server, or a circuit that is full at the client, costs the cell at the head of the
      wire and nothing else: it stays as it is, and stays routed. */
  lemma FullCostsOneCell(s: State, refused: bool, gone: bool)
    ensures
      && (s.serverAlive && s.uplink != [] && s.uplink[0].item.Some? && s.uplink[0].id in s.serverMap
          && s.serverMap[s.uplink[0].id] < |s.bridges| && s.bridges[s.serverMap[s.uplink[0].id]].writerOpen
          && |s.bridges[s.serverMap[s.uplink[0].id]].up| >= STREAM_CHANNEL_CAP ==>
            var t := Next(s, ServerRoute(refused, gone));
            t.serverMap == s.serverMap && t.bridges == s.bridges && t.serverAlive && t.downlink == s.downlink)
      && (s.downlink != [] && s.downlink[0].item.Some? && s.downlink[0].id in s.clientMap
          && s.clientMap[s.downlink[0].id] < |s.circuits| && s.circuits[s.clientMap[s.downlink[0].id]].writerOpen
          && |s.circuits[s.clientMap[s.downlink[0].id]].down| >= STREAM_CHANNEL_CAP ==>
            var t := Next(s, ClientRoute);
            t.clientMap == s.clientMap && t.circuits == s.circuits)
  {
  }

  /** A stream that the global cap refuses costs its cell and nothing else: the wire goes on. */
  lemma RefusalCostsOneCell(s: State, gone: bool)
    requires s.serverAlive && s.uplink != [] && s.uplink[0].item.Some? && s.uplink[0].id !in s.serverMap
    requires |s.serverMap| < MAX_STREAMS_PER_WIRE
    ensures
      var t := Next(s, ServerRoute(true, gone));
      t.serverMap == s.serverMap && t.bridges == s.bridges && t.serverAlive && t.downlink == s.downlink
  {
  }

  // --- Stopping -----------------------------------------------------------------------

  /** The server reads nothing any more: no relay is opened, and none takes a cell. */
  ghost predicate ReadsNoMore(s: State, t: State) {
    && !t.serverAlive && |t.bridges| == |s.bridges|
    && forall b :: 0 <= b < |s.bridges| ==> t.bridges[b].accepted == s.bridges[b].accepted && !t.bridges[b].attached
  }

  lemma StepReadsNoMore(s: State, t: State, step: Step)
    requires ReadsNoMore(s, t)
    ensures ReadsNoMore(s, Next(t, step))
  {
    if AtRelay(step) {
      RelayStepReadsNoMore(s, t, step);
    }
  }

  lemma RelayStepReadsNoMore(s: State, t: State, step: Step)
    requires ReadsNoMore(s, t) && AtRelay(step)
    ensures ReadsNoMore(s, Next(t, step))
  {
  }

  /** Once the demultiplexer has ended, whatever happens: no relay is ever opened again, none takes another cell, and
      each has been told. */
  lemma {:induction false} StopsForGood(s: State, future: seq<Step>)
    ensures ReadsNoMore(s, RunFrom(s, [ServerStops] + future))
  {
    RunFromCons(s, ServerStops, future);
    StaysStopped(s, Next(s, ServerStops), future);
  }

  lemma {:induction false} StaysStopped(s: State, t: State, future: seq<Step>)
    requires ReadsNoMore(s, t)
    ensures ReadsNoMore(s, RunFrom(t, future))
    decreases |future|
  {
    if future != [] {
      StepReadsNoMore(s, t, future[0]);
      StaysStopped(s, Next(t, future[0]), future[1..]);
    }
  }
}
