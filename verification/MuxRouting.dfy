/** Both ends of a mux wire as interleaved atomic steps: circuits, demultiplexer, bridge relays. */
module MuxRouting {
  import opened Base
  import opened Cells
  import opened MuxStreams

  const STREAM_CHANNEL_CAP: nat := 256
  const MAX_STREAMS_PER_WIRE: nat := 512
  const EPOCH_HOLD_MAX_BYTES: nat := 256 * 1024

  /** The bytes of one data cell with their provenance: the `n`-th cell of circuit (or bridge) `origin`.
      No step looks at the provenance. */
  datatype Item = Item(origin: nat, n: nat, data: seq<Byte>)

  /** A cell on the wire: data of a stream, or its close sentinel. The wire itself is the lossless FIFO
      of the shaped flow. */
  datatype Cell = Cell(id: U16, item: Option<Item>)

  /** A circuit at the client: the cells its reader has sent, its bounded downlink channel, and what its
      writer has passed on. `bridge` is the first bridge connection opened for its id. */
  datatype Circuit = Circuit(
    id: U16, sent: seq<seq<Byte>>, readerOpen: bool,
    down: seq<Item>, writerOpen: bool, delivered: seq<Item>, bridge: Option<nat>)

  /** A bridge relay at the server: its bounded uplink channel and whether the demultiplexer still holds the
      sending end, the hold buffer, and the two halves once connected. `accepted` is all the channel ever took. */
  datatype Bridge = Bridge(
    id: U16, up: seq<Item>, attached: bool, holding: bool, held: seq<Item>, writerOpen: bool,
    readerOpen: bool, written: seq<Item>, replies: seq<seq<Byte>>, accepted: seq<Item>)

  /** Both ends and the wires between them. `lossy` are the circuits, `lossyDown` the bridges one of whose cells has
      been dropped on the far side: by the demultiplexer, by a hold that ended, or by a writer that stopped. */
  datatype State = State(
    circuits: seq<Circuit>, bridges: seq<Bridge>,
    uplink: seq<Cell>, downlink: seq<Cell>,
    clientMap: map<U16, nat>, serverMap: map<U16, nat>, nextId: U16,
    serverAlive: bool, lossy: set<nat>, lossyDown: set<nat>)

  datatype Step =
    | OpenCircuit
    | CircuitSend(c: nat, data: seq<Byte>)
    | CircuitClose(c: nat, sentinel: bool)
    | ServerRoute(refused: bool, gone: bool)  // for a new stream: the global cap refuses it; its relay ends at once
    | ServerStops                     // end of the wire, or a frame that does not authenticate
    | RelayHold(b: nat)
    | RelayHoldEnds(b: nat)           // the stream closed before the gate: what is held is dropped
    | GateOpens(b: nat)
    | RelayForward(b: nat)
    | RelayWriterStops(b: nat)        // no connection, or a failed write: what waits for the writer is dropped
    | BridgeReply(b: nat, data: seq<Byte>)
    | BridgeReaderStops(b: nat, sentinel: bool)
    | ClientRoute
    | CircuitDeliver(c: nat)
    | CircuitWriterStops(c: nat)      // a failed write: what waits for the writer is dropped

  const START: State := State([], [], [], [], map[], map[], 1, true, {}, {})

  function WithCircuit(s: State, c: nat, x: Circuit): State
    requires c < |s.circuits|
  {
    s.(circuits := s.circuits[c := x])
  }

  function WithBridge(s: State, b: nat, x: Bridge): State
    requires b < |s.bridges|
  {
    s.(bridges := s.bridges[b := x])
  }

  function HeldBytes(held: seq<Item>): nat {
    if held == [] then 0 else HeldBytes(held[..|held| - 1]) + |held[|held| - 1].data|
  }

  /** Whose items these are. */
  function Owners(items: seq<Item>): (owners: set<nat>)
    ensures forall c :: c in owners <==> exists it :: it in items && it.origin == c
  {
    set it | it in items :: it.origin
  }

  /** The server takes the next uplink cell. */
  function RouteUp(s: State, refused: bool, gone: bool): State {
    if s.uplink == [] || !s.serverAlive then s
    else
      var cell := s.uplink[0];
      var t := s.(uplink := s.uplink[1..]);
      match cell.item
      case None => Detached(t, cell.id).(downlink := t.downlink + [Cell(cell.id, None)])
      case Some(item) =>
        if cell.id in t.serverMap then ToBridge(t, cell.id, t.serverMap[cell.id], item)
        else NewBridge(t, cell.id, item, refused, gone)
  }

  /** `stream_map.remove`: the relay loses its sending end. */
  function Detached(s: State, id: U16): State {
    if id in s.serverMap && s.serverMap[id] < |s.bridges| then
      var b := s.serverMap[id];
      WithBridge(s, b, s.bridges[b].(attached := false)).(serverMap := s.serverMap - {id})
    else s.(serverMap := s.serverMap - {id})
  }

  /** `try_send` to a known stream: taken, dropped when full, or the entry dropped when the relay is gone. */
  function ToBridge(s: State, id: U16, b: nat, item: Item): State {
    if b >= |s.bridges| || !s.bridges[b].writerOpen then
      Detached(s, id).(lossy := s.lossy + {item.origin})
    else if |s.bridges[b].up| >= STREAM_CHANNEL_CAP then s.(lossy := s.lossy + {item.origin})
    else
      var x := s.bridges[b];
      WithBridge(s, b, x.(up := x.up + [item], accepted := x.accepted + [item]))
  }

  /** The demultiplexer ends: every relay loses its sending end. */
  function Stopped(s: State): State {
    s.(serverAlive := false, serverMap := map[],
       bridges := seq(|s.bridges|, b requires 0 <= b < |s.bridges| => s.bridges[b].(attached := false)))
  }

  /** A bridge relay for `id` is started; it may already have ended (`gone`) when the first cell is sent to it. */
  function Opened(s: State, id: U16, c: nat, gone: bool): State {
    var b := |s.bridges|;
    var t := s.(bridges := s.bridges + [Bridge(id, [], true, true, [], !gone, !gone, [], [], [])],
                serverMap := s.serverMap[id := b]);
    if c < |t.circuits| && t.circuits[c].bridge == None then WithCircuit(t, c, t.circuits[c].(bridge := Some(b))) else t
  }

  /** A first cell opens a bridge relay, unless a cap is hit: the one per wire drops the whole wire, the
      global one only the cell. */
  function NewBridge(s: State, id: U16, item: Item, refused: bool, gone: bool): State {
    if |s.serverMap| >= MAX_STREAMS_PER_WIRE then Stopped(s).(lossy := s.lossy + {item.origin})
    else if refused then s.(lossy := s.lossy + {item.origin})
    else ToBridge(Opened(s, id, item.origin, gone), id, |s.bridges|, item)
  }

  /** The client takes the next downlink cell. */
  function RouteDown(s: State): State {
    if s.downlink == [] then s
    else
      var cell := s.downlink[0];
      var t := s.(downlink := s.downlink[1..]);
      match cell.item
      case None => t.(clientMap := t.clientMap - {cell.id})
      case Some(item) =>
        var lost := t.(lossyDown := t.lossyDown + {item.origin});
        if cell.id !in t.clientMap || t.clientMap[cell.id] >= |t.circuits| then lost
        else
          var c := t.clientMap[cell.id];
          var x := t.circuits[c];
          if !x.writerOpen then lost.(clientMap := t.clientMap - {cell.id})
          else if |x.down| >= STREAM_CHANNEL_CAP then lost
          else WithCircuit(t, c, x.(down := x.down + [item]))
  }

  /** What one cell can carry; an empty cell would be a close. */
  predicate CellSized(data: seq<Byte>) { 0 < |data| <= CELL_PAYLOAD }

  /** One atomic step; a step that is not enabled changes nothing. */
  function Next(s: State, step: Step): State {
    match step
    case OpenCircuit =>
      if |s.clientMap| >= MAX_LIVE_IDS then s
      else
        var c, id := |s.circuits|, Scan(s.nextId, s.clientMap.Keys, 0);
        s.(circuits := s.circuits + [Circuit(id, [], true, [], true, [], None)],
           clientMap := s.clientMap[id := c], nextId := Candidate(id, 1))
    case CircuitSend(c, data) =>
      if c >= |s.circuits| || !s.circuits[c].readerOpen || !CellSized(data) then s
      else
        var x := s.circuits[c];
        WithCircuit(s, c, x.(sent := x.sent + [data]))
          .(uplink := s.uplink + [Cell(x.id, Some(Item(c, |x.sent|, data)))])
    case CircuitClose(c, sentinel) =>
      if c >= |s.circuits| || !s.circuits[c].readerOpen then s
      else
        WithCircuit(s, c, s.circuits[c].(readerOpen := false))
          .(uplink := if sentinel then s.uplink + [Cell(s.circuits[c].id, None)] else s.uplink)
    case ServerRoute(refused, gone) => RouteUp(s, refused, gone)
    case ServerStops => Stopped(s)
    case RelayHold(b) =>
      if b >= |s.bridges| || !s.bridges[b].holding || !s.bridges[b].writerOpen || s.bridges[b].up == []
         || HeldBytes(s.bridges[b].held) >= EPOCH_HOLD_MAX_BYTES then s
      else
        var x := s.bridges[b];
        WithBridge(s, b, x.(held := x.held + [x.up[0]], up := x.up[1..]))
    case RelayHoldEnds(b) =>
      if b >= |s.bridges| || !s.bridges[b].holding || s.bridges[b].attached || s.bridges[b].up != []
         || HeldBytes(s.bridges[b].held) >= EPOCH_HOLD_MAX_BYTES then s
      else
        var x := s.bridges[b];
        WithBridge(s, b, x.(holding := false, held := [], writerOpen := false, readerOpen := false))
          .(lossy := s.lossy + Owners(x.held))
    case GateOpens(b) =>
      if b >= |s.bridges| then s else WithBridge(s, b, s.bridges[b].(holding := false))
    case RelayForward(b) =>
      if b >= |s.bridges| || s.bridges[b].holding || !s.bridges[b].writerOpen then s
      else
        var x := s.bridges[b];
        if x.held != [] then WithBridge(s, b, x.(written := x.written + [x.held[0]], held := x.held[1..]))
        else if x.up != [] then WithBridge(s, b, x.(written := x.written + [x.up[0]], up := x.up[1..]))
        else s
    case RelayWriterStops(b) =>
      if b >= |s.bridges| || s.bridges[b].holding || !s.bridges[b].writerOpen then s
      else
        var x := s.bridges[b];
        WithBridge(s, b, x.(writerOpen := false, held := [], up := [])).(lossy := s.lossy + Owners(x.held + x.up))
    case BridgeReply(b, data) =>
      if b >= |s.bridges| || s.bridges[b].holding || !s.bridges[b].readerOpen || !CellSized(data) then s
      else
        var x := s.bridges[b];
        WithBridge(s, b, x.(replies := x.replies + [data]))
          .(downlink := s.downlink + [Cell(x.id, Some(Item(b, |x.replies|, data)))])
    case BridgeReaderStops(b, sentinel) =>
      if b >= |s.bridges| || s.bridges[b].holding || !s.bridges[b].readerOpen then s
      else
        WithBridge(s, b, s.bridges[b].(readerOpen := false))
          .(downlink := if sentinel then s.downlink + [Cell(s.bridges[b].id, None)] else s.downlink)
    case ClientRoute => RouteDown(s)
    case CircuitDeliver(c) =>
      if c >= |s.circuits| || !s.circuits[c].writerOpen || s.circuits[c].down == [] then s
      else
        var x := s.circuits[c];
        WithCircuit(s, c, x.(delivered := x.delivered + [x.down[0]], down := x.down[1..]))
    case CircuitWriterStops(c) =>
      if c >= |s.circuits| || !s.circuits[c].writerOpen then s
      else
        var x := s.circuits[c];
        WithCircuit(s, c, x.(writerOpen := false, down := [])).(lossyDown := s.lossyDown + Owners(x.down))
  }

  function Run(steps: seq<Step>): State {
    if steps == [] then START else Next(Run(steps[..|steps| - 1]), steps[|steps| - 1])
  }

  /** The state that `steps` lead to from `s`. */
  function RunFrom(s: State, steps: seq<Step>): State
    decreases |steps|
  {
    if steps == [] then s else RunFrom(Next(s, steps[0]), steps[1..])
  }

  lemma RunFromCons(s: State, step: Step, rest: seq<Step>)
    ensures RunFrom(s, [step] + rest) == RunFrom(Next(s, step), rest)
  {
    assert ([step] + rest)[1..] == rest;
  }

  lemma {:induction false} RunFromAppend(s: State, a: seq<Step>, b: seq<Step>)
    ensures RunFrom(s, a + b) == RunFrom(RunFrom(s, a), b)
    decreases |a|
  {
    if a == [] {
      assert a + b == b;
    } else {
      assert (a + b)[0] == a[0] && (a + b)[1..] == a[1..] + b;
      RunFromAppend(Next(s, a[0]), a[1..], b);
    }
  }

  lemma {:induction false} RunGoesOn(steps: seq<Step>, future: seq<Step>)
    ensures Run(steps + future) == RunFrom(Run(steps), future)
    decreases |future|
  {
    if future == [] {
      assert steps + future == steps;
    } else {
      var first := steps + [future[0]];
      assert first[..|steps|] == steps;
      assert steps + future == first + future[1..];
      RunGoesOn(first, future[1..]);
    }
  }

  // --- Order -----------------------------------------------------------------------

  /** The data items among cells, in order. */
  function Items(cells: seq<Cell>): seq<Item> {
    if cells == [] then []
    else (if cells[0].item.Some? then [cells[0].item.value] else []) + Items(cells[1..])
  }

  lemma {:induction false} ItemsSnoc(cells: seq<Cell>, x: Cell)
    ensures Items(cells + [x]) == Items(cells) + (if x.item.Some? then [x.item.value] else [])
  {
    var all := cells + [x];
    if cells == [] {
      assert all[1..] == [];
    } else {
      var head := if cells[0].item.Some? then [cells[0].item.value] else [];
      var tail := if x.item.Some? then [x.item.value] else [];
      ItemsSnoc(cells[1..], x);
      assert all[0] == cells[0] && all[1..] == cells[1..] + [x];
      assert Items(all) == head + (Items(cells[1..]) + tail) == (head + Items(cells[1..])) + tail;
    }
  }

  lemma {:induction false} ItemsMember(cells: seq<Cell>, it: Item)
    ensures it in Items(cells) <==> exists i :: 0 <= i < |cells| && cells[i].item == Some(it)
  {
    if cells != [] {
      ItemsMember(cells[1..], it);
      if it in Items(cells[1..]) {
        var i :| 0 <= i < |cells[1..]| && cells[1..][i].item == Some(it);
        assert cells[i + 1].item == Some(it);
      }
      if i :| 0 <= i < |cells| && cells[i].item == Some(it) {
        if i > 0 {
          assert cells[1..][i - 1].item == Some(it);
        }
      }
    }
  }

  /** Items of one origin appear in the order they were sent, none twice. */
  predicate Ordered(items: seq<Item>) {
    forall i, j :: 0 <= i < j < |items| && items[i].origin == items[j].origin ==> items[i].n < items[j].n
  }

  lemma OrderedDrop(a: seq<Item>, x: seq<Item>, b: seq<Item>)
    requires Ordered(a + x + b)
    ensures Ordered(a + b)
  {
    var all, r := a + x + b, a + b;
    forall i, j | 0 <= i < j < |r| && r[i].origin == r[j].origin
      ensures r[i].n < r[j].n
    {
      var i', j' := if i < |a| then i else i + |x|, if j < |a| then j else j + |x|;
      assert all[i'] == r[i] && all[j'] == r[j];
    }
  }

  lemma OrderedSnoc(a: seq<Item>, x: Item)
    requires Ordered(a) && forall y :: y in a && y.origin == x.origin ==> y.n < x.n
    ensures Ordered(a + [x])
  {
  }

  /** The last id before the counter wraps. */
  const MAX_ID: nat := 65535

  /** So far the counter has not wrapped: no more circuits have been opened than there are ids. */
  predicate Unwrapped(steps: seq<Step>) { |Run(steps).circuits| <= MAX_ID }

  // --- Invariants over every interleaving --------------------------------------------

  /** `it` is a cell that circuit `it.origin` really sent. */
  predicate SentBy(s: State, it: Item) {
    it.origin < |s.circuits| && it.n < |s.circuits[it.origin].sent| && s.circuits[it.origin].sent[it.n] == it.data
  }

  /** `it` is a reply that bridge connection `it.origin` really gave. */
  predicate RepliedBy(s: State, it: Item) {
    it.origin < |s.bridges| && it.n < |s.bridges[it.origin].replies| && s.bridges[it.origin].replies[it.n] == it.data
  }

  /** The uplink items of a relay, oldest first: written to the bridge, held back, still in the channel. */
  function UpRoute(x: Bridge): seq<Item> { x.written + x.held + x.up }

  /** The downlink items of a circuit, oldest first. */
  function DownRoute(x: Circuit): seq<Item> { x.delivered + x.down }

  /** Every uplink item of relay `b` was sent by the one circuit that has its stream id, in order; what it has
      written is a prefix of what its channel took, and while its writer lives nothing is missing. */
  ghost predicate BridgeOk(s: State, b: nat)
    requires b < |s.bridges|
  {
    var x := s.bridges[b];
    && (forall it :: it in UpRoute(x) ==> SentBy(s, it) && it.origin + 1 == x.id)
    && Ordered(UpRoute(x) + Items(s.uplink))
    && (x.writerOpen ==> x.accepted == UpRoute(x))
    && x.written <= x.accepted
  }

  /** Every downlink item of circuit `c` came from a bridge connection opened for its stream id, in order. */
  ghost predicate CircuitOk(s: State, c: nat)
    requires c < |s.circuits|
  {
    var x := s.circuits[c];
    && x.id == c + 1
    && (forall it :: it in DownRoute(x) ==> RepliedBy(s, it) && s.bridges[it.origin].id == x.id)
    && Ordered(DownRoute(x) + Items(s.downlink))
  }

  ghost predicate WiresOk(s: State) {
    && (forall i :: 0 <= i < |s.uplink| && s.uplink[i].item.Some? ==>
          SentBy(s, s.uplink[i].item.value) && s.uplink[i].item.value.origin + 1 == s.uplink[i].id)
    && (forall i :: 0 <= i < |s.downlink| && s.downlink[i].item.Some? ==>
          RepliedBy(s, s.downlink[i].item.value) && s.bridges[s.downlink[i].item.value.origin].id == s.downlink[i].id)
    && Ordered(Items(s.uplink)) && Ordered(Items(s.downlink))
  }

  ghost predicate MapsOk(s: State) {
    && |s.circuits| <= MAX_ID && s.nextId == (if |s.circuits| == MAX_ID then 0 else |s.circuits| + 1)
    && (forall id :: id in s.clientMap ==> id == s.clientMap[id] + 1 && s.clientMap[id] < |s.circuits|)
    && (forall id :: id in s.serverMap ==> s.serverMap[id] < |s.bridges| && s.bridges[s.serverMap[id]].id == id)
    && |s.serverMap| <= MAX_STREAMS_PER_WIRE
  }

  ghost predicate Inv(s: State) {
    && MapsOk(s) && WiresOk(s)
    && (forall c :: 0 <= c < |s.circuits| ==> CircuitOk(s, c))
    && (forall b :: 0 <= b < |s.bridges| ==> BridgeOk(s, b))
  }
}
