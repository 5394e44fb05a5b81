/** What a cell's loss is, upstream: the circuits charged are exactly those one of whose cells is nowhere any more. */
module MuxLosses {
  import opened Base
  import opened Cells
  import opened MuxRouting
  import opened MuxIsolation
  import opened MuxExactness

  predicate OnUplink(s: State, it: Item) {
    exists p :: 0 <= p < |s.uplink| && s.uplink[p].item == Some(it)
  }

  /** Some relay has written it, holds it, or has it queued. */
  predicate WithRelay(s: State, it: Item) {
    exists b :: 0 <= b < |s.bridges| && it in UpRoute(s.bridges[b])
  }

  predicate Somewhere(s: State, it: Item) { OnUplink(s, it) || WithRelay(s, it) }

  /** A cell that circuit `c` sent is neither on the wire nor with any relay. */
  ghost predicate Lost(s: State, c: nat) {
    c < |s.circuits| && exists n: nat :: n < |s.circuits[c].sent| && !Somewhere(s, Item(c, n, s.circuits[c].sent[n]))
  }

  // --- What a step does to the places --------------------------------------------------

  predicate Head(s: State, it: Item) { s.uplink != [] && s.uplink[0].item == Some(it) }

  /** Relay `k` may have taken the head of the uplink; apart from that no relay has anything it did not have. */
  ghost predicate RoutesFrom(s: State, t: State, k: nat) {
    forall b, it :: 0 <= b < |t.bridges| && it in UpRoute(t.bridges[b]) ==>
      (b < |s.bridges| && it in UpRoute(s.bridges[b])) || (b == k && Head(s, it))
  }

  ghost predicate RoutesShrink(s: State, t: State) {
    forall b, it :: 0 <= b < |t.bridges| && it in UpRoute(t.bridges[b]) ==>
      b < |s.bridges| && it in UpRoute(s.bridges[b])
  }

  /** Nothing is on the uplink that was not, except `sent`. */
  ghost predicate UplinkFrom(s: State, t: State, sent: Option<Item>) {
    forall p :: 0 <= p < |t.uplink| && t.uplink[p].item.Some? ==>
      OnUplink(s, t.uplink[p].item.value) || t.uplink[p].item == sent
  }

  /** No two relays have the same cell. */
  ghost predicate Disjoint(s: State) {
    forall b, d, it :: 0 <= b < |s.bridges| && 0 <= d < |s.bridges| && b != d && it in UpRoute(s.bridges[b]) ==>
      it !in UpRoute(s.bridges[d])
  }

  lemma OrderedApart(a: seq<Item>, b: seq<Item>, it: Item)
    requires Ordered(a + b) && it in b
    ensures it !in a
  {
    var j :| 0 <= j < |b| && b[j] == it;
    assert (a + b)[|a| + j] == it;
    forall i | 0 <= i < |a|
      ensures a[i] != it
    {
      assert (a + b)[i] == a[i];
    }
  }

  /** The head of the uplink is with no relay, and not on the wire a second time. */
  lemma HeadIsFresh(s: State, it: Item)
    requires Inv(s) && Head(s, it)
    ensures !WithRelay(s, it)
    ensures it !in Items(s.uplink[1..])
  {
    var rest := Items(s.uplink[1..]);
    assert Items(s.uplink) == [it] + rest;
    if it in rest {
      OrderedApart([it], rest, it);
    }
    forall b | 0 <= b < |s.bridges|
      ensures it !in UpRoute(s.bridges[b])
    {
      assert BridgeOk(s, b);
      OrderedApart(UpRoute(s.bridges[b]), Items(s.uplink), it);
    }
  }

  lemma PairDisjoint(s: State, t: State, k: nat, b: nat, d: nat, it: Item)
    requires Disjoint(s) && RoutesFrom(s, t, k) && (Head(s, it) ==> !WithRelay(s, it))
    requires b < |t.bridges| && d < |t.bridges| && b != d && it in UpRoute(t.bridges[b])
    ensures it !in UpRoute(t.bridges[d])
  {
  }

  lemma DisjointKept(s: State, t: State, k: nat)
    requires Inv(s) && Disjoint(s) && RoutesFrom(s, t, k)
    ensures Disjoint(t)
  {
    forall b: nat, d: nat, it | b < |t.bridges| && d < |t.bridges| && b != d && it in UpRoute(t.bridges[b])
      ensures it !in UpRoute(t.bridges[d])
    {
      if Head(s, it) {
        HeadIsFresh(s, it);
      }
      PairDisjoint(s, t, k, b, d, it);
    }
  }

  ghost predicate IsNew(s: State, sent: Option<Item>) {
    sent.Some? ==> sent.value.origin < |s.circuits| && sent.value.n == |s.circuits[sent.value.origin].sent|
  }

  /** What is lost stays lost. */
  lemma LostKept(s: State, t: State, k: nat, sent: Option<Item>, c: nat)
    requires Grows(s, t) && RoutesFrom(s, t, k) && UplinkFrom(s, t, sent) && IsNew(s, sent)
    requires Lost(s, c)
    ensures Lost(t, c)
  {
    var n: nat :| n < |s.circuits[c].sent| && !Somewhere(s, Item(c, n, s.circuits[c].sent[n]));
    var it := Item(c, n, s.circuits[c].sent[n]);
    assert it == Item(c, n, t.circuits[c].sent[n]);
    StillNowhere(s, t, k, sent, it);
  }

  lemma StillNowhere(s: State, t: State, k: nat, sent: Option<Item>, it: Item)
    requires RoutesFrom(s, t, k) && UplinkFrom(s, t, sent) && sent != Some(it) && !Somewhere(s, it)
    ensures !Somewhere(t, it)
  {
    forall p | 0 <= p < |t.uplink|
      ensures t.uplink[p].item != Some(it)
    {
      assert t.uplink[p].item.Some? ==> OnUplink(s, t.uplink[p].item.value) || t.uplink[p].item == sent;
    }
    assert Head(s, it) ==> OnUplink(s, it);
  }

  // --- The places after each step ---------------------------------------------------

  lemma UplinkShrinks(s: State, t: State)
    requires Shrunk(s.uplink, t.uplink)
    ensures UplinkFrom(s, t, None)
  {
    forall p | 0 <= p < |t.uplink| && t.uplink[p].item.Some?
      ensures OnUplink(s, t.uplink[p].item.value)
    {
      var q :| 0 <= q < |s.uplink| && s.uplink[q] == t.uplink[p];
    }
  }

  /** A change inside one relay that brings it nothing new. */
  lemma InOneRelay(s: State, t: State, b: nat)
    requires b < |s.bridges| == |t.bridges|
    requires forall d :: 0 <= d < |s.bridges| && d != b ==> t.bridges[d] == s.bridges[d]
    requires forall it :: it in UpRoute(t.bridges[b]) ==> it in UpRoute(s.bridges[b])
    ensures RoutesShrink(s, t)
  {
  }

  lemma DetachedRoutes(s: State, id: U16)
    ensures
      var u := Detached(s, id);
      RoutesShrink(s, u) && u.uplink == s.uplink && u.lossy == s.lossy && Grows(s, u)
  {
  }

  lemma OpenedRoutes(s: State, id: U16, c: nat, gone: bool)
    ensures
      var u := Opened(s, id, c, gone);
      RoutesShrink(s, u) && u.uplink == s.uplink && u.lossy == s.lossy
  {
    assert UpRoute(Opened(s, id, c, gone).bridges[|s.bridges|]) == [];
  }

  /** Handing a cell over gives it to relay `b`, or loses it and gives nothing to anyone. */
  ghost predicate Handed(s: State, t: State, b: nat, it: Item) {
    && t.uplink == s.uplink && t.lossy <= s.lossy + {it.origin}
    && (RoutesShrink(s, t) || (t.lossy == s.lossy && b < |s.bridges| == |t.bridges|
          && UpRoute(t.bridges[b]) == UpRoute(s.bridges[b]) + [it]
          && forall d :: 0 <= d < |s.bridges| && d != b ==> t.bridges[d] == s.bridges[d]))
  }

  lemma ToBridgeRoutes(s: State, id: U16, b: nat, it: Item)
    ensures Handed(s, ToBridge(s, id, b, it), b, it)
  {
    var t := ToBridge(s, id, b, it);
    if b >= |s.bridges| || !s.bridges[b].writerOpen {
      DetachedRoutes(s, id);
    } else if |s.bridges[b].up| < STREAM_CHANNEL_CAP {
      assert UpRoute(t.bridges[b]) == UpRoute(s.bridges[b]) + [it];
    }
  }

  /** The relay that may take the head. */
  function Taker(s: State): nat {
    if s.uplink != [] && s.uplink[0].id in s.serverMap then s.serverMap[s.uplink[0].id] else |s.bridges|
  }

  /** A routing step gives the head to its relay, or charges its circuit and gives nothing to anyone. */
  ghost predicate Routed(s: State, t: State, it: Item) {
    && s.uplink != [] && t.uplink == s.uplink[1..]
    && (RoutesShrink(s, t) || (t.lossy == s.lossy && RoutesFrom(s, t, Taker(s))))
    && t.lossy <= s.lossy + {it.origin}
  }

  lemma HandedIsRouted(s: State, u: State, t: State, b: nat, it: Item)
    requires Head(s, it) && b == Taker(s) && u.uplink == s.uplink[1..] && u.lossy == s.lossy
    requires RoutesShrink(s, u) && Handed(u, t, b, it)
    ensures Routed(s, t, it)
  {
  }

  lemma KnownRoutes(s: State, id: U16, it: Item)
    requires s.uplink != [] && s.uplink[0] == Cell(id, Some(it)) && id in s.serverMap
    ensures Routed(s, ToBridge(s.(uplink := s.uplink[1..]), id, s.serverMap[id], it), it)
  {
    var u, b := s.(uplink := s.uplink[1..]), s.serverMap[id];
    ToBridgeRoutes(u, id, b, it);
    HandedIsRouted(s, u, ToBridge(u, id, b, it), b, it);
  }

  lemma RefusedRoutes(s: State, id: U16, it: Item, refused: bool, gone: bool)
    requires s.uplink != [] && s.uplink[0] == Cell(id, Some(it))
    requires |s.serverMap| >= MAX_STREAMS_PER_WIRE || refused
    ensures Routed(s, NewBridge(s.(uplink := s.uplink[1..]), id, it, refused, gone), it)
  {
  }

  lemma NewRoutes(s: State, id: U16, it: Item, gone: bool)
    requires s.uplink != [] && s.uplink[0] == Cell(id, Some(it)) && id !in s.serverMap
    ensures Routed(s, ToBridge(Opened(s.(uplink := s.uplink[1..]), id, it.origin, gone), id, |s.bridges|, it), it)
  {
    var t0 := s.(uplink := s.uplink[1..]);
    var u := Opened(t0, id, it.origin, gone);
    OpenedRoutes(t0, id, it.origin, gone);
    ToBridgeRoutes(u, id, |s.bridges|, it);
    HandedIsRouted(s, u, ToBridge(u, id, |s.bridges|, it), |s.bridges|, it);
  }

  lemma RefusedOrNew(s: State, id: U16, it: Item, refused: bool, gone: bool)
    requires s.uplink != [] && s.uplink[0] == Cell(id, Some(it)) && id !in s.serverMap
    ensures Routed(s, NewBridge(s.(uplink := s.uplink[1..]), id, it, refused, gone), it)
  {
    if |s.serverMap| >= MAX_STREAMS_PER_WIRE || refused {
      RefusedRoutes(s, id, it, refused, gone);
    } else {
      NewRoutes(s, id, it, gone);
    }
  }

  lemma ServerRouteRoutes(s: State, refused: bool, gone: bool, it: Item)
    requires s.serverAlive && Head(s, it)
    ensures Routed(s, RouteUp(s, refused, gone), it)
  {
    if s.uplink[0].id in s.serverMap {
      KnownRoutes(s, s.uplink[0].id, it);
    } else {
      RefusedOrNew(s, s.uplink[0].id, it, refused, gone);
    }
  }

  /** A relay drops what waits behind what it has written. */
  ghost predicate Cut(s: State, t: State, b: nat) {
    && b < |s.bridges| == |t.bridges| && t.uplink == s.uplink
    && (forall d :: 0 <= d < |s.bridges| && d != b ==> t.bridges[d] == s.bridges[d])
    && UpRoute(t.bridges[b]) == s.bridges[b].written && Grows(s, t)
    && t.lossy == s.lossy + Owners(s.bridges[b].held + s.bridges[b].up)
  }

  lemma HoldEndsCuts(s: State, b: nat)
    requires Next(s, RelayHoldEnds(b)) != s
    ensures Cut(s, Next(s, RelayHoldEnds(b)), b)
  {
    assert s.bridges[b].held + s.bridges[b].up == s.bridges[b].held;
  }

  lemma WriterStopsCuts(s: State, b: nat)
    requires Next(s, RelayWriterStops(b)) != s
    ensures Cut(s, Next(s, RelayWriterStops(b)), b)
  {
  }

  /** The relay's own steps bring nothing to anyone. */
  ghost predicate Quiet(s: State, t: State) {
    RoutesShrink(s, t) && t.uplink == s.uplink && t.lossy == s.lossy && Grows(s, t)
  }

  lemma HoldMoves(s: State, b: nat)
    ensures Quiet(s, Next(s, RelayHold(b)))
  {
    var t := Next(s, RelayHold(b));
    if t != s {
      InOneRelay(s, t, b);
    }
  }

  lemma ForwardMoves(s: State, b: nat)
    ensures Quiet(s, Next(s, RelayForward(b)))
  {
    var t := Next(s, RelayForward(b));
    if t != s {
      var x := s.bridges[b];
      if x.held != [] {
        HeadMoves(x.written, x.held, x.up);
      } else {
        HeadMoves(x.written, x.up, []);
      }
      assert UpRoute(t.bridges[b]) == UpRoute(x);
      InOneRelay(s, t, b);
    }
  }

  lemma GateMoves(s: State, b: nat)
    ensures Quiet(s, Next(s, GateOpens(b)))
  {
    var t := Next(s, GateOpens(b));
    if t != s {
      InOneRelay(s, t, b);
    }
  }

  lemma ReplyMoves(s: State, step: Step)
    requires step.BridgeReply? || step.BridgeReaderStops?
    ensures Quiet(s, Next(s, step))
  {
    var t := Next(s, step);
    if t != s {
      InOneRelay(s, t, step.b);
    }
  }

  /** A step of the circuits: no relay is concerned. */
  ghost predicate AtCircuits(s: State, t: State) {
    && t.bridges == s.bridges && t.lossy == s.lossy && Shrunk(s.uplink, t.uplink)
    && |s.circuits| <= |t.circuits|
    && forall c :: 0 <= c < |s.circuits| ==> t.circuits[c].id == s.circuits[c].id && t.circuits[c].sent == s.circuits[c].sent
  }

  lemma CloseIsAtCircuits(s: State, c: nat, sentinel: bool)
    ensures AtCircuits(s, Next(s, CircuitClose(c, sentinel)))
  {
  }

  lemma WriterIsAtCircuits(s: State, c: nat)
    ensures AtCircuits(s, Next(s, CircuitDeliver(c))) && AtCircuits(s, Next(s, CircuitWriterStops(c)))
  {
  }

  lemma OpenIsAtCircuits(s: State)
    ensures AtCircuits(s, Next(s, OpenCircuit))
  {
  }

  lemma ClientRouteIsAtCircuits(s: State)
    ensures AtCircuits(s, RouteDown(s))
  {
  }

  // --- Every reachable state ------------------------------------------------------------

  /** Every circuit charged has really lost a cell. */
  ghost predicate ChargesAreLosses(s: State) {
    Disjoint(s) && forall c :: c in s.lossy ==> Lost(s, c)
  }

  /** A step that charges nobody. */
  lemma NoCharge(s: State, t: State, k: nat, sent: Option<Item>)
    requires Inv(s) && ChargesAreLosses(s) && Grows(s, t) && t.lossy == s.lossy
    requires RoutesFrom(s, t, k) && UplinkFrom(s, t, sent) && IsNew(s, sent)
    ensures ChargesAreLosses(t)
  {
    DisjointKept(s, t, k);
    forall c | c in t.lossy
      ensures Lost(t, c)
    {
      LostKept(s, t, k, sent, c);
    }
  }

  lemma GoneIsLost(t: State, it: Item)
    requires it.origin < |t.circuits| && SentBy(t, it) && !Somewhere(t, it)
    ensures Lost(t, it.origin)
  {
    assert it == Item(it.origin, it.n, t.circuits[it.origin].sent[it.n]);
  }

  /** The head of the uplink was given to nobody: its circuit has lost it. */
  lemma DroppedHead(s: State, t: State, it: Item)
    requires Inv(s) && ChargesAreLosses(s) && Grows(s, t) && Head(s, it) && t.uplink == s.uplink[1..]
    requires RoutesShrink(s, t) && t.lossy <= s.lossy + {it.origin}
    ensures ChargesAreLosses(t)
  {
    UplinkShrinks(s, t);
    DisjointKept(s, t, 0);
    HeadIsFresh(s, it);
    assert s.uplink[0].item.Some?;
    if OnUplink(t, it) {
      ItemsMember(t.uplink, it);
    }
    assert !Somewhere(t, it);
    GoneIsLost(t, it);
    forall c | c in t.lossy && c != it.origin
      ensures Lost(t, c)
    {
      LostKept(s, t, 0, None, c);
    }
  }

  /** What waits behind what is written is neither written nor on the wire. */
  lemma WaitingApart(s: State, b: nat, it: Item)
    requires b < |s.bridges| && BridgeOk(s, b) && it in s.bridges[b].held + s.bridges[b].up
    ensures it in UpRoute(s.bridges[b]) && it !in s.bridges[b].written && it !in Items(s.uplink)
  {
    var x := s.bridges[b];
    var waiting := x.held + x.up;
    assert UpRoute(x) == x.written + waiting;
    assert UpRoute(x) + Items(s.uplink) == x.written + (waiting + Items(s.uplink));
    OrderedApart(x.written, waiting + Items(s.uplink), it);
    if it in Items(s.uplink) {
      OrderedApart(UpRoute(x), Items(s.uplink), it);
    }
  }

  /** A cell waiting behind what is written is nowhere once the relay has been cut. */
  lemma CutCellIsGone(s: State, t: State, b: nat, it: Item)
    requires Inv(s) && Disjoint(s) && Cut(s, t, b) && it in s.bridges[b].held + s.bridges[b].up
    ensures !Somewhere(t, it)
  {
    WaitingApart(s, b, it);
    ItemsMember(s.uplink, it);
  }

  lemma CutCharges(s: State, t: State, b: nat)
    requires Inv(s) && ChargesAreLosses(s) && Cut(s, t, b)
    ensures ChargesAreLosses(t)
  {
    var x := s.bridges[b];
    assert BridgeOk(s, b) && UpRoute(x) == x.written + (x.held + x.up);
    InOneRelay(s, t, b);
    DisjointKept(s, t, 0);
    UplinkShrinks(s, t);
    forall c | c in t.lossy
      ensures Lost(t, c)
    {
      if c in s.lossy {
        LostKept(s, t, 0, None, c);
      } else {
        var it :| it in x.held + x.up && it.origin == c;
        assert it in UpRoute(x);
        CutCellIsGone(s, t, b, it);
        GoneIsLost(t, it);
      }
    }
  }

  lemma RoutedCharges(s: State, t: State, it: Item)
    requires Inv(s) && ChargesAreLosses(s) && Grows(s, t) && Head(s, it) && Routed(s, t, it)
    ensures ChargesAreLosses(t)
  {
    if RoutesShrink(s, t) {
      DroppedHead(s, t, it);
    } else {
      UplinkShrinks(s, t);
      NoCharge(s, t, Taker(s), None);
    }
  }

  lemma SentinelCharges(s: State, t: State)
    requires Inv(s) && ChargesAreLosses(s) && s.uplink != [] && t.uplink == s.uplink[1..]
    requires RoutesShrink(s, t) && t.lossy == s.lossy && Grows(s, t)
    ensures ChargesAreLosses(t)
  {
    UplinkShrinks(s, t);
    NoCharge(s, t, 0, None);
  }

  lemma ServerRouteCharges(s: State, refused: bool, gone: bool)
    requires Inv(s) && ChargesAreLosses(s)
    ensures ChargesAreLosses(RouteUp(s, refused, gone))
  {
    var t := RouteUp(s, refused, gone);
    if s.uplink != [] && s.serverAlive {
      match s.uplink[0].item
      case None =>
        DetachedRoutes(s.(uplink := s.uplink[1..]), s.uplink[0].id);
        SentinelCharges(s, t);
      case Some(it) =>
        DataRouteGrows(s, s.(uplink := s.uplink[1..]), s.uplink[0].id, it, refused, gone);
        ServerRouteRoutes(s, refused, gone, it);
        RoutedCharges(s, t, it);
    }
  }

  lemma ToBridgeGrows(s: State, u: State, id: U16, b: nat, it: Item)
    requires Grows(s, u)
    ensures Grows(s, ToBridge(u, id, b, it))
  {
  }

  lemma NewBridgeGrows(s: State, u: State, id: U16, it: Item, refused: bool, gone: bool)
    requires u.circuits == s.circuits && u.bridges == s.bridges
    ensures Grows(s, NewBridge(u, id, it, refused, gone))
  {
    if |u.serverMap| < MAX_STREAMS_PER_WIRE && !refused {
      assert Grows(s, Opened(u, id, it.origin, gone));
      ToBridgeGrows(s, Opened(u, id, it.origin, gone), id, |u.bridges|, it);
    }
  }

  lemma DataRouteGrows(s: State, u: State, id: U16, it: Item, refused: bool, gone: bool)
    requires u.circuits == s.circuits && u.bridges == s.bridges
    ensures Grows(s, if id in u.serverMap then ToBridge(u, id, u.serverMap[id], it) else NewBridge(u, id, it, refused, gone))
  {
    if id in u.serverMap {
      ToBridgeGrows(s, u, id, u.serverMap[id], it);
    } else {
      NewBridgeGrows(s, u, id, it, refused, gone);
    }
  }

  lemma SendCharges(s: State, c: nat, data: seq<Byte>)
    requires Inv(s) && ChargesAreLosses(s)
    ensures ChargesAreLosses(Next(s, CircuitSend(c, data)))
  {
    var t := Next(s, CircuitSend(c, data));
    if t != s {
      var it := Item(c, |s.circuits[c].sent|, data);
      forall p | 0 <= p < |t.uplink| && t.uplink[p].item.Some?
        ensures OnUplink(s, t.uplink[p].item.value) || t.uplink[p].item == Some(it)
      {
        assert p < |s.uplink| ==> t.uplink[p] == s.uplink[p];
      }
      NoCharge(s, t, 0, Some(it));
    }
  }

  lemma StoppedMoves(s: State)
    ensures Quiet(s, Stopped(s))
  {
    assert forall b :: 0 <= b < |s.bridges| ==> UpRoute(Stopped(s).bridges[b]) == UpRoute(s.bridges[b]);
  }

  lemma HoldEndsCharges(s: State, b: nat)
    requires Inv(s) && ChargesAreLosses(s)
    ensures ChargesAreLosses(Next(s, RelayHoldEnds(b)))
  {
    if Next(s, RelayHoldEnds(b)) != s {
      HoldEndsCuts(s, b);
      CutCharges(s, Next(s, RelayHoldEnds(b)), b);
    }
  }

  lemma WriterStopsCharges(s: State, b: nat)
    requires Inv(s) && ChargesAreLosses(s)
    ensures ChargesAreLosses(Next(s, RelayWriterStops(b)))
  {
    if Next(s, RelayWriterStops(b)) != s {
      WriterStopsCuts(s, b);
      CutCharges(s, Next(s, RelayWriterStops(b)), b);
    }
  }

  lemma QuietCharges(s: State, t: State)
    requires Inv(s) && ChargesAreLosses(s) && Quiet(s, t)
    ensures ChargesAreLosses(t)
  {
    UplinkShrinks(s, t);
    NoCharge(s, t, 0, None);
  }

  lemma RelayStepCharges(s: State, step: Step)
    requires Inv(s) && ChargesAreLosses(s)
    requires step.RelayHold? || step.RelayForward? || step.GateOpens? || step.BridgeReply? || step.BridgeReaderStops?
    ensures ChargesAreLosses(Next(s, step))
  {
    match step
    case RelayHold(b) => HoldMoves(s, b);
    case RelayForward(b) => ForwardMoves(s, b);
    case GateOpens(b) => GateMoves(s, b);
    case _ => ReplyMoves(s, step);
    QuietCharges(s, Next(s, step));
  }

  lemma AtCircuitsCharges(s: State, t: State)
    requires Inv(s) && ChargesAreLosses(s) && AtCircuits(s, t)
    ensures ChargesAreLosses(t)
  {
    UplinkShrinks(s, t);
    NoCharge(s, t, 0, None);
  }

  lemma StepCharges(s: State, step: Step)
    requires Inv(s) && ChargesAreLosses(s)
    ensures ChargesAreLosses(Next(s, step))
  {
    match step
    case CircuitSend(c, data) => SendCharges(s, c, data);
    case ServerRoute(refused, gone) => ServerRouteCharges(s, refused, gone);
    case ServerStops =>
      StoppedMoves(s);
      QuietCharges(s, Stopped(s));
    case RelayHoldEnds(b) => HoldEndsCharges(s, b);
    case RelayWriterStops(b) => WriterStopsCharges(s, b);
    case ClientRoute =>
      ClientRouteIsAtCircuits(s);
      AtCircuitsCharges(s, RouteDown(s));
    case OpenCircuit =>
      OpenIsAtCircuits(s);
      AtCircuitsCharges(s, Next(s, step));
    case CircuitClose(c, sentinel) =>
      CloseIsAtCircuits(s, c, sentinel);
      AtCircuitsCharges(s, Next(s, step));
    case CircuitDeliver(c) =>
      WriterIsAtCircuits(s, c);
      AtCircuitsCharges(s, Next(s, step));
    case CircuitWriterStops(c) =>
      WriterIsAtCircuits(s, c);
      AtCircuitsCharges(s, Next(s, step));
    case _ => RelayStepCharges(s, step);
  }

  lemma {:induction false} RunCharges(steps: seq<Step>)
    requires Unwrapped(steps)
    ensures ChargesAreLosses(Run(steps))
  {
    if steps != [] {
      StillUnwrapped(steps);
      RunCharges(steps[..|steps| - 1]);
      RunKeeps(steps[..|steps| - 1]);
      StepCharges(Run(steps[..|steps| - 1]), steps[|steps| - 1]);
    }
  }

  lemma {:induction false} InflightIsOnWire(cells: seq<Cell>, c: nat, it: Item)
    requires it in Inflight(cells, c)
    ensures exists p :: 0 <= p < |cells| && cells[p].item == Some(it)
  {
    if cells[0].item != Some(it) {
      InflightIsOnWire(cells[1..], c, it);
      var p :| 0 <= p < |cells[1..]| && cells[1..][p].item == Some(it);
      assert cells[p + 1].item == Some(it);
    }
  }

  lemma PartOfAccount(s: State, c: nat, route: seq<Item>, n: nat)
    requires c < |s.circuits| && n < |s.circuits[c].sent|
    requires route + Inflight(s.uplink, c) == AllSent(s.circuits[c], c)
    requires route == [] || exists b :: 0 <= b < |s.bridges| && route == UpRoute(s.bridges[b])
    ensures Somewhere(s, Item(c, n, s.circuits[c].sent[n]))
  {
    var it := AllSent(s.circuits[c], c)[n];
    assert (route + Inflight(s.uplink, c))[n] == it;
    if n < |route| {
      assert it in route;
    } else {
      assert it in Inflight(s.uplink, c);
      InflightIsOnWire(s.uplink, c, it);
    }
  }

  lemma ExactIsComplete(s: State, c: nat)
    requires c < |s.circuits| && c !in s.lossy && Exact(s, c)
    ensures !Lost(s, c)
  {
    var x := s.circuits[c];
    var route := if x.bridge.Some? then UpRoute(s.bridges[x.bridge.value]) else [];
    assert route + Inflight(s.uplink, c) == AllSent(x, c);
    forall n: nat | n < |x.sent|
      ensures Somewhere(s, Item(c, n, x.sent[n]))
    {
      PartOfAccount(s, c, route, n);
    }
  }

  /** A circuit is charged exactly when a cell it sent is neither on the wire, nor queued, nor held, nor written, at
      any relay: under every interleaving nothing disappears uncharged, and nobody is charged for nothing. */
  lemma ChargedIffLost(steps: seq<Step>, c: nat)
    requires Unwrapped(steps)
    ensures c in Run(steps).lossy <==> Lost(Run(steps), c)
  {
    RunCharges(steps);
    RunExact(steps);
    if c < |Run(steps).circuits| && c !in Run(steps).lossy {
      assert Exact(Run(steps), c);
      ExactIsComplete(Run(steps), c);
    }
  }

  /** The routing step drops its head: the relay's channel is full, the relay is gone, or a cap turned the stream away. */
  predicate RoutingDrops(s: State, refused: bool, gone: bool, c: nat) {
    && s.serverAlive && s.uplink != [] && s.uplink[0].item.Some? && s.uplink[0].item.value.origin == c
    && (if s.uplink[0].id in s.serverMap && s.serverMap[s.uplink[0].id] < |s.bridges| then
          var x := s.bridges[s.serverMap[s.uplink[0].id]];
          !x.writerOpen || |x.up| >= STREAM_CHANNEL_CAP
        else |s.serverMap| >= MAX_STREAMS_PER_WIRE || refused || gone)
  }

  /** A stream of circuit `c` that was closed before its gate opened, with something held back. */
  predicate HoldDrops(s: State, b: nat, c: nat) {
    && b < |s.bridges|
    && var x := s.bridges[b];
       && x.id == c + 1 && x.holding && !x.attached && x.up == []
       && x.held != [] && HeldBytes(x.held) < EPOCH_HOLD_MAX_BYTES
  }

  /** A relay of circuit `c` that stops writing with something held back or queued. */
  predicate WriterDrops(s: State, b: nat, c: nat) {
    && b < |s.bridges|
    && var x := s.bridges[b];
       x.id == c + 1 && !x.holding && x.writerOpen && x.held + x.up != []
  }

  predicate Drops(s: State, step: Step, c: nat) {
    match step
    case ServerRoute(refused, gone) => RoutingDrops(s, refused, gone, c)
    case RelayHoldEnds(b) => HoldDrops(s, b, c)
    case RelayWriterStops(b) => WriterDrops(s, b, c)
    case _ => false
  }

  lemma RoutingCharges(s: State, refused: bool, gone: bool, c: nat)
    requires Inv(s) && c !in s.lossy
    ensures c in RouteUp(s, refused, gone).lossy <==> RoutingDrops(s, refused, gone, c)
  {
  }

  /** What waits at a relay belongs to the circuit of its id. */
  lemma WaitingOwner(s: State, b: nat, waiting: seq<Item>)
    requires Inv(s) && b < |s.bridges| && (waiting == s.bridges[b].held || waiting == s.bridges[b].held + s.bridges[b].up)
    ensures forall c :: c in Owners(waiting) <==> waiting != [] && c + 1 == s.bridges[b].id
  {
    assert BridgeOk(s, b);
    assert forall it :: it in waiting ==> it in UpRoute(s.bridges[b]);
    if waiting != [] {
      assert waiting[0] in waiting;
    }
  }

  lemma CutChargesOwner(s: State, step: Step, c: nat)
    requires Inv(s) && c !in s.lossy && (step.RelayHoldEnds? || step.RelayWriterStops?)
    ensures c in Next(s, step).lossy <==> Drops(s, step, c)
  {
    if step.b < |s.bridges| {
      WaitingOwner(s, step.b, s.bridges[step.b].held);
      WaitingOwner(s, step.b, s.bridges[step.b].held + s.bridges[step.b].up);
    }
  }

  lemma ChargedWhen(s: State, step: Step, c: nat)
    requires Inv(s) && c !in s.lossy
    ensures c in Next(s, step).lossy <==> Drops(s, step, c)
  {
    match step
    case ServerRoute(refused, gone) => RoutingCharges(s, refused, gone, c);
    case RelayHoldEnds(_) => CutChargesOwner(s, step, c);
    case RelayWriterStops(_) => CutChargesOwner(s, step, c);
    case ServerStops =>
    case RelayHold(_) => RelayChargesNobody(s, step);
    case RelayForward(_) => RelayChargesNobody(s, step);
    case GateOpens(_) => RelayChargesNobody(s, step);
    case BridgeReply(_, _) => RelayChargesNobody(s, step);
    case BridgeReaderStops(_, _) => RelayChargesNobody(s, step);
    case _ => CircuitChargesNobody(s, step);
  }

  lemma RelayChargesNobody(s: State, step: Step)
    requires step.RelayHold? || step.RelayForward? || step.GateOpens? || step.BridgeReply? || step.BridgeReaderStops?
    ensures Next(s, step).lossy == s.lossy
  {
  }

  lemma CircuitChargesNobody(s: State, step: Step)
    requires step.OpenCircuit? || step.CircuitSend? || step.CircuitClose? || step.ClientRoute? || step.CircuitDeliver?
          || step.CircuitWriterStops?
    ensures Next(s, step).lossy == s.lossy
  {
  }

  /** From a state in which nothing of circuit `c` is lost, a step loses one of its cells exactly when it is a routing
      step that drops it, a hold that ends with something held, or a writer that stops with something waiting. */
  lemma LosingSteps(steps: seq<Step>, step: Step, c: nat)
    requires Unwrapped(steps + [step]) && !Lost(Run(steps), c)
    ensures Lost(Next(Run(steps), step), c) <==> Drops(Run(steps), step, c)
  {
    var s := Run(steps);
    assert (steps + [step])[..|steps|] == steps;
    assert Run(steps + [step]) == Next(s, step);
    StillUnwrapped(steps + [step]);
    RunKeeps(steps);
    ChargedIffLost(steps, c);
    ChargedIffLost(steps + [step], c);
    ChargedWhen(s, step, c);
  }
}
