/** Isolation and order on a mux wire, under every interleaving of its tasks. */
module MuxIsolation {
  import opened Base
  import opened Cells
  import opened MuxStreams
  import opened MuxRouting

  // --- What an untouched part keeps -------------------------------------------------

  /** Histories only grow, and identities never change. */
  ghost predicate Grows(s: State, t: State) {
    && |s.circuits| <= |t.circuits| && |s.bridges| <= |t.bridges|
    && (forall c :: 0 <= c < |s.circuits| ==> s.circuits[c].id == t.circuits[c].id && s.circuits[c].sent <= t.circuits[c].sent)
    && (forall b :: 0 <= b < |s.bridges| ==> s.bridges[b].id == t.bridges[b].id && s.bridges[b].replies <= t.bridges[b].replies)
  }

  /** A relay none of whose own fields changed is still in order, whether the uplink lost its head or not. */
  lemma BridgeKept(s: State, t: State, b: nat)
    requires b < |s.bridges| && b < |t.bridges| && BridgeOk(s, b) && Grows(s, t)
    requires UpRoute(t.bridges[b]) == UpRoute(s.bridges[b]) && t.bridges[b].accepted == s.bridges[b].accepted
    requires t.bridges[b].written == s.bridges[b].written || t.bridges[b].written <= t.bridges[b].accepted
    requires t.bridges[b].writerOpen ==> s.bridges[b].writerOpen
    requires Shrunk(s.uplink, t.uplink)
    ensures BridgeOk(t, b)
  {
    ShrunkOrder(UpRoute(s.bridges[b]), s.uplink, t.uplink);
  }

  lemma CircuitKept(s: State, t: State, c: nat)
    requires c < |s.circuits| && c < |t.circuits| && CircuitOk(s, c) && Grows(s, t)
    requires DownRoute(t.circuits[c]) == DownRoute(s.circuits[c])
    requires Shrunk(s.downlink, t.downlink)
    ensures CircuitOk(t, c)
  {
    ShrunkOrder(DownRoute(s.circuits[c]), s.downlink, t.downlink);
  }

  /** The wire is as it was, or its head has been taken, or a close sentinel has been added. */
  ghost predicate Shrunk(old_: seq<Cell>, new_: seq<Cell>) {
    || new_ == old_
    || (old_ != [] && new_ == old_[1..])
    || (exists id :: new_ == old_ + [Cell(id, None)])
    || (exists id :: old_ != [] && new_ == old_[1..] + [Cell(id, None)])
  }

  lemma ShrunkOrder(a: seq<Item>, old_: seq<Cell>, new_: seq<Cell>)
    requires Ordered(a + Items(old_)) && Shrunk(old_, new_)
    ensures Ordered(a + Items(new_))
  {
    var rest := if old_ == [] then [] else old_[1..];
    if old_ != [] {
      var x := if old_[0].item.Some? then [old_[0].item.value] else [];
      assert a + Items(old_) == a + x + Items(rest);
      OrderedDrop(a, x, Items(rest));
    }
    if id :| new_ == old_ + [Cell(id, None)] {
      ItemsSnoc(old_, Cell(id, None));
      assert Items(new_) == Items(old_);
    } else if id :| old_ != [] && new_ == rest + [Cell(id, None)] {
      ItemsSnoc(rest, Cell(id, None));
      assert Items(new_) == Items(rest);
    }
  }

  lemma UplinkKept(s: State, t: State)
    requires WiresOk(s) && Grows(s, t) && Shrunk(s.uplink, t.uplink)
    ensures forall i :: 0 <= i < |t.uplink| && t.uplink[i].item.Some? ==>
      SentBy(t, t.uplink[i].item.value) && t.uplink[i].item.value.origin + 1 == t.uplink[i].id
  {
    forall i | 0 <= i < |t.uplink| && t.uplink[i].item.Some?
      ensures SentBy(t, t.uplink[i].item.value) && t.uplink[i].item.value.origin + 1 == t.uplink[i].id
    {
      var k :| 0 <= k < |s.uplink| && s.uplink[k] == t.uplink[i];
    }
  }

  lemma DownlinkKept(s: State, t: State)
    requires WiresOk(s) && Grows(s, t) && Shrunk(s.downlink, t.downlink)
    ensures forall i :: 0 <= i < |t.downlink| && t.downlink[i].item.Some? ==>
      RepliedBy(t, t.downlink[i].item.value) && t.bridges[t.downlink[i].item.value.origin].id == t.downlink[i].id
  {
    forall i | 0 <= i < |t.downlink| && t.downlink[i].item.Some?
      ensures RepliedBy(t, t.downlink[i].item.value) && t.bridges[t.downlink[i].item.value.origin].id == t.downlink[i].id
    {
      var k :| 0 <= k < |s.downlink| && s.downlink[k] == t.downlink[i];
    }
  }

  lemma WireOrderKept(old_: seq<Cell>, new_: seq<Cell>)
    requires Ordered(Items(old_)) && Shrunk(old_, new_)
    ensures Ordered(Items(new_))
  {
    assert [] + Items(old_) == Items(old_) && [] + Items(new_) == Items(new_);
    ShrunkOrder([], old_, new_);
  }

  lemma WiresKept(s: State, t: State)
    requires WiresOk(s) && Grows(s, t) && Shrunk(s.uplink, t.uplink) && Shrunk(s.downlink, t.downlink)
    ensures WiresOk(t)
  {
    UplinkKept(s, t);
    DownlinkKept(s, t);
    WireOrderKept(s.uplink, t.uplink);
    WireOrderKept(s.downlink, t.downlink);
  }

  /** Relay `b` differs in nothing its invariant speaks of, except that its writer may have stopped or
      moved on within what it was given. */
  ghost predicate BridgeSame(s: State, t: State, b: nat) {
    && b < |s.bridges| && b < |t.bridges|
    && UpRoute(t.bridges[b]) == UpRoute(s.bridges[b])
    && t.bridges[b].accepted == s.bridges[b].accepted
    && (t.bridges[b].written == s.bridges[b].written || t.bridges[b].written <= t.bridges[b].accepted)
    && (t.bridges[b].writerOpen ==> s.bridges[b].writerOpen)
  }

  ghost predicate CircuitSame(s: State, t: State, c: nat) {
    && c < |s.circuits| && c < |t.circuits|
    && DownRoute(t.circuits[c]) == DownRoute(s.circuits[c])
  }

  /** Nothing new is on the wires, histories only grew, and every part but circuit `c0` and relay `b0` kept what
      its invariant speaks of; those two are in order by themselves. */
  lemma Kept(s: State, t: State, c0: int, b0: int)
    requires Inv(s) && Grows(s, t) && MapsOk(t)
    requires Shrunk(s.uplink, t.uplink) && Shrunk(s.downlink, t.downlink)
    requires forall c :: 0 <= c < |t.circuits| && c != c0 ==> CircuitSame(s, t, c)
    requires forall b :: 0 <= b < |t.bridges| && b != b0 ==> BridgeSame(s, t, b)
    requires 0 <= c0 < |t.circuits| ==> CircuitOk(t, c0)
    requires 0 <= b0 < |t.bridges| ==> BridgeOk(t, b0)
    ensures Inv(t)
  {
    WiresKept(s, t);
    forall c: nat | c < |t.circuits|
      ensures CircuitOk(t, c)
    {
      if c != c0 {
        assert CircuitSame(s, t, c);
        CircuitKept(s, t, c);
      }
    }
    forall b: nat | b < |t.bridges|
      ensures BridgeOk(t, b)
    {
      if b != b0 {
        assert BridgeSame(s, t, b);
        BridgeKept(s, t, b);
      }
    }
  }

  /** A change inside relay `b` that moves its items along, or stops one of its halves. */
  lemma RelayMoved(s: State, b: nat, y: Bridge)
    requires Inv(s) && b < |s.bridges|
    requires
      var x := s.bridges[b];
      && y.id == x.id && y.replies == x.replies && y.accepted == x.accepted && UpRoute(y) == UpRoute(x)
      && (y.written == x.written || y.written <= y.accepted)
      && (y.writerOpen ==> x.writerOpen)
    ensures Inv(WithBridge(s, b, y))
  {
    var t := WithBridge(s, b, y);
    assert BridgeSame(s, t, b);
    Kept(s, t, -1, -1);
  }

  lemma CircuitMoved(s: State, c: nat, y: Circuit)
    requires Inv(s) && c < |s.circuits|
    requires y.id == s.circuits[c].id && y.sent == s.circuits[c].sent && DownRoute(y) == DownRoute(s.circuits[c])
    ensures Inv(WithCircuit(s, c, y))
  {
    var t := WithCircuit(s, c, y);
    assert CircuitSame(s, t, c);
    Kept(s, t, -1, -1);
  }

  /** Taking the head off a wire, adding a sentinel, or changing the maps disturbs no relay and no circuit. */
  lemma WiresMoved(s: State, t: State)
    requires Inv(s) && t.circuits == s.circuits && t.bridges == s.bridges && MapsOk(t)
    requires Shrunk(s.uplink, t.uplink) && Shrunk(s.downlink, t.downlink)
    ensures Inv(t)
  {
    Kept(s, t, -1, -1);
  }

  // --- The steps -----------------------------------------------------------------------

  /** Until the counter wraps the scan hands out its own value, which no circuit has had. */
  lemma OpensNext(s: State)
    requires MapsOk(s) && |s.circuits| < MAX_ID
    ensures Scan(s.nextId, s.clientMap.Keys, 0) == |s.circuits| + 1
  {
    FreshBeforeWrap(s.nextId, s.clientMap.Keys);
  }

  lemma OpenCircuitKeeps(s: State)
    requires Inv(s) && |Next(s, OpenCircuit).circuits| <= MAX_ID
    ensures Inv(Next(s, OpenCircuit))
  {
    var t := Next(s, OpenCircuit);
    if t != s {
      var c := |s.circuits|;
      OpensNext(s);
      assert DownRoute(t.circuits[c]) == [];
      assert [] + Items(s.downlink) == Items(s.downlink);
      assert CircuitOk(t, c);
      assert MapsOk(t);
      Kept(s, t, c, -1);
    }
  }

  /** An item at the end of the uplink comes after everything its circuit has sent before. */
  lemma SendOrder(s: State, a: seq<Item>, c: nat, it: Item)
    requires WiresOk(s) && c < |s.circuits| && it.origin == c && it.n == |s.circuits[c].sent|
    requires forall x :: x in a ==> SentBy(s, x)
    requires Ordered(a + Items(s.uplink))
    ensures Ordered(a + Items(s.uplink + [Cell(s.circuits[c].id, Some(it))]))
  {
    ItemsSnoc(s.uplink, Cell(s.circuits[c].id, Some(it)));
    var all := a + Items(s.uplink);
    forall y | y in all && y.origin == c
      ensures y.n < it.n
    {
      if y in Items(s.uplink) {
        ItemsMember(s.uplink, y);
        var i :| 0 <= i < |s.uplink| && s.uplink[i].item == Some(y);
        assert s.uplink[i].item.Some?;
      }
    }
    OrderedSnoc(all, it);
    assert all + [it] == a + (Items(s.uplink) + [it]);
  }

  lemma SentProvenance(s: State, t: State, c: nat, it: Item)
    requires WiresOk(s) && c < |s.circuits| && it.origin == c && s.circuits[c].id == c + 1 && Grows(s, t) && SentBy(t, it)
    requires t.uplink == s.uplink + [Cell(s.circuits[c].id, Some(it))]
    ensures forall i :: 0 <= i < |t.uplink| && t.uplink[i].item.Some? ==>
      SentBy(t, t.uplink[i].item.value) && t.uplink[i].item.value.origin + 1 == t.uplink[i].id
  {
    forall i | 0 <= i < |t.uplink| && t.uplink[i].item.Some?
      ensures SentBy(t, t.uplink[i].item.value) && t.uplink[i].item.value.origin + 1 == t.uplink[i].id
    {
      if i < |s.uplink| {
        assert t.uplink[i] == s.uplink[i];
      }
    }
  }

  lemma OrderAlone(s: seq<Cell>)
    ensures Ordered([] + Items(s)) <==> Ordered(Items(s))
  {
    assert [] + Items(s) == Items(s);
  }

  /** One cell more on the uplink: the wire is in order, and so is every relay with it. */
  lemma SentWires(s: State, t: State, c: nat, it: Item)
    requires WiresOk(s) && c < |s.circuits| && it.origin == c && it.n == |s.circuits[c].sent| && s.circuits[c].id == c + 1
    requires Grows(s, t) && SentBy(t, it) && t.downlink == s.downlink
    requires t.uplink == s.uplink + [Cell(s.circuits[c].id, Some(it))]
    ensures WiresOk(t)
  {
    SentProvenance(s, t, c, it);
    DownlinkKept(s, t);
    OrderAlone(s.uplink);
    SendOrder(s, [], c, it);
    OrderAlone(t.uplink);
  }

  lemma SentRelay(s: State, t: State, c: nat, it: Item, b: nat)
    requires WiresOk(s) && c < |s.circuits| && it.origin == c && it.n == |s.circuits[c].sent| && Grows(s, t)
    requires b < |s.bridges| && BridgeOk(s, b) && t.bridges == s.bridges
    requires t.uplink == s.uplink + [Cell(s.circuits[c].id, Some(it))]
    ensures BridgeOk(t, b)
  {
    SendOrder(s, UpRoute(s.bridges[b]), c, it);
  }

  lemma CircuitSendKeeps(s: State, c: nat, data: seq<Byte>)
    requires Inv(s)
    ensures Inv(Next(s, CircuitSend(c, data)))
  {
    var t := Next(s, CircuitSend(c, data));
    if t != s {
      var it := Item(c, |s.circuits[c].sent|, data);
      assert CircuitOk(s, c);
      assert SentBy(t, it) && Grows(s, t);
      SentWires(s, t, c, it);
      forall b: nat | b < |t.bridges|
        ensures BridgeOk(t, b)
      {
        SentRelay(s, t, c, it, b);
      }
      forall d: nat | d < |t.circuits|
        ensures CircuitOk(t, d)
      {
        CircuitKept(s, t, d);
      }
    }
  }

  lemma ReplyOrder(s: State, a: seq<Item>, b: nat, it: Item)
    requires WiresOk(s) && b < |s.bridges| && it.origin == b && it.n == |s.bridges[b].replies|
    requires forall x :: x in a ==> RepliedBy(s, x)
    requires Ordered(a + Items(s.downlink))
    ensures Ordered(a + Items(s.downlink + [Cell(s.bridges[b].id, Some(it))]))
  {
    ItemsSnoc(s.downlink, Cell(s.bridges[b].id, Some(it)));
    var all := a + Items(s.downlink);
    forall y | y in all && y.origin == b
      ensures y.n < it.n
    {
      if y in Items(s.downlink) {
        ItemsMember(s.downlink, y);
        var i :| 0 <= i < |s.downlink| && s.downlink[i].item == Some(y);
        assert s.downlink[i].item.Some?;
      }
    }
    OrderedSnoc(all, it);
    assert all + [it] == a + (Items(s.downlink) + [it]);
  }

  lemma ReplyProvenance(s: State, t: State, b: nat, it: Item)
    requires WiresOk(s) && b < |s.bridges| && it.origin == b && Grows(s, t) && RepliedBy(t, it)
    requires t.downlink == s.downlink + [Cell(s.bridges[b].id, Some(it))]
    ensures forall i :: 0 <= i < |t.downlink| && t.downlink[i].item.Some? ==>
      RepliedBy(t, t.downlink[i].item.value) && t.bridges[t.downlink[i].item.value.origin].id == t.downlink[i].id
  {
    forall i | 0 <= i < |t.downlink| && t.downlink[i].item.Some?
      ensures RepliedBy(t, t.downlink[i].item.value) && t.bridges[t.downlink[i].item.value.origin].id == t.downlink[i].id
    {
      if i < |s.downlink| {
        assert t.downlink[i] == s.downlink[i];
      }
    }
  }

  lemma ReplyWires(s: State, t: State, b: nat, it: Item)
    requires WiresOk(s) && b < |s.bridges| && it.origin == b && it.n == |s.bridges[b].replies|
    requires Grows(s, t) && RepliedBy(t, it) && t.uplink == s.uplink
    requires t.downlink == s.downlink + [Cell(s.bridges[b].id, Some(it))]
    ensures WiresOk(t)
  {
    ReplyProvenance(s, t, b, it);
    UplinkKept(s, t);
    OrderAlone(s.downlink);
    ReplyOrder(s, [], b, it);
    OrderAlone(t.downlink);
  }

  lemma ReplyCircuit(s: State, t: State, b: nat, it: Item, c: nat)
    requires WiresOk(s) && b < |s.bridges| && it.origin == b && it.n == |s.bridges[b].replies| && Grows(s, t)
    requires c < |s.circuits| && CircuitOk(s, c) && t.circuits == s.circuits
    requires t.downlink == s.downlink + [Cell(s.bridges[b].id, Some(it))]
    ensures CircuitOk(t, c)
  {
    ReplyOrder(s, DownRoute(s.circuits[c]), b, it);
  }

  lemma BridgeReplyKeeps(s: State, b: nat, data: seq<Byte>)
    requires Inv(s)
    ensures Inv(Next(s, BridgeReply(b, data)))
  {
    var t := Next(s, BridgeReply(b, data));
    if t != s {
      var it := Item(b, |s.bridges[b].replies|, data);
      assert RepliedBy(t, it) && Grows(s, t);
      ReplyWires(s, t, b, it);
      forall d: nat | d < |t.bridges|
        ensures BridgeOk(t, d)
      {
        BridgeKept(s, t, d);
      }
      forall c: nat | c < |t.circuits|
        ensures CircuitOk(t, c)
      {
        ReplyCircuit(s, t, b, it, c);
      }
    }
  }

  /** The server's taking one cell off the wire and giving it to relay `b`. */
  lemma AcceptKeeps(s: State, t: State, b: nat, it: Item)
    requires Inv(s) && s.uplink != [] && s.uplink[0].item == Some(it)
    requires b < |s.bridges| && s.bridges[b].writerOpen && s.bridges[b].id == s.uplink[0].id
    requires
      var x := s.bridges[b];
      t == WithBridge(s.(uplink := s.uplink[1..]), b, x.(up := x.up + [it], accepted := x.accepted + [it]))
    ensures Inv(t)
  {
    assert BridgeOk(s, b);
    var x := s.bridges[b];
    var rest := Items(s.uplink[1..]);
    assert UpRoute(t.bridges[b]) == UpRoute(x) + [it];
    assert UpRoute(x) + Items(s.uplink) == (UpRoute(x) + [it]) + rest;
    assert SentBy(s, it) && SentBy(t, it);
    assert x.written <= x.accepted + [it];
    assert BridgeOk(t, b);
    Kept(s, t, -1, b);
  }

  lemma MapShrinks(m: map<U16, nat>, id: U16)
    ensures |m - {id}| <= |m|
  {
  }

  lemma DetachedKeeps(s: State, id: U16)
    requires Inv(s)
    ensures Inv(Detached(s, id))
  {
    var u := s.(serverMap := s.serverMap - {id});
    MapShrinks(s.serverMap, id);
    WiresMoved(s, u);
    if id in s.serverMap {
      var b := s.serverMap[id];
      RelayMoved(u, b, s.bridges[b].(attached := false));
    }
  }

  lemma NotTakenKeeps(s: State, id: U16, b: nat, it: Item)
    requires Inv(s) && b < |s.bridges| && (!s.bridges[b].writerOpen || |s.bridges[b].up| >= STREAM_CHANNEL_CAP)
    ensures Inv(ToBridge(s, id, b, it))
  {
    DetachedKeeps(s, id);
    WiresMoved(if s.bridges[b].writerOpen then s else Detached(s, id), ToBridge(s, id, b, it));
  }

  lemma ToBridgeKeeps(s: State, id: U16, b: nat, it: Item)
    requires Inv(s) && s.uplink != [] && s.uplink[0] == Cell(id, Some(it))
    requires b < |s.bridges| && s.bridges[b].id == id
    ensures Inv(ToBridge(s.(uplink := s.uplink[1..]), id, b, it))
  {
    var t0 := s.(uplink := s.uplink[1..]);
    if s.bridges[b].writerOpen && |s.bridges[b].up| < STREAM_CHANNEL_CAP {
      AcceptKeeps(s, ToBridge(t0, id, b, it), b, it);
    } else {
      WiresMoved(s, t0);
      NotTakenKeeps(t0, id, b, it);
    }
  }

  /** A relay that has just been started. */
  function FreshBridge(id: U16, gone: bool): Bridge { Bridge(id, [], true, true, [], !gone, !gone, [], [], []) }

  lemma FreshBridgeOk(t: State, b: nat, gone: bool)
    requires b < |t.bridges| && t.bridges[b] == FreshBridge(t.bridges[b].id, gone) && Ordered(Items(t.uplink))
    ensures BridgeOk(t, b)
  {
  }

  lemma MapsAdded(s: State, t: State, id: U16)
    requires MapsOk(s) && |s.serverMap| < MAX_STREAMS_PER_WIRE && id !in s.serverMap
    requires t.clientMap == s.clientMap && t.nextId == s.nextId && t.circuits == s.circuits && |t.bridges| == |s.bridges| + 1
    requires t.serverMap == s.serverMap[id := |s.bridges|] && t.bridges[|s.bridges|].id == id
    requires forall b :: 0 <= b < |s.bridges| ==> t.bridges[b] == s.bridges[b]
    ensures MapsOk(t)
  {
  }

  lemma BridgeAdded(s: State, t: State, id: U16, gone: bool)
    requires Inv(s) && |s.serverMap| < MAX_STREAMS_PER_WIRE && id !in s.serverMap
    requires t == s.(bridges := s.bridges + [FreshBridge(id, gone)], serverMap := s.serverMap[id := |s.bridges|])
    ensures Inv(t)
  {
    var b := |s.bridges|;
    MapsAdded(s, t, id);
    assert BridgeOk(t, b) by { FreshBridgeOk(t, b, gone); }
    assert forall d :: 0 <= d < b ==> t.bridges[d] == s.bridges[d];
    Kept(s, t, -1, b);
  }

  lemma OpenedKeeps(s: State, id: U16, c: nat, gone: bool)
    requires Inv(s) && |s.serverMap| < MAX_STREAMS_PER_WIRE && id !in s.serverMap
    ensures Inv(Opened(s, id, c, gone))
  {
    var u := s.(bridges := s.bridges + [FreshBridge(id, gone)], serverMap := s.serverMap[id := |s.bridges|]);
    BridgeAdded(s, u, id, gone);
    if c < |s.circuits| && s.circuits[c].bridge == None {
      CircuitMoved(u, c, s.circuits[c].(bridge := Some(|s.bridges|)));
    }
  }

  lemma TurnedAwayKeeps(s: State, id: U16, it: Item, refused: bool, gone: bool)
    requires Inv(s) && s.uplink != [] && (|s.serverMap| >= MAX_STREAMS_PER_WIRE || refused)
    ensures Inv(NewBridge(s.(uplink := s.uplink[1..]), id, it, refused, gone))
  {
    var t0 := s.(uplink := s.uplink[1..]);
    WiresMoved(s, t0);
    StoppedKeeps(t0);
    WiresMoved(if |s.serverMap| >= MAX_STREAMS_PER_WIRE then Stopped(t0) else t0, NewBridge(t0, id, it, refused, gone));
  }

  lemma NewBridgeKeeps(s: State, id: U16, it: Item, refused: bool, gone: bool)
    requires Inv(s) && s.uplink != [] && s.uplink[0] == Cell(id, Some(it)) && id !in s.serverMap
    ensures Inv(NewBridge(s.(uplink := s.uplink[1..]), id, it, refused, gone))
  {
    if |s.serverMap| >= MAX_STREAMS_PER_WIRE || refused {
      TurnedAwayKeeps(s, id, it, refused, gone);
    } else {
      var u := Opened(s, id, it.origin, gone);
      OpenedKeeps(s, id, it.origin, gone);
      OpenedFirst(s, u, id, it.origin, gone);
      ToBridgeKeeps(u, id, |s.bridges|, it);
    }
  }

  lemma OpenedFirst(s: State, u: State, id: U16, c: nat, gone: bool)
    requires s.uplink != [] && u == Opened(s, id, c, gone)
    ensures u.uplink == s.uplink && |s.bridges| < |u.bridges| && u.bridges[|s.bridges|].id == id
    ensures Opened(s.(uplink := s.uplink[1..]), id, c, gone) == u.(uplink := u.uplink[1..])
  {
  }

  lemma ServerRouteKeeps(s: State, refused: bool, gone: bool)
    requires Inv(s)
    ensures Inv(Next(s, ServerRoute(refused, gone)))
  {
    if s.uplink != [] && s.serverAlive {
      var id, item := s.uplink[0].id, s.uplink[0].item;
      var t0 := s.(uplink := s.uplink[1..]);
      if item == None {
        WiresMoved(s, t0);
        DetachedKeeps(t0, id);
        SentinelKeeps(Detached(t0, id), Next(s, ServerRoute(refused, gone)), false, id);
      } else if id in s.serverMap {
        ToBridgeKeeps(s, id, s.serverMap[id], item.value);
      } else {
        NewBridgeKeeps(s, id, item.value, refused, gone);
      }
    }
  }

  /** The client's taking one cell off the wire and giving it to circuit `c`. */
  lemma DownAcceptKeeps(s: State, t: State, c: nat, it: Item)
    requires Inv(s) && s.downlink != [] && s.downlink[0].item == Some(it)
    requires c < |s.circuits| && s.circuits[c].id == s.downlink[0].id
    requires t == WithCircuit(s.(downlink := s.downlink[1..]), c, s.circuits[c].(down := s.circuits[c].down + [it]))
    ensures Inv(t)
  {
    var x := s.circuits[c];
    assert CircuitOk(s, c);
    assert RepliedBy(s, it) && RepliedBy(t, it);
    assert DownRoute(t.circuits[c]) == DownRoute(x) + [it];
    assert DownRoute(x) + Items(s.downlink) == (DownRoute(x) + [it]) + Items(s.downlink[1..]);
    assert CircuitOk(t, c);
    Kept(s, t, c, -1);
  }

  lemma ClientRouteKeeps(s: State)
    requires Inv(s)
    ensures Inv(Next(s, ClientRoute))
  {
    var t := Next(s, ClientRoute);
    if s.downlink != [] {
      if ClientTakes(s) {
        var c := s.clientMap[s.downlink[0].id];
        assert CircuitOk(s, c);
        DownAcceptKeeps(s, t, c, s.downlink[0].item.value);
      } else {
        HeadDropped(s);
        ClientDropsKeeps(s, t);
      }
    }
  }

  /** The head of the downlink goes to a circuit that has room for it. */
  predicate ClientTakes(s: State) {
    && s.downlink != [] && s.downlink[0].item.Some? && s.downlink[0].id in s.clientMap
    && s.clientMap[s.downlink[0].id] < |s.circuits|
    && s.circuits[s.clientMap[s.downlink[0].id]].writerOpen
    && |s.circuits[s.clientMap[s.downlink[0].id]].down| < STREAM_CHANNEL_CAP
  }

  lemma HeadDropped(s: State)
    requires s.downlink != [] && !ClientTakes(s)
    ensures
      var t := RouteDown(s);
      && t.downlink == s.downlink[1..] && t.circuits == s.circuits && t.bridges == s.bridges && t.uplink == s.uplink
      && t.serverMap == s.serverMap && t.nextId == s.nextId
      && forall id :: id in t.clientMap ==> id in s.clientMap && t.clientMap[id] == s.clientMap[id]
  {
  }

  /** The head of the downlink goes nowhere, and at most its entry goes with it. */
  lemma ClientDropsKeeps(s: State, t: State)
    requires Inv(s) && s.downlink != [] && t.downlink == s.downlink[1..]
    requires t.circuits == s.circuits && t.bridges == s.bridges && t.uplink == s.uplink
    requires t.serverMap == s.serverMap && t.nextId == s.nextId
    requires forall id :: id in t.clientMap ==> id in s.clientMap && t.clientMap[id] == s.clientMap[id]
    ensures Inv(t)
  {
    WiresMoved(s, t);
  }

  /** A relay that drops everything behind what it has written is still in order. */
  lemma CutOk(s: State, t: State, b: nat)
    requires b < |s.bridges| && b < |t.bridges| && BridgeOk(s, b) && Grows(s, t) && t.uplink == s.uplink
    requires UpRoute(t.bridges[b]) == s.bridges[b].written == t.bridges[b].written
    requires t.bridges[b].accepted == s.bridges[b].accepted && !t.bridges[b].writerOpen
    ensures BridgeOk(t, b)
  {
    var x := s.bridges[b];
    assert x.written + (x.held + x.up) + Items(s.uplink) == UpRoute(x) + Items(s.uplink);
    OrderedDrop(x.written, x.held + x.up, Items(s.uplink));
    assert forall it :: it in x.written ==> it in UpRoute(x);
  }

  lemma RelayCut(s: State, b: nat, y: Bridge)
    requires Inv(s) && b < |s.bridges|
    requires
      var x := s.bridges[b];
      && y.id == x.id && y.replies == x.replies && y.accepted == x.accepted && y.written == x.written
      && !y.writerOpen && y.held == [] && y.up == []
    ensures Inv(WithBridge(s, b, y))
  {
    var t := WithBridge(s, b, y);
    assert UpRoute(y) == y.written;
    assert BridgeOk(t, b) by { CutOk(s, t, b); }
    Kept(s, t, -1, b);
  }

  lemma HoldEndsKeeps(s: State, b: nat)
    requires Inv(s)
    ensures Inv(Next(s, RelayHoldEnds(b)))
  {
    var t := Next(s, RelayHoldEnds(b));
    if t != s {
      var u := WithBridge(s, b, t.bridges[b]);
      RelayCut(s, b, t.bridges[b]);
      WiresMoved(u, t);
    }
  }

  lemma WriterStopsKeeps(s: State, b: nat)
    requires Inv(s)
    ensures Inv(Next(s, RelayWriterStops(b)))
  {
    var t := Next(s, RelayWriterStops(b));
    if t != s {
      var u := WithBridge(s, b, t.bridges[b]);
      RelayCut(s, b, t.bridges[b]);
      WiresMoved(u, t);
    }
  }

  lemma RelayHoldKeeps(s: State, b: nat)
    requires Inv(s)
    ensures Inv(Next(s, RelayHold(b)))
  {
    var t := Next(s, RelayHold(b));
    if t != s {
      var x := s.bridges[b];
      assert BridgeOk(s, b);
      assert x.up == [x.up[0]] + x.up[1..];
      assert UpRoute(t.bridges[b]) == UpRoute(x);
      RelayMoved(s, b, t.bridges[b]);
    }
  }

  /** Moving the head of `b` behind `a` leaves the whole line as it was. */
  lemma HeadMoves(a: seq<Item>, b: seq<Item>, c: seq<Item>)
    requires b != []
    ensures (a + [b[0]]) + b[1..] + c == a + b + c
    ensures a + [b[0]] <= a + b + c
  {
  }

  lemma AcceptedIsRoute(s: State, b: nat)
    requires Inv(s) && b < |s.bridges| && s.bridges[b].writerOpen
    ensures s.bridges[b].accepted == UpRoute(s.bridges[b])
  {
    assert BridgeOk(s, b);
  }

  lemma ForwardMoved(s: State, b: nat, y: Bridge)
    requires Inv(s) && b < |s.bridges| && s.bridges[b].writerOpen
    requires
      var x := s.bridges[b];
      || (x.held != [] && y == x.(written := x.written + [x.held[0]], held := x.held[1..]))
      || (x.held == [] && x.up != [] && y == x.(written := x.written + [x.up[0]], up := x.up[1..]))
    ensures Inv(WithBridge(s, b, y))
  {
    var x := s.bridges[b];
    AcceptedIsRoute(s, b);
    if x.held != [] {
      HeadMoves(x.written, x.held, x.up);
    } else {
      HeadMoves(x.written, x.up, []);
    }
    RelayMoved(s, b, y);
  }

  lemma RelayForwardKeeps(s: State, b: nat)
    requires Inv(s)
    ensures Inv(Next(s, RelayForward(b)))
  {
    var t := Next(s, RelayForward(b));
    if t != s {
      ForwardMoved(s, b, t.bridges[b]);
    }
  }

  lemma GateKeeps(s: State, b: nat)
    requires Inv(s)
    ensures Inv(Next(s, GateOpens(b)))
  {
    if b < |s.bridges| {
      RelayMoved(s, b, Next(s, GateOpens(b)).bridges[b]);
    }
  }

  lemma SentinelKeeps(s: State, t: State, up: bool, id: U16)
    requires Inv(s)
    requires t == if up then s.(uplink := s.uplink + [Cell(id, None)]) else s.(downlink := s.downlink + [Cell(id, None)])
    ensures Inv(t)
  {
    WiresMoved(s, t);
  }

  lemma CircuitCloseKeeps(s: State, c: nat, sentinel: bool)
    requires Inv(s)
    ensures Inv(Next(s, CircuitClose(c, sentinel)))
  {
    if c < |s.circuits| && s.circuits[c].readerOpen {
      var u := WithCircuit(s, c, s.circuits[c].(readerOpen := false));
      CircuitMoved(s, c, u.circuits[c]);
      if sentinel {
        SentinelKeeps(u, Next(s, CircuitClose(c, true)), true, s.circuits[c].id);
      }
    }
  }

  lemma BridgeReaderStopsKeeps(s: State, b: nat, sentinel: bool)
    requires Inv(s)
    ensures Inv(Next(s, BridgeReaderStops(b, sentinel)))
  {
    if b < |s.bridges| && !s.bridges[b].holding && s.bridges[b].readerOpen {
      var u := WithBridge(s, b, s.bridges[b].(readerOpen := false));
      RelayMoved(s, b, u.bridges[b]);
      if sentinel {
        SentinelKeeps(u, Next(s, BridgeReaderStops(b, true)), false, s.bridges[b].id);
      }
    }
  }

  lemma DeliverKeeps(s: State, c: nat)
    requires Inv(s)
    ensures Inv(Next(s, CircuitDeliver(c)))
  {
    var t := Next(s, CircuitDeliver(c));
    if t != s {
      var x := s.circuits[c];
      assert x.down == [x.down[0]] + x.down[1..];
      assert DownRoute(t.circuits[c]) == DownRoute(x);
      CircuitMoved(s, c, t.circuits[c]);
    }
  }

  lemma CircuitCutOk(s: State, t: State, c: nat)
    requires c < |s.circuits| && c < |t.circuits| && CircuitOk(s, c) && Grows(s, t) && t.downlink == s.downlink
    requires DownRoute(t.circuits[c]) == s.circuits[c].delivered
    ensures CircuitOk(t, c)
  {
    var x := s.circuits[c];
    OrderedDrop(x.delivered, x.down, Items(s.downlink));
    assert forall it :: it in x.delivered ==> it in DownRoute(x);
  }

  lemma CircuitCut(s: State, c: nat, y: Circuit)
    requires Inv(s) && c < |s.circuits|
    requires y.id == s.circuits[c].id && y.sent == s.circuits[c].sent && DownRoute(y) == s.circuits[c].delivered
    ensures Inv(WithCircuit(s, c, y))
  {
    var t := WithCircuit(s, c, y);
    assert CircuitOk(t, c) by { CircuitCutOk(s, t, c); }
    Kept(s, t, c, -1);
  }

  lemma CircuitWriterStopsKeeps(s: State, c: nat)
    requires Inv(s)
    ensures Inv(Next(s, CircuitWriterStops(c)))
  {
    var t := Next(s, CircuitWriterStops(c));
    if t != s {
      var u := WithCircuit(s, c, t.circuits[c]);
      assert DownRoute(t.circuits[c]) == s.circuits[c].delivered;
      CircuitCut(s, c, t.circuits[c]);
      WiresMoved(u, t);
    }
  }

  lemma StoppedKeeps(s: State)
    requires Inv(s)
    ensures Inv(Stopped(s))
  {
    Kept(s, Stopped(s), -1, -1);
  }

  lemma DetachedStays(s: State, id: U16)
    ensures Detached(s, id).circuits == s.circuits && Detached(s, id).clientMap == s.clientMap
  {
  }

  lemma ToBridgeStays(s: State, id: U16, b: nat, it: Item)
    ensures ToBridge(s, id, b, it).circuits == s.circuits && ToBridge(s, id, b, it).clientMap == s.clientMap
  {
    DetachedStays(s, id);
  }

  lemma RouteUpStays(s: State, refused: bool, gone: bool)
    ensures |RouteUp(s, refused, gone).circuits| == |s.circuits| && RouteUp(s, refused, gone).clientMap == s.clientMap
  {
    if s.uplink != [] && s.serverAlive {
      var id, t := s.uplink[0].id, s.(uplink := s.uplink[1..]);
      DetachedStays(t, id);
      if s.uplink[0].item.Some? {
        var it := s.uplink[0].item.value;
        if id in t.serverMap {
          ToBridgeStays(t, id, t.serverMap[id], it);
        } else {
          ToBridgeStays(Opened(t, id, it.origin, gone), id, |t.bridges|, it);
        }
      }
    }
  }

  /** Circuits are only ever added. */
  lemma CircuitsStay(s: State, step: Step)
    ensures |s.circuits| <= |Next(s, step).circuits|
  {
    if step.ServerRoute? {
      RouteUpStays(s, step.refused, step.gone);
    }
  }

  lemma StillUnwrapped(steps: seq<Step>)
    requires steps != [] && Unwrapped(steps)
    ensures Unwrapped(steps[..|steps| - 1])
  {
    CircuitsStay(Run(steps[..|steps| - 1]), steps[|steps| - 1]);
  }

  lemma StepKeeps(s: State, step: Step)
    requires Inv(s) && |Next(s, step).circuits| <= MAX_ID
    ensures Inv(Next(s, step))
  {
    match step
    case OpenCircuit => OpenCircuitKeeps(s);
    case CircuitSend(c, data) => CircuitSendKeeps(s, c, data);
    case ServerRoute(refused, gone) => ServerRouteKeeps(s, refused, gone);
    case BridgeReply(b, data) => BridgeReplyKeeps(s, b, data);
    case ClientRoute => ClientRouteKeeps(s);
    case RelayHold(b) => RelayHoldKeeps(s, b);
    case RelayForward(b) => RelayForwardKeeps(s, b);
    case GateOpens(b) => GateKeeps(s, b);
    case RelayWriterStops(b) => WriterStopsKeeps(s, b);
    case RelayHoldEnds(b) => HoldEndsKeeps(s, b);
    case CircuitClose(c, sentinel) => CircuitCloseKeeps(s, c, sentinel);
    case BridgeReaderStops(b, sentinel) => BridgeReaderStopsKeeps(s, b, sentinel);
    case CircuitDeliver(c) => DeliverKeeps(s, c);
    case CircuitWriterStops(c) => CircuitWriterStopsKeeps(s, c);
    case ServerStops => StoppedKeeps(s);
  }

  lemma {:induction false} RunKeeps(steps: seq<Step>)
    requires Unwrapped(steps)
    ensures Inv(Run(steps))
  {
    if steps != [] {
      StillUnwrapped(steps);
      RunKeeps(steps[..|steps| - 1]);
      StepKeeps(Run(steps[..|steps| - 1]), steps[|steps| - 1]);
    }
  }

  // --- The theorems ---------------------------------------------------------------------

  /** Downstream isolation: until the id counter wraps, under any interleaving, every cell delivered to a
      circuit is a reply that a bridge connection opened for that circuit's id really gave, byte for byte,
      and the replies of one connection arrive in order, none twice. */
  lemma DownstreamIsolation(steps: seq<Step>, c: nat)
    requires Unwrapped(steps) && c < |Run(steps).circuits|
    ensures
      var s := Run(steps);
      var got := s.circuits[c].delivered;
      && (forall i :: 0 <= i < |got| ==> RepliedBy(s, got[i]) && s.bridges[got[i].origin].id == s.circuits[c].id)
      && Ordered(got)
  {
    RunKeeps(steps);
    var s := Run(steps);
    assert CircuitOk(s, c);
    var got := s.circuits[c].delivered;
    assert forall i :: 0 <= i < |got| ==> got[i] == DownRoute(s.circuits[c])[i];
    assert forall i :: 0 <= i < |got| ==> got[i] == (DownRoute(s.circuits[c]) + Items(s.downlink))[i];
  }

  /** Upstream isolation: every cell written to a bridge connection was sent by the one circuit that owns its id,
      in order, none twice, held data first; it is a prefix of what the demultiplexer handed over. */
  lemma UpstreamIsolation(steps: seq<Step>, b: nat)
    requires Unwrapped(steps) && b < |Run(steps).bridges|
    ensures
      var s := Run(steps);
      var put := s.bridges[b].written;
      && (forall i :: 0 <= i < |put| ==> SentBy(s, put[i]) && s.circuits[put[i].origin].id == s.bridges[b].id)
      && (forall i, j :: 0 <= i < j < |put| ==> put[i].origin == put[j].origin && put[i].n < put[j].n)
      && put <= s.bridges[b].accepted
  {
    RunKeeps(steps);
    var s := Run(steps);
    assert BridgeOk(s, b);
    var put := s.bridges[b].written;
    assert forall i :: 0 <= i < |put| ==> put[i] == UpRoute(s.bridges[b])[i];
    assert forall i :: 0 <= i < |put| ==> put[i] == (UpRoute(s.bridges[b]) + Items(s.uplink))[i];
    forall i | 0 <= i < |put|
      ensures SentBy(s, put[i]) && s.circuits[put[i].origin].id == s.bridges[b].id
    {
      assert put[i] in UpRoute(s.bridges[b]);
      assert CircuitOk(s, put[i].origin);
    }
  }

  /** However circuits open and close, until the counter has wrapped no two ever get the same stream id and none gets 0;
      and one wire never has more than 512 streams at the server. */
  lemma DistinctIds(steps: seq<Step>)
    requires Unwrapped(steps)
    ensures
      var s := Run(steps);
      && (forall c, d :: 0 <= c < d < |s.circuits| ==> s.circuits[c].id != s.circuits[d].id)
      && (forall c :: 0 <= c < |s.circuits| ==> s.circuits[c].id != STREAM_ID_SINGLE)
      && |s.serverMap| <= MAX_STREAMS_PER_WIRE
  {
    RunKeeps(steps);
    var s := Run(steps);
    forall c: nat | c < |s.circuits|
      ensures s.circuits[c].id == c + 1
    {
      assert CircuitOk(s, c);
    }
  }
}
