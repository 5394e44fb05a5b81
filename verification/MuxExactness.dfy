/** When nothing is dropped, a bridge connection receives exactly what its circuit sent. */
module MuxExactness {
  import opened Base
  import opened Cells
  import opened MuxRouting
  import opened MuxIsolation

  /** The cells of circuit `c` still on the uplink. */
  function Inflight(cells: seq<Cell>, c: nat): seq<Item> {
    if cells == [] then []
    else
      var head := if cells[0].item.Some? && cells[0].item.value.origin == c then [cells[0].item.value] else [];
      head + Inflight(cells[1..], c)
  }

  lemma {:induction false} InflightSnoc(cells: seq<Cell>, x: Cell, c: nat)
    ensures Inflight(cells + [x], c)
         == Inflight(cells, c) + (if x.item.Some? && x.item.value.origin == c then [x.item.value] else [])
  {
    if cells == [] {
      assert Inflight([x][1..], c) == [];
    } else {
      assert (cells + [x])[1..] == cells[1..] + [x];
      InflightSnoc(cells[1..], x, c);
    }
  }

  lemma {:induction false} NoneInflight(cells: seq<Cell>, c: nat)
    requires forall i :: 0 <= i < |cells| && cells[i].item.Some? ==> cells[i].item.value.origin != c
    ensures Inflight(cells, c) == []
  {
    if cells != [] {
      NoneInflight(cells[1..], c);
    }
  }

  /** Everything circuit `c` has sent. */
  function AllSent(x: Circuit, c: nat): seq<Item> {
    seq(|x.sent|, i requires 0 <= i < |x.sent| => Item(c, i, x.sent[i]))
  }

  /** The relays opened for `id` are `b` and no other. */
  ghost predicate OnlyBridge(s: State, id: nat, b: nat) {
    forall d :: 0 <= d < |s.bridges| ==> (s.bridges[d].id == id <==> d == b)
  }

  ghost predicate NoBridge(s: State, id: nat) {
    forall d :: 0 <= d < |s.bridges| ==> s.bridges[d].id != id
  }

  /** While no cell of circuit `c` was dropped: one relay at most was opened for it, and what that relay has written,
      holds and has queued, followed by what is on the uplink, is everything sent; as long as more may come, the
      demultiplexer still knows the relay. */
  ghost predicate Exact(s: State, c: nat)
    requires c < |s.circuits|
  {
    c !in s.lossy ==>
      var x := s.circuits[c];
      var fl := Inflight(s.uplink, c);
      match x.bridge
      case None => fl == AllSent(x, c) && NoBridge(s, c + 1)
      case Some(b) =>
        && b < |s.bridges|
        && OnlyBridge(s, c + 1, b)
        && UpRoute(s.bridges[b]) + fl == AllSent(x, c)
        && (s.serverAlive && (fl != [] || x.readerOpen) ==> c + 1 in s.serverMap && s.serverMap[c + 1] == b)
  }

  /** A close sentinel is the last cell of its stream, and its circuit reads no more. */
  ghost predicate LastOfStream(s: State, p: nat)
    requires p < |s.uplink|
  {
    && 0 < s.uplink[p].id <= |s.circuits|
    && (forall q :: p < q < |s.uplink| ==> s.uplink[q].id != s.uplink[p].id)
    && (forall c :: 0 <= c < |s.circuits| && s.circuits[c].id == s.uplink[p].id ==> !s.circuits[c].readerOpen)
  }

  /** Streams known to the server belong to circuits that have a bridge, and every relay was opened for a circuit. */
  ghost predicate Known(s: State) {
    && (forall id :: id in s.serverMap ==> 0 < id <= |s.circuits| && s.circuits[id - 1].bridge.Some?)
    && (forall b :: 0 <= b < |s.bridges| ==> 0 < s.bridges[b].id <= |s.circuits|)
  }

  ghost predicate Body(s: State) {
    && Known(s)
    && (forall p :: 0 <= p < |s.uplink| && s.uplink[p].item == None ==> LastOfStream(s, p))
    && (forall c :: 0 <= c < |s.circuits| ==> Exact(s, c))
  }

  /** The numbering that the isolation invariant guarantees. */
  ghost predicate Numbered(s: State) {
    && |s.circuits| <= MAX_ID
    && (forall c :: 0 <= c < |s.circuits| ==> s.circuits[c].id == c + 1)
    && (forall i :: 0 <= i < |s.uplink| && s.uplink[i].item.Some? ==>
          s.uplink[i].item.value.origin < |s.circuits| && s.uplink[i].item.value.origin + 1 == s.uplink[i].id)
    && (forall id :: id in s.serverMap ==> s.serverMap[id] < |s.bridges| && s.bridges[s.serverMap[id]].id == id)
  }

  lemma InvNumbered(s: State)
    requires Inv(s)
    ensures Numbered(s)
  {
    forall c: nat | c < |s.circuits|
      ensures s.circuits[c].id == c + 1
    {
      assert CircuitOk(s, c);
    }
    forall i | 0 <= i < |s.uplink| && s.uplink[i].item.Some?
      ensures s.uplink[i].item.value.origin < |s.circuits|
    {
      assert SentBy(s, s.uplink[i].item.value);
    }
  }

  /** Circuit `c` and its relay differ in nothing `Exact` speaks of. */
  ghost predicate ExactSame(s: State, t: State, c: nat) {
    && c < |s.circuits| && c < |t.circuits|
    && t.circuits[c].sent == s.circuits[c].sent && t.circuits[c].bridge == s.circuits[c].bridge
    && (t.circuits[c].readerOpen ==> s.circuits[c].readerOpen)
    && Inflight(t.uplink, c) == Inflight(s.uplink, c)
    && (c in s.lossy ==> c in t.lossy)
    && (c + 1 in s.serverMap ==> t.serverAlive ==> c + 1 in t.serverMap && t.serverMap[c + 1] == s.serverMap[c + 1])
    && (t.serverAlive ==> s.serverAlive)
  }

  /** The same relays, and each has what it had. */
  ghost predicate RoutesSame(s: State, t: State) {
    && |s.bridges| == |t.bridges|
    && forall b :: 0 <= b < |s.bridges| ==> t.bridges[b].id == s.bridges[b].id && UpRoute(t.bridges[b]) == UpRoute(s.bridges[b])
  }

  lemma ExactKept(s: State, t: State, c: nat)
    requires c < |s.circuits| && c < |t.circuits| && Exact(s, c) && ExactSame(s, t, c) && RoutesSame(s, t)
    ensures Exact(t, c)
  {
  }

  /** Steps that touch no uplink cell, no acceptance and no routing entry. */
  lemma Aside(s: State, t: State)
    requires Body(s) && RoutesSame(s, t)
    requires t.uplink == s.uplink && t.serverMap == s.serverMap && t.serverAlive == s.serverAlive && t.lossy == s.lossy
    requires |t.circuits| == |s.circuits|
    requires forall c :: 0 <= c < |s.circuits| ==>
      && t.circuits[c].id == s.circuits[c].id && t.circuits[c].sent == s.circuits[c].sent
      && t.circuits[c].bridge == s.circuits[c].bridge && t.circuits[c].readerOpen == s.circuits[c].readerOpen
    ensures Body(t)
  {
    forall c: nat | c < |t.circuits|
      ensures Exact(t, c)
    {
      assert Exact(s, c);
      ExactKept(s, t, c);
    }
    forall p: nat | p < |t.uplink| && t.uplink[p].item == None
      ensures LastOfStream(t, p)
    {
      assert LastOfStream(s, p);
    }
  }

  lemma OpenCircuitExact(s: State)
    requires Numbered(s) && Body(s) && MapsOk(s) && |Next(s, OpenCircuit).circuits| <= MAX_ID
    ensures Body(Next(s, OpenCircuit))
  {
    var t := Next(s, OpenCircuit);
    if t != s {
      var n := |s.circuits|;
      OpensNext(s);
      NoneInflight(s.uplink, n);
      forall c: nat | c < |t.circuits|
        ensures Exact(t, c)
      {
        if c < n {
          assert Exact(s, c);
          ExactKept(s, t, c);
        }
      }
      forall p: nat | p < |t.uplink| && t.uplink[p].item == None
        ensures LastOfStream(t, p)
      {
        assert LastOfStream(s, p);
      }
    }
  }

  lemma CircuitSendExact(s: State, c: nat, data: seq<Byte>)
    requires Numbered(s) && Body(s)
    ensures Body(Next(s, CircuitSend(c, data)))
  {
    var t := Next(s, CircuitSend(c, data));
    if t != s {
      var x := s.circuits[c];
      var it := Item(c, |x.sent|, data);
      var cell := Cell(x.id, Some(it));
      forall d: nat | d < |t.circuits|
        ensures Exact(t, d)
      {
        assert Exact(s, d);
        InflightSnoc(s.uplink, cell, d);
        if d == c {
          SentGrows(s, t, c, it);
        } else {
          ExactKept(s, t, d);
        }
      }
      forall p: nat | p < |t.uplink| && t.uplink[p].item == None
        ensures LastOfStream(t, p)
      {
        assert t.uplink[p] == s.uplink[p];
        assert LastOfStream(s, p);
      }
    }
  }

  lemma SentGrows(s: State, t: State, c: nat, it: Item)
    requires c < |s.circuits| && c < |t.circuits| && Exact(s, c) && s.circuits[c].readerOpen
    requires t.circuits[c] == s.circuits[c].(sent := s.circuits[c].sent + [it.data])
    requires it == Item(c, |s.circuits[c].sent|, it.data)
    requires Inflight(t.uplink, c) == Inflight(s.uplink, c) + [it]
    requires t.bridges == s.bridges && t.serverMap == s.serverMap && t.lossy == s.lossy && t.serverAlive == s.serverAlive
    ensures Exact(t, c)
  {
    assert AllSent(t.circuits[c], c) == AllSent(s.circuits[c], c) + [it];
    if c !in s.lossy && s.circuits[c].bridge.Some? {
      var route := UpRoute(s.bridges[s.circuits[c].bridge.value]);
      assert route + (Inflight(s.uplink, c) + [it]) == (route + Inflight(s.uplink, c)) + [it];
    }
  }

  /** A sentinel at the end of the uplink is the last of its stream, and disturbs no other. */
  lemma SentinelIsLast(s: State, t: State, c: nat, sentinel: bool)
    requires Numbered(s) && c < |s.circuits| && t == Next(s, CircuitClose(c, sentinel)) && t != s
    requires forall p :: 0 <= p < |s.uplink| && s.uplink[p].item == None ==> LastOfStream(s, p)
    ensures forall p :: 0 <= p < |t.uplink| && t.uplink[p].item == None ==> LastOfStream(t, p)
  {
    forall p: nat | p < |t.uplink| && t.uplink[p].item == None
      ensures LastOfStream(t, p)
    {
      if p < |s.uplink| {
        assert t.uplink[p] == s.uplink[p];
        assert LastOfStream(s, p);
      } else {
        assert forall d :: 0 <= d < |t.circuits| ==> t.circuits[d].id == d + 1;
      }
    }
  }

  lemma CircuitCloseExact(s: State, c: nat, sentinel: bool)
    requires Numbered(s) && Body(s)
    ensures Body(Next(s, CircuitClose(c, sentinel)))
  {
    var t := Next(s, CircuitClose(c, sentinel));
    if t != s {
      SentinelIsLast(s, t, c, sentinel);
      forall d: nat | d < |t.circuits|
        ensures Exact(t, d)
      {
        InflightSnoc(s.uplink, Cell(s.circuits[c].id, None), d);
        ExactKept(s, t, d);
      }
    }
  }

  /** Taking the head off the uplink moves every sentinel one place up. */
  lemma SentinelsMoveUp(s: State, t: State)
    requires s.uplink != [] && t.uplink == s.uplink[1..] && |t.circuits| == |s.circuits|
    requires forall c :: 0 <= c < |s.circuits| ==>
      t.circuits[c].id == s.circuits[c].id && t.circuits[c].readerOpen == s.circuits[c].readerOpen
    requires forall p :: 0 <= p < |s.uplink| && s.uplink[p].item == None ==> LastOfStream(s, p)
    ensures forall p :: 0 <= p < |t.uplink| && t.uplink[p].item == None ==> LastOfStream(t, p)
  {
  }

  /** A sentinel at the head: its circuit has nothing left on the wire, and the others are not concerned. */
  lemma CloseRouteOne(s: State, t: State, c: nat)
    requires Numbered(s) && Body(s) && s.serverAlive && s.uplink != [] && s.uplink[0].item == None
    requires t.circuits == s.circuits && t.uplink == s.uplink[1..] && t.lossy == s.lossy && RoutesSame(s, t)
    requires t.serverMap == s.serverMap - {s.uplink[0].id} && t.serverAlive
    requires c < |s.circuits|
    ensures Exact(t, c)
  {
    assert Exact(s, c);
    assert Inflight(s.uplink, c) == Inflight(s.uplink[1..], c);
    if c + 1 == s.uplink[0].id {
      assert LastOfStream(s, 0);
      forall i | 0 <= i < |s.uplink[1..]| && s.uplink[1..][i].item.Some?
        ensures s.uplink[1..][i].item.value.origin != c
      {
        assert s.uplink[1..][i] == s.uplink[i + 1];
      }
      NoneInflight(s.uplink[1..], c);
      assert AllSent(t.circuits[c], c) == AllSent(s.circuits[c], c);
    } else {
      ExactKept(s, t, c);
    }
  }

  lemma CloseRouteExact(s: State, refused: bool, gone: bool)
    requires Numbered(s) && Body(s) && s.serverAlive && s.uplink != [] && s.uplink[0].item == None
    ensures Body(RouteUp(s, refused, gone))
  {
    var t := RouteUp(s, refused, gone);
    assert RoutesSame(s, t);
    forall c: nat | c < |t.circuits|
      ensures Exact(t, c)
    {
      CloseRouteOne(s, t, c);
    }
    SentinelsMoveUp(s, t);
  }

  /** A cell that is dropped is charged to its own circuit; no other circuit notices. */
  lemma DroppedExact(s: State, t: State, it: Item)
    requires Numbered(s) && Body(s) && Known(t) && RoutesSame(s, t)
    requires s.uplink != [] && s.uplink[0].item == Some(it) && t.uplink == s.uplink[1..]
    requires t.lossy == s.lossy + {it.origin} && t.circuits == s.circuits
    requires forall c :: 0 <= c < |s.circuits| && c != it.origin ==> ExactSame(s, t, c)
    ensures Body(t)
  {
    forall c: nat | c < |t.circuits|
      ensures Exact(t, c)
    {
      assert Exact(s, c);
      if c != it.origin {
        ExactKept(s, t, c);
      }
    }
    SentinelsMoveUp(s, t);
  }

  lemma AcceptExact(s: State, t: State, b: nat, it: Item)
    requires Numbered(s) && Body(s) && s.serverAlive
    requires it.origin < MAX_ID && s.uplink != [] && s.uplink[0] == Cell(it.origin + 1, Some(it))
    requires it.origin + 1 in s.serverMap && s.serverMap[it.origin + 1] == b && b < |s.bridges|
    requires
      var x := s.bridges[b];
      t == WithBridge(s.(uplink := s.uplink[1..]), b, x.(up := x.up + [it], accepted := x.accepted + [it]))
    ensures Body(t)
  {
    assert UpRoute(t.bridges[b]) == UpRoute(s.bridges[b]) + [it];
    forall c: nat | c < |t.circuits|
      ensures Exact(t, c)
    {
      AcceptOne(s, t, b, it, c);
    }
    SentinelsMoveUp(s, t);
  }

  lemma AcceptOne(s: State, t: State, b: nat, it: Item, c: nat)
    requires Numbered(s) && c < |s.circuits| && Exact(s, c) && b < |s.bridges| && s.bridges[b].id == it.origin + 1
    requires s.uplink != [] && s.uplink[0].item == Some(it) && t.uplink == s.uplink[1..]
    requires t.circuits == s.circuits && t.serverMap == s.serverMap && t.serverAlive == s.serverAlive && t.lossy == s.lossy
    requires |t.bridges| == |s.bridges| && UpRoute(t.bridges[b]) == UpRoute(s.bridges[b]) + [it]
    requires forall d :: 0 <= d < |s.bridges| ==> t.bridges[d].id == s.bridges[d].id
    requires forall d :: 0 <= d < |s.bridges| && d != b ==> t.bridges[d] == s.bridges[d]
    ensures Exact(t, c)
  {
    assert AllSent(t.circuits[c], c) == AllSent(s.circuits[c], c);
    var rest := Inflight(s.uplink[1..], c);
    if c == it.origin {
      assert UpRoute(s.bridges[b]) + ([it] + rest) == (UpRoute(s.bridges[b]) + [it]) + rest;
    } else {
      assert Inflight(s.uplink, c) == rest;
    }
  }

  lemma ToBridgeExact(s: State, b: nat, it: Item)
    requires Numbered(s) && Body(s) && s.serverAlive
    requires it.origin < MAX_ID && s.uplink != [] && s.uplink[0] == Cell(it.origin + 1, Some(it))
    requires it.origin + 1 in s.serverMap && s.serverMap[it.origin + 1] == b
    ensures Body(ToBridge(s.(uplink := s.uplink[1..]), it.origin + 1, b, it))
  {
    var t := ToBridge(s.(uplink := s.uplink[1..]), it.origin + 1, b, it);
    if s.bridges[b].writerOpen && |s.bridges[b].up| < STREAM_CHANNEL_CAP {
      AcceptExact(s, t, b, it);
    } else {
      DroppedExact(s, t, it);
    }
  }

  /** A fresh relay has taken nothing yet. */
  lemma OpenedOne(s: State, t: State, c: nat, gone: bool)
    requires Numbered(s) && Body(s) && s.serverAlive && c < |s.circuits| && c + 1 !in s.serverMap
    requires Inflight(s.uplink, c) != [] && t == Opened(s, c + 1, c, gone)
    ensures Exact(t, c)
  {
    assert Exact(s, c);
    assert AllSent(t.circuits[c], c) == AllSent(s.circuits[c], c);
    assert UpRoute(t.bridges[|s.bridges|]) == [];
    assert [] + Inflight(s.uplink, c) == Inflight(s.uplink, c);
  }

  lemma OpenedNumbered(s: State, t: State, c: nat, gone: bool)
    requires Numbered(s) && c < |s.circuits| && t == Opened(s, c + 1, c, gone)
    ensures Numbered(t)
  {
  }

  lemma OpenedKnown(s: State, t: State, c: nat, gone: bool)
    requires Known(s) && c < |s.circuits| <= MAX_ID && t == Opened(s, c + 1, c, gone)
    ensures Known(t)
  {
  }

  lemma OpenedExact(s: State, t: State, c: nat, gone: bool)
    requires Numbered(s) && Body(s) && s.serverAlive && c < |s.circuits| && c + 1 !in s.serverMap
    requires Inflight(s.uplink, c) != [] && t == Opened(s, c + 1, c, gone)
    ensures Numbered(t) && Body(t)
  {
    OpenedNumbered(s, t, c, gone);
    OpenedKnown(s, t, c, gone);
    forall d: nat | d < |t.circuits|
      ensures Exact(t, d)
    {
      if d == c {
        OpenedOne(s, t, c, gone);
      } else {
        OpenedOther(s, t, c, d, gone);
      }
    }
    forall p: nat | p < |t.uplink| && t.uplink[p].item == None
      ensures LastOfStream(t, p)
    {
      assert LastOfStream(s, p);
    }
  }

  /** A relay opened for another circuit is none of `d`'s. */
  lemma OpenedOther(s: State, t: State, c: nat, d: nat, gone: bool)
    requires Numbered(s) && c < |s.circuits| && d < |s.circuits| && d != c && Exact(s, d)
    requires t == Opened(s, c + 1, c, gone)
    ensures Exact(t, d)
  {
    assert AllSent(t.circuits[d], d) == AllSent(s.circuits[d], d);
  }

  lemma NewBridgeExact(s: State, it: Item, refused: bool, gone: bool)
    requires Numbered(s) && Body(s) && s.serverAlive
    requires it.origin < MAX_ID && s.uplink != [] && s.uplink[0] == Cell(it.origin + 1, Some(it))
    requires it.origin + 1 !in s.serverMap
    ensures Body(NewBridge(s.(uplink := s.uplink[1..]), it.origin + 1, it, refused, gone))
  {
    if |s.serverMap| >= MAX_STREAMS_PER_WIRE || refused {
      CappedExact(s, it, refused, gone);
    } else {
      FirstCellExact(s, it, gone);
    }
  }

  /** A cap turns the stream away. */
  lemma CappedExact(s: State, it: Item, refused: bool, gone: bool)
    requires Numbered(s) && Body(s)
    requires it.origin < MAX_ID && s.uplink != [] && s.uplink[0] == Cell(it.origin + 1, Some(it))
    requires |s.serverMap| >= MAX_STREAMS_PER_WIRE || refused
    ensures Body(NewBridge(s.(uplink := s.uplink[1..]), it.origin + 1, it, refused, gone))
  {
    DroppedExact(s, NewBridge(s.(uplink := s.uplink[1..]), it.origin + 1, it, refused, gone), it);
  }

  /** The stream is opened and its first cell handed over. */
  lemma FirstCellExact(s: State, it: Item, gone: bool)
    requires Numbered(s) && Body(s) && s.serverAlive
    requires it.origin < MAX_ID && s.uplink != [] && s.uplink[0] == Cell(it.origin + 1, Some(it))
    requires it.origin + 1 !in s.serverMap
    ensures Body(ToBridge(Opened(s.(uplink := s.uplink[1..]), it.origin + 1, it.origin, gone),
                          it.origin + 1, |s.bridges|, it))
  {
    var u := Opened(s, it.origin + 1, it.origin, gone);
    HeadOrigin(s, it);
    OpenedExact(s, u, it.origin, gone);
    OpenedCommutes(s, u, it.origin + 1, it.origin, gone);
    ToBridgeExact(u, |s.bridges|, it);
  }

  lemma HeadOrigin(s: State, it: Item)
    requires Numbered(s) && s.uplink != [] && s.uplink[0].item == Some(it)
    ensures it.origin < |s.circuits| && Inflight(s.uplink, it.origin) != []
  {
  }

  lemma OpenedCommutes(s: State, u: State, id: U16, c: nat, gone: bool)
    requires s.uplink != [] && u == Opened(s, id, c, gone)
    ensures id in u.serverMap && u.serverMap[id] == |s.bridges| && u.uplink == s.uplink && u.serverAlive == s.serverAlive
    ensures Opened(s.(uplink := s.uplink[1..]), id, c, gone) == u.(uplink := u.uplink[1..])
  {
  }

  lemma ServerRouteExact(s: State, refused: bool, gone: bool)
    requires Numbered(s) && Body(s)
    ensures Body(Next(s, ServerRoute(refused, gone)))
  {
    if s.uplink != [] && s.serverAlive {
      match s.uplink[0].item
      case None => CloseRouteExact(s, refused, gone);
      case Some(it) =>
        assert s.uplink[0].id == it.origin + 1;
        if it.origin + 1 in s.serverMap {
          ToBridgeExact(s, s.serverMap[it.origin + 1], it);
        } else {
          NewBridgeExact(s, it, refused, gone);
        }
    }
  }

  lemma ServerStopsExact(s: State)
    requires Numbered(s) && Body(s)
    ensures Body(Stopped(s))
  {
    var t := Stopped(s);
    forall c: nat | c < |t.circuits|
      ensures Exact(t, c)
    {
      assert Exact(s, c);
      ExactKept(s, t, c);
    }
    forall p: nat | p < |t.uplink| && t.uplink[p].item == None
      ensures LastOfStream(t, p)
    {
      assert LastOfStream(s, p);
    }
  }

  /** A change inside one relay that only moves its items along. */
  lemma InRelay(s: State, b: nat, y: Bridge)
    requires Body(s) && b < |s.bridges| && y.id == s.bridges[b].id && UpRoute(y) == UpRoute(s.bridges[b])
    ensures Body(WithBridge(s, b, y))
  {
    Aside(s, WithBridge(s, b, y));
  }

  /** A relay that drops what waits behind what it has written: its circuit is charged, unless nothing waits. */
  lemma CutExact(s: State, t: State, b: nat, y: Bridge)
    requires Inv(s) && Body(s) && b < |s.bridges| && y.id == s.bridges[b].id && UpRoute(y) == s.bridges[b].written
    requires t == WithBridge(s, b, y).(lossy := s.lossy + Owners(s.bridges[b].held + s.bridges[b].up))
    ensures Body(t)
  {
    forall c: nat | c < |t.circuits|
      ensures Exact(t, c)
    {
      CutOne(s, t, b, y, c);
    }
    forall p: nat | p < |t.uplink| && t.uplink[p].item == None
      ensures LastOfStream(t, p)
    {
      assert LastOfStream(s, p);
    }
  }

  lemma CutOne(s: State, t: State, b: nat, y: Bridge, c: nat)
    requires b < |s.bridges| && BridgeOk(s, b) && c < |s.circuits| && Exact(s, c)
    requires y.id == s.bridges[b].id && UpRoute(y) == s.bridges[b].written
    requires t == WithBridge(s, b, y).(lossy := s.lossy + Owners(s.bridges[b].held + s.bridges[b].up))
    ensures Exact(t, c)
  {
    var x := s.bridges[b];
    var waiting := x.held + x.up;
    assert AllSent(t.circuits[c], c) == AllSent(s.circuits[c], c);
    assert UpRoute(x) == x.written + waiting;
    if waiting != [] {
      assert waiting[0] in waiting && waiting[0] in UpRoute(x);
    }
  }

  lemma OnDownlink(s: State, down: seq<Cell>, clientMap: map<U16, nat>)
    requires Body(s)
    ensures Body(s.(downlink := down, clientMap := clientMap))
  {
    Aside(s, s.(downlink := down, clientMap := clientMap));
  }

  lemma HoldExact(s: State, b: nat)
    requires Body(s)
    ensures Body(Next(s, RelayHold(b)))
  {
    var t := Next(s, RelayHold(b));
    if t != s {
      var x := s.bridges[b];
      assert x.up == [x.up[0]] + x.up[1..];
      assert UpRoute(t.bridges[b]) == UpRoute(x);
      InRelay(s, b, t.bridges[b]);
    }
  }

  lemma ForwardExact(s: State, b: nat)
    requires Body(s)
    ensures Body(Next(s, RelayForward(b)))
  {
    var t := Next(s, RelayForward(b));
    if t != s {
      var x := s.bridges[b];
      if x.held != [] {
        HeadMoves(x.written, x.held, x.up);
      } else {
        HeadMoves(x.written, x.up, []);
      }
      assert UpRoute(t.bridges[b]) == UpRoute(x);
      InRelay(s, b, t.bridges[b]);
    }
  }

  lemma GateExact(s: State, b: nat)
    requires Body(s)
    ensures Body(Next(s, GateOpens(b)))
  {
    var t := Next(s, GateOpens(b));
    if t != s {
      InRelay(s, b, t.bridges[b]);
    }
  }

  lemma HoldEndsExact(s: State, b: nat)
    requires Inv(s) && Body(s)
    ensures Body(Next(s, RelayHoldEnds(b)))
  {
    var t := Next(s, RelayHoldEnds(b));
    if t != s {
      assert s.bridges[b].held + s.bridges[b].up == s.bridges[b].held;
      CutExact(s, t, b, t.bridges[b]);
    }
  }

  lemma WriterStopsExact(s: State, b: nat)
    requires Inv(s) && Body(s)
    ensures Body(Next(s, RelayWriterStops(b)))
  {
    var t := Next(s, RelayWriterStops(b));
    if t != s {
      CutExact(s, t, b, t.bridges[b]);
    }
  }

  lemma ReplyAside(s: State, step: Step)
    requires Body(s) && (step.BridgeReply? || step.BridgeReaderStops?)
    ensures Body(Next(s, step))
  {
    var t := Next(s, step);
    if t != s {
      InRelay(s, step.b, t.bridges[step.b]);
      OnDownlink(WithBridge(s, step.b, t.bridges[step.b]), t.downlink, t.clientMap);
    }
  }

  lemma CircuitAside(s: State, step: Step)
    requires Body(s) && (step.CircuitDeliver? || step.CircuitWriterStops?)
    ensures Body(Next(s, step))
  {
    Aside(s, Next(s, step));
  }

  lemma ClientAside(s: State)
    requires Body(s)
    ensures Body(RouteDown(s))
  {
    Aside(s, RouteDown(s));
  }

  lemma StepExact(s: State, step: Step)
    requires Inv(s) && Body(s) && |Next(s, step).circuits| <= MAX_ID
    ensures Body(Next(s, step))
  {
    InvNumbered(s);
    match step
    case OpenCircuit => OpenCircuitExact(s);
    case CircuitSend(c, data) => CircuitSendExact(s, c, data);
    case CircuitClose(c, sentinel) => CircuitCloseExact(s, c, sentinel);
    case ServerRoute(refused, gone) => ServerRouteExact(s, refused, gone);
    case ServerStops => ServerStopsExact(s);
    case RelayHold(b) => HoldExact(s, b);
    case RelayHoldEnds(b) => HoldEndsExact(s, b);
    case GateOpens(b) => GateExact(s, b);
    case RelayForward(b) => ForwardExact(s, b);
    case RelayWriterStops(b) => WriterStopsExact(s, b);
    case BridgeReply(_, _) => ReplyAside(s, step);
    case BridgeReaderStops(_, _) => ReplyAside(s, step);
    case ClientRoute => ClientAside(s);
    case CircuitDeliver(_) => CircuitAside(s, step);
    case CircuitWriterStops(_) => CircuitAside(s, step);
  }

  lemma {:induction false} RunExact(steps: seq<Step>)
    requires Unwrapped(steps)
    ensures Body(Run(steps))
  {
    if steps != [] {
      StillUnwrapped(steps);
      RunExact(steps[..|steps| - 1]);
      RunKeeps(steps[..|steps| - 1]);
      StepExact(Run(steps[..|steps| - 1]), steps[|steps| - 1]);
    }
  }

  /** Exact upstream delivery: a circuit none of whose cells was dropped has one bridge connection at most, and what
      that has been written, followed by what its relay holds, has queued, and what is on the wire, is exactly what
      the circuit sent. */
  lemma ExactDelivery(steps: seq<Step>, c: nat)
    requires Unwrapped(steps) && c < |Run(steps).circuits| && c !in Run(steps).lossy
    ensures
      var s := Run(steps);
      match s.circuits[c].bridge
      case None => NoBridge(s, s.circuits[c].id) && Inflight(s.uplink, c) == AllSent(s.circuits[c], c)
      case Some(b) =>
        && b < |s.bridges| && OnlyBridge(s, s.circuits[c].id, b)
        && s.bridges[b].written + s.bridges[b].held + s.bridges[b].up + Inflight(s.uplink, c) == AllSent(s.circuits[c], c)
  {
    RunExact(steps);
    RunKeeps(steps);
    var s := Run(steps);
    assert Exact(s, c);
    assert CircuitOk(s, c);
  }
}
