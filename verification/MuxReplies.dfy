/** When nothing is dropped, a circuit receives exactly what its bridge connections replied. */
module MuxReplies {
  import opened Base
  import opened Cells
  import opened MuxRouting
  import opened MuxIsolation

  /** The items of bridge `b`, in order. */
  function From(items: seq<Item>, b: nat): seq<Item> {
    if items == [] then []
    else (if items[0].origin == b then [items[0]] else []) + From(items[1..], b)
  }

  lemma {:induction false} FromAppend(x: seq<Item>, y: seq<Item>, b: nat)
    ensures From(x + y, b) == From(x, b) + From(y, b)
  {
    if x == [] {
      assert x + y == y;
    } else {
      assert (x + y)[0] == x[0] && (x + y)[1..] == x[1..] + y;
      FromAppend(x[1..], y, b);
    }
  }

  lemma {:induction false} NoneFrom(items: seq<Item>, b: nat)
    requires forall i :: 0 <= i < |items| ==> items[i].origin != b
    ensures From(items, b) == []
  {
    if items != [] {
      NoneFrom(items[1..], b);
    }
  }

  /** Everything bridge connection `b` has replied. */
  function AllReplies(x: Bridge, b: nat): seq<Item> {
    seq(|x.replies|, i requires 0 <= i < |x.replies| => Item(b, i, x.replies[i]))
  }

  /** The downlink of circuit `c`, oldest first: passed on, in its channel, and on the wire for whomever. */
  function Downstream(s: State, c: nat): seq<Item>
    requires c < |s.circuits|
  {
    DownRoute(s.circuits[c]) + Items(s.downlink)
  }

  /** While no reply of `b` was dropped, all of them are on their way to, or with, the circuit it was opened for. */
  ghost predicate Whole(s: State, b: nat)
    requires b < |s.bridges|
  {
    var id := s.bridges[b].id;
    && 0 < id <= |s.circuits|
    && (b !in s.lossyDown ==> From(Downstream(s, id - 1), b) == AllReplies(s.bridges[b], b))
  }

  ghost predicate AllWhole(s: State) {
    forall b :: 0 <= b < |s.bridges| ==> Whole(s, b)
  }

  /** Nothing that concerns `b` has changed: its replies, its circuit's downlink, and the part of the wire that is its. */
  lemma WholeKept(s: State, t: State, b: nat)
    requires b < |s.bridges| && b < |t.bridges| && Whole(s, b)
    requires t.bridges[b].id == s.bridges[b].id && t.bridges[b].replies == s.bridges[b].replies
    requires |s.circuits| <= |t.circuits| && DownRoute(t.circuits[s.bridges[b].id - 1]) == DownRoute(s.circuits[s.bridges[b].id - 1])
    requires From(Items(t.downlink), b) == From(Items(s.downlink), b)
    requires b in s.lossyDown ==> b in t.lossyDown
    ensures Whole(t, b)
  {
    var c := s.bridges[b].id - 1;
    FromAppend(DownRoute(s.circuits[c]), Items(s.downlink), b);
    FromAppend(DownRoute(t.circuits[c]), Items(t.downlink), b);
    assert AllReplies(t.bridges[b], b) == AllReplies(s.bridges[b], b);
  }

  /** Steps that leave every downlink part, every reply and the items on the wire alone, and add no relay. */
  lemma AllKept(s: State, t: State)
    requires AllWhole(s) && |t.bridges| == |s.bridges| && |s.circuits| <= |t.circuits|
    requires Items(t.downlink) == Items(s.downlink) && s.lossyDown <= t.lossyDown
    requires forall b :: 0 <= b < |s.bridges| ==> t.bridges[b].id == s.bridges[b].id && t.bridges[b].replies == s.bridges[b].replies
    requires forall c :: 0 <= c < |s.circuits| ==> DownRoute(t.circuits[c]) == DownRoute(s.circuits[c])
    ensures AllWhole(t)
  {
    forall b: nat | b < |t.bridges|
      ensures Whole(t, b)
    {
      assert Whole(s, b);
      WholeKept(s, t, b);
    }
  }

  /** A relay that has just been started has replied nothing, and nothing of it is under way. */
  lemma FreshWhole(t: State, b: nat)
    requires Inv(t) && b < |t.bridges| && 0 < t.bridges[b].id <= |t.circuits| && t.bridges[b].replies == []
    ensures Whole(t, b)
  {
    var items := Downstream(t, t.bridges[b].id - 1);
    forall i | 0 <= i < |items|
      ensures items[i].origin != b
    {
      var c := t.bridges[b].id - 1;
      assert CircuitOk(t, c);
      if i < |DownRoute(t.circuits[c])| {
        assert items[i] in DownRoute(t.circuits[c]);
      } else {
        assert items[i] in Items(t.downlink);
        ItemsMember(t.downlink, items[i]);
        var k :| 0 <= k < |t.downlink| && t.downlink[k].item == Some(items[i]);
        assert t.downlink[k].item.Some?;
      }
    }
    NoneFrom(items, b);
  }

  lemma OpenedWhole(s: State, t: State, id: U16, c: nat, gone: bool)
    requires AllWhole(s) && 0 < id <= |s.circuits| && t == Opened(s, id, c, gone) && Inv(t)
    ensures AllWhole(t)
  {
    forall b: nat | b < |t.bridges|
      ensures Whole(t, b)
    {
      if b < |s.bridges| {
        assert Whole(s, b);
        WholeKept(s, t, b);
      } else {
        FreshWhole(t, b);
      }
    }
  }

  lemma SentinelWhole(s: State, t: State, id: U16)
    requires AllWhole(s) && t == s.(downlink := s.downlink + [Cell(id, None)])
    ensures AllWhole(t)
  {
    ItemsSnoc(s.downlink, Cell(id, None));
    AllKept(s, t);
  }

  lemma ToBridgeWhole(s: State, id: U16, b: nat, it: Item)
    requires AllWhole(s)
    ensures AllWhole(ToBridge(s, id, b, it))
  {
    AllKept(s, ToBridge(s, id, b, it));
  }

  lemma NewBridgeWhole(s: State, id: U16, it: Item, refused: bool, gone: bool)
    requires Inv(s) && AllWhole(s) && id !in s.serverMap && 0 < id <= |s.circuits|
    ensures AllWhole(NewBridge(s, id, it, refused, gone))
  {
    if |s.serverMap| >= MAX_STREAMS_PER_WIRE || refused {
      AllKept(s, NewBridge(s, id, it, refused, gone));
    } else {
      var u := Opened(s, id, it.origin, gone);
      OpenedKeeps(s, id, it.origin, gone);
      OpenedWhole(s, u, id, it.origin, gone);
      ToBridgeWhole(u, id, |s.bridges|, it);
    }
  }

  lemma ServerRouteWhole(s: State, refused: bool, gone: bool)
    requires Inv(s) && AllWhole(s)
    ensures AllWhole(RouteUp(s, refused, gone))
  {
    if s.uplink != [] && s.serverAlive {
      var cell, t := s.uplink[0], s.(uplink := s.uplink[1..]);
      AllKept(s, t);
      WiresMoved(s, t);
      match cell.item
      case None =>
        AllKept(t, Detached(t, cell.id));
        SentinelWhole(Detached(t, cell.id), RouteUp(s, refused, gone), cell.id);
      case Some(it) =>
        assert SentBy(s, it) && cell.id == it.origin + 1;
        if cell.id in t.serverMap {
          ToBridgeWhole(t, cell.id, t.serverMap[cell.id], it);
        } else {
          NewBridgeWhole(t, cell.id, it, refused, gone);
        }
    }
  }

  lemma ReplyWhole(s: State, b: nat, data: seq<Byte>)
    requires AllWhole(s)
    ensures AllWhole(Next(s, BridgeReply(b, data)))
  {
    var t := Next(s, BridgeReply(b, data));
    if t != s {
      var it := Item(b, |s.bridges[b].replies|, data);
      ItemsSnoc(s.downlink, Cell(s.bridges[b].id, Some(it)));
      forall d: nat | d < |t.bridges|
        ensures Whole(t, d)
      {
        assert Whole(s, d);
        FromAppend(Items(s.downlink), [it], d);
        assert From([it], d) == if d == b then [it] else [];
        if d == b {
          RepliesGrow(s, t, b, it);
        } else {
          WholeKept(s, t, d);
        }
      }
    }
  }

  lemma RepliesGrow(s: State, t: State, b: nat, it: Item)
    requires b < |s.bridges| && b < |t.bridges| && Whole(s, b) && t.circuits == s.circuits && t.lossyDown == s.lossyDown
    requires t.bridges[b].id == s.bridges[b].id && t.bridges[b].replies == s.bridges[b].replies + [it.data]
    requires it == Item(b, |s.bridges[b].replies|, it.data)
    requires From(Items(t.downlink), b) == From(Items(s.downlink), b) + [it]
    ensures Whole(t, b)
  {
    var c := s.bridges[b].id - 1;
    FromAppend(DownRoute(s.circuits[c]), Items(s.downlink), b);
    FromAppend(DownRoute(t.circuits[c]), Items(t.downlink), b);
    assert AllReplies(t.bridges[b], b) == AllReplies(s.bridges[b], b) + [it];
  }

  /** Circuit `c` has been given the items `more`. */
  ghost predicate Given(s: State, t: State, c: nat, more: seq<Item>)
    requires c < |s.circuits| && c < |t.circuits|
  {
    DownRoute(t.circuits[c]) == DownRoute(s.circuits[c]) + more
  }

  /** The head of the downlink goes to the circuit of its id, or is charged to its bridge; no other circuit is
      given anything. */
  lemma HeadGoes(s: State, t: State, it: Item, c: nat)
    requires Inv(s) && s.downlink != [] && s.downlink[0].item == Some(it) && t == RouteDown(s) && c < |s.circuits|
    ensures t.downlink == s.downlink[1..] && |t.circuits| == |s.circuits|
    ensures t.bridges == s.bridges && s.lossyDown <= t.lossyDown
    ensures c + 1 != s.downlink[0].id ==> Given(s, t, c, [])
    ensures c + 1 == s.downlink[0].id ==> Given(s, t, c, []) || Given(s, t, c, [it])
    ensures c + 1 == s.downlink[0].id && it.origin !in t.lossyDown ==> Given(s, t, c, [it])
  {
  }

  /** For every other bridge nothing has changed. */
  lemma RouteDownOther(s: State, t: State, it: Item, b: nat, more: seq<Item>)
    requires b < |s.bridges| && Whole(s, b) && it.origin != b
    requires s.downlink != [] && s.downlink[0].item == Some(it) && t.downlink == s.downlink[1..]
    requires |t.circuits| == |s.circuits| && t.bridges == s.bridges && s.lossyDown <= t.lossyDown
    requires (more == [] || more == [it]) && Given(s, t, s.bridges[b].id - 1, more)
    ensures Whole(t, b)
  {
    var c := s.bridges[b].id - 1;
    var rest := Items(t.downlink);
    FromAppend([it], rest, b);
    FromAppend(DownRoute(s.circuits[c]), more, b);
    FromAppend(DownRoute(s.circuits[c]), [it] + rest, b);
    FromAppend(DownRoute(t.circuits[c]), rest, b);
    NoneFrom(more, b);
    NoneFrom([it], b);
  }

  /** The head of the downlink leaves the wire: for its own bridge it is with the circuit or charged as lost. */
  lemma RouteDownOne(s: State, t: State, it: Item, b: nat)
    requires Inv(s) && s.downlink != [] && s.downlink[0].item == Some(it) && t == RouteDown(s)
    requires b < |s.bridges| && Whole(s, b)
    ensures Whole(t, b)
  {
    var c := s.bridges[b].id - 1;
    HeadGoes(s, t, it, c);
    if it.origin != b {
      RouteDownOther(s, t, it, b, if Given(s, t, c, []) then [] else [it]);
    } else {
      assert s.downlink[0].item.Some? && s.bridges[b].id == s.downlink[0].id;
      RouteDownOwn(s, t, it, b);
    }
  }

  lemma RouteDownOwn(s: State, t: State, it: Item, b: nat)
    requires b < |s.bridges| && Whole(s, b)
    requires s.downlink != [] && s.downlink[0].item == Some(it) && t.downlink == s.downlink[1..]
    requires |t.circuits| == |s.circuits| && t.bridges == s.bridges && s.lossyDown <= t.lossyDown
    requires b !in t.lossyDown ==> Given(s, t, s.bridges[b].id - 1, [it])
    ensures Whole(t, b)
  {
    var c := s.bridges[b].id - 1;
    if b !in t.lossyDown {
      assert Items(s.downlink) == [it] + Items(t.downlink);
      assert Downstream(t, c) == Downstream(s, c);
    }
  }

  lemma ClientRouteWhole(s: State)
    requires Inv(s) && AllWhole(s)
    ensures AllWhole(RouteDown(s))
  {
    var t := RouteDown(s);
    if s.downlink != [] {
      match s.downlink[0].item
      case None => AllKept(s, t);
      case Some(it) =>
        forall b: nat | b < |t.bridges|
          ensures Whole(t, b)
        {
          assert Whole(s, b);
          RouteDownOne(s, t, it, b);
        }
    }
  }

  lemma ReaderStopsWhole(s: State, b: nat, sentinel: bool)
    requires AllWhole(s)
    ensures AllWhole(Next(s, BridgeReaderStops(b, sentinel)))
  {
    var t := Next(s, BridgeReaderStops(b, sentinel));
    if t != s {
      ItemsSnoc(s.downlink, Cell(s.bridges[b].id, None));
      AllKept(s, t);
    }
  }

  lemma DeliverWhole(s: State, c: nat)
    requires AllWhole(s)
    ensures AllWhole(Next(s, CircuitDeliver(c)))
  {
    var t := Next(s, CircuitDeliver(c));
    if t != s {
      var x := s.circuits[c];
      assert x.down == [x.down[0]] + x.down[1..];
      AllKept(s, t);
    }
  }

  /** A circuit whose writer stops drops what waits in its channel: the bridges it came from are charged, and the
      others have nothing there. */
  lemma WriterStopsOne(s: State, t: State, c: nat, b: nat)
    requires c < |s.circuits| && b < |s.bridges| && Whole(s, b)
    requires t == WithCircuit(s, c, s.circuits[c].(writerOpen := false, down := []))
                    .(lossyDown := s.lossyDown + Owners(s.circuits[c].down))
    ensures Whole(t, b)
  {
    var d := s.bridges[b].id - 1;
    assert AllReplies(t.bridges[b], b) == AllReplies(s.bridges[b], b);
    if d == c {
      var x := s.circuits[c];
      assert DownRoute(t.circuits[c]) == x.delivered;
      if b !in Owners(x.down) {
        FromCut(x.delivered, x.down, Items(s.downlink), b);
      }
    }
  }

  lemma FromCut(x: seq<Item>, y: seq<Item>, z: seq<Item>, b: nat)
    requires b !in Owners(y)
    ensures From(x + z, b) == From((x + y) + z, b)
  {
    assert forall i :: 0 <= i < |y| ==> y[i] in y;
    NoneFrom(y, b);
    FromAppend(x, z, b);
    FromAppend(x, y, b);
    FromAppend(x + y, z, b);
  }

  lemma WriterStopsWhole(s: State, c: nat)
    requires AllWhole(s)
    ensures AllWhole(Next(s, CircuitWriterStops(c)))
  {
    var t := Next(s, CircuitWriterStops(c));
    if t != s {
      forall b: nat | b < |t.bridges|
        ensures Whole(t, b)
      {
        assert Whole(s, b);
        WriterStopsOne(s, t, c, b);
      }
    }
  }

  lemma CircuitStepWhole(s: State, step: Step)
    requires AllWhole(s)
    requires step.OpenCircuit? || step.CircuitSend? || step.CircuitClose?
    ensures AllWhole(Next(s, step))
  {
    AllKept(s, Next(s, step));
  }

  lemma RelayStepWhole(s: State, step: Step)
    requires AllWhole(s)
    requires step.RelayHold? || step.RelayHoldEnds? || step.GateOpens? || step.RelayForward? || step.RelayWriterStops?
    ensures AllWhole(Next(s, step))
  {
    if Next(s, step) != s {
      RelayChangedWhole(s, Next(s, step), step.b);
    }
  }

  /** A change inside one relay that leaves its replies alone. */
  lemma RelayChangedWhole(s: State, t: State, b: nat)
    requires AllWhole(s) && t.circuits == s.circuits && t.downlink == s.downlink && t.lossyDown == s.lossyDown
    requires b < |s.bridges| == |t.bridges|
    requires t.bridges[b].id == s.bridges[b].id && t.bridges[b].replies == s.bridges[b].replies
    requires forall d :: 0 <= d < |s.bridges| && d != b ==> t.bridges[d] == s.bridges[d]
    ensures AllWhole(t)
  {
    AllKept(s, t);
  }

  lemma StepWhole(s: State, step: Step)
    requires Inv(s) && AllWhole(s)
    ensures AllWhole(Next(s, step))
  {
    match step
    case ServerRoute(refused, gone) => ServerRouteWhole(s, refused, gone);
    case ServerStops => AllKept(s, Stopped(s));
    case ClientRoute => ClientRouteWhole(s);
    case BridgeReply(b, data) => ReplyWhole(s, b, data);
    case BridgeReaderStops(b, sentinel) => ReaderStopsWhole(s, b, sentinel);
    case CircuitDeliver(c) => DeliverWhole(s, c);
    case OpenCircuit => CircuitStepWhole(s, step);
    case CircuitSend(_, _) => CircuitStepWhole(s, step);
    case CircuitClose(_, _) => CircuitStepWhole(s, step);
    case CircuitWriterStops(c) => WriterStopsWhole(s, c);
    case _ => RelayStepWhole(s, step);
  }

  lemma {:induction false} RunWhole(steps: seq<Step>)
    requires Unwrapped(steps)
    ensures AllWhole(Run(steps))
  {
    if steps != [] {
      StillUnwrapped(steps);
      RunWhole(steps[..|steps| - 1]);
      RunKeeps(steps[..|steps| - 1]);
      StepWhole(Run(steps[..|steps| - 1]), steps[|steps| - 1]);
    }
  }

  /** Exact downstream delivery: a bridge connection none of whose replies was dropped has all of them, in order,
      with the circuit it was opened for, in that circuit's channel, or on the wire - whatever other connections
      of the same id sent in between. */
  lemma ExactReplies(steps: seq<Step>, b: nat)
    requires Unwrapped(steps) && b < |Run(steps).bridges| && b !in Run(steps).lossyDown
    ensures
      var s := Run(steps);
      var c := s.bridges[b].id - 1;
      && 0 <= c < |s.circuits|
      && From(s.circuits[c].delivered, b) + From(s.circuits[c].down, b) + From(Items(s.downlink), b)
         == AllReplies(s.bridges[b], b)
  {
    RunWhole(steps);
    var s := Run(steps);
    assert Whole(s, b);
    var x := s.circuits[s.bridges[b].id - 1];
    FromAppend(DownRoute(x), Items(s.downlink), b);
    FromAppend(x.delivered, x.down, b);
  }
}
