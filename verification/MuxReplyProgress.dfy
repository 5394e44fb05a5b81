/** What the tasks of a mux wire still can do downstream: when the replies of a bridge can all reach their circuit. */
module MuxReplyProgress {
  import opened Base
  import opened MuxStreams
  import opened MuxRouting
  import opened MuxIsolation
  import opened MuxExactness
  import opened MuxReplies
  import opened MuxReplyLosses
  import opened MuxProgress

  /** No close of `id` is on the downlink ahead of the last reply of bridge `b`. */
  predicate Through(cells: seq<Cell>, b: nat, id: U16) {
    From(Items(cells), b) == [] || (cells[0] != Cell(id, None) && Through(cells[1..], b, id))
  }

  /** The client routes `id` to a circuit that still writes. */
  predicate Reachable(s: State, id: U16) {
    id in s.clientMap && 0 < id <= |s.circuits| && s.circuits[id - 1].writerOpen
  }

  /** Nothing of bridge `b` is lost, and what is on the downlink can be brought to its circuit. */
  predicate OpenDown(s: State, b: nat) {
    && b < |s.bridges| && b !in s.lossyDown
    && (From(Items(s.downlink), b) == [] ||
        (Reachable(s, s.bridges[b].id) && Through(s.downlink, b, s.bridges[b].id)))
  }

  /** Everything bridge `b` replied has been passed on to its circuit. */
  predicate AllPassedOn(s: State, b: nat) {
    && b < |s.bridges| && 0 < s.bridges[b].id <= |s.circuits|
    && From(s.circuits[s.bridges[b].id - 1].delivered, b) == AllReplies(s.bridges[b], b)
  }

  // --- A bridge that is open: bringing everything through ----------------------------

  /** A circuit that has passed on all it had. */
  function PassedOn(x: Circuit): Circuit { x.(delivered := DownRoute(x), down := []) }

  lemma CircuitChangedTwice(s: State, c: nat, y: Circuit, z: Circuit)
    requires c < |s.circuits|
    ensures WithCircuit(WithCircuit(s, c, y), c, z) == WithCircuit(s, c, z)
    ensures WithCircuit(s, c, s.circuits[c]) == s
  {
  }

  lemma DeliverOne(s: State, c: nat) returns (y: Circuit)
    requires c < |s.circuits| && s.circuits[c].writerOpen && s.circuits[c].down != []
    ensures Next(s, CircuitDeliver(c)) == WithCircuit(s, c, y) && PassedOn(y) == PassedOn(s.circuits[c])
    ensures y.writerOpen && |y.down| + 1 == |s.circuits[c].down|
  {
    var x := s.circuits[c];
    y := x.(delivered := x.delivered + [x.down[0]], down := x.down[1..]);
    assert x.down == [x.down[0]] + x.down[1..];
  }

  lemma {:induction false} Delivers(s: State, c: nat, n: nat)
    requires c < |s.circuits| && s.circuits[c].writerOpen && n == |s.circuits[c].down|
    ensures RunFrom(s, Repeat(CircuitDeliver(c), n)) == WithCircuit(s, c, PassedOn(s.circuits[c]))
    decreases n
  {
    var x := s.circuits[c];
    if n == 0 {
      assert PassedOn(x) == x;
      CircuitChangedTwice(s, c, x, x);
    } else {
      RepeatCons(CircuitDeliver(c), n);
      RunFromCons(s, CircuitDeliver(c), Repeat(CircuitDeliver(c), n - 1));
      var y := DeliverOne(s, c);
      Delivers(WithCircuit(s, c, y), c, n - 1);
      CircuitChangedTwice(s, c, y, PassedOn(x));
    }
  }

  /** With nothing of `b` on the downlink, its circuit passes on what it has. */
  lemma PassesOnRest(s: State, b: nat) returns (future: seq<Step>)
    requires Sound(s) && OpenDown(s, b) && From(Items(s.downlink), b) == []
    ensures AllPassedOn(RunFrom(s, future), b) && |RunFrom(s, future).circuits| == |s.circuits|
  {
    assert Whole(s, b);
    var c := s.bridges[b].id - 1;
    var x := s.circuits[c];
    FromAppend(DownRoute(x), Items(s.downlink), b);
    if x.writerOpen {
      future := Repeat(CircuitDeliver(c), |x.down|);
      DeliversAll(s, b, c, |x.down|);
    } else {
      future := [];
      assert DownRoute(x) == x.delivered;
    }
  }

  lemma DeliversAll(s: State, b: nat, c: nat, n: nat)
    requires b < |s.bridges| && c < |s.circuits| && c + 1 == s.bridges[b].id && s.circuits[c].writerOpen
    requires n == |s.circuits[c].down| && From(DownRoute(s.circuits[c]), b) == AllReplies(s.bridges[b], b)
    ensures
      var t := RunFrom(s, Repeat(CircuitDeliver(c), n));
      AllPassedOn(t, b) && |t.circuits| == |s.circuits|
  {
    Delivers(s, c, n);
  }

  ghost predicate ReadyDown(s: State, b: nat) {
    Sound(s) && OpenDown(s, b) && From(Items(s.downlink), b) != []
  }

  /** One cell fewer on the downlink, and bridge `b` still open. */
  ghost predicate AdvancesDown(s: State, t: State, b: nat) {
    && Sound(t) && |t.circuits| == |s.circuits| && OpenDown(t, b)
    && s.downlink != [] && t.downlink == s.downlink[1..]
  }

  /** Routing the head of the downlink, when circuit `c` has room, neither closes its entry nor drops what is its. */
  lemma RoutedOpen(s: State, b: nat, c: nat)
    requires OpenDown(s, b) && From(Items(s.downlink), b) != [] && c + 1 == s.bridges[b].id
    requires s.circuits[c].down == [] && s.clientMap[c + 1] == c
    requires forall id :: id in s.clientMap ==> id == s.clientMap[id] + 1
    requires s.downlink[0].item.Some? && s.downlink[0].item.value.origin == b ==> s.downlink[0].id == c + 1
    ensures OpenDown(RouteDown(s), b) && RouteDown(s).downlink == s.downlink[1..]
  {
    var x := s.downlink[0];
    assert x != Cell(c + 1, None) && Through(s.downlink[1..], b, c + 1);
  }

  lemma DeliveredOpen(s: State, b: nat, c: nat, n: nat)
    requires OpenDown(s, b) && From(Items(s.downlink), b) != [] && c + 1 == s.bridges[b].id && n == |s.circuits[c].down|
    requires s.clientMap[c + 1] == c && forall id :: id in s.clientMap ==> id == s.clientMap[id] + 1
    requires s.downlink[0].item.Some? && s.downlink[0].item.value.origin == b ==> s.downlink[0].id == c + 1
    ensures
      var t := RunFrom(s, Repeat(CircuitDeliver(c), n) + [ClientRoute]);
      OpenDown(t, b) && t.downlink == s.downlink[1..]
  {
    var u := WithCircuit(s, c, PassedOn(s.circuits[c]));
    Delivers(s, c, n);
    RunFromAppend(s, Repeat(CircuitDeliver(c), n), [ClientRoute]);
    RunFromCons(u, ClientRoute, []);
    assert [ClientRoute] + [] == [ClientRoute];
    RoutedOpen(u, b, c);
  }

  lemma AdvanceDown(s: State, b: nat, c: nat, n: nat)
    requires ReadyDown(s, b) && c + 1 == s.bridges[b].id && n == |s.circuits[c].down|
    ensures AdvancesDown(s, RunFrom(s, Repeat(CircuitDeliver(c), n) + [ClientRoute]), b)
  {
    SoundFrom(s, Repeat(CircuitDeliver(c), n) + [ClientRoute]);
    if s.downlink[0].item.Some? && s.downlink[0].item.value.origin == b {
      assert s.bridges[s.downlink[0].item.value.origin].id == s.downlink[0].id;
    }
    DeliveredOpen(s, b, c, n);
  }

  lemma {:induction false} BringsReplies(s: State, b: nat) returns (future: seq<Step>)
    requires Sound(s) && OpenDown(s, b)
    ensures AllPassedOn(RunFrom(s, future), b) && |RunFrom(s, future).circuits| == |s.circuits|
    decreases |s.downlink|
  {
    if From(Items(s.downlink), b) == [] {
      future := PassesOnRest(s, b);
    } else {
      var c := s.bridges[b].id - 1;
      var n := |s.circuits[c].down|;
      AdvanceDown(s, b, c, n);
      var first := Repeat(CircuitDeliver(c), n) + [ClientRoute];
      var rest := BringsReplies(RunFrom(s, first), b);
      RunFromAppend(s, first, rest);
      future := first + rest;
    }
  }

  // --- A bridge that is not open stays so ----------------------------------------------

  lemma {:induction false} ItemsAppend(a: seq<Cell>, b: seq<Cell>)
    ensures Items(a + b) == Items(a) + Items(b)
  {
    if a == [] {
      assert a + b == b;
    } else {
      assert (a + b)[0] == a[0] && (a + b)[1..] == a[1..] + b;
      ItemsAppend(a[1..], b);
    }
  }

  lemma {:induction false} ThroughPrefix(a: seq<Cell>, more: seq<Cell>, b: nat, id: U16)
    requires Through(a + more, b, id)
    ensures Through(a, b, id)
  {
    ItemsAppend(a, more);
    FromAppend(Items(a), Items(more), b);
    if From(Items(a), b) != [] {
      assert (a + more)[0] == a[0] && (a + more)[1..] == a[1..] + more;
      ThroughPrefix(a[1..], more, b, id);
    }
  }

  /** Nothing came nearer for bridge `b`: cells may have been added to the downlink, circuits stopped. */
  ghost predicate NoNearerDown(s: State, t: State, b: nat) {
    && b < |s.bridges| <= |t.bridges| && t.bridges[b].id == s.bridges[b].id && s.bridges[b].id <= |s.circuits|
    && s.downlink <= t.downlink && s.lossyDown <= t.lossyDown
    && (Reachable(t, s.bridges[b].id) ==> Reachable(s, s.bridges[b].id))
  }

  lemma StaysShutDown(s: State, t: State, b: nat)
    requires NoNearerDown(s, t, b) && !OpenDown(s, b)
    ensures !OpenDown(t, b)
  {
    var more := t.downlink[|s.downlink|..];
    assert t.downlink == s.downlink + more;
    ItemsAppend(s.downlink, more);
    FromAppend(Items(s.downlink), Items(more), b);
    if Through(t.downlink, b, s.bridges[b].id) {
      ThroughPrefix(s.downlink, more, b, s.bridges[b].id);
    }
  }

  /** The client's side is as it was, and the downlink has at most grown. */
  ghost predicate SameClient(s: State, t: State) {
    && |t.circuits| == |s.circuits| && (forall c :: 0 <= c < |s.circuits| ==> t.circuits[c].writerOpen == s.circuits[c].writerOpen)
    && t.clientMap == s.clientMap && t.lossyDown == s.lossyDown && s.downlink <= t.downlink
    && |s.bridges| <= |t.bridges| && (forall b :: 0 <= b < |s.bridges| ==> t.bridges[b].id == s.bridges[b].id)
  }

  lemma ToBridgeSameClient(s: State, u: State, id: U16, b: nat, it: Item)
    requires SameClient(s, u)
    ensures SameClient(s, ToBridge(u, id, b, it))
  {
  }

  lemma OpenedSameClient(s: State, u: State, id: U16, c: nat, gone: bool)
    requires SameClient(s, u)
    ensures SameClient(s, Opened(u, id, c, gone))
  {
  }

  lemma RouteUpSameClient(s: State, refused: bool, gone: bool)
    ensures SameClient(s, RouteUp(s, refused, gone))
  {
    if s.uplink != [] && s.serverAlive && s.uplink[0].item.Some? {
      var id, it, u := s.uplink[0].id, s.uplink[0].item.value, s.(uplink := s.uplink[1..]);
      if id in u.serverMap {
        ToBridgeSameClient(s, u, id, u.serverMap[id], it);
      } else {
        OpenedSameClient(s, u, id, it.origin, gone);
        ToBridgeSameClient(s, Opened(u, id, it.origin, gone), id, |u.bridges|, it);
      }
    }
  }

  lemma OpenNoNearer(s: State, b: nat)
    requires MapsOk(s) && b < |s.bridges| && s.bridges[b].id <= |s.circuits| && |Next(s, OpenCircuit).circuits| <= MAX_ID
    ensures NoNearerDown(s, Next(s, OpenCircuit), b)
  {
    if |s.circuits| < MAX_ID {
      OpensNext(s);
    }
  }

  lemma ReplySameClient(s: State, step: Step)
    requires step.BridgeReply? || step.BridgeReaderStops?
    ensures SameClient(s, Next(s, step))
  {
  }

  lemma RelayStepSameClient(s: State, step: Step)
    requires AtRelay(step)
    ensures SameClient(s, Next(s, step))
  {
    if step.BridgeReply? || step.BridgeReaderStops? {
      ReplySameClient(s, step);
    }
  }

  lemma CircuitStepNoNearerDown(s: State, step: Step, b: nat)
    requires b < |s.bridges| && s.bridges[b].id <= |s.circuits|
    requires !AtRelay(step) && !step.ClientRoute? && !step.OpenCircuit? && !step.ServerRoute?
    ensures NoNearerDown(s, Next(s, step), b)
  {
  }

  lemma StepNoNearerDown(s: State, step: Step, b: nat)
    requires MapsOk(s) && b < |s.bridges| && s.bridges[b].id <= |s.circuits|
    requires |Next(s, step).circuits| <= MAX_ID && !step.ClientRoute?
    ensures NoNearerDown(s, Next(s, step), b)
  {
    if AtRelay(step) {
      RelayStepSameClient(s, step);
    } else if step.OpenCircuit? {
      OpenNoNearer(s, b);
    } else if step.ServerRoute? {
      RouteUpSameClient(s, step.refused, step.gone);
    } else {
      CircuitStepNoNearerDown(s, step, b);
    }
  }

  lemma ClientRouteShut(s: State, b: nat)
    requires MapsOk(s) && b < |s.bridges| && !OpenDown(s, b)
    requires s.downlink != [] && s.downlink[0].item.Some? && s.downlink[0].item.value.origin == b ==>
      s.downlink[0].id == s.bridges[b].id
    ensures !OpenDown(RouteDown(s), b)
  {
    if s.downlink != [] && b !in RouteDown(s).lossyDown {
      var id, rest := s.bridges[b].id, s.downlink[1..];
      RoutedDown(s);
      assert b !in s.lossyDown && From(Items(s.downlink), b) != [];
      if s.downlink[0].item.Some? && s.downlink[0].item.value.origin == b {
        assert Reachable(s, id) && !Through(rest, b, id);
      } else {
        HeadIsOther(s.downlink, b);
        assert s.downlink[0] == Cell(id, None) || !Reachable(s, id) || !Through(rest, b, id);
      }
    }
  }

  lemma HeadIsOther(cells: seq<Cell>, b: nat)
    requires cells != [] && (cells[0].item.Some? ==> cells[0].item.value.origin != b)
    ensures From(Items(cells[1..]), b) == From(Items(cells), b)
  {
    var head := if cells[0].item.Some? then [cells[0].item.value] else [];
    FromAppend(head, Items(cells[1..]), b);
    NoneFrom(head, b);
  }

  lemma RoutedDown(s: State)
    requires MapsOk(s) && s.downlink != []
    ensures
      var x, t := s.downlink[0], RouteDown(s);
      && t.downlink == s.downlink[1..] && s.lossyDown <= t.lossyDown && t.bridges == s.bridges
      && t.clientMap.Keys <= s.clientMap.Keys && |t.circuits| == |s.circuits|
      && (forall c :: 0 <= c < |s.circuits| ==> t.circuits[c].writerOpen == s.circuits[c].writerOpen)
      && (x.item == None ==> x.id !in t.clientMap)
      && (x.item.Some? && x.item.value.origin !in t.lossyDown ==> Reachable(s, x.id))
  {
    if ClientTakes(s) {
      assert Reachable(s, s.downlink[0].id);
    } else {
      HeadDropped(s);
    }
  }

  lemma StepShutDown(s: State, step: Step, b: nat)
    requires Sound(s) && b < |s.bridges| && !OpenDown(s, b) && |Next(s, step).circuits| <= MAX_ID
    ensures !OpenDown(Next(s, step), b)
  {
    if step.ClientRoute? {
      if s.downlink != [] && s.downlink[0].item.Some? && s.downlink[0].item.value.origin == b {
        assert s.bridges[s.downlink[0].item.value.origin].id == s.downlink[0].id;
      }
      ClientRouteShut(s, b);
    } else {
      assert Whole(s, b);
      StepNoNearerDown(s, step, b);
      StaysShutDown(s, Next(s, step), b);
    }
  }

  /** Relays are only ever added. */
  lemma BridgesStay(s: State, step: Step)
    ensures |s.bridges| <= |Next(s, step).bridges|
  {
    if step.ServerRoute? {
      RouteUpSameClient(s, step.refused, step.gone);
    }
  }

  lemma {:induction false} ShutDownFrom(s: State, future: seq<Step>, b: nat)
    requires Sound(s) && b < |s.bridges| && !OpenDown(s, b) && |RunFrom(s, future).circuits| <= MAX_ID
    ensures !OpenDown(RunFrom(s, future), b)
    decreases |future|
  {
    if future != [] {
      CircuitsStayFrom(Next(s, future[0]), future[1..]);
      StepSound(s, future[0]);
      BridgesStay(s, future[0]);
      StepShutDown(s, future[0], b);
      ShutDownFrom(Next(s, future[0]), future[1..], b);
    }
  }

  /** A bridge that is not open has a reply that was not passed on. */
  lemma ShutIsNotPassedOn(steps: seq<Step>, b: nat)
    requires Unwrapped(steps) && !OpenDown(Run(steps), b)
    ensures !AllPassedOn(Run(steps), b)
  {
    var s := Run(steps);
    RunSound(steps);
    ReplyChargedIffLost(steps, b);
    if b < |s.bridges| {
      assert Whole(s, b);
      if b in s.lossyDown {
        LostIsNotPassedOn(s, b);
      } else {
        UnderWayIsNotPassedOn(s, b);
      }
    }
  }

  lemma UnderWayIsNotPassedOn(s: State, b: nat)
    requires b < |s.bridges| && Whole(s, b) && b !in s.lossyDown && From(Items(s.downlink), b) != []
    ensures !AllPassedOn(s, b)
  {
    var x := s.circuits[s.bridges[b].id - 1];
    FromAppend(DownRoute(x), Items(s.downlink), b);
    FromAppend(x.delivered, x.down, b);
  }

  lemma LostIsNotPassedOn(s: State, b: nat)
    requires LostReply(s, b)
    ensures !AllPassedOn(s, b)
  {
    var n: nat :| n < |s.bridges[b].replies| && !Around(s, Item(b, n, s.bridges[b].replies[n]));
    var it := Item(b, n, s.bridges[b].replies[n]);
    assert AllReplies(s.bridges[b], b)[n] == it;
    if AllPassedOn(s, b) {
      PassedOnIsAround(s, b, it);
    }
  }

  lemma PassedOnIsAround(s: State, b: nat, it: Item)
    requires AllPassedOn(s, b) && it in AllReplies(s.bridges[b], b)
    ensures Around(s, it)
  {
    var c := s.bridges[b].id - 1;
    FromMember(s.circuits[c].delivered, b, it);
    assert it in DownRoute(s.circuits[c]);
  }

  /** Some future of a run, short of a wrap of the id counter, has everything bridge `b` replied passed on. */
  ghost predicate CanAllBePassedOn(steps: seq<Step>, b: nat) {
    exists future :: Unwrapped(steps + future) && AllPassedOn(Run(steps + future), b)
  }

  /** After any run everything a bridge connection has replied can still be passed on to its circuit exactly when none
      of it is lost and, if some of it is on the downlink, the client still routes the id to a circuit that writes and
      no close of the id is on the downlink ahead of it. */
  lemma CanAllBePassedOnIff(steps: seq<Step>, b: nat)
    requires Unwrapped(steps) && b < |Run(steps).bridges|
    ensures CanAllBePassedOn(steps, b) <==> OpenDown(Run(steps), b)
  {
    if OpenDown(Run(steps), b) {
      RunSound(steps);
      var future := BringsReplies(Run(steps), b);
      RunGoesOn(steps, future);
      assert Unwrapped(steps + future) && AllPassedOn(Run(steps + future), b);
    } else {
      forall future | Unwrapped(steps + future)
        ensures !AllPassedOn(Run(steps + future), b)
      {
        RunGoesOn(steps, future);
        RunSound(steps);
        ShutDownFrom(Run(steps), future, b);
        ShutIsNotPassedOn(steps + future, b);
      }
    }
  }
}
