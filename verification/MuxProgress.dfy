/** What the tasks of a mux wire still can do: when the cells of a circuit can all reach their bridge, and when the
    replies of a bridge can all reach their circuit. */
module MuxProgress {
  import opened Base
  import opened MuxStreams
  import opened MuxRouting
  import opened MuxIsolation
  import opened MuxExactness
  import opened MuxLosses
  import opened MuxReplies

  // --- What is kept -----------------------------------------------------------------

  /** A half that has stopped writing has nothing waiting. */
  ghost predicate Idle(s: State) {
    && (forall b :: 0 <= b < |s.bridges| && !s.bridges[b].writerOpen ==> s.bridges[b].held == [] && s.bridges[b].up == [])
    && (forall c :: 0 <= c < |s.circuits| && !s.circuits[c].writerOpen ==> s.circuits[c].down == [])
  }

  lemma ToBridgeIdle(s: State, id: U16, b: nat, it: Item)
    requires Idle(s)
    ensures Idle(ToBridge(s, id, b, it))
  {
  }

  lemma OpenedIdle(s: State, id: U16, c: nat, gone: bool)
    requires Idle(s)
    ensures Idle(Opened(s, id, c, gone))
  {
  }

  lemma RouteUpIdle(s: State, refused: bool, gone: bool)
    requires Idle(s)
    ensures Idle(RouteUp(s, refused, gone))
  {
    if s.uplink != [] && s.serverAlive && s.uplink[0].item.Some? {
      var id, it, t := s.uplink[0].id, s.uplink[0].item.value, s.(uplink := s.uplink[1..]);
      if id in t.serverMap {
        ToBridgeIdle(t, id, t.serverMap[id], it);
      } else {
        OpenedIdle(t, id, it.origin, gone);
        ToBridgeIdle(Opened(t, id, it.origin, gone), id, |t.bridges|, it);
      }
    }
  }

  lemma StepIdle(s: State, step: Step)
    requires Idle(s)
    ensures Idle(Next(s, step))
  {
    if step.ServerRoute? {
      RouteUpIdle(s, step.refused, step.gone);
    } else if AtRelay(step) {
      RelayStepIdle(s, step);
    }
  }

  predicate AtRelay(step: Step) {
    step.RelayHold? || step.RelayHoldEnds? || step.GateOpens? || step.RelayForward? || step.RelayWriterStops?
    || step.BridgeReply? || step.BridgeReaderStops?
  }

  lemma RelayStepIdle(s: State, step: Step)
    requires Idle(s) && AtRelay(step)
    ensures Idle(Next(s, step))
  {
  }

  ghost predicate Sound(s: State) { Inv(s) && Body(s) && AllWhole(s) && Idle(s) }

  lemma StepSound(s: State, step: Step)
    requires Sound(s) && |Next(s, step).circuits| <= MAX_ID
    ensures Sound(Next(s, step))
  {
    StepKeeps(s, step);
    StepExact(s, step);
    StepWhole(s, step);
    StepIdle(s, step);
  }

  lemma {:induction false} RunSound(steps: seq<Step>)
    requires Unwrapped(steps)
    ensures Sound(Run(steps))
  {
    if steps != [] {
      StillUnwrapped(steps);
      RunSound(steps[..|steps| - 1]);
      StepSound(Run(steps[..|steps| - 1]), steps[|steps| - 1]);
    }
  }

  // --- A relay past its gate --------------------------------------------------------

  function Repeat(step: Step, n: nat): (steps: seq<Step>)
    ensures |steps| == n
  {
    seq(n, _ => step)
  }

  lemma RepeatCons(step: Step, n: nat)
    requires n > 0
    ensures Repeat(step, n) == [step] + Repeat(step, n - 1)
  {
  }

  /** A relay that has written all it had. */
  function Emptied(x: Bridge): Bridge { x.(written := UpRoute(x), held := [], up := []) }

  lemma ForwardOne(s: State, b: nat) returns (y: Bridge)
    requires b < |s.bridges| && !s.bridges[b].holding && s.bridges[b].writerOpen
    requires s.bridges[b].held != [] || s.bridges[b].up != []
    ensures Next(s, RelayForward(b)) == WithBridge(s, b, y) && Emptied(y) == Emptied(s.bridges[b])
    ensures !y.holding && y.writerOpen && |y.held| + |y.up| + 1 == |s.bridges[b].held| + |s.bridges[b].up|
  {
    var x := s.bridges[b];
    if x.held != [] {
      y := x.(written := x.written + [x.held[0]], held := x.held[1..]);
      HeadMoves(x.written, x.held, x.up);
    } else {
      y := x.(written := x.written + [x.up[0]], up := x.up[1..]);
      HeadMoves(x.written, x.up, []);
      assert UpRoute(x) == x.written + x.up && UpRoute(y) == y.written + y.up;
    }
  }

  lemma ChangedTwice(s: State, b: nat, y: Bridge, z: Bridge)
    requires b < |s.bridges|
    ensures WithBridge(WithBridge(s, b, y), b, z) == WithBridge(s, b, z)
    ensures WithBridge(s, b, s.bridges[b]) == s
  {
  }

  lemma NothingLeft(x: Bridge)
    requires x.held == [] && x.up == []
    ensures Emptied(x) == x
  {
  }

  lemma {:induction false} ForwardsEmpty(s: State, b: nat, n: nat)
    requires b < |s.bridges| && !s.bridges[b].holding && s.bridges[b].writerOpen
    requires n == |s.bridges[b].held| + |s.bridges[b].up|
    ensures RunFrom(s, Repeat(RelayForward(b), n)) == WithBridge(s, b, Emptied(s.bridges[b]))
    decreases n
  {
    var x := s.bridges[b];
    if n == 0 {
      NothingLeft(x);
      ChangedTwice(s, b, x, x);
    } else {
      RepeatCons(RelayForward(b), n);
      RunFromCons(s, RelayForward(b), Repeat(RelayForward(b), n - 1));
      var y := ForwardOne(s, b);
      ForwardsEmpty(WithBridge(s, b, y), b, n - 1);
      ChangedTwice(s, b, y, Emptied(x));
    }
  }

  /** Relay `b` has written everything its channel took, and nothing waits for it. */
  predicate UpToDate(s: State, b: nat) {
    && b < |s.bridges|
    && s.bridges[b].written == s.bridges[b].accepted && s.bridges[b].held == [] && s.bridges[b].up == []
  }

  /** After any run a relay past its gate, with a live writer, has written all its channel ever took once it has been
      given one turn for each cell that waits. */
  lemma ForwardingDrains(steps: seq<Step>, b: nat, n: nat)
    requires Unwrapped(steps) && b < |Run(steps).bridges|
    requires !Run(steps).bridges[b].holding && Run(steps).bridges[b].writerOpen
    requires n == |Run(steps).bridges[b].held| + |Run(steps).bridges[b].up|
    ensures UpToDate(Run(steps + Repeat(RelayForward(b), n)), b)
  {
    RunGoesOn(steps, Repeat(RelayForward(b), n));
    assert Run(steps).bridges[b].accepted == UpRoute(Run(steps).bridges[b]) by {
      RunKeeps(steps);
      AcceptedIsRoute(Run(steps), b);
    }
    ForwardsSettle(Run(steps), b, n);
  }

  lemma ForwardsSettle(s: State, b: nat, n: nat)
    requires b < |s.bridges| && !s.bridges[b].holding && s.bridges[b].writerOpen
    requires n == |s.bridges[b].held| + |s.bridges[b].up| && s.bridges[b].accepted == UpRoute(s.bridges[b])
    ensures UpToDate(RunFrom(s, Repeat(RelayForward(b), n)), b)
  {
    ForwardsEmpty(s, b, n);
  }

  // --- Which cells can still come through -------------------------------------------

  /** With `known` streams at the server, the uplink can be read up to the last cell of circuit `c` without the cap
      per wire ending it: when each known stream is given up as its next cell comes and each new one refused, no new
      stream of another circuit, nor the first cell of `c`, meets a full table. */
  predicate Passes(cells: seq<Cell>, known: set<U16>, c: nat) {
    if Inflight(cells, c) == [] then true
    else
      var id := cells[0].id;
      match cells[0].item
      case None => Passes(cells[1..], known - {id}, c)
      case Some(it) =>
        if it.origin == c then (id in known || |known| < MAX_STREAMS_PER_WIRE) && Passes(cells[1..], known + {id}, c)
        else if id in known then Passes(cells[1..], known - {id}, c)
        else |known| < MAX_STREAMS_PER_WIRE && Passes(cells[1..], known, c)
  }

  /** The relay of circuit `c`, if it has one, still writes. */
  predicate RelayLives(s: State, c: nat)
    requires c < |s.circuits|
  {
    s.circuits[c].bridge.Some? ==>
      var b := s.circuits[c].bridge.value;
      b < |s.bridges| && s.bridges[b].writerOpen
  }

  /** Nothing of circuit `c` is lost, and what is on the uplink can be brought to its relay. */
  predicate Open(s: State, c: nat) {
    && c < |s.circuits| && c !in s.lossy
    && (Inflight(s.uplink, c) == [] ||
        (s.serverAlive && RelayLives(s, c) && Passes(s.uplink, s.serverMap.Keys, c)))
  }

  /** What has been written to the bridge of circuit `c`. */
  function WrittenFor(s: State, c: nat): seq<Item>
    requires c < |s.circuits|
  {
    match s.circuits[c].bridge
    case None => []
    case Some(b) => if b < |s.bridges| then s.bridges[b].written else []
  }

  predicate AllWritten(s: State, c: nat) { c < |s.circuits| && WrittenFor(s, c) == AllSent(s.circuits[c], c) }

  // --- A circuit that is open: bringing everything through ----------------------------

  /** One cell fewer on the uplink, and circuit `c` still open. */
  ghost predicate Advances(s: State, t: State, c: nat) {
    && Sound(t) && |t.circuits| == |s.circuits| && c < |s.circuits| && Open(t, c)
    && s.uplink != [] && t.uplink == s.uplink[1..]
  }

  ghost predicate Ready(s: State, c: nat) {
    Sound(s) && c < |s.circuits| && Open(s, c) && Inflight(s.uplink, c) != []
  }

  lemma RouteStays(s: State, refused: bool, gone: bool)
    requires Sound(s)
    ensures |Next(s, ServerRoute(refused, gone)).circuits| == |s.circuits| && Sound(Next(s, ServerRoute(refused, gone)))
  {
    RouteUpStays(s, refused, gone);
    StepSound(s, ServerRoute(refused, gone));
  }

  /** A sentinel, or a cell of another new stream, which is refused, changes nothing else for `c`. */
  lemma OtherOpen(s: State, t: State, c: nat, left: set<U16>)
    requires c < |s.circuits| && Open(s, c) && Inflight(s.uplink, c) != []
    requires t.uplink == s.uplink[1..] && t.circuits == s.circuits && c !in t.lossy && t.serverAlive
    requires |t.bridges| == |s.bridges|
    requires s.circuits[c].bridge.Some? ==>
      var b := s.circuits[c].bridge.value;
      b < |s.bridges| ==> t.bridges[b].writerOpen == s.bridges[b].writerOpen
    requires t.serverMap.Keys == left
    requires Passes(s.uplink[1..], left, c)
    ensures Open(t, c)
  {
  }

  /** What routing a sentinel leaves alone. */
  lemma SentinelRouted(s: State)
    requires s.uplink != [] && s.serverAlive && s.uplink[0].item == None
    ensures
      var t := RouteUp(s, true, false);
      && t.uplink == s.uplink[1..] && t.circuits == s.circuits && t.lossy == s.lossy && t.serverAlive
      && |t.bridges| == |s.bridges| && (forall b :: 0 <= b < |s.bridges| ==> t.bridges[b].writerOpen == s.bridges[b].writerOpen)
      && t.serverMap.Keys == s.serverMap.Keys - {s.uplink[0].id}
  {
  }

  lemma SentinelAdvances(s: State, c: nat)
    requires Ready(s, c) && s.uplink[0].item == None
    ensures Advances(s, Next(s, ServerRoute(true, false)), c)
  {
    RouteStays(s, true, false);
    SentinelRouted(s);
    OtherOpen(s, RouteUp(s, true, false), c, s.serverMap.Keys - {s.uplink[0].id});
  }

  lemma RefusedAdvances(s: State, c: nat)
    requires Ready(s, c) && s.uplink[0].item.Some?
    requires s.uplink[0].item.value.origin != c && s.uplink[0].id !in s.serverMap
    ensures Advances(s, Next(s, ServerRoute(true, false)), c)
  {
    RouteStays(s, true, false);
    assert |s.serverMap.Keys| == |s.serverMap|;
    OtherOpen(s, Next(s, ServerRoute(true, false)), c, s.serverMap.Keys);
  }

  /** A relay that has been told to stop has nothing left to give, and nobody but its own circuit notices. */
  lemma GivenUp(s: State, b: nat)
    requires b < |s.bridges|
    ensures
      var x := s.bridges[b];
      var t := RunFrom(s, GiveUp(b));
      && |t.bridges| == |s.bridges| && !t.bridges[b].writerOpen
      && (forall d :: 0 <= d < |s.bridges| && d != b ==> t.bridges[d] == s.bridges[d])
      && t.lossy == s.lossy + (if x.writerOpen then Owners(x.held + x.up) else {})
      && t.uplink == s.uplink && t.circuits == s.circuits && t.serverMap == s.serverMap && t.serverAlive == s.serverAlive
  {
    RunFromCons(s, GateOpens(b), [RelayWriterStops(b)]);
    RunFromCons(Next(s, GateOpens(b)), RelayWriterStops(b), []);
    assert [GateOpens(b), RelayWriterStops(b)] == [GateOpens(b)] + ([RelayWriterStops(b)] + []);
  }

  predicate NoOpening(steps: seq<Step>) { forall i :: 0 <= i < |steps| ==> !steps[i].OpenCircuit? }

  lemma NoCircuitMore(s: State, step: Step)
    requires !step.OpenCircuit?
    ensures |Next(s, step).circuits| == |s.circuits|
  {
    if step.ServerRoute? {
      RouteUpStays(s, step.refused, step.gone);
    }
  }

  lemma {:induction false} SoundFrom(s: State, steps: seq<Step>)
    requires Sound(s) && NoOpening(steps)
    ensures Sound(RunFrom(s, steps)) && |RunFrom(s, steps).circuits| == |s.circuits|
    decreases |steps|
  {
    if steps != [] {
      NoCircuitMore(s, steps[0]);
      StepSound(s, steps[0]);
      SoundFrom(Next(s, steps[0]), steps[1..]);
    }
  }

  /** What waits at a relay of another id belongs to another circuit. */
  lemma WaitingIsOwn(s: State, b: nat, c: nat)
    requires b < |s.bridges| && BridgeOk(s, b) && s.bridges[b].id != c + 1
    ensures c !in Owners(s.bridges[b].held + s.bridges[b].up)
  {
    var x := s.bridges[b];
    forall it | it in x.held + x.up
      ensures it.origin != c
    {
      assert it in UpRoute(x);
    }
  }

  /** A cell for a relay that has stopped: its entry goes, and with it the cell. */
  lemma StoppedRouted(s: State, it: Item, b: nat)
    requires s.uplink != [] && s.serverAlive && s.uplink[0].item == Some(it)
    requires s.uplink[0].id in s.serverMap && s.serverMap[s.uplink[0].id] == b && b < |s.bridges| && !s.bridges[b].writerOpen
    ensures
      var t := RouteUp(s, true, false);
      && t.uplink == s.uplink[1..] && t.circuits == s.circuits && t.lossy == s.lossy + {it.origin} && t.serverAlive
      && |t.bridges| == |s.bridges| && (forall d :: 0 <= d < |s.bridges| ==> t.bridges[d].writerOpen == s.bridges[d].writerOpen)
      && t.serverMap.Keys == s.serverMap.Keys - {s.uplink[0].id}
  {
  }

  lemma ThenRouted(s: State, steps: seq<Step>, refused: bool)
    ensures RunFrom(s, steps + [ServerRoute(refused, false)]) == RouteUp(RunFrom(s, steps), refused, false)
  {
    RunFromAppend(s, steps, [ServerRoute(refused, false)]);
    RunFromCons(RunFrom(s, steps), ServerRoute(refused, false), []);
    assert [ServerRoute(refused, false)] + [] == [ServerRoute(refused, false)];
  }

  lemma KnownOpen(s: State, u: State, c: nat, it: Item, b: nat)
    requires c < |s.circuits| && Open(s, c) && Inflight(s.uplink, c) != [] && s.uplink[0].item == Some(it) && it.origin != c
    requires s.uplink[0].id in s.serverMap && s.serverMap[s.uplink[0].id] == b && b < |s.bridges| == |u.bridges|
    requires s.circuits[c].bridge != Some(b) && !u.bridges[b].writerOpen
    requires forall d :: 0 <= d < |s.bridges| && d != b ==> u.bridges[d] == s.bridges[d]
    requires c !in u.lossy && u.uplink == s.uplink && u.circuits == s.circuits
    requires u.serverMap == s.serverMap && u.serverAlive == s.serverAlive
    ensures Open(RouteUp(u, true, false), c)
  {
    StoppedRouted(u, it, b);
    OtherOpen(s, RouteUp(u, true, false), c, s.serverMap.Keys - {s.uplink[0].id});
  }

  /** The relay that the head of the uplink is for was opened for its circuit. */
  lemma HeadsRelay(s: State, it: Item)
    requires Inv(s) && s.uplink != [] && s.uplink[0].item == Some(it) && s.uplink[0].id in s.serverMap
    ensures
      var b := s.serverMap[s.uplink[0].id];
      b < |s.bridges| && s.bridges[b].id == s.uplink[0].id == it.origin + 1 && BridgeOk(s, b)
  {
  }

  /** Another known stream is given up as its next cell comes. */
  lemma KnownAdvances(s: State, c: nat, it: Item, b: nat)
    requires Ready(s, c) && s.uplink[0].item == Some(it) && it.origin != c
    requires s.uplink[0].id in s.serverMap && s.serverMap[s.uplink[0].id] == b
    ensures Advances(s, RunFrom(s, GiveUp(b) + [ServerRoute(true, false)]), c)
  {
    SoundFrom(s, GiveUp(b) + [ServerRoute(true, false)]);
    assert Exact(s, c);
    HeadsRelay(s, it);
    GivenUpOpen(s, c, it, b);
  }

  function GiveUp(b: nat): seq<Step> { [GateOpens(b), RelayWriterStops(b)] }

  lemma GivenUpOpen(s: State, c: nat, it: Item, b: nat)
    requires c < |s.circuits| && Open(s, c) && Exact(s, c) && Inflight(s.uplink, c) != []
    requires s.uplink[0].item == Some(it) && it.origin != c
    requires s.uplink[0].id in s.serverMap && s.serverMap[s.uplink[0].id] == b
    requires b < |s.bridges| && BridgeOk(s, b) && s.bridges[b].id == it.origin + 1
    ensures
      var t := RunFrom(s, GiveUp(b) + [ServerRoute(true, false)]);
      Open(t, c) && t.uplink == s.uplink[1..]
  {
    var u := RunFrom(s, GiveUp(b));
    ThenRouted(s, GiveUp(b), true);
    GivenUp(s, b);
    WaitingIsOwn(s, b, c);
    NotItsRelay(s, c, b);
    KnownOpen(s, u, c, it, b);
    StoppedRouted(u, it, b);
  }

  lemma NotItsRelay(s: State, c: nat, b: nat)
    requires c < |s.circuits| && Exact(s, c) && c !in s.lossy && b < |s.bridges| && s.bridges[b].id != c + 1
    ensures s.circuits[c].bridge != Some(b)
  {
  }

  /** Opening the gate of a relay and letting it write all it has. */
  function Flush(b: nat, n: nat): seq<Step> { [GateOpens(b)] + Repeat(RelayForward(b), n) }

  lemma FlushNoOpening(b: nat, n: nat, last: seq<Step>)
    requires NoOpening(last)
    ensures NoOpening(Flush(b, n) + last)
  {
  }

  lemma Flushes(s: State, b: nat, n: nat)
    requires b < |s.bridges| && s.bridges[b].writerOpen && n == |s.bridges[b].held| + |s.bridges[b].up|
    ensures RunFrom(s, Flush(b, n)) == WithBridge(s, b, Emptied(s.bridges[b]).(holding := false))
  {
    var x := s.bridges[b].(holding := false);
    var t := WithBridge(s, b, x);
    RunFromCons(s, GateOpens(b), Repeat(RelayForward(b), n));
    ForwardsEmpty(t, b, n);
    ChangedTwice(s, b, x, Emptied(x));
  }

  /** What a relay with room takes. */
  lemma TakenRouted(s: State, it: Item, b: nat)
    requires s.uplink != [] && s.serverAlive && s.uplink[0].item == Some(it)
    requires s.uplink[0].id in s.serverMap && s.serverMap[s.uplink[0].id] == b && b < |s.bridges|
    requires s.bridges[b].writerOpen && s.bridges[b].up == []
    ensures
      var t := RouteUp(s, false, false);
      && t.uplink == s.uplink[1..] && t.circuits == s.circuits && t.lossy == s.lossy && t.serverAlive
      && |t.bridges| == |s.bridges| && t.bridges[b].writerOpen && t.serverMap == s.serverMap
  {
  }

  lemma OwnOpen(s: State, c: nat, it: Item, b: nat, n: nat)
    requires Open(s, c) && Inflight(s.uplink, c) != [] && s.uplink[0].item == Some(it) && it.origin == c
    requires s.uplink[0].id in s.serverMap && s.serverMap[s.uplink[0].id] == b && s.circuits[c].bridge == Some(b)
    requires n == |s.bridges[b].held| + |s.bridges[b].up|
    ensures
      var t := RunFrom(s, Flush(b, n) + [ServerRoute(false, false)]);
      Open(t, c) && t.uplink == s.uplink[1..]
  {
    var u := RunFrom(s, Flush(b, n));
    ThenRouted(s, Flush(b, n), false);
    Flushes(s, b, n);
    TakenRouted(u, it, b);
    assert s.serverMap.Keys + {s.uplink[0].id} == s.serverMap.Keys;
  }

  /** Its own cell, for a relay it has: the relay makes room first. */
  lemma OwnAdvances(s: State, c: nat, it: Item, b: nat, n: nat)
    requires Ready(s, c) && s.uplink[0].item == Some(it) && it.origin == c
    requires s.uplink[0].id in s.serverMap && s.serverMap[s.uplink[0].id] == b && b < |s.bridges|
    requires n == |s.bridges[b].held| + |s.bridges[b].up|
    ensures Advances(s, RunFrom(s, Flush(b, n) + [ServerRoute(false, false)]), c)
  {
    FlushNoOpening(b, n, [ServerRoute(false, false)]);
    SoundFrom(s, Flush(b, n) + [ServerRoute(false, false)]);
    assert Exact(s, c);
    HeadsRelay(s, it);
    OwnOpen(s, c, it, b, n);
  }

  /** What opens a relay that takes the cell. */
  lemma NewRouted(s: State, it: Item)
    requires s.uplink != [] && s.serverAlive && s.uplink[0].item == Some(it) && it.origin < |s.circuits|
    requires s.uplink[0].id !in s.serverMap && |s.serverMap| < MAX_STREAMS_PER_WIRE && s.circuits[it.origin].bridge == None
    ensures
      var t := RouteUp(s, false, false);
      && t.uplink == s.uplink[1..] && t.lossy == s.lossy && t.serverAlive && |t.circuits| == |s.circuits|
      && |t.bridges| == |s.bridges| + 1 && t.bridges[|s.bridges|].writerOpen
      && t.circuits[it.origin].bridge == Some(|s.bridges|)
      && t.serverMap.Keys == s.serverMap.Keys + {s.uplink[0].id}
  {
  }

  /** Its first cell opens its relay. */
  lemma FirstAdvances(s: State, c: nat, it: Item)
    requires Ready(s, c) && s.uplink[0].item == Some(it) && it.origin == c && s.uplink[0].id !in s.serverMap
    ensures Advances(s, Next(s, ServerRoute(false, false)), c)
  {
    RouteStays(s, false, false);
    FirstOpen(s, c, it);
  }

  lemma FirstOpen(s: State, c: nat, it: Item)
    requires Sound(s) && Open(s, c) && Inflight(s.uplink, c) != []
    requires s.uplink[0].item == Some(it) && it.origin == c && s.uplink[0].id !in s.serverMap
    ensures Open(RouteUp(s, false, false), c) && RouteUp(s, false, false).uplink == s.uplink[1..]
  {
    assert Exact(s, c);
    assert s.uplink[0].id == c + 1;
    assert |s.serverMap.Keys| == |s.serverMap|;
    NewRouted(s, it);
  }

  /** One more cell can be taken off the uplink without losing any of circuit `c`. */
  lemma Advance(s: State, c: nat) returns (future: seq<Step>)
    requires Ready(s, c)
    ensures Advances(s, RunFrom(s, future), c)
  {
    RunFromCons(s, ServerRoute(true, false), []);
    RunFromCons(s, ServerRoute(false, false), []);
    match s.uplink[0].item
    case None =>
      SentinelAdvances(s, c);
      future := [ServerRoute(true, false)] + [];
    case Some(it) =>
      var id := s.uplink[0].id;
      if id in s.serverMap {
        var b := s.serverMap[id];
        HeadsRelay(s, it);
        if it.origin == c {
          var n := |s.bridges[b].held| + |s.bridges[b].up|;
          OwnAdvances(s, c, it, b, n);
          future := Flush(b, n) + [ServerRoute(false, false)];
        } else {
          KnownAdvances(s, c, it, b);
          future := GiveUp(b) + [ServerRoute(true, false)];
        }
      } else if it.origin == c {
        FirstAdvances(s, c, it);
        future := [ServerRoute(false, false)] + [];
      } else {
        RefusedAdvances(s, c);
        future := [ServerRoute(true, false)] + [];
      }
  }

  /** With nothing of `c` on the uplink, its relay writes what it has. */
  lemma WritesRest(s: State, c: nat) returns (future: seq<Step>)
    requires Sound(s) && Open(s, c) && Inflight(s.uplink, c) == []
    ensures AllWritten(RunFrom(s, future), c) && |RunFrom(s, future).circuits| == |s.circuits|
  {
    assert Exact(s, c);
    match s.circuits[c].bridge
    case None => future := [];
    case Some(b) =>
      if s.bridges[b].writerOpen {
        var n := |s.bridges[b].held| + |s.bridges[b].up|;
        future := Flush(b, n);
        Flushes(s, b, n);
      } else {
        future := [];
        NothingLeft(s.bridges[b]);
      }
  }

  lemma {:induction false} BringsAll(s: State, c: nat) returns (future: seq<Step>)
    requires Sound(s) && Open(s, c)
    ensures AllWritten(RunFrom(s, future), c) && |RunFrom(s, future).circuits| == |s.circuits|
    decreases |s.uplink|
  {
    if Inflight(s.uplink, c) == [] {
      future := WritesRest(s, c);
    } else {
      var first := Advance(s, c);
      var rest := BringsAll(RunFrom(s, first), c);
      RunFromAppend(s, first, rest);
      future := first + rest;
    }
  }

  // --- A circuit that is not open stays so ----------------------------------------------

  lemma {:induction false} InflightAppend(a: seq<Cell>, b: seq<Cell>, c: nat)
    ensures Inflight(a + b, c) == Inflight(a, c) + Inflight(b, c)
  {
    if a == [] {
      assert a + b == b;
    } else {
      assert (a + b)[0] == a[0] && (a + b)[1..] == a[1..] + b;
      InflightAppend(a[1..], b, c);
    }
  }

  /** What comes later on the uplink helps nobody. */
  lemma {:induction false} PassesPrefix(a: seq<Cell>, b: seq<Cell>, known: set<U16>, c: nat)
    requires Passes(a + b, known, c)
    ensures Passes(a, known, c)
  {
    InflightAppend(a, b, c);
    if Inflight(a, c) != [] {
      var id := a[0].id;
      assert (a + b)[0] == a[0] && (a + b)[1..] == a[1..] + b;
      match a[0].item
      case None => PassesPrefix(a[1..], b, known - {id}, c);
      case Some(it) =>
        if it.origin == c {
          PassesPrefix(a[1..], b, known + {id}, c);
        } else if id in known {
          PassesPrefix(a[1..], b, known - {id}, c);
        } else {
          PassesPrefix(a[1..], b, known, c);
        }
    }
  }

  /** Nor do more known streams. */
  lemma {:induction false} PassesFewer(cells: seq<Cell>, fewer: set<U16>, known: set<U16>, c: nat)
    requires fewer <= known && |known| <= MAX_STREAMS_PER_WIRE && Passes(cells, known, c)
    ensures Passes(cells, fewer, c)
    decreases |cells|
  {
    SetSubset(fewer, known);
    if Inflight(cells, c) != [] {
      var id, rest := cells[0].id, cells[1..];
      match cells[0].item
      case None =>
        SetSubset(known - {id}, known);
        PassesFewer(rest, fewer - {id}, known - {id}, c);
      case Some(it) =>
        if id in known && id !in fewer {
          SetSubset(fewer, known - {id});
        }
        if it.origin == c {
          WithOne(known, id);
          PassesFewer(rest, fewer + {id}, known + {id}, c);
        } else if id in known {
          SetSubset(known - {id}, known);
          PassesFewer(rest, fewer - {id}, known - {id}, c);
          assert id !in fewer ==> fewer - {id} == fewer;
        } else {
          PassesFewer(rest, fewer, known, c);
        }
    }
  }

  lemma WithOne(known: set<U16>, id: U16)
    ensures |known + {id}| == if id in known then |known| else |known| + 1
  {
    if id in known {
      assert known + {id} == known;
    }
  }

  /** Nothing came nearer for circuit `c`: cells may have been added to the uplink, relays and the server stopped. */
  ghost predicate NoNearer(s: State, t: State, c: nat) {
    && c < |s.circuits| <= |t.circuits| && t.circuits[c].bridge == s.circuits[c].bridge
    && |s.bridges| == |t.bridges| && (forall b :: 0 <= b < |t.bridges| && t.bridges[b].writerOpen ==> s.bridges[b].writerOpen)
    && s.uplink <= t.uplink && s.lossy <= t.lossy
    && (t.serverAlive ==> s.serverAlive && t.serverMap == s.serverMap)
  }

  lemma StaysShut(s: State, t: State, c: nat)
    requires NoNearer(s, t, c) && !Open(s, c)
    ensures !Open(t, c)
  {
    var more := t.uplink[|s.uplink|..];
    assert t.uplink == s.uplink + more;
    InflightAppend(s.uplink, more, c);
    if Passes(t.uplink, s.serverMap.Keys, c) {
      PassesPrefix(s.uplink, more, s.serverMap.Keys, c);
    }
  }

  lemma ReplyNoNearer(s: State, step: Step, c: nat)
    requires c < |s.circuits| && (step.BridgeReply? || step.BridgeReaderStops?)
    ensures NoNearer(s, Next(s, step), c)
  {
  }

  lemma RelayStepNoNearer(s: State, step: Step, c: nat)
    requires c < |s.circuits| && AtRelay(step)
    ensures NoNearer(s, Next(s, step), c)
  {
    if step.BridgeReply? || step.BridgeReaderStops? {
      ReplyNoNearer(s, step, c);
    }
  }

  lemma StepNoNearer(s: State, step: Step, c: nat)
    requires c < |s.circuits| && !step.ServerRoute?
    ensures NoNearer(s, Next(s, step), c)
  {
    if AtRelay(step) {
      RelayStepNoNearer(s, step, c);
    } else {
      CircuitStepNoNearer(s, step, c);
    }
  }

  lemma CircuitStepNoNearer(s: State, step: Step, c: nat)
    requires c < |s.circuits| && !step.ServerRoute? && !AtRelay(step)
    ensures NoNearer(s, Next(s, step), c)
  {
    if step.ServerStops? {
      StoppedNoNearer(s, c);
    } else if step.ClientRoute? {
      ClientRouteNoNearer(s, c);
    } else {
      AtCircuitNoNearer(s, step, c);
    }
  }

  lemma StoppedNoNearer(s: State, c: nat)
    requires c < |s.circuits|
    ensures NoNearer(s, Stopped(s), c)
  {
  }

  lemma ClientRouteNoNearer(s: State, c: nat)
    requires c < |s.circuits|
    ensures NoNearer(s, RouteDown(s), c)
  {
  }

  lemma AtCircuitNoNearer(s: State, step: Step, c: nat)
    requires c < |s.circuits|
    requires step.OpenCircuit? || step.CircuitSend? || step.CircuitClose? || step.CircuitDeliver? || step.CircuitWriterStops?
    ensures NoNearer(s, Next(s, step), c)
  {
  }

  /** Reading the head of the uplink, when it is not `c`'s: its relay lives no more than before, and no fewer streams
      are known than if the head's had been given up. */
  ghost predicate ReadsOther(s: State, t: State, c: nat, left: set<U16>) {
    && c < |s.circuits| == |t.circuits| && t.circuits[c].bridge == s.circuits[c].bridge
    && |s.bridges| <= |t.bridges| && (forall b :: 0 <= b < |s.bridges| && t.bridges[b].writerOpen ==> s.bridges[b].writerOpen)
    && s.uplink != [] && t.uplink == s.uplink[1..] && s.lossy <= t.lossy
    && (t.serverAlive ==> left <= t.serverMap.Keys && |t.serverMap| <= MAX_STREAMS_PER_WIRE)
  }

  lemma OtherShut(s: State, t: State, c: nat, left: set<U16>)
    requires ReadsOther(s, t, c, left) && !Open(s, c) && Exact(s, c) && s.serverAlive
    requires Inflight(s.uplink[1..], c) == Inflight(s.uplink, c)
    requires !Passes(s.uplink, s.serverMap.Keys, c) ==> t.serverAlive ==> !Passes(s.uplink[1..], left, c)
    ensures !Open(t, c)
  {
    if t.serverAlive && Passes(t.uplink, t.serverMap.Keys, c) {
      assert |t.serverMap.Keys| == |t.serverMap|;
      PassesFewer(t.uplink, left, t.serverMap.Keys, c);
    }
  }

  lemma SentinelShut(s: State, c: nat, refused: bool, gone: bool)
    requires Inv(s) && c < |s.circuits| && Exact(s, c) && !Open(s, c)
    requires s.serverAlive && s.uplink != [] && s.uplink[0].item == None
    ensures !Open(RouteUp(s, refused, gone), c)
  {
    SentinelRouted(s);
    assert RouteUp(s, refused, gone) == RouteUp(s, true, false);
    var t := RouteUp(s, true, false);
    assert |t.serverMap.Keys| == |t.serverMap| && |s.serverMap.Keys| == |s.serverMap|;
    SetSubset(t.serverMap.Keys, s.serverMap.Keys);
    OtherShut(s, t, c, s.serverMap.Keys - {s.uplink[0].id});
  }

  /** Another stream that is known: it stays so, or its entry goes. */
  lemma KnownShut(s: State, c: nat, it: Item, refused: bool, gone: bool)
    requires Inv(s) && c < |s.circuits| && Exact(s, c) && !Open(s, c)
    requires s.serverAlive && s.uplink != [] && s.uplink[0].item == Some(it) && it.origin != c
    requires s.uplink[0].id in s.serverMap
    ensures !Open(RouteUp(s, refused, gone), c)
  {
    var id, t := s.uplink[0].id, RouteUp(s, refused, gone);
    KnownRouted(s, it, refused, gone);
    SetSubset((s.serverMap - {id}).Keys, s.serverMap.Keys);
    assert |s.serverMap.Keys| == |s.serverMap| && |(s.serverMap - {id}).Keys| == |s.serverMap - {id}|;
    OtherShut(s, t, c, s.serverMap.Keys - {id});
  }

  lemma KnownRouted(s: State, it: Item, refused: bool, gone: bool)
    requires s.serverAlive && s.uplink != [] && s.uplink[0].item == Some(it) && s.uplink[0].id in s.serverMap
    ensures
      var t := RouteUp(s, refused, gone);
      && OthersKept(s.(uplink := s.uplink[1..]), t, it.origin) && |t.bridges| == |s.bridges|
      && (t.serverMap == s.serverMap || t.serverMap == s.serverMap - {s.uplink[0].id})
  {
    HandedKeepsOthers(s.(uplink := s.uplink[1..]), s.uplink[0].id, s.serverMap[s.uplink[0].id], it);
  }

  /** Another new stream: refused, opened, or the end of the wire. */
  lemma NewShut(s: State, c: nat, it: Item, refused: bool, gone: bool)
    requires Inv(s) && c < |s.circuits| && Exact(s, c) && !Open(s, c)
    requires s.serverAlive && s.uplink != [] && s.uplink[0].item == Some(it) && it.origin != c
    requires s.uplink[0].id !in s.serverMap && |RouteUp(s, refused, gone).serverMap| <= MAX_STREAMS_PER_WIRE
    ensures !Open(RouteUp(s, refused, gone), c)
  {
    assert |s.serverMap.Keys| == |s.serverMap|;
    NewRoutedSome(s, it, refused, gone);
    OtherShut(s, RouteUp(s, refused, gone), c, s.serverMap.Keys);
  }

  /** Whatever becomes of a new stream, the others keep their relays and entries, unless the cap ends the wire. */
  ghost predicate OthersKept(s: State, t: State, c: nat) {
    && |t.circuits| == |s.circuits| && t.uplink == s.uplink && s.lossy <= t.lossy
    && (forall d :: 0 <= d < |s.circuits| && d != c ==> t.circuits[d].bridge == s.circuits[d].bridge)
    && |s.bridges| <= |t.bridges| && (forall b :: 0 <= b < |s.bridges| ==> t.bridges[b].writerOpen == s.bridges[b].writerOpen)
  }

  lemma OpenedKeepsOthers(s: State, id: U16, c: nat, gone: bool)
    ensures OthersKept(s, Opened(s, id, c, gone), c) && s.serverMap.Keys <= Opened(s, id, c, gone).serverMap.Keys
  {
  }

  lemma HandedKeepsOthers(s: State, id: U16, b: nat, it: Item)
    ensures OthersKept(s, ToBridge(s, id, b, it), it.origin)
    ensures s.serverMap.Keys - {id} <= ToBridge(s, id, b, it).serverMap.Keys
  {
  }

  lemma NewRoutedSome(s: State, it: Item, refused: bool, gone: bool)
    requires s.serverAlive && s.uplink != [] && s.uplink[0].item == Some(it) && s.uplink[0].id !in s.serverMap
    ensures
      var t := RouteUp(s, refused, gone);
      && OthersKept(s.(uplink := s.uplink[1..]), t, it.origin)
      && (t.serverAlive ==> |s.serverMap| < MAX_STREAMS_PER_WIRE && s.serverMap.Keys <= t.serverMap.Keys)
  {
    var id, u := s.uplink[0].id, s.(uplink := s.uplink[1..]);
    OpenedKeepsOthers(u, id, it.origin, gone);
    HandedKeepsOthers(Opened(u, id, it.origin, gone), id, |u.bridges|, it);
  }

  /** Its own cell for a relay it has: lost, unless the relay takes it, and then the relay lives as before. */
  lemma OwnKnownShut(s: State, c: nat, it: Item, refused: bool, gone: bool)
    requires c < |s.circuits| && !Open(s, c) && s.circuits[c].bridge.Some?
    requires s.serverAlive && s.uplink != [] && s.uplink[0].item == Some(it) && it.origin == c
    requires s.uplink[0].id in s.serverMap && s.serverMap[s.uplink[0].id] == s.circuits[c].bridge.value
    ensures !Open(RouteUp(s, refused, gone), c)
  {
    var t := RouteUp(s, refused, gone);
    ChargedStays(s, refused, gone);
    if c !in t.lossy {
      OwnKnownRouted(s, c, refused, gone);
      assert s.serverMap.Keys + {s.uplink[0].id} == s.serverMap.Keys;
      BarredStill(s, t, c);
    }
  }

  lemma OwnKnownRouted(s: State, c: nat, refused: bool, gone: bool)
    requires s.serverAlive && s.uplink != [] && s.uplink[0].item.Some? && s.uplink[0].item.value.origin == c
    requires s.uplink[0].id in s.serverMap && c !in RouteUp(s, refused, gone).lossy
    ensures
      var b, t := s.serverMap[s.uplink[0].id], RouteUp(s, refused, gone);
      && t.uplink == s.uplink[1..] && t.serverMap == s.serverMap && b < |s.bridges| && s.bridges[b].writerOpen
  {
  }

  /** Its own first cell: lost, unless a relay is opened for it. */
  lemma OwnNewShut(s: State, c: nat, it: Item, refused: bool, gone: bool)
    requires c < |s.circuits| && !Open(s, c) && s.circuits[c].bridge == None
    requires s.serverAlive && s.uplink != [] && s.uplink[0].item == Some(it) && it.origin == c
    requires s.uplink[0].id !in s.serverMap
    ensures !Open(RouteUp(s, refused, gone), c)
  {
    assert |s.serverMap.Keys| == |s.serverMap|;
    var t := RouteUp(s, refused, gone);
    if c in s.lossy {
      ChargedStays(s, refused, gone);
      assert c in t.lossy;
    } else if c !in t.lossy {
      OwnNewRouted(s, c, refused, gone);
      BarredStill(s, t, c);
    } else {
      assert !Open(t, c);
    }
  }

  /** A first cell that is taken leaves the rest as barred as it was. */
  lemma BarredStill(s: State, t: State, c: nat)
    requires c < |s.circuits| && !Open(s, c) && RelayLives(s, c) && c !in s.lossy
    requires s.serverAlive && s.uplink != [] && s.uplink[0].item.Some? && s.uplink[0].item.value.origin == c
    requires s.uplink[0].id in s.serverMap || |s.serverMap.Keys| < MAX_STREAMS_PER_WIRE
    requires t.uplink == s.uplink[1..] && t.serverMap.Keys == s.serverMap.Keys + {s.uplink[0].id}
    ensures !Open(t, c)
  {
    assert !Passes(s.uplink, s.serverMap.Keys, c);
    assert !Passes(t.uplink, t.serverMap.Keys, c);
  }

  lemma OwnNewRouted(s: State, c: nat, refused: bool, gone: bool)
    requires s.serverAlive && s.uplink != [] && s.uplink[0].item.Some? && s.uplink[0].item.value.origin == c
    requires s.uplink[0].id !in s.serverMap && c !in RouteUp(s, refused, gone).lossy
    ensures
      var t := RouteUp(s, refused, gone);
      && t.uplink == s.uplink[1..] && t.lossy == s.lossy && |s.serverMap| < MAX_STREAMS_PER_WIRE
      && t.serverMap.Keys == s.serverMap.Keys + {s.uplink[0].id}
  {
  }

  lemma OwnShut(s: State, c: nat, it: Item, refused: bool, gone: bool)
    requires Inv(s) && c < |s.circuits| && Exact(s, c) && !Open(s, c)
    requires s.serverAlive && s.uplink != [] && s.uplink[0].item == Some(it) && it.origin == c
    ensures !Open(RouteUp(s, refused, gone), c)
  {
    assert s.uplink[0].id == c + 1;
    if c in s.lossy {
      ChargedStays(s, refused, gone);
    } else if s.uplink[0].id in s.serverMap {
      OwnKnownShut(s, c, it, refused, gone);
    } else {
      OwnNewShut(s, c, it, refused, gone);
    }
  }

  lemma ChargedStays(s: State, refused: bool, gone: bool)
    ensures s.lossy <= RouteUp(s, refused, gone).lossy
  {
  }

  lemma RouteShut(s: State, c: nat, refused: bool, gone: bool)
    requires Sound(s) && c < |s.circuits| && !Open(s, c)
    ensures !Open(RouteUp(s, refused, gone), c)
  {
    if s.uplink != [] && s.serverAlive {
      assert Exact(s, c);
      match s.uplink[0].item
      case None => SentinelShut(s, c, refused, gone);
      case Some(it) =>
        if it.origin == c {
          OwnShut(s, c, it, refused, gone);
        } else if s.uplink[0].id in s.serverMap {
          KnownShut(s, c, it, refused, gone);
        } else {
          RouteStays(s, refused, gone);
          NewShut(s, c, it, refused, gone);
        }
    }
  }

  lemma {:induction false} CircuitsStayFrom(s: State, steps: seq<Step>)
    ensures |s.circuits| <= |RunFrom(s, steps).circuits|
    decreases |steps|
  {
    if steps != [] {
      CircuitsStay(s, steps[0]);
      CircuitsStayFrom(Next(s, steps[0]), steps[1..]);
    }
  }

  lemma {:induction false} ShutFrom(s: State, future: seq<Step>, c: nat)
    requires Sound(s) && c < |s.circuits| && !Open(s, c) && |RunFrom(s, future).circuits| <= MAX_ID
    ensures !Open(RunFrom(s, future), c)
    decreases |future|
  {
    if future != [] {
      CircuitsStay(s, future[0]);
      CircuitsStayFrom(Next(s, future[0]), future[1..]);
      StepSound(s, future[0]);
      StepShut(s, future[0], c);
      ShutFrom(Next(s, future[0]), future[1..], c);
    }
  }

  lemma StepShut(s: State, step: Step, c: nat)
    requires Sound(s) && c < |s.circuits| && !Open(s, c)
    ensures !Open(Next(s, step), c)
  {
    if step.ServerRoute? {
      RouteShut(s, c, step.refused, step.gone);
    } else {
      StepNoNearer(s, step, c);
      StaysShut(s, Next(s, step), c);
    }
  }

  /** A circuit that is not open has something unwritten. */
  lemma ShutIsUnwritten(steps: seq<Step>, c: nat)
    requires Unwrapped(steps) && !Open(Run(steps), c)
    ensures !AllWritten(Run(steps), c)
  {
    var s := Run(steps);
    RunSound(steps);
    ChargedIffLost(steps, c);
    if c < |s.circuits| {
      assert Exact(s, c);
      if c in s.lossy {
        LostIsUnwritten(s, c);
      }
    }
  }

  lemma LostIsUnwritten(s: State, c: nat)
    requires Lost(s, c)
    ensures !AllWritten(s, c)
  {
    var n: nat :| n < |s.circuits[c].sent| && !Somewhere(s, Item(c, n, s.circuits[c].sent[n]));
    var it := Item(c, n, s.circuits[c].sent[n]);
    assert AllSent(s.circuits[c], c)[n] == it;
    if it in WrittenFor(s, c) {
      WrittenIsSomewhere(s, c, it);
    }
  }

  lemma WrittenIsSomewhere(s: State, c: nat, it: Item)
    requires c < |s.circuits| && it in WrittenFor(s, c)
    ensures Somewhere(s, it)
  {
    assert it in UpRoute(s.bridges[s.circuits[c].bridge.value]);
  }

  /** Some future of a run, short of a wrap of the id counter, has everything circuit `c` sent written to its bridge. */
  ghost predicate CanAllBeWritten(steps: seq<Step>, c: nat) {
    exists future :: Unwrapped(steps + future) && AllWritten(Run(steps + future), c)
  }

  /** After any run everything a circuit has sent can still be written to its bridge exactly when none of it is lost
      and, if some of it is on the uplink, the server reads, the circuit's relay (if it has one) writes, and the cap
      per wire need not end the wire first. */
  lemma CanAllBeWrittenIff(steps: seq<Step>, c: nat)
    requires Unwrapped(steps) && c < |Run(steps).circuits|
    ensures CanAllBeWritten(steps, c) <==> Open(Run(steps), c)
  {
    if Open(Run(steps), c) {
      RunSound(steps);
      var future := BringsAll(Run(steps), c);
      RunGoesOn(steps, future);
      assert Unwrapped(steps + future) && AllWritten(Run(steps + future), c);
    } else {
      forall future | Unwrapped(steps + future)
        ensures !AllWritten(Run(steps + future), c)
      {
        RunGoesOn(steps, future);
        RunSound(steps);
        ShutFrom(Run(steps), future, c);
        ShutIsUnwritten(steps + future, c);
      }
    }
  }

  lemma RunSnoc(steps: seq<Step>, step: Step)
    ensures Run(steps + [step]) == Next(Run(steps), step)
  {
    assert (steps + [step])[..|steps|] == steps && (steps + [step])[|steps|] == step;
  }

  /** Losing nothing is not enough: a cell on the wire when the server ends is not lost, and never written. */
  lemma StuckWithoutLoss() returns (steps: seq<Step>)
    ensures Unwrapped(steps) && |Run(steps).circuits| == 1 && 0 !in Run(steps).lossy && !CanAllBeWritten(steps, 0)
  {
    steps := [OpenCircuit, CircuitSend(0, [7]), ServerStops];
    assert steps == ([] + [OpenCircuit]) + [CircuitSend(0, [7])] + [ServerStops];
    RunSnoc([], OpenCircuit);
    RunSnoc([] + [OpenCircuit], CircuitSend(0, [7]));
    RunSnoc([] + [OpenCircuit] + [CircuitSend(0, [7])], ServerStops);
    OpensNext(START);
    CanAllBeWrittenIff(steps, 0);
  }
}
