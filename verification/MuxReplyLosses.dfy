/** What a reply's loss is: the bridges charged are exactly those one of whose replies is nowhere any more. */
module MuxReplyLosses {
  import opened Base
  import opened Cells
  import opened MuxRouting
  import opened MuxIsolation
  import opened MuxReplies
  import opened MuxLosses

  predicate OnDownlink(s: State, it: Item) {
    exists p :: 0 <= p < |s.downlink| && s.downlink[p].item == Some(it)
  }

  /** Some circuit has been passed it, or has it queued. */
  predicate WithCircuitOf(s: State, it: Item) {
    exists c :: 0 <= c < |s.circuits| && it in DownRoute(s.circuits[c])
  }

  predicate Around(s: State, it: Item) { OnDownlink(s, it) || WithCircuitOf(s, it) }

  /** A reply that bridge connection `b` gave is neither on the wire nor with any circuit. */
  ghost predicate LostReply(s: State, b: nat) {
    b < |s.bridges| && exists n: nat :: n < |s.bridges[b].replies| && !Around(s, Item(b, n, s.bridges[b].replies[n]))
  }

  // --- What a step does to the places -----------------------------------------------

  predicate DownHead(s: State, it: Item) { s.downlink != [] && s.downlink[0].item == Some(it) }

  /** Apart from the head of the downlink no circuit has anything it did not have. */
  ghost predicate GivenFrom(s: State, t: State) {
    forall c, it :: 0 <= c < |t.circuits| && it in DownRoute(t.circuits[c]) ==>
      (c < |s.circuits| && it in DownRoute(s.circuits[c])) || DownHead(s, it)
  }

  ghost predicate GivenShrinks(s: State, t: State) {
    forall c, it :: 0 <= c < |t.circuits| && it in DownRoute(t.circuits[c]) ==>
      c < |s.circuits| && it in DownRoute(s.circuits[c])
  }

  /** Nothing is on the downlink that was not, except `sent`. */
  ghost predicate DownlinkFrom(s: State, t: State, sent: Option<Item>) {
    forall p :: 0 <= p < |t.downlink| && t.downlink[p].item.Some? ==>
      OnDownlink(s, t.downlink[p].item.value) || t.downlink[p].item == sent
  }

  lemma DownlinkShrinks(s: State, t: State)
    requires Shrunk(s.downlink, t.downlink)
    ensures DownlinkFrom(s, t, None)
  {
    forall p | 0 <= p < |t.downlink| && t.downlink[p].item.Some?
      ensures OnDownlink(s, t.downlink[p].item.value)
    {
      var q :| 0 <= q < |s.downlink| && s.downlink[q] == t.downlink[p];
    }
  }

  /** The head of the downlink is with no circuit, and not on the wire a second time. */
  lemma DownHeadIsFresh(s: State, it: Item)
    requires Inv(s) && DownHead(s, it)
    ensures !WithCircuitOf(s, it)
    ensures it !in Items(s.downlink[1..])
  {
    var rest := Items(s.downlink[1..]);
    assert Items(s.downlink) == [it] + rest;
    if it in rest {
      OrderedApart([it], rest, it);
    }
    forall c: nat | c < |s.circuits|
      ensures it !in DownRoute(s.circuits[c])
    {
      assert CircuitOk(s, c);
      OrderedApart(DownRoute(s.circuits[c]), Items(s.downlink), it);
    }
  }

  /** What is lost stays lost. */
  lemma LostReplyKept(s: State, t: State, sent: Option<Item>, b: nat)
    requires Grows(s, t) && GivenFrom(s, t) && DownlinkFrom(s, t, sent)
    requires sent.Some? ==> sent.value.origin < |s.bridges| && sent.value.n == |s.bridges[sent.value.origin].replies|
    requires LostReply(s, b)
    ensures LostReply(t, b)
  {
    var n: nat :| n < |s.bridges[b].replies| && !Around(s, Item(b, n, s.bridges[b].replies[n]));
    var it := Item(b, n, s.bridges[b].replies[n]);
    assert it == Item(b, n, t.bridges[b].replies[n]);
    forall p | 0 <= p < |t.downlink|
      ensures t.downlink[p].item != Some(it)
    {
      assert t.downlink[p].item.Some? ==> OnDownlink(s, t.downlink[p].item.value) || t.downlink[p].item == sent;
    }
    assert DownHead(s, it) ==> OnDownlink(s, it);
  }

  // --- Every reachable state --------------------------------------------------------

  ghost predicate ReplyChargesAreLosses(s: State) {
    forall b :: b in s.lossyDown ==> LostReply(s, b)
  }

  lemma NoReplyCharge(s: State, t: State, sent: Option<Item>)
    requires ReplyChargesAreLosses(s) && Grows(s, t) && t.lossyDown == s.lossyDown
    requires GivenFrom(s, t) && DownlinkFrom(s, t, sent)
    requires sent.Some? ==> sent.value.origin < |s.bridges| && sent.value.n == |s.bridges[sent.value.origin].replies|
    ensures ReplyChargesAreLosses(t)
  {
    forall b | b in t.lossyDown
      ensures LostReply(t, b)
    {
      LostReplyKept(s, t, sent, b);
    }
  }

  lemma GoneReplyIsLost(t: State, it: Item)
    requires RepliedBy(t, it) && !Around(t, it)
    ensures LostReply(t, it.origin)
  {
    assert it == Item(it.origin, it.n, t.bridges[it.origin].replies[it.n]);
  }

  /** A step that puts no reply anywhere new and charges nobody. */
  ghost predicate DownQuiet(s: State, t: State) {
    && t.lossyDown == s.lossyDown && Grows(s, t) && Shrunk(s.downlink, t.downlink)
    && |s.circuits| <= |t.circuits|
    && forall c :: 0 <= c < |t.circuits| ==>
         if c < |s.circuits| then DownRoute(t.circuits[c]) == DownRoute(s.circuits[c]) else DownRoute(t.circuits[c]) == []
  }

  lemma DownQuietCharges(s: State, t: State)
    requires ReplyChargesAreLosses(s) && DownQuiet(s, t)
    ensures ReplyChargesAreLosses(t)
  {
    DownlinkShrinks(s, t);
    NoReplyCharge(s, t, None);
  }

  lemma OpenDownQuiet(s: State)
    ensures DownQuiet(s, Next(s, OpenCircuit))
  {
  }

  lemma SendDownQuiet(s: State, c: nat, data: seq<Byte>)
    ensures DownQuiet(s, Next(s, CircuitSend(c, data)))
  {
  }

  lemma CloseDownQuiet(s: State, c: nat, sentinel: bool)
    ensures DownQuiet(s, Next(s, CircuitClose(c, sentinel)))
  {
  }

  lemma DeliverDownQuiet(s: State, c: nat)
    ensures DownQuiet(s, Next(s, CircuitDeliver(c)))
  {
    if Next(s, CircuitDeliver(c)) != s {
      var x := s.circuits[c];
      assert x.down == [x.down[0]] + x.down[1..];
    }
  }

  lemma RelayDownQuiet(s: State, t: State, b: nat)
    requires b < |s.bridges| == |t.bridges| && t.circuits == s.circuits && t.downlink == s.downlink && t.lossyDown == s.lossyDown
    requires forall d :: 0 <= d < |s.bridges| && d != b ==> t.bridges[d] == s.bridges[d]
    requires t.bridges[b].id == s.bridges[b].id && t.bridges[b].replies == s.bridges[b].replies
    ensures DownQuiet(s, t)
  {
  }

  lemma RelayStepDownQuiet(s: State, step: Step)
    requires step.RelayHold? || step.RelayHoldEnds? || step.GateOpens? || step.RelayForward? || step.RelayWriterStops?
    ensures DownQuiet(s, Next(s, step))
  {
    if Next(s, step) != s {
      RelayDownQuiet(s, Next(s, step), step.b);
    }
  }

  lemma ReaderStopsDownQuiet(s: State, b: nat, sentinel: bool)
    ensures DownQuiet(s, Next(s, BridgeReaderStops(b, sentinel)))
  {
  }

  lemma StoppedDownQuiet(s: State)
    ensures DownQuiet(s, Stopped(s))
  {
  }

  lemma ToBridgeDownQuiet(s: State, u: State, id: U16, b: nat, it: Item)
    requires DownQuiet(s, u)
    ensures DownQuiet(s, ToBridge(u, id, b, it))
  {
    ToBridgeGrows(s, u, id, b, it);
  }

  lemma OpenedDownQuiet(s: State, u: State, id: U16, c: nat, gone: bool)
    requires u.circuits == s.circuits && u.bridges == s.bridges && u.downlink == s.downlink && u.lossyDown == s.lossyDown
    ensures DownQuiet(s, Opened(u, id, c, gone))
  {
  }

  lemma NewBridgeDownQuiet(s: State, u: State, id: U16, it: Item, refused: bool, gone: bool)
    requires u.circuits == s.circuits && u.bridges == s.bridges && u.downlink == s.downlink && u.lossyDown == s.lossyDown
    ensures DownQuiet(s, NewBridge(u, id, it, refused, gone))
  {
    NewBridgeGrows(s, u, id, it, refused, gone);
    if |u.serverMap| < MAX_STREAMS_PER_WIRE && !refused {
      OpenedDownQuiet(s, u, id, it.origin, gone);
      ToBridgeDownQuiet(s, Opened(u, id, it.origin, gone), id, |u.bridges|, it);
    }
  }

  lemma RouteUpDownQuiet(s: State, refused: bool, gone: bool)
    ensures DownQuiet(s, RouteUp(s, refused, gone))
  {
    if s.uplink != [] && s.serverAlive {
      var u := s.(uplink := s.uplink[1..]);
      match s.uplink[0].item
      case None => DetachedRoutes(u, s.uplink[0].id);
      case Some(it) =>
        if s.uplink[0].id in u.serverMap {
          ToBridgeDownQuiet(s, u, s.uplink[0].id, u.serverMap[s.uplink[0].id], it);
        } else {
          NewBridgeDownQuiet(s, u, s.uplink[0].id, it, refused, gone);
        }
    }
  }

  lemma ReplyCharges(s: State, b: nat, data: seq<Byte>)
    requires ReplyChargesAreLosses(s)
    ensures ReplyChargesAreLosses(Next(s, BridgeReply(b, data)))
  {
    var t := Next(s, BridgeReply(b, data));
    if t != s {
      var it := Item(b, |s.bridges[b].replies|, data);
      forall p | 0 <= p < |t.downlink| && t.downlink[p].item.Some?
        ensures OnDownlink(s, t.downlink[p].item.value) || t.downlink[p].item == Some(it)
      {
        assert p < |s.downlink| ==> t.downlink[p] == s.downlink[p];
      }
      NoReplyCharge(s, t, Some(it));
    }
  }

  /** The head of the downlink goes to one circuit, or its bridge is charged. */
  lemma ClientRouteGives(s: State, it: Item)
    requires DownHead(s, it)
    ensures var t := RouteDown(s);
      && t.downlink == s.downlink[1..] && t.bridges == s.bridges && Grows(s, t) && |t.circuits| == |s.circuits|
      && GivenFrom(s, t)
      && (t.lossyDown == s.lossyDown || (GivenShrinks(s, t) && t.lossyDown == s.lossyDown + {it.origin}))
  {
  }

  lemma ClientDataCharges(s: State, it: Item)
    requires Inv(s) && ReplyChargesAreLosses(s) && DownHead(s, it)
    ensures ReplyChargesAreLosses(RouteDown(s))
  {
    var t := RouteDown(s);
    ClientRouteGives(s, it);
    DownlinkShrinks(s, t);
    if t.lossyDown == s.lossyDown {
      NoReplyCharge(s, t, None);
    } else {
      DroppedReply(s, t, it);
    }
  }

  lemma ClientSentinelCharges(s: State)
    requires ReplyChargesAreLosses(s) && s.downlink != [] && s.downlink[0].item == None
    ensures ReplyChargesAreLosses(RouteDown(s))
  {
    DownQuietCharges(s, RouteDown(s));
  }

  lemma ClientRouteCharges(s: State)
    requires Inv(s) && ReplyChargesAreLosses(s)
    ensures ReplyChargesAreLosses(RouteDown(s))
  {
    if s.downlink != [] {
      match s.downlink[0].item
      case None => ClientSentinelCharges(s);
      case Some(it) => ClientDataCharges(s, it);
    }
  }

  lemma DroppedReply(s: State, t: State, it: Item)
    requires Inv(s) && ReplyChargesAreLosses(s) && Grows(s, t) && DownHead(s, it) && t.downlink == s.downlink[1..]
    requires GivenShrinks(s, t) && DownlinkFrom(s, t, None) && t.lossyDown == s.lossyDown + {it.origin}
    ensures ReplyChargesAreLosses(t)
  {
    DownHeadIsFresh(s, it);
    assert s.downlink[0].item.Some? && RepliedBy(t, it);
    if OnDownlink(t, it) {
      ItemsMember(t.downlink, it);
    }
    assert !Around(t, it);
    GoneReplyIsLost(t, it);
    forall b | b in t.lossyDown && b != it.origin
      ensures LostReply(t, b)
    {
      LostReplyKept(s, t, None, b);
    }
  }

  /** A reply waiting behind what was passed on is nowhere once its circuit's writer has stopped. */
  lemma StoppedReplyIsGone(s: State, t: State, c: nat, it: Item)
    requires Inv(s) && c < |s.circuits| && it in s.circuits[c].down
    requires t == Next(s, CircuitWriterStops(c)) && t != s
    ensures RepliedBy(t, it) && !Around(t, it)
  {
    var x := s.circuits[c];
    assert CircuitOk(s, c) && it in DownRoute(x);
    assert DownRoute(x) + Items(s.downlink) == x.delivered + (x.down + Items(s.downlink));
    OrderedApart(x.delivered, x.down + Items(s.downlink), it);
    if OnDownlink(t, it) {
      ItemsMember(s.downlink, it);
      OrderedApart(DownRoute(x), Items(s.downlink), it);
    }
    forall d: nat | d < |t.circuits|
      ensures it !in DownRoute(t.circuits[d])
    {
      assert CircuitOk(s, d);
      assert DownRoute(t.circuits[c]) == x.delivered;
    }
  }

  lemma CircuitWriterStopsCharges(s: State, c: nat)
    requires Inv(s) && ReplyChargesAreLosses(s)
    ensures ReplyChargesAreLosses(Next(s, CircuitWriterStops(c)))
  {
    var t := Next(s, CircuitWriterStops(c));
    if t != s {
      DownlinkShrinks(s, t);
      assert GivenFrom(s, t);
      forall b | b in t.lossyDown
        ensures LostReply(t, b)
      {
        if b in s.lossyDown {
          LostReplyKept(s, t, None, b);
        } else {
          var it :| it in s.circuits[c].down && it.origin == b;
          StoppedReplyIsGone(s, t, c, it);
          GoneReplyIsLost(t, it);
        }
      }
    }
  }

  lemma StepReplyCharges(s: State, step: Step)
    requires Inv(s) && ReplyChargesAreLosses(s)
    ensures ReplyChargesAreLosses(Next(s, step))
  {
    match step
    case BridgeReply(b, data) => ReplyCharges(s, b, data);
    case ClientRoute => ClientRouteCharges(s);
    case CircuitWriterStops(c) => CircuitWriterStopsCharges(s, c);
    case _ =>
      DownQuietStep(s, step);
      DownQuietCharges(s, Next(s, step));
  }

  lemma DownQuietStep(s: State, step: Step)
    requires !step.BridgeReply? && !step.ClientRoute? && !step.CircuitWriterStops?
    ensures DownQuiet(s, Next(s, step))
  {
    match step
    case OpenCircuit => OpenDownQuiet(s);
    case CircuitSend(c, data) => SendDownQuiet(s, c, data);
    case CircuitClose(c, sentinel) => CloseDownQuiet(s, c, sentinel);
    case CircuitDeliver(c) => DeliverDownQuiet(s, c);
    case ServerRoute(refused, gone) => RouteUpDownQuiet(s, refused, gone);
    case ServerStops => StoppedDownQuiet(s);
    case BridgeReaderStops(b, sentinel) => ReaderStopsDownQuiet(s, b, sentinel);
    case _ => RelayStepDownQuiet(s, step);
  }

  lemma {:induction false} RunReplyCharges(steps: seq<Step>)
    requires Unwrapped(steps)
    ensures ReplyChargesAreLosses(Run(steps))
  {
    if steps != [] {
      StillUnwrapped(steps);
      RunReplyCharges(steps[..|steps| - 1]);
      RunKeeps(steps[..|steps| - 1]);
      StepReplyCharges(Run(steps[..|steps| - 1]), steps[|steps| - 1]);
    }
  }

  lemma {:induction false} FromMember(items: seq<Item>, b: nat, it: Item)
    requires it in From(items, b)
    ensures it in items
  {
    if items[0] != it {
      FromMember(items[1..], b, it);
    }
  }

  lemma WholeIsComplete(s: State, b: nat)
    requires b < |s.bridges| && b !in s.lossyDown && Whole(s, b)
    ensures !LostReply(s, b)
  {
    var x := s.bridges[b];
    forall n: nat | n < |x.replies|
      ensures Around(s, Item(b, n, x.replies[n]))
    {
      var it := AllReplies(x, b)[n];
      assert it in From(Downstream(s, x.id - 1), b);
      FromMember(Downstream(s, x.id - 1), b, it);
      ItemsMember(s.downlink, it);
    }
  }

  /** A bridge connection is charged exactly when a reply it gave is neither on the wire, nor queued for, nor passed
      on to, any circuit. */
  lemma ReplyChargedIffLost(steps: seq<Step>, b: nat)
    requires Unwrapped(steps)
    ensures b in Run(steps).lossyDown <==> LostReply(Run(steps), b)
  {
    RunReplyCharges(steps);
    RunWhole(steps);
    if b < |Run(steps).bridges| && b !in Run(steps).lossyDown {
      WholeIsComplete(Run(steps), b);
    }
  }

  /** The client drops the head: its circuit is forgotten, has stopped writing, or is full. */
  predicate ClientDrops(s: State, b: nat) {
    && s.downlink != [] && s.downlink[0].item.Some? && s.downlink[0].item.value.origin == b
    && (s.downlink[0].id in s.clientMap && s.clientMap[s.downlink[0].id] < |s.circuits| ==>
          var x := s.circuits[s.clientMap[s.downlink[0].id]];
          !x.writerOpen || |x.down| >= STREAM_CHANNEL_CAP)
  }

  predicate DropsReply(s: State, step: Step, b: nat) {
    match step
    case ClientRoute => ClientDrops(s, b)
    case CircuitWriterStops(c) =>
      c < |s.circuits| && s.circuits[c].writerOpen && exists it :: it in s.circuits[c].down && it.origin == b
    case _ => false
  }

  lemma ReplyChargedWhen(s: State, step: Step, b: nat)
    requires b !in s.lossyDown
    ensures b in Next(s, step).lossyDown <==> DropsReply(s, step, b)
  {
    if !step.BridgeReply? && !step.ClientRoute? && !step.CircuitWriterStops? {
      DownQuietStep(s, step);
    }
  }

  /** From a state in which no reply of `b` is lost, a step loses one exactly when the client drops it for want of a
      circuit that takes it, or its circuit stops writing with it still queued. */
  lemma ReplyLosingSteps(steps: seq<Step>, step: Step, b: nat)
    requires Unwrapped(steps + [step]) && !LostReply(Run(steps), b)
    ensures LostReply(Next(Run(steps), step), b) <==> DropsReply(Run(steps), step, b)
  {
    assert (steps + [step])[..|steps|] == steps;
    assert Run(steps + [step]) == Next(Run(steps), step);
    StillUnwrapped(steps + [step]);
    ReplyChargedIffLost(steps, b);
    ReplyChargedIffLost(steps + [step], b);
    ReplyChargedWhen(Run(steps), step, b);
  }
}
