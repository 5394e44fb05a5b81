/** The shared emitter: one pass over all registered flows, edited in place. */
module Emitter {
  import opened Transport

  predicate Distinct<T(==)>(s: seq<T>) {
    forall j, k :: 0 <= j < k < |s| ==> s[j] != s[k]
  }

  /** `Vec::swap_remove`: the last element takes the place of the removed one. */
  function SwapRemove<T>(s: seq<T>, i: nat): (r: seq<T>)
    requires i < |s|
    ensures |r| == |s| - 1
  {
    if i == |s| - 1 then s[..i] else s[..i] + [s[|s| - 1]] + s[i + 1..|s| - 1]
  }

  /** Where each element of the shortened vector came from. */
  function Origin<T>(s: seq<T>, i: nat, k: nat): (j: nat)
    requires i < |s| && k < |s| - 1
    ensures j < |s| && j != i
    ensures SwapRemove(s, i)[k] == s[j]
  {
    if k == i then |s| - 1 else k
  }

  /** The prefix stays, one element goes, and nothing else is gained, lost or doubled. */
  lemma SwapRemoveShape<T>(s: seq<T>, i: nat)
    requires i < |s| && Distinct(s)
    ensures SwapRemove(s, i)[..i] == s[..i]
    ensures Distinct(SwapRemove(s, i))
    ensures forall x :: x in SwapRemove(s, i) <==> x in s && x != s[i]
    ensures forall k :: i <= k < |s| - 1 ==> SwapRemove(s, i)[k] in s[i + 1..]
  {
    var r := SwapRemove(s, i);
    forall j, k | 0 <= j < k < |r|
      ensures r[j] != r[k]
    {
      assert Origin(s, i, j) != Origin(s, i, k);
      assert r[j] == s[Origin(s, i, j)] && r[k] == s[Origin(s, i, k)];
    }
    forall x
      ensures x in r <==> x in s && x != s[i]
    {
      if x in r {
        var k :| 0 <= k < |r| && r[k] == x;
        assert x == s[Origin(s, i, k)];
      }
      if x in s && x != s[i] {
        var j :| 0 <= j < |s| && s[j] == x;
        assert r[if j == |s| - 1 then i else j] == x;
      }
    }
    forall k | i <= k < |r|
      ensures r[k] in s[i + 1..]
    {
      assert r[k] == s[i + 1..][Origin(s, i, k) - i - 1];
    }
  }

  type Server = (Params, Flow, Io) -> Serviced

  /** `serve` computes what `Service` computes. Keeping it abstract keeps a pass over many flows apart
      from what one service call does. */
  ghost predicate IsService(serve: Server) {
    forall p: Params, f: Flow, io: Io {:trigger Service(p, f, io)} :: p.clock.Valid() ==> serve(p, f, io) == Service(p, f, io)
  }

  /** Flows own their wire, session and cipher: no two share any object. */
  ghost predicate Separate(all: set<FlowSlot>) {
    && (forall f :: f in all ==> f.Valid())
    && (forall f, g :: f in all && g in all && f != g ==> f.Repr !! g.Repr)
  }

  /** One pass: the surroundings of each flow, the state it was in when the pass began, and all their objects. */
  datatype Plan = Plan(io: FlowSlot -> Io, serve: Server, start: map<FlowSlot, Flow>, objects: set<object>) {
    ghost predicate Valid() {
      IsService(serve) && Separate(start.Keys) && forall f :: f in start ==> f.Repr <= objects
    }

    /** `f` has been served exactly once since the pass began, with answer `kept`. */
    ghost predicate HasResult(f: FlowSlot, kept: bool)
      reads f.Repr
    {
      f in start && Serviced(f.Abs(), kept) == serve(f.p, start[f], io(f))
    }

    ghost predicate Untouched(f: FlowSlot)
      reads f.Repr
    {
      f in start && f.Abs() == start[f]
    }

    /** The flows before `i` are served and kept, those from `j` on are as they were when the pass
        began, and those no longer listed were served and let go. */
    ghost predicate Progress(fs: seq<FlowSlot>, i: nat, j: nat)
      reads objects
    {
      && i <= |fs|
      && (forall f :: f in start ==> f.Repr <= objects)
      && Distinct(fs)
      && (forall f :: f in fs ==> f in start)
      && (forall k :: 0 <= k < i ==> HasResult(fs[k], true))
      && (forall k :: j <= k < |fs| ==> Untouched(fs[k]))
      && (forall f :: f in start && f !in fs ==> HasResult(f, false))
    }
  }

  /** Servicing one flow settles it and changes no other. */
  method ServeOne(ghost plan: Plan, fs: seq<FlowSlot>, i: nat, io: Io) returns (keep: bool)
    requires plan.Valid() && i < |fs| && plan.Progress(fs, i, i) && io == plan.io(fs[i])
    modifies plan.objects
    ensures plan.Progress(fs, i, i + 1) && plan.HasResult(fs[i], keep)
  {
    keep := fs[i].ServiceFlow(io);
  }

  /** Letting the flow just served go keeps the account straight, whichever flow takes its place. */
  lemma LetGo(plan: Plan, fs: seq<FlowSlot>, i: nat)
    requires i < |fs| && plan.Progress(fs, i, i + 1) && plan.HasResult(fs[i], false)
    ensures plan.Progress(SwapRemove(fs, i), i, i)
  {
    SwapRemoveShape(fs, i);
    var r := SwapRemove(fs, i);
    forall k | i <= k < |r|
      ensures plan.Untouched(r[k])
    {
      assert r[k] == fs[Origin(fs, i, k)];
    }
    forall k | 0 <= k < i
      ensures plan.HasResult(r[k], true)
    {
      assert r[k] == fs[Origin(fs, i, k)];
    }
  }

  lemma HoldOn(plan: Plan, fs: seq<FlowSlot>, i: nat)
    requires i < |fs| && plan.Progress(fs, i, i + 1) && plan.HasResult(fs[i], true)
    ensures plan.Progress(fs, i + 1, i + 1)
  {
  }

  class SharedEmitter {
    var flows: seq<FlowSlot>
    ghost var Repr: set<object>

    ghost predicate Valid()
      reads this
    {
      && Distinct(flows)
      && Separate(set f | f in flows)
      && (forall f :: f in flows ==> f.Valid() && f.Repr <= Repr)
      && this !in Repr
    }

    constructor ()
      ensures Valid() && flows == [] && Repr == {}
    {
      flows := [];
      Repr := {};
    }

    method Register(flow: FlowSlot)
      requires Valid() && flow.Valid() && flow !in flows && this !in flow.Repr
      requires forall f :: f in flows ==> f.Repr !! flow.Repr
      modifies this
      ensures Valid() && flows == old(flows) + [flow] && Repr == old(Repr) + flow.Repr
    {
      flows := flows + [flow];
      Repr := Repr + flow.Repr;
    }

    /** One turn of the pass: the flow at `i` is serviced, and either stays or gives up its place. */
    method Turn(ghost plan: Plan, i: nat, io: Io) returns (next: nat)
      requires plan.Valid() && i < |flows| && plan.Progress(flows, i, i) && io == plan.io(flows[i])
      requires this !in plan.objects
      modifies this`flows, plan.objects
      ensures next <= |flows| && plan.Progress(flows, next, next)
      ensures |flows| - next == old(|flows|) - i - 1
    {
      var keep := ServeOne(plan, flows, i, io);
      if keep {
        HoldOn(plan, flows, i);
        next := i + 1;
      } else {
        Drop(plan, i);
        next := i;
      }
    }

    /** The flow at `i` gives up its place. */
    method Drop(ghost plan: Plan, i: nat)
      requires i < |flows| && plan.Progress(flows, i, i + 1) && plan.HasResult(flows[i], false)
      requires this !in plan.objects
      modifies this`flows
      ensures |flows| == old(|flows|) - 1 && plan.Progress(flows, i, i)
    {
      LetGo(plan, flows, i);
      flows := SwapRemove(flows, i);
    }

    method ServeAll(ghost plan: Plan, io: FlowSlot -> Io)
      requires plan.Valid() && plan.io == io && plan.Progress(flows, 0, 0) && this !in plan.objects
      modifies this`flows, plan.objects
      ensures plan.Progress(flows, |flows|, |flows|)
    {
      var i: nat := 0;
      while i < |flows|
        invariant i <= |flows| && plan.Progress(flows, i, i)
        decreases |flows| - i
      {
        i := Turn(plan, i, io(flows[i]));
      }
    }

    /** One tick: every registered flow is serviced exactly once, with its own surroundings `io`, and the
        flows left are exactly those whose service asked to be kept, none of them twice. */
    method RunPass(io: FlowSlot -> Io)
      requires Valid()
      modifies this, Repr
      ensures Valid()
      ensures forall f :: f in flows ==> f in old(flows)
      ensures forall f :: f in old(flows) ==> Serviced(f.Abs(), f in flows) == Service(f.p, old(f.Abs()), io(f))
    {
      ghost var start := map f | f in flows :: f.Abs();
      ghost var serve: Server :=
        (p: Params, f: Flow, io: Io) => if p.clock.Valid() then Service(p, f, io) else Serviced(f, true);
      ghost var plan := Plan(io, serve, start, Repr);
      ServeAll(plan, io);
    }
  }
}
