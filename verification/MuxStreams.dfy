/** Stream ids on one shared wire, and the process-wide cap on bridge streams. */
module MuxStreams {
  import opened Base
  import opened Cells

  // --- Stream-id allocation -------------------------------------------------------

  const ID_SPACE: nat := 0x1_0000
  const MAX_LIVE_IDS: nat := 65534

  /** The ids below `n`. */
  function Ids(n: nat): (r: set<int>)
    ensures |r| == n
    ensures forall v :: v in r <==> 0 <= v < n
  {
    if n == 0 then {} else Ids(n - 1) + {n - 1}
  }

  lemma {:induction false} SetSubset<E>(a: set<E>, b: set<E>)
    requires a <= b
    ensures |a| <= |b|
  {
    if a != {} {
      var x :| x in a;
      SetSubset(a - {x}, b - {x});
    }
  }

  predicate Usable(id: U16, taken: set<U16>) { id != STREAM_ID_SINGLE && id !in taken }

  /** Pigeonhole: below the limit some id other than 0 is free. */
  lemma FreeId(taken: set<U16>) returns (id: U16)
    requires |taken| < MAX_LIVE_IDS
    ensures Usable(id, taken)
  {
    var all: set<int> := Ids(ID_SPACE);
    var used: set<int> := taken + {STREAM_ID_SINGLE};
    if all <= used {
      SetSubset(all, used);
    }
    var v :| v in all && v !in used;
    id := v;
  }

  /** The `k`-th value of the 16-bit counter from `from` on. */
  function Candidate(from: U16, k: nat): U16 { (from + k) % ID_SPACE }

  lemma CandidateNext(from: U16, k: nat)
    ensures Candidate(Candidate(from, k), 1) == Candidate(from, k + 1)
  {
  }

  /** Every id is reached within one round of the counter. */
  lemma Reached(from: U16, id: U16) returns (d: nat)
    ensures d < ID_SPACE && Candidate(from, d) == id
  {
    d := (id - from) % ID_SPACE;
  }

  /** `id` is the first usable id at or after `from`, going round the 16-bit space, `k` steps on. */
  ghost predicate FirstAt(id: U16, from: U16, taken: set<U16>, k: nat) {
    && k < ID_SPACE
    && id == Candidate(from, k) && Usable(id, taken)
    && forall j: nat :: j < k ==> !Usable(Candidate(from, j), taken)
  }

  ghost predicate IsFirstUsable(id: U16, from: U16, taken: set<U16>) {
    exists k: nat :: FirstAt(id, from, taken, k)
  }

  /** The scan: the first usable candidate from the `k`-th on. */
  function Scan(from: U16, taken: set<U16>, k: nat): U16
    decreases ID_SPACE - k
  {
    if k >= ID_SPACE || Usable(Candidate(from, k), taken) then Candidate(from, k) else Scan(from, taken, k + 1)
  }

  lemma {:induction false} ScanReaches(from: U16, taken: set<U16>, k: nat, d: nat)
    requires k <= d < ID_SPACE && Usable(Candidate(from, d), taken)
    requires forall j: nat :: j < d ==> !Usable(Candidate(from, j), taken)
    ensures Scan(from, taken, k) == Candidate(from, d)
    decreases d - k
  {
    if k < d {
      ScanReaches(from, taken, k + 1, d);
    }
  }

  /** There is one first usable id, and the scan finds it. */
  lemma ScanIsFirst(id: U16, from: U16, taken: set<U16>)
    requires IsFirstUsable(id, from, taken)
    ensures Scan(from, taken, 0) == id
  {
    var d: nat :| FirstAt(id, from, taken, d);
    ScanReaches(from, taken, 0, d);
  }

  class MuxWire<T> {
    var nextId: U16
    var streamMap: map<U16, T>

    /** 0 is never handed out, and the live ids never exceed 65534. */
    ghost predicate Valid()
      reads this
    {
      STREAM_ID_SINGLE !in streamMap && |streamMap| <= MAX_LIVE_IDS
    }

    constructor ()
      ensures Valid() && nextId == 1 && streamMap == map[]
    {
      nextId := 1;
      streamMap := map[];
    }

    /** From any counter value the wrapping scan ends, with the first id that is neither 0 nor live;
        only that key is added. A saturated wire hands out nothing. */
    method AddStream(downTx: T) returns (r: Option<U16>)
      requires Valid()
      modifies this
      ensures Valid()
      ensures |old(streamMap)| >= MAX_LIVE_IDS ==>
        r == None && streamMap == old(streamMap) && nextId == old(nextId)
      ensures |old(streamMap)| < MAX_LIVE_IDS ==>
        && r.Some?
        && IsFirstUsable(r.value, old(nextId), old(streamMap.Keys))
        && r.value == Scan(old(nextId), old(streamMap.Keys), 0)
        && streamMap == old(streamMap)[r.value := downTx]
        && nextId == Candidate(r.value, 1)
    {
      if |streamMap| >= MAX_LIVE_IDS {
        return None;
      }
      ghost var start, taken := nextId, streamMap.Keys;
      ghost var free := FreeId(taken);
      ghost var d := Reached(start, free);
      ghost var k: nat := 0;
      var candidate := nextId;
      nextId := Candidate(nextId, 1);
      while candidate == STREAM_ID_SINGLE || candidate in streamMap
        invariant streamMap == old(streamMap)
        invariant k <= d < ID_SPACE
        invariant candidate == Candidate(start, k) && nextId == Candidate(candidate, 1)
        invariant forall j: nat :: j < k ==> !Usable(Candidate(start, j), taken)
        decreases d - k
      {
        assert !Usable(Candidate(start, k), taken);
        CandidateNext(start, k);
        candidate := nextId;
        nextId := Candidate(nextId, 1);
        k := k + 1;
      }
      assert FirstAt(candidate, start, taken, k);
      ScanIsFirst(candidate, start, taken);
      streamMap := streamMap[candidate := downTx];
      r := Some(candidate);
    }

    /** A closed stream frees its id and no other. */
    method RemoveStream(id: U16)
      requires Valid()
      modifies this`streamMap
      ensures Valid()
      ensures streamMap == old(streamMap) - {id}
    {
      ghost var before := streamMap;
      streamMap := streamMap - {id};
      KeysSubset(streamMap, before);
    }
  }

  lemma KeysSubset<T>(a: map<U16, T>, b: map<U16, T>)
    requires a.Keys <= b.Keys
    ensures |a| <= |b|
  {
    SetSubset(a.Keys, b.Keys);
    assert |a.Keys| == |a| && |b.Keys| == |b|;
  }

  /** Below every live id the counter hands out its own value. */
  lemma FreshBeforeWrap(from: U16, taken: set<U16>)
    requires from != STREAM_ID_SINGLE && (forall v :: v in taken ==> v < from)
    ensures Scan(from, taken, 0) == from
  {
    assert Candidate(from, 0) == from && Usable(from, taken);
  }

  // --- The global stream cap ------------------------------------------------------

  const MAX_GLOBAL_BRIDGE_STREAMS: nat := 4096

  /** Attempts between `fetch_add` and their decision, by the outcome their `fetch_add` fixed,
      and the relays holding a guard. Tokens stand for any number of wires and tasks. */
  datatype CapState = CapState(counter: int, admitted: set<nat>, refused: set<nat>, live: set<nat>)

  datatype CapStep =
    | FetchAdd(token: nat)   // a wire sees a new stream id and counts it in
    | Admit(token: nat)      // the count it saw was below the cap: a relay with a guard starts
    | Undo(token: nat)       // it was not: the attempt is counted out again
    | GuardDrop(token: nat)  // a relay ends, however it ends

  function CapNext(s: CapState, step: CapStep): CapState {
    match step
    case FetchAdd(t) =>
      if t in s.admitted + s.refused + s.live then s
      else if s.counter >= MAX_GLOBAL_BRIDGE_STREAMS then s.(counter := s.counter + 1, refused := s.refused + {t})
      else s.(counter := s.counter + 1, admitted := s.admitted + {t})
    case Admit(t) =>
      if t in s.admitted then s.(admitted := s.admitted - {t}, live := s.live + {t}) else s
    case Undo(t) =>
      if t in s.refused then s.(counter := s.counter - 1, refused := s.refused - {t}) else s
    case GuardDrop(t) =>
      if t in s.live then s.(counter := s.counter - 1, live := s.live - {t}) else s
  }

  /** The counter is the live relays plus all undecided attempts, and relays plus the attempts sure of
      admission never exceed the cap. */
  ghost predicate CapInv(s: CapState) {
    && s.admitted !! s.refused && s.admitted !! s.live && s.refused !! s.live
    && s.counter == |s.live| + |s.admitted| + |s.refused|
    && |s.live| + |s.admitted| <= MAX_GLOBAL_BRIDGE_STREAMS
  }

  lemma FetchAddKeeps(s: CapState, t: nat)
    requires CapInv(s)
    ensures CapInv(CapNext(s, FetchAdd(t)))
  {
    assert t !in s.refused ==> |s.refused + {t}| == |s.refused| + 1;
    assert t !in s.admitted ==> |s.admitted + {t}| == |s.admitted| + 1;
  }

  lemma AdmitKeeps(s: CapState, t: nat)
    requires CapInv(s)
    ensures CapInv(CapNext(s, Admit(t)))
  {
    if t in s.admitted {
      assert |s.admitted - {t}| == |s.admitted| - 1;
      assert |s.live + {t}| == |s.live| + 1;
    }
  }

  lemma UndoKeeps(s: CapState, t: nat)
    requires CapInv(s)
    ensures CapInv(CapNext(s, Undo(t)))
  {
    assert t in s.refused ==> |s.refused - {t}| == |s.refused| - 1;
  }

  lemma GuardDropKeeps(s: CapState, t: nat)
    requires CapInv(s)
    ensures CapInv(CapNext(s, GuardDrop(t)))
  {
    assert t in s.live ==> |s.live - {t}| == |s.live| - 1;
  }

  lemma CapStepKeeps(s: CapState, step: CapStep)
    requires CapInv(s)
    ensures CapInv(CapNext(s, step))
  {
    match step
    case FetchAdd(t) => FetchAddKeeps(s, t);
    case Admit(t) => AdmitKeeps(s, t);
    case Undo(t) => UndoKeeps(s, t);
    case GuardDrop(t) => GuardDropKeeps(s, t);
  }

  function RunCap(steps: seq<CapStep>): CapState {
    if steps == [] then CapState(0, {}, {}, {})
    else CapNext(RunCap(steps[..|steps| - 1]), steps[|steps| - 1])
  }

  /** Under every interleaving of any number of wires: the counter never underflows, counts live relays and
      undecided attempts exactly, and at most 4096 relays are ever live. A decrement always finds a
      positive counter. The price of test-after-add: an attempt is refused exactly when relays and undecided
      attempts together fill the cap, so possibly with fewer than 4096 relays live. */
  lemma {:induction false} GlobalCap(steps: seq<CapStep>)
    ensures CapInv(RunCap(steps))
    ensures RunCap(steps).counter >= 0 && |RunCap(steps).live| <= MAX_GLOBAL_BRIDGE_STREAMS
    ensures RunCap(steps).live + RunCap(steps).refused != {} ==> RunCap(steps).counter > 0
    ensures
      var s := RunCap(steps);
      forall t: nat :: t !in s.admitted + s.refused + s.live ==>
        && (t in CapNext(s, FetchAdd(t)).refused <==> |s.live| + |s.admitted| + |s.refused| >= MAX_GLOBAL_BRIDGE_STREAMS)
        && (t in CapNext(s, FetchAdd(t)).admitted <==> |s.live| + |s.admitted| + |s.refused| < MAX_GLOBAL_BRIDGE_STREAMS)
  {
    if steps != [] {
      GlobalCap(steps[..|steps| - 1]);
      CapStepKeeps(RunCap(steps[..|steps| - 1]), steps[|steps| - 1]);
    }
    var s := RunCap(steps);
    if t :| t in s.live + s.refused {
      assert |s.live| > 0 || |s.refused| > 0;
    }
  }

  lemma RunCapSnoc(steps: seq<CapStep>, step: CapStep)
    ensures RunCap(steps + [step]) == CapNext(RunCap(steps), step)
  {
    assert (steps + [step])[..|steps|] == steps;
  }

  /** The cap is not shy: every number of relays up to 4096 can be live at once. */
  lemma {:induction false} CapFills(n: nat) returns (steps: seq<CapStep>)
    requires n <= MAX_GLOBAL_BRIDGE_STREAMS
    ensures |RunCap(steps).live| == n && RunCap(steps).admitted == RunCap(steps).refused == {}
    ensures forall t :: t in RunCap(steps).live ==> t < n
  {
    if n == 0 {
      steps := [];
    } else {
      var init := CapFills(n - 1);
      GlobalCap(init);
      RunCapSnoc(init, FetchAdd(n - 1));
      RunCapSnoc(init + [FetchAdd(n - 1)], Admit(n - 1));
      steps := init + [FetchAdd(n - 1)] + [Admit(n - 1)];
      assert |RunCap(init).live + {n - 1}| == n;
    }
  }

  /** What is still to be decided and ended. */
  function CapWork(s: CapState): nat { 2 * |s.admitted| + |s.refused| + |s.live| }

  /** While there is any, some step does a part of it. */
  lemma CapStepDone(s: CapState) returns (step: CapStep)
    requires CapInv(s) && CapWork(s) > 0
    ensures CapWork(CapNext(s, step)) < CapWork(s)
  {
    if t :| t in s.admitted {
      step := Admit(t);
      assert |s.admitted - {t}| == |s.admitted| - 1 && |s.live + {t}| == |s.live| + 1;
    } else if t :| t in s.refused {
      step := Undo(t);
      assert |s.refused - {t}| == |s.refused| - 1;
    } else {
      var t :| t in s.live;
      step := GuardDrop(t);
      assert |s.live - {t}| == |s.live| - 1;
    }
  }

  function CapFrom(s: CapState, steps: seq<CapStep>): CapState
    decreases |steps|
  {
    if steps == [] then s else CapFrom(CapNext(s, steps[0]), steps[1..])
  }

  /** And nothing is leaked: from whatever a run has come to, once every attempt is decided and every relay has ended
      the counter is back at 0. */
  lemma {:induction false} CapEmpties(s: CapState) returns (future: seq<CapStep>)
    requires CapInv(s)
    ensures CapFrom(s, future) == CapState(0, {}, {}, {})
    decreases CapWork(s)
  {
    if CapWork(s) == 0 {
      future := [];
    } else {
      var step := CapStepDone(s);
      CapStepKeeps(s, step);
      var rest := CapEmpties(CapNext(s, step));
      future := [step] + rest;
      assert future[1..] == rest;
    }
  }
}
