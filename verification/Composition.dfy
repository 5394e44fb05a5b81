/** The burst composer: dummy budget, length ring, and interleaving that keeps the real order. */
module Composition {
  import opened Base
  import opened TimingCorrelation
  import opened ShapedSessions
  import opened OptimalPadding
  import KolmogorovSmirnov

  const LENGTH_POOL_CAP: nat := 16

  // --- Regimes ------------------------------------------------------------------

  datatype RatioDistributionKind = Sparse | Balanced | HeavyCover | Spiky {
    function CountRange(): (nat, nat) {
      match this
      case Sparse => (0, 1)
      case Balanced => (3, 8)
      case HeavyCover => (10, 18)
      case Spiky => (12, 20)
    }
  }

  datatype Regime = Regime(lo: nat, hi: nat, spiky: bool)

  /** The regime drawn for a kind under the configured ceiling. */
  function RegimeOf(kind: RatioDistributionKind, maxDummy: nat): Regime {
    Regime(kind.CountRange().0, Min(kind.CountRange().1, maxDummy), kind == Spiky)
  }

  /** Every regime leaves a non-empty range to draw from exactly when the ceiling is at least 12;
      below that the draw of some regime fails. */
  lemma DrawableIff(maxDummy: nat)
    ensures (forall kind: RatioDistributionKind ::
              RegimeOf(kind, maxDummy).lo <= RegimeOf(kind, maxDummy).hi) <==> maxDummy >= 12
  {
    assert RegimeOf(Spiky, maxDummy).lo == 12;
    assert RegimeOf(Spiky, maxDummy).hi == Min(20, maxDummy);
  }

  // --- Interleaving ---------------------------------------------------------------

  function Reals(frames: seq<MixedFrame>): seq<seq<Byte>> {
    if frames == [] then []
    else
      var last := |frames| - 1;
      Reals(frames[..last]) + (if frames[last].Real? then [frames[last].packet] else [])
  }

  function Dummies(frames: seq<MixedFrame>): seq<seq<Byte>> {
    if frames == [] then []
    else
      var last := |frames| - 1;
      Dummies(frames[..last]) + (if frames[last].Dummy? then [frames[last].bytes] else [])
  }

  lemma {:induction false} FrameKinds(frames: seq<MixedFrame>)
    ensures |Reals(frames)| + |Dummies(frames)| == |frames|
  {
    if frames != [] {
      FrameKinds(frames[..|frames| - 1]);
    }
  }

  lemma FrameSnoc(frames: seq<MixedFrame>, f: MixedFrame)
    ensures Reals(frames + [f]) == Reals(frames) + (if f.Real? then [f.packet] else [])
    ensures Dummies(frames + [f]) == Dummies(frames) + (if f.Dummy? then [f.bytes] else [])
  {
  }

  function Total(gaps: seq<nat>): nat {
    if gaps == [] then 0 else Total(gaps[..|gaps| - 1]) + gaps[|gaps| - 1]
  }

  lemma TotalSnoc(gaps: seq<nat>, g: nat)
    ensures Total(gaps + [g]) == Total(gaps) + g
  {
  }

  lemma TotalOfTwo(leading: nat, trailing: nat)
    ensures Total([leading, trailing]) == leading + trailing
  {
    assert [leading, trailing] == ([] + [leading]) + [trailing];
    TotalSnoc([], leading);
    TotalSnoc([leading], trailing);
  }

  lemma {:induction false} TotalOfZeros(gaps: seq<nat>)
    requires forall i :: 0 <= i < |gaps| ==> gaps[i] == 0
    ensures Total(gaps) == 0
  {
    if gaps != [] {
      TotalOfZeros(gaps[..|gaps| - 1]);
    }
  }

  /** One more dummy in one gap is one more dummy in all. */
  lemma {:induction false} TotalBump(gaps: seq<nat>, k: nat)
    requires k < |gaps|
    ensures Total(gaps[k := gaps[k] + 1]) == Total(gaps) + 1
  {
    var last := |gaps| - 1;
    var bumped := gaps[k := gaps[k] + 1];
    if k < last {
      TotalBump(gaps[..last], k);
      assert bumped[..last] == gaps[..last][k := gaps[k] + 1];
    } else {
      assert bumped[..last] == gaps[..last];
    }
  }

  /** `padded` carries `raw`: unchanged without a cell size, otherwise filled up or cut to the cell. */
  predicate Carries(cell: Option<nat>, raw: seq<Byte>, padded: seq<Byte>) {
    match cell
    case None => padded == raw
    case Some(c) => |padded| == c && (if |raw| <= c then raw <= padded else padded == raw[..c])
  }

  predicate CarriesAll(cell: Option<nat>, raw: seq<seq<Byte>>, padded: seq<seq<Byte>>) {
    |padded| == |raw| && forall i :: 0 <= i < |raw| ==> Carries(cell, raw[i], padded[i])
  }

  predicate AllCells(cell: Option<nat>, frames: seq<MixedFrame>) {
    cell.Some? ==> forall i :: 0 <= i < |frames| ==> |frames[i].Bytes()| == cell.value
  }

  function Lengths(parts: seq<seq<Byte>>): (r: seq<nat>)
    ensures |r| == |parts|
  {
    seq(|parts|, i requires 0 <= i < |parts| => |parts[i]|)
  }

  /** Each entry three times over. */
  function Tripled(lengths: seq<nat>): (r: seq<nat>)
    ensures |r| == 3 * |lengths|
  {
    if lengths == [] then []
    else
      var last := |lengths| - 1;
      Tripled(lengths[..last]) + [lengths[last], lengths[last], lengths[last]]
  }

  lemma TripledSnoc(lengths: seq<nat>, n: nat)
    ensures Tripled(lengths + [n]) == Tripled(lengths) + [n, n, n]
  {
    assert (lengths + [n])[..|lengths|] == lengths;
  }

  lemma LengthsNext(burst: seq<seq<Byte>>, i: nat, ring: seq<nat>, pool: seq<nat>)
    requires i < |burst|
    ensures
      var len := |burst[i]|;
      && (pool + Lengths(burst[..i])) + [len] == pool + Lengths(burst[..i + 1])
      && (ring + Tripled(Lengths(burst[..i]))) + [len, len, len] == ring + Tripled(Lengths(burst[..i + 1]))
  {
    assert Lengths(burst[..i + 1]) == Lengths(burst[..i]) + [|burst[i]|];
    TripledSnoc(Lengths(burst[..i]), |burst[i]|);
  }

  /** The entries of a ring in the order they came in, `pos` being the oldest. */
  function RingOrder(pool: seq<nat>, pos: nat): seq<nat>
    requires pos <= |pool|
  {
    pool[pos..] + pool[..pos]
  }

  /** Overwriting the oldest entry drops it and appends the new one. */
  lemma RingOverwrite(pool: seq<nat>, pos: nat, len: nat)
    requires |pool| == LENGTH_POOL_CAP && pos < LENGTH_POOL_CAP
    ensures RingOrder(pool[pos := len], (pos + 1) % LENGTH_POOL_CAP) == RingOrder(pool, pos)[1..] + [len]
  {
  }

  /** The pool is the last 16 lengths ingested; `pos` is where the oldest of them sits. */
  predicate IsRing(pool: seq<nat>, pos: nat, ingested: seq<nat>) {
    && |pool| == Min(|ingested|, LENGTH_POOL_CAP)
    && pos < LENGTH_POOL_CAP
    && (|pool| < LENGTH_POOL_CAP ==> pos == 0)
    && RingOrder(pool, pos) == ingested[|ingested| - |pool|..]
  }

  lemma RingAppends(pool: seq<nat>, pos: nat, ingested: seq<nat>, len: nat)
    requires IsRing(pool, pos, ingested) && |pool| < LENGTH_POOL_CAP
    ensures IsRing(pool + [len], pos, ingested + [len])
  {
    assert RingOrder(pool, 0) == pool == ingested;
    assert RingOrder(pool + [len], 0) == pool + [len];
  }

  lemma RingMovesOn(pool: seq<nat>, pos: nat, ingested: seq<nat>, len: nat)
    requires IsRing(pool, pos, ingested) && |pool| == LENGTH_POOL_CAP
    ensures IsRing(pool[pos := len], (pos + 1) % LENGTH_POOL_CAP, ingested + [len])
  {
    RingOverwrite(pool, pos, len);
    var start := |ingested| - |pool|;
    assert (ingested + [len])[start + 1..] == ingested[start..][1..] + [len];
  }

  /** Where the `i`-th real frame of a mixed burst sits: behind the dummies of the gaps before it. */
  function SlotOf(gaps: seq<nat>, i: nat): nat
    requires i < |gaps|
  {
    i + Total(gaps[..i + 1])
  }

  lemma SlotEnds(gaps: seq<nat>)
    requires gaps != []
    ensures SlotOf(gaps, 0) == gaps[0]
    ensures SlotOf(gaps, |gaps| - 1) == |gaps| - 1 + Total(gaps)
  {
    TotalSnoc([], gaps[0]);
    assert gaps[..1] == [] + [gaps[0]];
    assert gaps[..|gaps|] == gaps;
  }

  lemma SlotNext(gaps: seq<nat>, i: nat)
    requires i + 1 < |gaps|
    ensures SlotOf(gaps, i + 1) == SlotOf(gaps, i) + 1 + gaps[i + 1]
  {
    assert gaps[..i + 2] == gaps[..i + 1] + [gaps[i + 1]];
    TotalSnoc(gaps[..i + 1], gaps[i + 1]);
  }

  /** The first `k` real frames of a burst sit where the gaps put them. */
  predicate Placed(frames: seq<MixedFrame>, gaps: seq<nat>, k: nat)
    requires k <= |gaps|
  {
    forall i :: 0 <= i < k ==> RealAt(frames, SlotOf(gaps, i))
  }

  lemma PlacedNext(frames: seq<MixedFrame>, longer: seq<MixedFrame>, gaps: seq<nat>, k: nat)
    requires k < |gaps| && Placed(frames, gaps, k) && frames <= longer && RealAt(longer, SlotOf(gaps, k))
    ensures Placed(longer, gaps, k + 1)
  {
  }

  /** A burst laid out as far as its first `k` real packets and the gap behind them. */
  predicate LaidOut(cell: Option<nat>, frames: seq<MixedFrame>, reals: seq<seq<Byte>>, gaps: seq<nat>, k: nat) {
    && k <= |reals| && |gaps| == |reals| + 1
    && AllCells(cell, frames)
    && |frames| == SlotOf(gaps, k)
    && CarriesAll(cell, reals[..k], Reals(frames))
    && Placed(frames, gaps, k)
  }

  lemma SliceSnoc<T>(s: seq<T>, k: nat)
    requires k < |s|
    ensures s[..k + 1] == s[..k] + [s[k]]
  {
  }

  lemma LaidOutNext(cell: Option<nat>, frames: seq<MixedFrame>, longer: seq<MixedFrame>,
                    reals: seq<seq<Byte>>, gaps: seq<nat>, k: nat)
    requires k < |reals| && LaidOut(cell, frames, reals, gaps, k)
    requires AllCells(cell, longer) && CarriesAll(cell, reals[..k] + [reals[k]], Reals(longer))
    requires |longer| == |frames| + 1 + gaps[k + 1] && frames <= longer && longer[|frames|].Real?
    ensures LaidOut(cell, longer, reals, gaps, k + 1)
  {
    SliceSnoc(reals, k);
    SlotNext(gaps, k);
    PlacedNext(frames, longer, gaps, k);
  }

  predicate RealAt(frames: seq<MixedFrame>, slot: nat) { slot < |frames| && frames[slot].Real? }

  // --- Draws ----------------------------------------------------------------------

  /** The generator after `n` range draws. */
  function AfterDraws(noise: Noise, rng: int, n: nat): int {
    if n == 0 then rng else noise.afterRange(AfterDraws(noise, rng, n - 1))
  }

  /** How many of the first `n` draws from `0..gaps` are `k`. */
  function DrawsOf(noise: Noise, rng: int, gaps: nat, n: nat, k: nat): nat
    requires gaps > 0
  {
    if n == 0 then 0
    else DrawsOf(noise, rng, gaps, n - 1, k) + (if noise.Below(AfterDraws(noise, rng, n - 1), gaps) == k then 1 else 0)
  }

  /** The share of quiet bursts in a spiky regime. */
  const QUIET_SHARE: real := 0.74

  /** The regime's own draw: uniform between its bounds, but in a spiky regime 0 or 1 for the quiet share of bursts. */
  function RegimeDraw(noise: Noise, rng: int, regime: Regime): nat
    requires regime.lo <= regime.hi
  {
    var next := if regime.spiky then noise.afterUniform(rng) else rng;
    if regime.spiky && noise.uniform(rng) < QUIET_SHARE then noise.Below(next, 2)
    else regime.lo + noise.Below(next, regime.hi - regime.lo + 1)
  }

  /** A quiet burst of a spiky regime draws at most 1; any other draws within the regime's bounds. */
  lemma RegimeDrawRange(noise: Noise, rng: int, regime: Regime)
    requires regime.lo <= regime.hi
    ensures
      var raw := RegimeDraw(noise, rng, regime);
      if regime.spiky && noise.uniform(rng) < QUIET_SHARE then raw <= 1 else regime.lo <= raw <= regime.hi
  {
  }

  /** A generator whose uniform draw is `u` and whose range draw is `v`. */
  function OneDraw(u: real, v: nat, ln: real -> real): Noise {
    Noise((_: int) => u, (r: int) => r + 1, (_, _) => 0, (r: int, n: nat) => r + n, (_, _) => v, (r: int) => r + 1, ln)
  }

  /** And each such count is drawn by some generator. */
  lemma RegimeDrawReachesAll(regime: Regime, u: real, raw: nat, ln: real -> real)
    requires regime.lo <= regime.hi
    requires if regime.spiky && u < QUIET_SHARE then raw <= 1 else regime.lo <= raw <= regime.hi
    ensures exists noise: Noise, rng :: noise.ln == ln && noise.uniform(rng) == u && RegimeDraw(noise, rng, regime) == raw
  {
    var v, n := raw, 2;
    if !(regime.spiky && u < QUIET_SHARE) {
      v, n := raw - regime.lo, regime.hi - regime.lo + 1;
    }
    var noise := OneDraw(u, v, ln);
    OneDrawIs(u, v, ln, n);
    assert noise.uniform(0) == u && RegimeDraw(noise, 0, regime) == raw;
  }

  lemma OneDrawIs(u: real, v: nat, ln: real -> real, n: nat)
    requires v < n
    ensures forall rng :: OneDraw(u, v, ln).Below(rng, n) == v
  {
  }

  /** The recent length a dummy imitates: an entry of the ring, or, while that is empty, a keepalive length. */
  function DrawnLength(noise: Noise, rng: int, pool: seq<nat>, keepaliveMin: nat, keepaliveMax: nat): (len: nat)
    requires keepaliveMin <= keepaliveMax
    ensures if pool == [] then keepaliveMin <= len <= keepaliveMax else len in pool
  {
    if pool == [] then keepaliveMin + noise.Below(rng, keepaliveMax - keepaliveMin + 1)
    else pool[noise.Below(rng, |pool|)]
  }

  /** Every entry of the ring can be the one. */
  lemma AnyLengthCanBeDrawn(pool: seq<nat>, keepaliveMin: nat, keepaliveMax: nat, i: nat, ln: real -> real)
    requires keepaliveMin <= keepaliveMax && i < |pool|
    ensures exists noise: Noise, rng ::
      noise.ln == ln && DrawnLength(noise, rng, pool, keepaliveMin, keepaliveMax) == pool[i]
  {
    var noise := OneDraw(0.0, i, ln);
    OneDrawIs(0.0, i, ln, |pool|);
    assert DrawnLength(noise, 0, pool, keepaliveMin, keepaliveMax) == pool[i];
  }

  class SeedBComposer {
    const cellBytes: Option<nat>
    const keepaliveMin: nat
    const keepaliveMax: nat
    const maxDummy: nat
    const noise: Noise
    const padder: OptimalPadder
    var rng: int
    var lengthPool: seq<nat>
    var lengthPoolPos: nat
    ghost var ingested: seq<nat>

    ghost predicate RingValid()
      reads this`lengthPool, this`lengthPoolPos, this`ingested
    {
      IsRing(lengthPool, lengthPoolPos, ingested)
    }

    /** What drawing a dummy relies on, besides the ring's entries. */
    ghost predicate Drawable()
      reads padder
    {
      keepaliveMin <= keepaliveMax && padder.Valid()
    }

    ghost predicate Valid()
      reads this`lengthPool, this`lengthPoolPos, this`ingested, padder
    {
      Drawable() && RingValid()
    }

    constructor (cellBytes: Option<nat>, keepaliveMin: nat, keepaliveMax: nat, maxDummy: nat, noise: Noise,
                 rng: int, padder: OptimalPadder)
      requires keepaliveMin <= keepaliveMax && padder.Valid()
      ensures Valid() && this.cellBytes == cellBytes && this.noise == noise && this.padder == padder && this.rng == rng
      ensures ingested == []
    {
      this.cellBytes, this.keepaliveMin, this.keepaliveMax := cellBytes, keepaliveMin, keepaliveMax;
      this.maxDummy, this.noise, this.rng, this.padder := maxDummy, noise, rng, padder;
      lengthPool, lengthPoolPos := [], 0;
      ingested := [];
    }

    /** Append until the pool is full, then overwrite the oldest entry. */
    method IngestLength(len: nat)
      requires RingValid()
      modifies this`lengthPool, this`lengthPoolPos, this`ingested
      ensures RingValid() && ingested == old(ingested) + [len]
    {
      if |lengthPool| < LENGTH_POOL_CAP {
        RingAppends(lengthPool, lengthPoolPos, ingested, len);
        lengthPool := lengthPool + [len];
      } else {
        RingMovesOn(lengthPool, lengthPoolPos, ingested, len);
        lengthPool := lengthPool[lengthPoolPos := len];
        lengthPoolPos := (lengthPoolPos + 1) % LENGTH_POOL_CAP;
      }
      ingested := ingested + [len];
    }

    /** A dummy is one cell long, or, without a cell size, as long as a padded recent length. */
    method DummyLength() returns (len: nat)
      requires Drawable()
      modifies this`rng, padder
      ensures Drawable() && padder.lengthPool == old(padder.lengthPool)
      ensures cellBytes.Some? ==> len == cellBytes.value
      ensures cellBytes == None ==>
        len == OptimalPadLength(DrawnLength(noise, old(rng), lengthPool, keepaliveMin, keepaliveMax), padder.buckets)
    {
      if cellBytes.Some? {
        return cellBytes.value;
      }
      var trueLen: nat;
      if lengthPool == [] {
        trueLen := keepaliveMin + noise.Below(rng, keepaliveMax - keepaliveMin + 1);
      } else {
        trueLen := lengthPool[noise.Below(rng, |lengthPool|)];
      }
      rng := noise.afterRange(rng);
      len := padder.PadLength(trueLen);
    }

    method DummyPayload() returns (bytes: seq<Byte>)
      requires Drawable()
      modifies this`rng, padder
      ensures Drawable() && padder.lengthPool == old(padder.lengthPool)
      ensures cellBytes.Some? ==> |bytes| == cellBytes.value
      ensures cellBytes == None ==>
        |bytes| == OptimalPadLength(DrawnLength(noise, old(rng), lengthPool, keepaliveMin, keepaliveMax), padder.buckets)
      ensures exists r :: bytes == noise.Fill(r, |bytes|)
    {
      var len := DummyLength();
      bytes := noise.Fill(rng, len);
      rng := noise.afterFill(rng, len);
    }

    method PadReal(packet: seq<Byte>) returns (padded: seq<Byte>)
      modifies this`rng
      ensures Carries(cellBytes, packet, padded)
    {
      var (p, next) := PadRealPacket(cellBytes, noise, rng, packet);
      rng := next;
      padded := p;
    }

    /** Put `n` fresh dummies after `frames`. */
    method AppendDummies(frames: seq<MixedFrame>, n: nat) returns (r: seq<MixedFrame>)
      requires Drawable() && AllCells(cellBytes, frames)
      modifies this`rng, padder
      ensures Drawable() && AllCells(cellBytes, r) && padder.lengthPool == old(padder.lengthPool)
      ensures frames <= r && |r| == |frames| + n
      ensures Reals(r) == Reals(frames)
    {
      r := frames;
      var i := 0;
      while i < n
        invariant 0 <= i <= n && Drawable() && AllCells(cellBytes, r) && padder.lengthPool == old(padder.lengthPool)
        invariant frames <= r && |r| == |frames| + i
        invariant Reals(r) == Reals(frames)
      {
        var bytes := DummyPayload();
        FrameSnoc(r, Dummy(bytes));
        r := r + [Dummy(bytes)];
        i := i + 1;
      }
    }

    /** Spread the dummies over the gaps around `reals` real packets: a lone packet gets a uniformly drawn
        position, several get one independent draw per dummy. */
    method DrawGaps(reals: nat, dummyPackets: nat) returns (gaps: seq<nat>)
      modifies this`rng
      ensures |gaps| == reals + 1 && Total(gaps) == dummyPackets
      ensures reals == 1 ==> gaps[0] == noise.Below(old(rng), dummyPackets + 1)
      ensures reals != 1 ==> forall k :: 0 <= k <= reals ==>
        gaps[k] == DrawsOf(noise, old(rng), reals + 1, dummyPackets, k)
    {
      var a := new nat[reals + 1](_ => 0);
      TotalOfZeros(a[..]);
      var remaining := dummyPackets;
      if reals == 1 {
        var leading := noise.Below(rng, remaining + 1);
        rng := noise.afterRange(rng);
        a[0] := leading;
        a[1] := remaining - leading;
        remaining := 0;
        assert a[..] == [leading, dummyPackets - leading];
        TotalOfTwo(leading, dummyPackets - leading);
      }
      DropIntoGaps(a, remaining);
      gaps := a[..];
    }

    /** One more dummy in an independently drawn gap, `n` times. */
    method DropIntoGaps(a: array<nat>, n: nat)
      requires a.Length > 0
      modifies this`rng, a
      ensures Total(a[..]) == Total(old(a[..])) + n
      ensures forall k :: 0 <= k < a.Length ==> a[k] == old(a[k]) + DrawsOf(noise, old(rng), a.Length, n, k)
    {
      var i := 0;
      while i < n
        invariant 0 <= i <= n && rng == AfterDraws(noise, old(rng), i)
        invariant Total(a[..]) == Total(old(a[..])) + i
        invariant forall k :: 0 <= k < a.Length ==> a[k] == old(a[k]) + DrawsOf(noise, old(rng), a.Length, i, k)
      {
        var gap := noise.Below(rng, a.Length);
        rng := noise.afterRange(rng);
        TotalBump(a[..], gap);
        ghost var before := a[..];
        a[gap] := a[gap] + 1;
        assert a[..] == before[gap := before[gap] + 1];
        i := i + 1;
      }
    }

    /** Interleaving: the real frames in order are the padded inputs, the dummies number exactly the budget,
        the `i`-th real frame sits behind the dummies of the gaps before it, and with a cell size every
        frame has that length. */
    method InterleavePreservingRealOrder(realPackets: seq<seq<Byte>>, dummyPackets: nat)
      returns (frames: seq<MixedFrame>, ghost gaps: seq<nat>)
      requires Drawable()
      modifies this`rng, padder
      ensures Drawable() && padder.lengthPool == old(padder.lengthPool)
      ensures |frames| == |realPackets| + dummyPackets
      ensures CarriesAll(cellBytes, realPackets, Reals(frames))
      ensures |Dummies(frames)| == dummyPackets
      ensures |gaps| == |realPackets| + 1 && Total(gaps) == dummyPackets
      ensures Placed(frames, gaps, |realPackets|)
      ensures |realPackets| == 1 ==> gaps[0] == noise.Below(old(rng), dummyPackets + 1)
      ensures |realPackets| != 1 ==> forall k :: 0 <= k <= |realPackets| ==>
        gaps[k] == DrawsOf(noise, old(rng), |realPackets| + 1, dummyPackets, k)
      ensures AllCells(cellBytes, frames)
    {
      var g := DrawGaps(|realPackets|, dummyPackets);
      gaps := g;
      SlotEnds(g);
      frames := AppendDummies([], g[0]);
      assert Reals([]) == [];
      frames := LayOut(frames, realPackets, g);
      assert realPackets[..|realPackets|] == realPackets;
      FrameKinds(frames);
    }

    /** The frames loop: each real packet behind its gap. */
    method LayOut(leading: seq<MixedFrame>, realPackets: seq<seq<Byte>>, gaps: seq<nat>) returns (frames: seq<MixedFrame>)
      requires Drawable() && LaidOut(cellBytes, leading, realPackets, gaps, 0)
      modifies this`rng, padder
      ensures Drawable() && padder.lengthPool == old(padder.lengthPool)
      ensures LaidOut(cellBytes, frames, realPackets, gaps, |realPackets|)
    {
      frames := leading;
      var index := 0;
      while index < |realPackets|
        invariant 0 <= index <= |realPackets|
        invariant Drawable() && padder.lengthPool == old(padder.lengthPool)
        invariant LaidOut(cellBytes, frames, realPackets, gaps, index)
      {
        frames := LayNext(frames, realPackets, gaps, index);
        index := index + 1;
      }
    }

    method LayNext(frames: seq<MixedFrame>, realPackets: seq<seq<Byte>>, gaps: seq<nat>, index: nat)
      returns (longer: seq<MixedFrame>)
      requires Drawable() && index < |realPackets| && LaidOut(cellBytes, frames, realPackets, gaps, index)
      modifies this`rng, padder
      ensures Drawable() && padder.lengthPool == old(padder.lengthPool)
      ensures LaidOut(cellBytes, longer, realPackets, gaps, index + 1)
    {
      longer := AppendReal(frames, realPackets[..index], realPackets[index], gaps[index + 1]);
      LaidOutNext(cellBytes, frames, longer, realPackets, gaps, index);
    }

    /** One real frame, padded, and the dummies of the gap behind it. */
    method AppendReal(frames: seq<MixedFrame>, ghost done: seq<seq<Byte>>, packet: seq<Byte>, gap: nat)
      returns (r: seq<MixedFrame>)
      requires Drawable() && AllCells(cellBytes, frames) && CarriesAll(cellBytes, done, Reals(frames))
      modifies this`rng, padder
      ensures Drawable() && AllCells(cellBytes, r) && CarriesAll(cellBytes, done + [packet], Reals(r))
      ensures |r| == |frames| + 1 + gap && frames <= r && r[|frames|].Real?
      ensures padder.lengthPool == old(padder.lengthPool)
    {
      var padded := PadReal(packet);
      FrameSnoc(frames, Real(padded));
      var withReal := frames + [Real(padded)];
      r := AppendDummies(withReal, gap);
      assert r[|frames|] == withReal[|frames|];
    }

    /** The dummy budget of a burst: the regime's own draw, raised to what the privacy shaper asks for. */
    method DummyCount(regime: Regime, shaperCount: Option<nat>) returns (count: nat)
      requires regime.lo <= regime.hi
      modifies this`rng
      ensures count == Min(Max(shaperCount.GetOr(0), RegimeDraw(noise, old(rng), regime)), maxDummy)
    {
      var raw: nat;
      var quiet := false;
      if regime.spiky {
        quiet := noise.uniform(rng) < QUIET_SHARE;
        rng := noise.afterUniform(rng);
      }
      if quiet {
        raw := noise.Below(rng, 2);
      } else {
        raw := regime.lo + noise.Below(rng, regime.hi - regime.lo + 1);
      }
      rng := noise.afterRange(rng);
      count := Min(raw, maxDummy);
      if shaperCount.Some? {
        count := Min(Max(shaperCount.value, count), maxDummy);
      }
    }

    method IngestBurst(burst: seq<seq<Byte>>)
      requires Valid()
      modifies this`lengthPool, this`lengthPoolPos, this`ingested, padder
      ensures Valid()
      ensures ingested == old(ingested) + Tripled(Lengths(burst))
      ensures padder.lengthPool == old(padder.lengthPool) + Lengths(burst)
    {
      var i := 0;
      while i < |burst|
        invariant 0 <= i <= |burst| && Valid()
        invariant ingested == old(ingested) + Tripled(Lengths(burst[..i]))
        invariant padder.lengthPool == old(padder.lengthPool) + Lengths(burst[..i])
      {
        IngestPacket(|burst[i]|);
        LengthsNext(burst, i, old(ingested), old(padder.lengthPool));
        i := i + 1;
      }
      assert burst[..|burst|] == burst;
    }

    method IngestPacket(len: nat)
      requires Valid()
      modifies this`lengthPool, this`lengthPoolPos, this`ingested, padder
      ensures Valid()
      ensures ingested == old(ingested) + [len, len, len]
      ensures padder.lengthPool == old(padder.lengthPool) + [len]
    {
      IngestLength(len);
      IngestLength(len);
      IngestLength(len);
      padder.ObserveLength(len);
    }

    /** One burst: every length enters the ring three times and the padder once, then the burst is mixed. */
    method Compose(burst: seq<seq<Byte>>, regime: Regime, shaperCount: Option<nat>)
      returns (frames: seq<MixedFrame>, dummyCount: nat)
      requires Valid() && regime.lo <= regime.hi
      modifies this, padder
      ensures Valid()
      ensures |frames| == |burst| + dummyCount && dummyCount <= maxDummy
      ensures CarriesAll(cellBytes, burst, Reals(frames)) && |Dummies(frames)| == dummyCount
      ensures AllCells(cellBytes, frames)
      ensures ingested == old(ingested) + Tripled(Lengths(burst))
      ensures padder.lengthPool == old(padder.lengthPool) + Lengths(burst)
    {
      IngestBurst(burst);
      dummyCount := DummyCount(regime, shaperCount);
      ghost var gaps;
      frames, gaps := InterleavePreservingRealOrder(burst, dummyCount);
    }
  }

  lemma {:induction false} KindsKeepCells(frames: seq<MixedFrame>, c: nat)
    requires AllCells(Some(c), frames)
    ensures forall i :: 0 <= i < |Reals(frames)| ==> |Reals(frames)[i]| == c
    ensures forall i :: 0 <= i < |Dummies(frames)| ==> |Dummies(frames)[i]| == c
  {
    if frames != [] {
      KindsKeepCells(frames[..|frames| - 1], c);
    }
  }

  /** The size attack scores 0 on every composed burst of a cell-sized configuration. */
  lemma ComposedSizesScoreZero(frames: seq<MixedFrame>, c: nat)
    requires AllCells(Some(c), frames) && Reals(frames) != [] && Dummies(frames) != []
    ensures KolmogorovSmirnov.IsKs(KolmogorovSmirnov.Sizes(Lengths(Reals(frames))),
                                   KolmogorovSmirnov.Sizes(Lengths(Dummies(frames))), 0.0)
  {
    KindsKeepCells(frames, c);
    KolmogorovSmirnov.UniformSizesScoreZero(Lengths(Reals(frames)), Lengths(Dummies(frames)), c);
  }
}
