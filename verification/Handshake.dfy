/** The obfs4-style handshake framing: prefix | pad | MARK | MAC. */
module Handshake {
  import opened Base

  const PUBKEY_LEN: nat := 32
  const MARK_LEN: nat := 16
  const MAC_LEN: nat := 16
  const MAX_HANDSHAKE_LEN: nat := 8192
  const HS_MAX_PAD: nat := 2048
  const READ_SIZE: nat := 1024

  /** The keyed hash under one identity key, and the text of an hour number. */
  datatype Keyed = Keyed(hashByte: (seq<Byte>, nat) -> Byte, hourText: int -> seq<Byte>) {
    function Tag(data: seq<Byte>): (t: seq<Byte>)
      ensures |t| == 16
    {
      seq<Byte>(16, i requires 0 <= i => hashByte(data, i))
    }

    function Mark(repr: seq<Byte>): (t: seq<Byte>)
      ensures |t| == MARK_LEN
    {
      Tag(repr)
    }

    function MacAt(data: seq<Byte>, hour: int): (t: seq<Byte>)
      ensures |t| == MAC_LEN
    {
      Tag(data + hourText(hour))
    }

    /** The current hour and its two neighbours, without short-circuit. */
    predicate VerifyMac(data: seq<Byte>, received: seq<Byte>, hour: int) {
      MacAt(data, hour) == received || MacAt(data, hour - 1) == received || MacAt(data, hour + 1) == received
    }
  }

  predicate OccursAt(haystack: seq<Byte>, needle: seq<Byte>, i: nat) {
    i + |needle| <= |haystack| && haystack[i..i + |needle|] == needle
  }

  function FindFrom(haystack: seq<Byte>, needle: seq<Byte>, i: nat): (r: Option<nat>)
    ensures r.Some? ==> i <= r.value && OccursAt(haystack, needle, r.value)
    ensures r.Some? ==> forall j: nat :: i <= j < r.value ==> !OccursAt(haystack, needle, j)
    ensures r == None ==> forall j: nat :: i <= j ==> !OccursAt(haystack, needle, j)
    decreases |haystack| - i
  {
    if i + |needle| > |haystack| then None
    else if haystack[i..i + |needle|] == needle then Some(i)
    else FindFrom(haystack, needle, i + 1)
  }

  /** The first index of `needle`; an empty needle is never found. */
  function FindSubslice(haystack: seq<Byte>, needle: seq<Byte>): (r: Option<nat>)
    ensures r.Some? ==> needle != [] && OccursAt(haystack, needle, r.value)
    ensures r.Some? ==> forall j: nat :: j < r.value ==> !OccursAt(haystack, needle, j)
    ensures r == None ==> needle == [] || forall j: nat :: !OccursAt(haystack, needle, j)
  {
    if needle == [] || |haystack| < |needle| then None else FindFrom(haystack, needle, 0)
  }

  /** A longer buffer keeps the first occurrence; a shorter one has it exactly when it lies wholly inside. */
  lemma FindInPrefix(short: seq<Byte>, long: seq<Byte>, needle: seq<Byte>, at: nat)
    requires short <= long && FindSubslice(long, needle) == Some(at)
    ensures FindSubslice(short, needle) == if at + |needle| <= |short| then Some(at) else None
  {
    assert forall j: nat :: OccursAt(short, needle, j) ==> OccursAt(long, needle, j);
    var r := FindSubslice(short, needle);
    if at + |needle| <= |short| {
      assert OccursAt(short, needle, at);
    }
    if r.Some? {
      assert OccursAt(long, needle, r.value);
      assert r.value >= at;
    }
  }

  function BuildMarkedMessage(k: Keyed, prefix: seq<Byte>, pad: seq<Byte>, hour: int): (msg: seq<Byte>)
    requires |prefix| >= PUBKEY_LEN
    ensures |msg| == |prefix| + |pad| + MARK_LEN + MAC_LEN
  {
    var head := prefix + pad + k.Mark(prefix[..PUBKEY_LEN]);
    head + k.MacAt(head, hour)
  }

  datatype HandshakeError = IoFailure | Closed | ProbeRejected

  type Verdict = Result<seq<Byte>, HandshakeError>

  /** Where the first MARK after the prefix starts. */
  function MarkPosition(k: Keyed, prefixLen: nat, buf: seq<Byte>): Option<nat>
    requires PUBKEY_LEN <= prefixLen <= |buf|
  {
    match FindSubslice(buf[prefixLen..], k.Mark(buf[..PUBKEY_LEN]))
    case None => None
    case Some(rel) => Some(prefixLen + rel)
  }

  /** The MAC right after the MARK at `at` is valid. */
  predicate MacValidAt(k: Keyed, buf: seq<Byte>, at: nat, hour: int)
    requires at + MARK_LEN + MAC_LEN <= |buf|
  {
    k.VerifyMac(buf[..at + MARK_LEN], buf[at + MARK_LEN..at + MARK_LEN + MAC_LEN], hour)
  }

  /** What the reader decides on the bytes buffered so far; `None` asks for more. */
  function Judge(k: Keyed, prefixLen: nat, hour: int, buf: seq<Byte>): Option<Verdict>
    requires PUBKEY_LEN <= prefixLen
  {
    var markPos := if |buf| >= prefixLen then MarkPosition(k, prefixLen, buf) else None;
    if markPos.Some? && |buf| >= markPos.value + MARK_LEN + MAC_LEN then
      Some(if MacValidAt(k, buf, markPos.value, hour) then Ok(buf[..prefixLen]) else Err(ProbeRejected))
    else if |buf| >= MAX_HANDSHAKE_LEN then Some(Err(ProbeRejected))
    else None
  }

  /** The result, all bytes taken from the stream by then, and the reads still to come. */
  datatype ReadOutcome = ReadOutcome(verdict: Verdict, buffered: seq<Byte>, rest: seq<seq<Byte>>)

  /** The reads a stream will yield: each non-empty and at most one read buffer long. */
  predicate GoodReads(chunks: seq<seq<Byte>>) {
    forall i :: 0 <= i < |chunks| ==> 0 < |chunks[i]| <= READ_SIZE
  }

  /** The reader on a stream that yields `chunks` and then ends with `end`. */
  function ReadMarked(k: Keyed, prefixLen: nat, hour: int, buf: seq<Byte>, chunks: seq<seq<Byte>>,
                      end: HandshakeError): ReadOutcome
    requires PUBKEY_LEN <= prefixLen
    decreases |chunks|
  {
    match Judge(k, prefixLen, hour, buf)
    case Some(v) => ReadOutcome(v, buf, chunks)
    case None =>
      if chunks == [] then ReadOutcome(Err(end), buf, [])
      else ReadMarked(k, prefixLen, hour, buf + chunks[0], chunks[1..], end)
  }

  /** The connection during the handshake. */
  class Stream {
    var chunks: seq<seq<Byte>>
    const end: HandshakeError

    constructor (chunks: seq<seq<Byte>>, end: HandshakeError)
      requires GoodReads(chunks)
      ensures this.chunks == chunks && this.end == end
    {
      this.chunks := chunks;
      this.end := end;
    }

    method Read() returns (r: Result<seq<Byte>, HandshakeError>)
      modifies this
      ensures old(chunks) == [] ==> r == Err(end) && chunks == []
      ensures old(chunks) != [] ==> r == Ok(old(chunks)[0]) && chunks == old(chunks)[1..]
    {
      if chunks == [] {
        return Err(end);
      }
      r := Ok(chunks[0]);
      chunks := chunks[1..];
    }
  }

  /** The loop ends because every read adds to a buffer that is rejected at the byte budget, however
      long the peer keeps sending. */
  method ReadMarkedMessage(stream: Stream, k: Keyed, prefixLen: nat, hour: int) returns (r: Verdict)
    requires PUBKEY_LEN <= prefixLen && GoodReads(stream.chunks)
    modifies stream
    ensures r == ReadMarked(k, prefixLen, hour, [], old(stream.chunks), stream.end).verdict
    ensures stream.chunks == ReadMarked(k, prefixLen, hour, [], old(stream.chunks), stream.end).rest
  {
    var buf: seq<Byte> := [];
    while true
      invariant GoodReads(stream.chunks)
      invariant ReadMarked(k, prefixLen, hour, buf, stream.chunks, stream.end)
             == ReadMarked(k, prefixLen, hour, [], old(stream.chunks), stream.end)
      decreases Max(0, MAX_HANDSHAKE_LEN - |buf|)
    {
      if |buf| >= prefixLen {
        var mark := k.Mark(buf[..PUBKEY_LEN]);
        var found := FindSubslice(buf[prefixLen..], mark);
        if found.Some? {
          var markPos := prefixLen + found.value;
          var macEnd := markPos + MARK_LEN + MAC_LEN;
          if |buf| >= macEnd {
            var received := buf[markPos + MARK_LEN..macEnd];
            if k.VerifyMac(buf[..markPos + MARK_LEN], received, hour) {
              return Ok(buf[..prefixLen]);
            }
            return Err(ProbeRejected);
          }
        }
      }
      if |buf| >= MAX_HANDSHAKE_LEN {
        return Err(ProbeRejected);
      }
      assert Judge(k, prefixLen, hour, buf) == None;
      var n := stream.Read();
      match n {
        case Err(e) => return Err(e);
        case Ok(bytes) => buf := buf + bytes;
      }
    }
  }

  // --- What the reader accepts -------------------------------------------------

  /** The first MARK of the stream, and its MAC, lie inside the byte budget. */
  predicate MarkedAt(k: Keyed, prefixLen: nat, all: seq<Byte>, at: nat)
    requires PUBKEY_LEN <= prefixLen
  {
    && prefixLen <= |all|
    && MarkPosition(k, prefixLen, all) == Some(at)
    && at + MARK_LEN + MAC_LEN <= |all|
    && at + MARK_LEN + MAC_LEN <= MAX_HANDSHAKE_LEN
  }

  function MacVerdict(k: Keyed, prefixLen: nat, hour: int, all: seq<Byte>, at: nat): Verdict
    requires prefixLen <= |all| && at + MARK_LEN + MAC_LEN <= |all|
  {
    if MacValidAt(k, all, at, hour) then Ok(all[..prefixLen]) else Err(ProbeRejected)
  }

  /** A buffer holding part of the stream asks for more until it holds the MAC, and then follows it. */
  lemma JudgeOfPart(k: Keyed, prefixLen: nat, hour: int, buf: seq<Byte>, all: seq<Byte>, at: nat)
    requires PUBKEY_LEN <= prefixLen && MarkedAt(k, prefixLen, all, at) && buf <= all
    ensures Judge(k, prefixLen, hour, buf)
         == if |buf| < at + MARK_LEN + MAC_LEN then None else Some(MacVerdict(k, prefixLen, hour, all, at))
  {
    var macEnd := at + MARK_LEN + MAC_LEN;
    if |buf| >= prefixLen {
      assert buf[..PUBKEY_LEN] == all[..PUBKEY_LEN] && buf[prefixLen..] <= all[prefixLen..];
      FindInPrefix(buf[prefixLen..], all[prefixLen..], k.Mark(all[..PUBKEY_LEN]), at - prefixLen);
    }
    if |buf| >= macEnd {
      assert buf[..at + MARK_LEN] == all[..at + MARK_LEN];
      assert buf[at + MARK_LEN..macEnd] == all[at + MARK_LEN..macEnd];
      assert buf[..prefixLen] == all[..prefixLen];
    }
  }

  /** Inductive core: while the first MARK of the whole stream and its MAC lie inside the byte budget,
      the verdict is the MAC's, whatever the split into reads. */
  lemma {:induction false} DecidedByFirstMark(k: Keyed, prefixLen: nat, hour: int, buf: seq<Byte>,
                                              chunks: seq<seq<Byte>>, end: HandshakeError, all: seq<Byte>, at: nat)
    requires PUBKEY_LEN <= prefixLen && MarkedAt(k, prefixLen, all, at)
    requires all == buf + Concat(chunks)
    ensures
      var out := ReadMarked(k, prefixLen, hour, buf, chunks, end);
      && out.verdict == MacVerdict(k, prefixLen, hour, all, at)
      && at + MARK_LEN + MAC_LEN <= |out.buffered|
      && out.buffered + Concat(out.rest) == all
    decreases |chunks|
  {
    JudgeOfPart(k, prefixLen, hour, buf, all, at);
    if |buf| < at + MARK_LEN + MAC_LEN {
      assert (buf + chunks[0]) + Concat(chunks[1..]) == all;
      DecidedByFirstMark(k, prefixLen, hour, buf + chunks[0], chunks[1..], end, all, at);
    }
  }

  /** The reader stops with the first read that completes the MAC. */
  lemma {:induction false} StopsAtFirstRead(k: Keyed, prefixLen: nat, hour: int, buf: seq<Byte>, chunks: seq<seq<Byte>>,
                                            end: HandshakeError, all: seq<Byte>, at: nat) returns (j: nat)
    requires PUBKEY_LEN <= prefixLen && MarkedAt(k, prefixLen, all, at)
    requires all == buf + Concat(chunks)
    ensures j <= |chunks|
    ensures
      var out := ReadMarked(k, prefixLen, hour, buf, chunks, end);
      && out.buffered == buf + Concat(chunks[..j]) && out.rest == chunks[j..]
      && at + MARK_LEN + MAC_LEN <= |out.buffered|
    ensures forall i :: 0 <= i < j ==> |buf + Concat(chunks[..i])| < at + MARK_LEN + MAC_LEN
    decreases |chunks|
  {
    JudgeOfPart(k, prefixLen, hour, buf, all, at);
    if |buf| >= at + MARK_LEN + MAC_LEN {
      j := 0;
      assert chunks[..0] == [] && chunks[0..] == chunks;
    } else {
      assert (buf + chunks[0]) + Concat(chunks[1..]) == all;
      j := StopsAtFirstRead(k, prefixLen, hour, buf + chunks[0], chunks[1..], end, all, at);
      forall i | 0 <= i <= j
        ensures 0 < i + 1 <= |chunks| && buf + Concat(chunks[..i + 1]) == (buf + chunks[0]) + Concat(chunks[1..][..i])
      {
        assert chunks[..i + 1] == [chunks[0]] + chunks[1..][..i];
      }
      forall i | 0 <= i < j + 1
        ensures |buf + Concat(chunks[..i])| < at + MARK_LEN + MAC_LEN
      {
        if i > 0 {
          assert buf + Concat(chunks[..(i - 1) + 1]) == (buf + chunks[0]) + Concat(chunks[1..][..i - 1]);
        }
      }
      j := j + 1;
    }
  }

  // --- Which deliveries agree ------------------------------------------------------

  /** Where the MAC after the first MARK ends, if the stream gets that far. */
  function MacEnd(k: Keyed, prefixLen: nat, all: seq<Byte>): (m: Option<nat>)
    requires PUBKEY_LEN <= prefixLen
    ensures m.Some? ==> MARK_LEN + MAC_LEN <= m.value <= |all| && prefixLen <= |all|
  {
    if |all| < prefixLen then None
    else
      match MarkPosition(k, prefixLen, all)
      case None => None
      case Some(at) => if at + MARK_LEN + MAC_LEN <= |all| then Some(at + MARK_LEN + MAC_LEN) else None
  }

  function VerdictAtMac(k: Keyed, prefixLen: nat, hour: int, all: seq<Byte>): Verdict
    requires PUBKEY_LEN <= prefixLen && MacEnd(k, prefixLen, all).Some?
  {
    MacVerdict(k, prefixLen, hour, all, MacEnd(k, prefixLen, all).value - MARK_LEN - MAC_LEN)
  }

  /** No MARK in the whole is no MARK in a part. */
  lemma NoMarkInPart(part: seq<Byte>, whole: seq<Byte>, needle: seq<Byte>)
    requires part <= whole && FindSubslice(whole, needle) == None
    ensures FindSubslice(part, needle) == None
  {
    var r := FindSubslice(part, needle);
    if r.Some? {
      assert OccursAt(part, needle, r.value) ==> OccursAt(whole, needle, r.value);
    }
  }

  /** The MARK found in a part of the stream is the first of the whole stream. */
  lemma MarkOfPart(k: Keyed, prefixLen: nat, buf: seq<Byte>, all: seq<Byte>)
    requires PUBKEY_LEN <= prefixLen <= |buf| && buf <= all
    ensures MarkPosition(k, prefixLen, buf)
         == match MarkPosition(k, prefixLen, all)
            case None => None
            case Some(at) => if at + MARK_LEN <= |buf| then Some(at) else None
  {
    assert buf[..PUBKEY_LEN] == all[..PUBKEY_LEN] && buf[prefixLen..] <= all[prefixLen..];
    var mark := k.Mark(all[..PUBKEY_LEN]);
    var found := FindSubslice(all[prefixLen..], mark);
    if found.Some? {
      FindInPrefix(buf[prefixLen..], all[prefixLen..], mark, found.value);
    } else {
      NoMarkInPart(buf[prefixLen..], all[prefixLen..], mark);
    }
  }

  lemma MacOfPart(k: Keyed, prefixLen: nat, hour: int, buf: seq<Byte>, all: seq<Byte>, at: nat)
    requires prefixLen <= |buf| && buf <= all && at + MARK_LEN + MAC_LEN <= |buf|
    ensures MacVerdict(k, prefixLen, hour, buf, at) == MacVerdict(k, prefixLen, hour, all, at)
  {
    assert buf[..at + MARK_LEN] == all[..at + MARK_LEN];
    assert buf[at + MARK_LEN..at + MARK_LEN + MAC_LEN] == all[at + MARK_LEN..at + MARK_LEN + MAC_LEN];
    assert buf[..prefixLen] == all[..prefixLen];
  }

  /** What the reader decides on any part of the stream: the MAC's verdict once it has it, a rejection at the byte
      budget, and otherwise nothing yet. */
  lemma JudgeOfAnyPart(k: Keyed, prefixLen: nat, hour: int, buf: seq<Byte>, all: seq<Byte>)
    requires PUBKEY_LEN <= prefixLen && buf <= all
    ensures Judge(k, prefixLen, hour, buf)
         == var m := MacEnd(k, prefixLen, all);
            if m.Some? && m.value <= |buf| then Some(VerdictAtMac(k, prefixLen, hour, all))
            else if |buf| >= MAX_HANDSHAKE_LEN then Some(Err(ProbeRejected))
            else None
  {
    if |buf| >= prefixLen {
      JudgeOfLongPart(k, prefixLen, hour, buf, all);
    } else if |all| >= prefixLen {
      MarkIsBehindPrefix(k, prefixLen, all);
    }
  }

  lemma JudgeOfLongPart(k: Keyed, prefixLen: nat, hour: int, buf: seq<Byte>, all: seq<Byte>)
    requires PUBKEY_LEN <= prefixLen <= |buf| && buf <= all
    ensures Judge(k, prefixLen, hour, buf)
         == var m := MacEnd(k, prefixLen, all);
            if m.Some? && m.value <= |buf| then Some(VerdictAtMac(k, prefixLen, hour, all))
            else if |buf| >= MAX_HANDSHAKE_LEN then Some(Err(ProbeRejected))
            else None
  {
    MarkOfPart(k, prefixLen, buf, all);
    var m := MacEnd(k, prefixLen, all);
    if m.Some? && m.value <= |buf| {
      MacOfPart(k, prefixLen, hour, buf, all, m.value - MARK_LEN - MAC_LEN);
    }
  }

  lemma MarkIsBehindPrefix(k: Keyed, prefixLen: nat, all: seq<Byte>)
    requires PUBKEY_LEN <= prefixLen <= |all|
    ensures MacEnd(k, prefixLen, all).Some? ==> MacEnd(k, prefixLen, all).value > prefixLen
  {
  }

  /** A good delivery of the stream. */
  predicate Delivers(chunks: seq<seq<Byte>>, all: seq<Byte>) { GoodReads(chunks) && Concat(chunks) == all }

  const LAST_BYTE: nat := MAX_HANDSHAKE_LEN + READ_SIZE - 1

  /** The MAC after the first MARK is valid but ends past the byte budget, within reach of the last read. */
  predicate SplitMatters(k: Keyed, prefixLen: nat, hour: int, all: seq<Byte>)
    requires PUBKEY_LEN <= prefixLen
  {
    var m := MacEnd(k, prefixLen, all);
    m.Some? && MAX_HANDSHAKE_LEN < m.value <= LAST_BYTE && MacValidAt(k, all, m.value - MARK_LEN - MAC_LEN, hour)
  }

  /** The verdict of every delivery, unless the split matters. */
  function CommonVerdict(k: Keyed, prefixLen: nat, hour: int, all: seq<Byte>, end: HandshakeError): Verdict
    requires PUBKEY_LEN <= prefixLen
  {
    var m := MacEnd(k, prefixLen, all);
    if m.Some? && m.value <= MAX_HANDSHAKE_LEN then VerdictAtMac(k, prefixLen, hour, all)
    else if |all| >= MAX_HANDSHAKE_LEN then Err(ProbeRejected)
    else Err(end)
  }

  lemma {:induction false} DeliveriesAgree(k: Keyed, prefixLen: nat, hour: int, buf: seq<Byte>, chunks: seq<seq<Byte>>,
                                           end: HandshakeError, all: seq<Byte>)
    requires PUBKEY_LEN <= prefixLen && !SplitMatters(k, prefixLen, hour, all)
    requires GoodReads(chunks) && buf + Concat(chunks) == all && |buf| <= LAST_BYTE
    ensures ReadMarked(k, prefixLen, hour, buf, chunks, end).verdict == CommonVerdict(k, prefixLen, hour, all, end)
    decreases |chunks|
  {
    JudgeOfAnyPart(k, prefixLen, hour, buf, all);
    if Judge(k, prefixLen, hour, buf) == None && chunks != [] {
      assert (buf + chunks[0]) + Concat(chunks[1..]) == all;
      DeliveriesAgree(k, prefixLen, hour, buf + chunks[0], chunks[1..], end, all);
    }
  }

  /** Bytes cut into reads of full size. */
  function Pieces(bytes: seq<Byte>): seq<seq<Byte>> {
    if bytes == [] then []
    else if |bytes| <= READ_SIZE then [bytes]
    else [bytes[..READ_SIZE]] + Pieces(bytes[READ_SIZE..])
  }

  lemma {:induction false} PiecesDeliver(bytes: seq<Byte>)
    ensures Delivers(Pieces(bytes), bytes)
    decreases |bytes|
  {
    if 0 < |bytes| <= READ_SIZE {
      ConcatSnoc([], bytes);
      assert [] + [bytes] == [bytes];
    } else if |bytes| > READ_SIZE {
      PiecesDeliver(bytes[READ_SIZE..]);
    }
  }

  /** While what has been read settles nothing the reader goes on, read by read. */
  lemma {:induction false} ReadsThrough(k: Keyed, prefixLen: nat, hour: int, buf: seq<Byte>, a: seq<seq<Byte>>,
                                        b: seq<seq<Byte>>, end: HandshakeError, all: seq<Byte>)
    requires PUBKEY_LEN <= prefixLen && buf + Concat(a) <= all && |buf + Concat(a)| < MAX_HANDSHAKE_LEN
    requires var m := MacEnd(k, prefixLen, all); m.Some? ==> |buf + Concat(a)| < m.value
    ensures ReadMarked(k, prefixLen, hour, buf, a + b, end) == ReadMarked(k, prefixLen, hour, buf + Concat(a), b, end)
    decreases |a|
  {
    if a == [] {
      assert a + b == b && buf + Concat(a) == buf;
    } else {
      assert buf <= buf + Concat(a);
      JudgeOfAnyPart(k, prefixLen, hour, buf, all);
      assert (a + b)[0] == a[0] && (a + b)[1..] == a[1..] + b;
      assert (buf + a[0]) + Concat(a[1..]) == buf + Concat(a);
      ReadsThrough(k, prefixLen, hour, buf + a[0], a[1..], b, end, all);
    }
  }

  /** A delivery with read boundaries at `from` and `to`. */
  function CutAt(all: seq<Byte>, from: nat, to: nat): seq<seq<Byte>>
    requires from <= to <= |all|
  {
    Pieces(all[..from]) + ([all[from..to]] + Pieces(all[to..]))
  }

  lemma CutDelivers(all: seq<Byte>, from: nat, to: nat)
    requires from < to <= |all| && to <= from + READ_SIZE
    ensures Delivers(CutAt(all, from, to), all)
  {
    PiecesDeliver(all[..from]);
    PiecesDeliver(all[to..]);
    ConcatAppend(Pieces(all[..from]), [all[from..to]] + Pieces(all[to..]));
    assert Concat([all[from..to]] + Pieces(all[to..])) == all[from..to] + all[to..];
  }

  /** Such a delivery is judged at `to`, when nothing is settled at `from`. */
  lemma CutIsJudged(k: Keyed, prefixLen: nat, hour: int, all: seq<Byte>, from: nat, to: nat, end: HandshakeError)
    requires PUBKEY_LEN <= prefixLen && from < to <= |all| && to <= from + READ_SIZE && from < MAX_HANDSHAKE_LEN <= to
    requires var m := MacEnd(k, prefixLen, all); m.Some? ==> from < m.value
    ensures Judge(k, prefixLen, hour, all[..to]).Some?
    ensures Some(ReadMarked(k, prefixLen, hour, [], CutAt(all, from, to), end).verdict) == Judge(k, prefixLen, hour, all[..to])
  {
    var head, tail := Pieces(all[..from]), [all[from..to]] + Pieces(all[to..]);
    PiecesDeliver(all[..from]);
    assert [] + Concat(head) == all[..from];
    ReadsThrough(k, prefixLen, hour, [], head, tail, end, all);
    JudgeOfAnyPart(k, prefixLen, hour, all[..from], all);
    assert all[..from] + all[from..to] == all[..to];
    assert tail[0] == all[from..to] && tail[1..] == Pieces(all[to..]);
    JudgeOfAnyPart(k, prefixLen, hour, all[..to], all);
  }

  /** A read boundary at the budget rejects what a read across it accepts. */
  lemma DeliveriesDiffer(k: Keyed, prefixLen: nat, hour: int, all: seq<Byte>, end: HandshakeError)
    returns (a: seq<seq<Byte>>, b: seq<seq<Byte>>)
    requires PUBKEY_LEN <= prefixLen && SplitMatters(k, prefixLen, hour, all)
    ensures Delivers(a, all) && Delivers(b, all)
    ensures ReadMarked(k, prefixLen, hour, [], a, end).verdict == Err(ProbeRejected)
    ensures ReadMarked(k, prefixLen, hour, [], b, end).verdict == Ok(all[..prefixLen])
  {
    var near, far := MAX_HANDSHAKE_LEN, Min(|all|, LAST_BYTE);
    a := CutAt(all, near - READ_SIZE, near);
    CutDelivers(all, near - READ_SIZE, near);
    CutIsJudged(k, prefixLen, hour, all, near - READ_SIZE, near, end);
    JudgeOfAnyPart(k, prefixLen, hour, all[..near], all);
    b := CutAt(all, near - 1, far);
    CutDelivers(all, near - 1, far);
    CutIsJudged(k, prefixLen, hour, all, near - 1, far, end);
    JudgeOfAnyPart(k, prefixLen, hour, all[..far], all);
  }

  /** Split independence: all deliveries of the same bytes get one verdict, unless the MAC after the first MARK is
      valid and ends past byte 8192 but by byte 9215; then, and only then, a read boundary decides. */
  lemma SplitIndependence(k: Keyed, prefixLen: nat, hour: int, all: seq<Byte>, end: HandshakeError)
    requires PUBKEY_LEN <= prefixLen
    ensures !SplitMatters(k, prefixLen, hour, all) <==>
      forall a, b :: Delivers(a, all) && Delivers(b, all) ==>
        ReadMarked(k, prefixLen, hour, [], a, end).verdict == ReadMarked(k, prefixLen, hour, [], b, end).verdict
  {
    if SplitMatters(k, prefixLen, hour, all) {
      var a, b := DeliveriesDiffer(k, prefixLen, hour, all, end);
    } else {
      forall a: seq<seq<Byte>> | Delivers(a, all)
        ensures ReadMarked(k, prefixLen, hour, [], a, end).verdict == CommonVerdict(k, prefixLen, hour, all, end)
      {
        assert [] + Concat(a) == all;
        DeliveriesAgree(k, prefixLen, hour, [], a, end, all);
      }
    }
  }

  // --- Round trip ---------------------------------------------------------------------

  /** The MARK first occurs at the end of the pad. */
  predicate MarkOnlyAtEnd(k: Keyed, prefix: seq<Byte>, pad: seq<Byte>)
    requires |prefix| >= PUBKEY_LEN
  {
    FindSubslice(pad + k.Mark(prefix[..PUBKEY_LEN]), k.Mark(prefix[..PUBKEY_LEN])) == Some(|pad|)
  }

  lemma MarkPositionOfMessage(k: Keyed, prefix: seq<Byte>, pad: seq<Byte>, hour: int, trailing: seq<Byte>)
    requires |prefix| >= PUBKEY_LEN && MarkOnlyAtEnd(k, prefix, pad)
    ensures MarkPosition(k, |prefix|, BuildMarkedMessage(k, prefix, pad, hour) + trailing) == Some(|prefix| + |pad|)
  {
    var mark := k.Mark(prefix[..PUBKEY_LEN]);
    var all := BuildMarkedMessage(k, prefix, pad, hour) + trailing;
    var after := all[|prefix|..];
    assert all[..PUBKEY_LEN] == prefix[..PUBKEY_LEN];
    assert pad + mark <= after;
    assert OccursAt(after, mark, |pad|);
    var found := FindSubslice(after, mark);
    FindInPrefix(pad + mark, after, mark, found.value);
  }

  lemma MacOfMessage(k: Keyed, prefix: seq<Byte>, pad: seq<Byte>, sentHour: int, hour: int, trailing: seq<Byte>)
    requires |prefix| >= PUBKEY_LEN && AbsInt(hour - sentHour) <= 1
    ensures MacValidAt(k, BuildMarkedMessage(k, prefix, pad, sentHour) + trailing, |prefix| + |pad|, hour)
  {
    var head := prefix + pad + k.Mark(prefix[..PUBKEY_LEN]);
    var all := BuildMarkedMessage(k, prefix, pad, sentHour) + trailing;
    assert all[..|head|] == head;
    assert all[|head|..|head| + MAC_LEN] == k.MacAt(head, sentHour);
  }

  /** Some read ends right after the first `n` bytes. */
  predicate ReadEndsAt(chunks: seq<seq<Byte>>, n: nat) {
    exists i :: 0 <= i <= |chunks| && |Concat(chunks[..i])| == n
  }

  /** The first read that reaches `n` ends there exactly when some read does. */
  lemma FirstReadEndsAt(chunks: seq<seq<Byte>>, j: nat, n: nat)
    requires j <= |chunks| && n <= |Concat(chunks[..j])|
    requires forall i :: 0 <= i < j ==> |Concat(chunks[..i])| < n
    ensures |Concat(chunks[..j])| == n <==> ReadEndsAt(chunks, n)
  {
    forall i | j <= i <= |chunks|
      ensures |Concat(chunks[..j])| <= |Concat(chunks[..i])|
    {
      ConcatPrefix(chunks[..j], chunks[..i]);
    }
  }

  lemma CutAfter(msg: seq<Byte>, trailing: seq<Byte>, buffered: seq<Byte>, rest: seq<Byte>)
    requires buffered + rest == msg + trailing && |msg| <= |buffered|
    ensures msg <= buffered && buffered[|msg|..] + rest == trailing
    ensures rest == trailing <==> |buffered| == |msg|
  {
    assert buffered == (msg + trailing)[..|buffered|];
    assert (buffered + rest)[|msg|..] == buffered[|msg|..] + rest;
    assert (msg + trailing)[|msg|..] == trailing;
  }

  /** Round trip: a message built with any pad of at most 2048 bytes, in any split into reads, with an
      hour skew of at most one, is read back as exactly its prefix - provided the MARK first occurs at
      the end of the pad. What follows the MAC in the last read is taken off the stream and dropped, so
      the bytes after the message survive exactly when some read ends with the message. */
  lemma HandshakeRoundTrip(k: Keyed, prefix: seq<Byte>, pad: seq<Byte>, sentHour: int, hour: int,
                           trailing: seq<Byte>, chunks: seq<seq<Byte>>, end: HandshakeError)
    requires PUBKEY_LEN <= |prefix| <= 2 * PUBKEY_LEN && |pad| <= HS_MAX_PAD
    requires MarkOnlyAtEnd(k, prefix, pad) && AbsInt(hour - sentHour) <= 1
    requires Concat(chunks) == BuildMarkedMessage(k, prefix, pad, sentHour) + trailing
    ensures
      var msg := BuildMarkedMessage(k, prefix, pad, sentHour);
      var out := ReadMarked(k, |prefix|, hour, [], chunks, end);
      && out.verdict == Ok(prefix)
      && msg <= out.buffered
      && out.buffered[|msg|..] + Concat(out.rest) == trailing
      && (Concat(out.rest) == trailing <==> ReadEndsAt(chunks, |msg|))
  {
    MessageIsMarked(k, prefix, pad, sentHour, hour, trailing);
    MarkedRoundTrip(k, |prefix|, BuildMarkedMessage(k, prefix, pad, sentHour), hour, trailing, chunks, end);
  }

  /** The same for any message that its MARK and MAC end. */
  lemma MarkedRoundTrip(k: Keyed, prefixLen: nat, msg: seq<Byte>, hour: int, trailing: seq<Byte>,
                        chunks: seq<seq<Byte>>, end: HandshakeError)
    requires PUBKEY_LEN <= prefixLen && Concat(chunks) == msg + trailing && |msg| >= MARK_LEN + MAC_LEN
    requires MarkedAt(k, prefixLen, msg + trailing, |msg| - MARK_LEN - MAC_LEN)
    ensures
      var out := ReadMarked(k, prefixLen, hour, [], chunks, end);
      && out.verdict == MacVerdict(k, prefixLen, hour, msg + trailing, |msg| - MARK_LEN - MAC_LEN)
      && msg <= out.buffered
      && out.buffered[|msg|..] + Concat(out.rest) == trailing
      && (Concat(out.rest) == trailing <==> ReadEndsAt(chunks, |msg|))
  {
    var at := |msg| - MARK_LEN - MAC_LEN;
    assert [] + Concat(chunks) == msg + trailing;
    DecidedByFirstMark(k, prefixLen, hour, [], chunks, end, msg + trailing, at);
    var out := ReadMarked(k, prefixLen, hour, [], chunks, end);
    CutAfter(msg, trailing, out.buffered, Concat(out.rest));
    SurvivesIff(k, prefixLen, hour, chunks, end, at);
  }

  lemma MessageIsMarked(k: Keyed, prefix: seq<Byte>, pad: seq<Byte>, sentHour: int, hour: int, trailing: seq<Byte>)
    requires PUBKEY_LEN <= |prefix| <= 2 * PUBKEY_LEN && |pad| <= HS_MAX_PAD
    requires MarkOnlyAtEnd(k, prefix, pad) && AbsInt(hour - sentHour) <= 1
    ensures
      var all := BuildMarkedMessage(k, prefix, pad, sentHour) + trailing;
      MarkedAt(k, |prefix|, all, |prefix| + |pad|) && MacVerdict(k, |prefix|, hour, all, |prefix| + |pad|) == Ok(prefix)
  {
    MarkPositionOfMessage(k, prefix, pad, sentHour, trailing);
    MacOfMessage(k, prefix, pad, sentHour, hour, trailing);
    assert (BuildMarkedMessage(k, prefix, pad, sentHour) + trailing)[..|prefix|] == prefix;
  }

  lemma SurvivesIff(k: Keyed, prefixLen: nat, hour: int, chunks: seq<seq<Byte>>, end: HandshakeError, at: nat)
    requires PUBKEY_LEN <= prefixLen && MarkedAt(k, prefixLen, Concat(chunks), at)
    ensures |ReadMarked(k, prefixLen, hour, [], chunks, end).buffered| == at + MARK_LEN + MAC_LEN <==>
            ReadEndsAt(chunks, at + MARK_LEN + MAC_LEN)
  {
    assert [] + Concat(chunks) == Concat(chunks);
    var j := StopsAtFirstRead(k, prefixLen, hour, [], chunks, end, Concat(chunks), at);
    forall i | 0 <= i <= |chunks|
      ensures [] + Concat(chunks[..i]) == Concat(chunks[..i])
    {
    }
    FirstReadEndsAt(chunks, j, at + MARK_LEN + MAC_LEN);
  }

  /** Without that proviso the verdict is the one of the bytes after the earlier MARK: the message is
      still accepted exactly when those bytes happen to be a valid MAC. */
  lemma EarlyMarkDecides(k: Keyed, prefix: seq<Byte>, pad: seq<Byte>, sentHour: int, hour: int,
                         chunks: seq<seq<Byte>>, end: HandshakeError)
    requires PUBKEY_LEN <= |prefix| <= 2 * PUBKEY_LEN && |pad| <= HS_MAX_PAD
    requires Concat(chunks) == BuildMarkedMessage(k, prefix, pad, sentHour)
    ensures MarkPosition(k, |prefix|, Concat(chunks)).Some?
    ensures
      var at := MarkPosition(k, |prefix|, Concat(chunks)).value;
      && at + MARK_LEN + MAC_LEN <= |Concat(chunks)|
      && (ReadMarked(k, |prefix|, hour, [], chunks, end).verdict == Ok(prefix) <==>
            MacValidAt(k, Concat(chunks), at, hour))
  {
    var all := Concat(chunks);
    var mark := k.Mark(prefix[..PUBKEY_LEN]);
    assert all[..PUBKEY_LEN] == prefix[..PUBKEY_LEN] && all[..|prefix|] == prefix;
    assert OccursAt(all[|prefix|..], mark, |pad|);
    assert all == [] + Concat(chunks);
    DecidedByFirstMark(k, |prefix|, hour, [], chunks, end, all, MarkPosition(k, |prefix|, all).value);
  }

  /** Soundness: whatever arrives, a success means that a MAC valid for this hour or a neighbour follows
      the first MARK of the bytes read, and the result is the first `prefixLen` of them. */
  lemma {:induction false} SuccessMeansValidMac(k: Keyed, prefixLen: nat, hour: int, buf: seq<Byte>,
                                                chunks: seq<seq<Byte>>, end: HandshakeError)
    requires PUBKEY_LEN <= prefixLen
    requires ReadMarked(k, prefixLen, hour, buf, chunks, end).verdict.Ok?
    ensures
      var out := ReadMarked(k, prefixLen, hour, buf, chunks, end);
      && prefixLen <= |out.buffered|
      && buf <= out.buffered <= buf + Concat(chunks)
      && out.verdict == Ok(out.buffered[..prefixLen])
      && MarkPosition(k, prefixLen, out.buffered).Some?
      && var at := MarkPosition(k, prefixLen, out.buffered).value;
         at + MARK_LEN + MAC_LEN <= |out.buffered| && MacValidAt(k, out.buffered, at, hour)
    decreases |chunks|
  {
    if Judge(k, prefixLen, hour, buf) == None && chunks != [] {
      SuccessMeansValidMac(k, prefixLen, hour, buf + chunks[0], chunks[1..], end);
      assert buf + Concat(chunks) == (buf + chunks[0]) + Concat(chunks[1..]);
    }
  }

  /** The budget: at most 9215 bytes are ever buffered, whatever the peer sends. */
  lemma {:induction false} BufferBound(k: Keyed, prefixLen: nat, hour: int, buf: seq<Byte>,
                                       chunks: seq<seq<Byte>>, end: HandshakeError)
    requires PUBKEY_LEN <= prefixLen && GoodReads(chunks)
    requires |buf| < MAX_HANDSHAKE_LEN + READ_SIZE
    ensures |ReadMarked(k, prefixLen, hour, buf, chunks, end).buffered| <= 9215
    decreases |chunks|
  {
    if Judge(k, prefixLen, hour, buf) == None && chunks != [] {
      BufferBound(k, prefixLen, hour, buf + chunks[0], chunks[1..], end);
    }
  }

  // --- What is accepted, in terms of the keyed hash ------------------------------------

  /** `t` is the 16-byte keyed hash of `data`. */
  predicate IsTag(k: Keyed, t: seq<Byte>, data: seq<Byte>) {
    |t| == 16 && forall i :: 0 <= i < 16 ==> t[i] == k.hashByte(data, i)
  }

  /** The hash of the first 32 bytes stands at `at`, behind the prefix. */
  predicate IsMarkAt(k: Keyed, prefixLen: nat, all: seq<Byte>, at: nat) {
    PUBKEY_LEN <= prefixLen <= at && at + 16 <= |all| && IsTag(k, all[at..at + 16], all[..PUBKEY_LEN])
  }

  ghost predicate IsFirstMarkAt(k: Keyed, prefixLen: nat, all: seq<Byte>, at: nat) {
    IsMarkAt(k, prefixLen, all, at) && forall j: nat :: j < at ==> !IsMarkAt(k, prefixLen, all, j)
  }

  /** The 16 bytes behind the MARK at `at` are the hash of everything before them and hour `h`. */
  predicate SignedFor(k: Keyed, all: seq<Byte>, at: nat, h: int) {
    at + 32 <= |all| && IsTag(k, all[at + 16..at + 32], all[..at + 16] + k.hourText(h))
  }

  /** For the hour now, the one before or the one after. */
  ghost predicate Signed(k: Keyed, all: seq<Byte>, at: nat, hour: int) {
    exists h :: hour - 1 <= h <= hour + 1 && SignedFor(k, all, at, h)
  }

  lemma TagIff(k: Keyed, t: seq<Byte>, data: seq<Byte>)
    ensures IsTag(k, t, data) <==> t == k.Tag(data)
  {
  }

  lemma SignedIff(k: Keyed, all: seq<Byte>, at: nat, hour: int)
    requires at + MARK_LEN + MAC_LEN <= |all|
    ensures Signed(k, all, at, hour) <==> MacValidAt(k, all, at, hour)
  {
    var data, mac := all[..at + 16], all[at + 16..at + 32];
    forall h
      ensures SignedFor(k, all, at, h) <==> k.MacAt(data, h) == mac
    {
      TagIff(k, mac, data + k.hourText(h));
    }
    assert Signed(k, all, at, hour) <==>
      SignedFor(k, all, at, hour - 1) || SignedFor(k, all, at, hour) || SignedFor(k, all, at, hour + 1);
  }

  lemma MarkOccursIff(k: Keyed, prefixLen: nat, all: seq<Byte>, at: nat)
    requires PUBKEY_LEN <= prefixLen <= |all| && prefixLen <= at
    ensures IsMarkAt(k, prefixLen, all, at) <==> OccursAt(all[prefixLen..], k.Mark(all[..PUBKEY_LEN]), at - prefixLen)
  {
    if at + 16 <= |all| {
      assert all[prefixLen..][at - prefixLen..at - prefixLen + 16] == all[at..at + 16];
      TagIff(k, all[at..at + 16], all[..PUBKEY_LEN]);
    }
  }

  lemma FirstMarkIff(k: Keyed, prefixLen: nat, all: seq<Byte>, at: nat)
    requires PUBKEY_LEN <= prefixLen <= |all|
    ensures IsFirstMarkAt(k, prefixLen, all, at) <==> MarkPosition(k, prefixLen, all) == Some(at)
  {
    var found := MarkPosition(k, prefixLen, all);
    forall j: nat | prefixLen <= j
      ensures IsMarkAt(k, prefixLen, all, j) <==> OccursAt(all[prefixLen..], k.Mark(all[..PUBKEY_LEN]), j - prefixLen)
    {
      MarkOccursIff(k, prefixLen, all, j);
    }
    if found.Some? {
      assert IsMarkAt(k, prefixLen, all, found.value);
      forall j: nat | j < found.value
        ensures !IsMarkAt(k, prefixLen, all, j)
      {
        if prefixLen <= j {
          MarkOccursIff(k, prefixLen, all, j);
        }
      }
    }
  }

  /** Acceptance: whatever arrives in whatever reads, a success means that the 16 bytes behind the first MARK are the
      keyed hash of everything before them and the hour, give or take one, and yields the first `prefixLen` bytes; and
      when the first MARK and those 16 bytes lie within the byte budget the message is rejected otherwise. */
  lemma AcceptedIffSigned(k: Keyed, prefixLen: nat, hour: int, chunks: seq<seq<Byte>>, end: HandshakeError, all: seq<Byte>)
    requires PUBKEY_LEN <= prefixLen && Concat(chunks) == all
    ensures
      var verdict := ReadMarked(k, prefixLen, hour, [], chunks, end).verdict;
      && (verdict.Ok? ==> prefixLen <= |all| && verdict == Ok(all[..prefixLen])
                          && exists at: nat :: IsFirstMarkAt(k, prefixLen, all, at) && Signed(k, all, at, hour))
      && forall at: nat :: IsFirstMarkAt(k, prefixLen, all, at) && at + 32 <= Min(|all|, MAX_HANDSHAKE_LEN) ==>
           verdict == if Signed(k, all, at, hour) then Ok(all[..prefixLen]) else Err(ProbeRejected)
  {
    assert [] + Concat(chunks) == all;
    if ReadMarked(k, prefixLen, hour, [], chunks, end).verdict.Ok? {
      SuccessIsSigned(k, prefixLen, hour, chunks, end, all);
    }
    forall at: nat | IsFirstMarkAt(k, prefixLen, all, at) && at + 32 <= Min(|all|, MAX_HANDSHAKE_LEN)
      ensures ReadMarked(k, prefixLen, hour, [], chunks, end).verdict
           == if Signed(k, all, at, hour) then Ok(all[..prefixLen]) else Err(ProbeRejected)
    {
      FirstMarkIff(k, prefixLen, all, at);
      SignedIff(k, all, at, hour);
      DecidedByFirstMark(k, prefixLen, hour, [], chunks, end, all, at);
    }
  }

  lemma SuccessIsSigned(k: Keyed, prefixLen: nat, hour: int, chunks: seq<seq<Byte>>, end: HandshakeError, all: seq<Byte>)
    requires PUBKEY_LEN <= prefixLen && Concat(chunks) == all
    requires ReadMarked(k, prefixLen, hour, [], chunks, end).verdict.Ok?
    ensures prefixLen <= |all| && ReadMarked(k, prefixLen, hour, [], chunks, end).verdict == Ok(all[..prefixLen])
    ensures exists at: nat :: IsFirstMarkAt(k, prefixLen, all, at) && Signed(k, all, at, hour)
  {
    SuccessMeansValidMac(k, prefixLen, hour, [], chunks, end);
    var buffered := ReadMarked(k, prefixLen, hour, [], chunks, end).buffered;
    assert [] + Concat(chunks) == all;
    var at := MarkPosition(k, prefixLen, buffered).value;
    MarkOfPart(k, prefixLen, buffered, all);
    MacOfPart(k, prefixLen, hour, buffered, all, at);
    assert MacValidAt(k, all, at, hour) by {
      assert buffered[..at + MARK_LEN] == all[..at + MARK_LEN];
      assert buffered[at + MARK_LEN..at + MARK_LEN + MAC_LEN] == all[at + MARK_LEN..at + MARK_LEN + MAC_LEN];
    }
    FirstMarkIff(k, prefixLen, all, at);
    SignedIff(k, all, at, hour);
    assert buffered[..prefixLen] == all[..prefixLen];
  }

  /** The hash made for hour `g` is that of hour `h`. */
  predicate SameTag(k: Keyed, head: seq<Byte>, g: int, h: int) {
    IsTag(k, k.Tag(head + k.hourText(g)), head + k.hourText(h))
  }

  ghost predicate Collides(k: Keyed, head: seq<Byte>, sentHour: int, hour: int) {
    exists h :: hour - 1 <= h <= hour + 1 && SameTag(k, head, sentHour, h)
  }

  /** A message made for another hour is accepted exactly when its tag collides with one of the three current ones: one
      two hours old, say, is rejected unless the hash of the older hour text is that of a newer one. */
  lemma StaleIffNoCollision(k: Keyed, prefix: seq<Byte>, pad: seq<Byte>, sentHour: int, hour: int,
                            trailing: seq<Byte>, chunks: seq<seq<Byte>>, end: HandshakeError)
    requires PUBKEY_LEN <= |prefix| <= 2 * PUBKEY_LEN && |pad| <= HS_MAX_PAD && MarkOnlyAtEnd(k, prefix, pad)
    requires Concat(chunks) == BuildMarkedMessage(k, prefix, pad, sentHour) + trailing
    ensures
      var head := prefix + pad + k.Tag(prefix[..PUBKEY_LEN]);
      ReadMarked(k, |prefix|, hour, [], chunks, end).verdict
      == if Collides(k, head, sentHour, hour) then Ok(prefix) else Err(ProbeRejected)
  {
    var head := prefix + pad + k.Tag(prefix[..PUBKEY_LEN]);
    var all: seq<Byte>, at: nat := Concat(chunks), |prefix| + |pad|;
    assert all == head + k.Tag(head + k.hourText(sentHour)) + trailing;
    assert all[..at + 16] == head && all[at + 16..at + 32] == k.Tag(head + k.hourText(sentHour));
    assert all[..|prefix|] == prefix;
    MarkPositionOfMessage(k, prefix, pad, sentHour, trailing);
    FirstMarkIff(k, |prefix|, all, at);
    AcceptedIffSigned(k, |prefix|, hour, chunks, end, all);
    assert forall h :: SignedFor(k, all, at, h) <==> SameTag(k, head, sentHour, h);
  }
}
