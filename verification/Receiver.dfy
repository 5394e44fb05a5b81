/** The receiving end of a shaped wire, and the end-to-end statement about a flow. */
module Receiver {
  import opened Base
  import opened Cells
  import opened Crypto
  import opened TimingCorrelation
  import opened ShapedSessions
  import opened Transport
  import opened FlowInvariants
  import opened Handshake

  /** The read half of a connection: bytes that will arrive, then end of file. */
  class ReadHalf {
    var unread: seq<Byte>

    constructor (bytes: seq<Byte>)
      ensures unread == bytes
    {
      unread := bytes;
    }

    /** One `read`: any non-empty amount up to `max`, or nothing at end of file. */
    method Read(max: nat) returns (chunk: seq<Byte>)
      requires max > 0
      modifies this
      ensures old(unread) == chunk + unread
      ensures |chunk| <= max
      ensures chunk == [] <==> old(unread) == []
    {
      if unread == [] {
        return [];
      }
      var n: nat :| 1 <= n <= max && n <= |unread|;
      chunk := unread[..n];
      unread := unread[n..];
    }

    /** `read_exact`: independent of how the bytes are split over reads. */
    method ReadExact(len: nat) returns (buf: Option<seq<Byte>>)
      modifies this
      ensures |old(unread)| < len ==> buf == None && unread == []
      ensures |old(unread)| >= len ==> buf == Some(old(unread)[..len]) && unread == old(unread)[len..]
    {
      var got: seq<Byte> := [];
      while |got| < len
        invariant |got| <= len
        invariant old(unread) == got + unread
      {
        var chunk := Read(len - |got|);
        if chunk == [] {
          return None;
        }
        got := got + chunk;
      }
      buf := Some(got);
    }
  }

  datatype ReadResult = EndOfStream | Tampered | Got(frame: Frame)

  /** Read one fixed-size frame and open it; a partial frame at the end of the stream is a clean end. */
  method ReadSealedFrame(wire: ReadHalf, cipher: FrameCipher, len: nat, ghost done: nat) returns (r: ReadResult)
    requires len > 0 && cipher.counter == CounterOf(done)
    modifies wire, cipher
    ensures |old(wire.unread)| < len ==> r == EndOfStream
    ensures |old(wire.unread)| >= len ==>
      && wire.unread == old(wire.unread)[len..]
      && cipher.counter == CounterOf(done + 1)
      && match Open(cipher.aead, CounterOf(done), old(wire.unread)[..len])
         case None => r == Tampered
         case Some(f) => r == Got(f)
  {
    var buf := wire.ReadExact(len);
    match buf {
      case None => r := EndOfStream;
      case Some(block) =>
        CounterNext(done);
        var opened_ := cipher.OpenFrame(block);
        match opened_ {
          case None => r := Tampered;
          case Some(f) => r := Got(f);
        }
    }
  }

  /** What one accepted frame contributes to the output: nothing unless it is a real cell. */
  function Forwarded(f: Frame): seq<Byte> {
    if f.kind == KIND_REAL then DecodeRealCell(f.cell).data else []
  }

  lemma ForwardedSnoc(accepted: seq<Frame>, f: Frame)
    ensures Payload(RealCells(accepted + [f])) == Payload(RealCells(accepted)) + Forwarded(f)
  {
    RealCellsSnoc(accepted, f);
    if f.kind == KIND_REAL {
      PayloadAppend(RealCells(accepted), [f.cell]);
      assert Payload([f.cell]) == Forwarded(f) + Payload([f.cell][1..]);
    } else {
      assert RealCells(accepted + [f]) == RealCells(accepted);
    }
  }

  /** `all` is what a receiver makes of the stream when `accepted` came out of the bytes before `rest`. */
  ghost predicate Resumes(aead: Aead, all: Received, accepted: seq<Frame>, rest: seq<Byte>, len: nat)
    requires len > 0
  {
    var r := Receive(aead, rest, len, |accepted|);
    all == Received(accepted + r.frames, r.outcome)
  }

  lemma ResumeAfter(aead: Aead, all: Received, accepted: seq<Frame>, rest: seq<Byte>, len: nat)
    requires len > 0 && Resumes(aead, all, accepted, rest, len)
    ensures |rest| < len ==> all == Received(accepted, Eof)
    ensures |rest| >= len ==>
      match Open(aead, CounterOf(|accepted|), rest[..len])
      case None => all == Received(accepted, Aborted)
      case Some(f) => Resumes(aead, all, accepted + [f], rest[len..], len)
  {
  }

  /** Open frames in order, drop everything that is not a real cell, and forward the payload
      of real cells; on a bad frame what was forwarded before it stands. */
  method StripAndForward(wire: ReadHalf, cipher: FrameCipher, cellBytes: nat) returns (out: seq<Byte>, outcome: Outcome)
    requires cipher.counter == 0
    modifies wire, cipher
    ensures
      var received := Receive(cipher.aead, old(wire.unread), EncFrameLen(cellBytes), 0);
      out == Payload(RealCells(received.frames)) && outcome == received.outcome
  {
    var len := EncFrameLen(cellBytes);
    ghost var all := Receive(cipher.aead, wire.unread, len, 0);
    ghost var accepted: seq<Frame> := [];
    out := [];
    while true
      invariant cipher.counter == CounterOf(|accepted|)
      invariant out == Payload(RealCells(accepted))
      invariant Resumes(cipher.aead, all, accepted, wire.unread, len)
      decreases |wire.unread|
    {
      ResumeAfter(cipher.aead, all, accepted, wire.unread, len);
      var r := ReadSealedFrame(wire, cipher, len, |accepted|);
      match r {
        case EndOfStream => return out, Eof;
        case Tampered => return out, Aborted;
        case Got(f) =>
          ForwardedSnoc(accepted, f);
          if f.kind == KIND_REAL {
            var data := DecodeRealCell(f.cell).data;
            if data != [] {
              out := out + data;
            }
          }
          accepted := accepted + [f];
      }
    }
  }

  // --- End to end ---------------------------------------------------------------

  /** The frames whose blocks lie wholly within the received bytes. */
  function WholeFrames(p: Params, f: Flow, received: seq<Byte>): nat {
    Blocks(received, EncFrameLen(p.clock.cellBytes))
  }

  lemma ReceiveOfRun(p: Params, f: Flow, received: seq<Byte>)
    requires Inv(p, f) && received <= f.written
    ensures WholeFrames(p, f, received) <= |f.frames|
    ensures Receive(p.aead, received, EncFrameLen(p.clock.cellBytes), 0)
         == Received(f.frames[..WholeFrames(p, f, received)], Eof)
  {
    assert received <= f.written + f.pending;
    HonestReceive(p.aead, f.frames, p.clock.cellBytes, received, 0);
  }

  /** Every run keeps both accounts: the bytes and the cells. */
  lemma RunKeepsAccounts(p: Params, session: Session, ios: seq<Io>)
    requires p.clock.Valid() && FreshSession(session) && WholeCellRun(p, ios)
    ensures
      var f := RunFlow(p, Fresh(session, 0), ios).flow;
      Inv(p, f) && Conserved(p, f)
  {
    FreshInv(p, session);
    FreshConserved(p, session);
    RunKeepsInv(p, Fresh(session, 0), ios);
    RunConserves(p, Fresh(session, 0), ios);
  }

  /** What a receiver of `received` has, with what is still under way, is everything sent. */
  ghost predicate Lossless(p: Params, f: Flow, received: seq<Byte>) {
    var got := Receive(p.aead, received, EncFrameLen(p.clock.cellBytes), 0);
    && got.outcome == Eof
    && |got.frames| <= |f.frames|
    && f.sent == RealCells(got.frames) + RealCells(f.frames[|got.frames|..]) + f.session.clock.queue + f.channel
    && Payload(RealCells(got.frames)) <= Payload(f.sent)
  }

  lemma AccountsAreLossless(p: Params, f: Flow, received: seq<Byte>)
    requires Inv(p, f) && Conserved(p, f) && received <= f.written
    ensures Lossless(p, f, received)
  {
    ReceiveOfRun(p, f, received);
    var k := WholeFrames(p, f, received);
    assert f.frames == f.frames[..k] + f.frames[k..];
    RealCellsAppend(f.frames[..k], f.frames[k..]);
    PayloadPrefix(RealCells(f.frames[..k]), f.sent);
  }

  /** Lossless pipe. For every run - any service times, dummy coins, short writes, arrivals - and
      any point at which the receiver has read the first `|received|` written bytes: it has not
      aborted, and the real cells it decoded, then those still in sealed bytes, then the queue,
      then the channel, are exactly the cells sent. Delivered payload is a prefix of the source. */
  lemma LosslessPipe(p: Params, session: Session, ios: seq<Io>, received: seq<Byte>)
    requires p.clock.Valid() && FreshSession(session) && WholeCellRun(p, ios)
    requires received <= RunFlow(p, Fresh(session, 0), ios).flow.written
    ensures Lossless(p, RunFlow(p, Fresh(session, 0), ios).flow, received)
  {
    RunKeepsAccounts(p, session, ios);
    AccountsAreLossless(p, RunFlow(p, Fresh(session, 0), ios).flow, received);
  }

  /** The same for a flow fed by a reader task: whatever the read sizes, the bytes delivered are a
      prefix of the source bytes. */
  lemma DeliveredIsSourcePrefix(p: Params, session: Session, ios: seq<Io>, received: seq<Byte>,
                                source: seq<seq<Byte>>, streamId: U16, pad: nat -> (nat -> Byte))
    requires p.clock.Valid() && FreshSession(session) && WholeCellRun(p, ios)
    requires received <= RunFlow(p, Fresh(session, 0), ios).flow.written
    requires RunFlow(p, Fresh(session, 0), ios).flow.sent <= CellsOfReads(streamId, source, pad)
    ensures Payload(RealCells(Receive(p.aead, received, EncFrameLen(p.clock.cellBytes), 0).frames)) <= Concat(source)
  {
    LosslessPipe(p, session, ios, received);
    PayloadPrefix(RunFlow(p, Fresh(session, 0), ios).flow.sent, CellsOfReads(streamId, source, pad));
    ReadsRoundTrip(streamId, source, pad);
  }

  /** And whatever happens to the bytes on the way: as long as nobody forges a frame, what a receiver of any bytes `w`
      delivers before it stops is a prefix of the source bytes. */
  lemma TamperedIsSourcePrefix(p: Params, session: Session, ios: seq<Io>, w: seq<Byte>,
                               source: seq<seq<Byte>>, streamId: U16, pad: nat -> (nat -> Byte))
    requires p.clock.Valid() && FreshSession(session) && WholeCellRun(p, ios)
    requires RunFlow(p, Fresh(session, 0), ios).flow.sent <= CellsOfReads(streamId, source, pad)
    requires |RunFlow(p, Fresh(session, 0), ios).flow.frames| <= U64_SIZE
    requires Blocks(w, EncFrameLen(p.clock.cellBytes)) <= U64_SIZE
    requires NoForgery(p.aead, w, EncFrameLen(p.clock.cellBytes), RunFlow(p, Fresh(session, 0), ios).flow.frames, 0)
    ensures Payload(RealCells(Receive(p.aead, w, EncFrameLen(p.clock.cellBytes), 0).frames)) <= Concat(source)
  {
    var f := RunFlow(p, Fresh(session, 0), ios).flow;
    RunKeepsAccounts(p, session, ios);
    TamperedPrefix(p, f, w);
    PayloadPrefix(f.sent, CellsOfReads(streamId, source, pad));
    ReadsRoundTrip(streamId, source, pad);
  }

  lemma TamperedPrefix(p: Params, f: Flow, w: seq<Byte>)
    requires Conserved(p, f) && |f.frames| <= U64_SIZE
    requires Blocks(w, EncFrameLen(p.clock.cellBytes)) <= U64_SIZE
    requires NoForgery(p.aead, w, EncFrameLen(p.clock.cellBytes), f.frames, 0)
    ensures Payload(RealCells(Receive(p.aead, w, EncFrameLen(p.clock.cellBytes), 0).frames)) <= Payload(f.sent)
  {
    var len := EncFrameLen(p.clock.cellBytes);
    AuthenticatedPrefix(p.aead, w, len, f.frames, 0);
    var k := IntactBlocks(p.aead, w, len, f.frames, 0);
    FirstRealCells(f.frames, k);
    PayloadPrefix(RealCells(f.frames[..k]), f.sent);
  }

  lemma FirstRealCells(frames: seq<Frame>, k: nat)
    requires k <= |frames|
    ensures RealCells(frames[..k]) <= RealCells(frames)
  {
    assert frames == frames[..k] + frames[k..];
    RealCellsAppend(frames[..k], frames[k..]);
  }

  /** The source has ended and the reader has handed over its last cell. */
  predicate SourceEnded(f: Flow) { f.closed && f.channel == [] }

  /** Once the source has ended, everything sent has reached the wire exactly when no real cell is left
      in the queue or in a block that is not fully written. */
  lemma AllWrittenIff(p: Params, session: Session, ios: seq<Io>)
    requires p.clock.Valid() && FreshSession(session) && WholeCellRun(p, ios)
    requires SourceEnded(RunFlow(p, Fresh(session, 0), ios).flow)
    ensures
      var f := RunFlow(p, Fresh(session, 0), ios).flow;
      var got := Receive(p.aead, f.written, EncFrameLen(p.clock.cellBytes), 0);
      && |got.frames| <= |f.frames|
      && (RealCells(got.frames) == f.sent <==>
            f.session.clock.queue == [] && RealCells(f.frames[|got.frames|..]) == [])
  {
    var f := RunFlow(p, Fresh(session, 0), ios).flow;
    LosslessPipe(p, session, ios, f.written);
    var got := Receive(p.aead, f.written, EncFrameLen(p.clock.cellBytes), 0);
    SplitEmpty(RealCells(got.frames), RealCells(f.frames[|got.frames|..]), f.session.clock.queue);
    assert RealCells(got.frames) + RealCells(f.frames[|got.frames|..]) + f.session.clock.queue + [] == f.sent;
  }

  lemma SplitEmpty<T>(a: seq<T>, b: seq<T>, c: seq<T>)
    ensures a == a + b + c <==> b == [] && c == []
  {
  }

  lemma WholeWireIsWholeFrames(p: Params, f: Flow)
    requires Lockstep(p, f) && f.pending == []
    ensures WholeFrames(p, f, f.written) == |f.frames|
  {
    assert f.written == f.written + f.pending;
    WireBlocks(p.aead, f.frames, 0, p.clock.cellBytes);
  }

  lemma {:induction false} WireBlocks(aead: Aead, frames: seq<Frame>, first: nat, cellBytes: nat)
    requires Uniform(frames, cellBytes)
    ensures Blocks(Wire(aead, frames, first), EncFrameLen(cellBytes)) == |frames|
  {
    if frames != [] {
      var len := EncFrameLen(cellBytes);
      var tail := Wire(aead, frames[1..], first + 1);
      assert Wire(aead, frames, first)[len..] == tail;
      WireBlocks(aead, frames[1..], first + 1, cellBytes);
    }
  }

  /** A flow that closes by the drained branch has put every cell it was ever sent on the wire: the receiver of
      the bytes written decodes all of them. */
  lemma DrainedCloseDeliversAll(p: Params, session: Session, ios: seq<Io>)
    requires p.clock.Valid() && FreshSession(session) && WholeCellRun(p, ios)
    requires RunFlow(p, Fresh(session, 0), ios).flow.readerDone
    requires Drained(RunFlow(p, Fresh(session, 0), ios).flow)
    ensures
      var f := RunFlow(p, Fresh(session, 0), ios).flow;
      var got := Receive(p.aead, f.written, EncFrameLen(p.clock.cellBytes), 0);
      got.frames == f.frames && RealCells(got.frames) == f.sent
  {
    var f := RunFlow(p, Fresh(session, 0), ios).flow;
    assert Inv(p, f) by {
      FreshInv(p, session);
      RunKeepsInv(p, Fresh(session, 0), ios);
    }
    ReceiveOfRun(p, f, f.written);
    WholeWireIsWholeFrames(p, f);
    assert f.frames[..|f.frames|] == f.frames && f.frames[|f.frames|..] == [];
    AllWrittenIff(p, session, ios);
  }

  /** From the first byte: a peer to whom some read ends with the marked message hands the cipher exactly the sealed
      frames that follow, and loses none of them. */
  lemma HandshakeThenFrames(k: Keyed, prefix: seq<Byte>, pad: seq<Byte>, sentHour: int, hour: int,
                            chunks: seq<seq<Byte>>, end: HandshakeError,
                            aead: Aead, frames: seq<Frame>, cellBytes: nat)
    requires PUBKEY_LEN <= |prefix| <= 2 * PUBKEY_LEN && |pad| <= HS_MAX_PAD
    requires MarkOnlyAtEnd(k, prefix, pad) && AbsInt(hour - sentHour) <= 1
    requires Uniform(frames, cellBytes)
    requires Concat(chunks) == BuildMarkedMessage(k, prefix, pad, sentHour) + Wire(aead, frames, 0)
    requires ReadEndsAt(chunks, |BuildMarkedMessage(k, prefix, pad, sentHour)|)
    ensures
      var out := ReadMarked(k, |prefix|, hour, [], chunks, end);
      && out.verdict == Ok(prefix)
      && Receive(aead, Concat(out.rest), EncFrameLen(cellBytes), 0) == Received(frames, Eof)
  {
    var out := ReadMarked(k, |prefix|, hour, [], chunks, end);
    HandshakeRoundTrip(k, prefix, pad, sentHour, hour, Wire(aead, frames, 0), chunks, end);
    assert Concat(out.rest) == Wire(aead, frames, 0);
    HonestReceive(aead, frames, cellBytes, Wire(aead, frames, 0), 0);
    WireBlocks(aead, frames, 0, cellBytes);
    assert frames[..|frames|] == frames;
  }
}
