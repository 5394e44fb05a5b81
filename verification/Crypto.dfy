/** The counter-nonce frame cipher, over an AEAD taken as ideal (RFC 8439 section 2.8). */
module Crypto {
  import opened Base

  const KIND_REAL: Byte := 1
  const KIND_DUMMY: Byte := 2
  const KIND_LEN: nat := 1
  const TAG_LEN: nat := 16
  const NONCE_LEN: nat := 12

  function EncFrameLen(cellBytes: nat): nat { KIND_LEN + cellBytes + TAG_LEN }

  /** Encryption and decryption under one fixed key. */
  datatype AeadOps = AeadOps(
    encrypt: (seq<Byte>, seq<Byte>) -> seq<Byte>,
    decrypt: (seq<Byte>, seq<Byte>) -> Option<seq<Byte>>)

  ghost predicate IsCorrect(ops: AeadOps) {
    forall nonce, pt ::
      |ops.encrypt(nonce, pt)| == |pt| + TAG_LEN && ops.decrypt(nonce, ops.encrypt(nonce, pt)) == Some(pt)
  }

  function NullTag(): seq<Byte> { seq(TAG_LEN, _ => 0) }

  function NullEncrypt(nonce: seq<Byte>, pt: seq<Byte>): seq<Byte> { pt + NullTag() }

  function NullDecrypt(nonce: seq<Byte>, ct: seq<Byte>): Option<seq<Byte>> {
    if |ct| < TAG_LEN || ct[|ct| - TAG_LEN..] != NullTag() then None else Some(ct[..|ct| - TAG_LEN])
  }

  /** What every use of the cipher relies on: decryption inverts encryption, and the tag adds 16 bytes. */
  type Aead = ops: AeadOps | IsCorrect(ops) ghost witness AeadOps(NullEncrypt, NullDecrypt)

  datatype Frame = Frame(kind: Byte, cell: seq<Byte>)

  function Plaintext(f: Frame): seq<Byte> { [f.kind] + f.cell }

  // --- Nonces ---------------------------------------------------------------

  function LittleEndian(v: nat, width: nat): (r: seq<Byte>)
    ensures |r| == width
  {
    if width == 0 then [] else [v % 256] + LittleEndian(v / 256, width - 1)
  }

  function FromLittleEndian(bytes: seq<Byte>): nat {
    if bytes == [] then 0 else bytes[0] + 256 * FromLittleEndian(bytes[1..])
  }

  function Pow256(width: nat): nat { if width == 0 then 1 else 256 * Pow256(width - 1) }

  lemma {:induction false} LittleEndianRoundTrip(v: nat, width: nat)
    requires v < Pow256(width)
    ensures FromLittleEndian(LittleEndian(v, width)) == v
  {
    if width > 0 {
      assert v / 256 < Pow256(width - 1);
      LittleEndianRoundTrip(v / 256, width - 1);
    }
  }

  lemma U64FitsEightBytes()
    ensures Pow256(8) == U64_SIZE
  {
  }

  /** 4 zero bytes followed by the 8-byte little-endian counter. */
  function NonceBytes(counter: U64): (n: seq<Byte>)
    ensures |n| == NONCE_LEN
  {
    [0, 0, 0, 0] + LittleEndian(counter, 8)
  }

  lemma {:induction false} PowerIsPositive(width: nat)
    ensures Pow256(width) > 0
  {
    if width > 0 {
      PowerIsPositive(width - 1);
    }
  }

  /** Digit `i` of a number to base 256. */
  function Digit(v: nat, i: nat): nat {
    PowerIsPositive(i);
    (v / Pow256(i)) % 256
  }

  /** Byte `i` of a little-endian number is its `i`-th digit. */
  lemma {:induction false} LittleEndianDigit(v: nat, width: nat, i: nat)
    requires i < width
    ensures LittleEndian(v, width)[i] == Digit(v, i)
  {
    if i > 0 {
      LittleEndianDigit(v / 256, width - 1, i - 1);
      PowerIsPositive(i - 1);
      DivideTwice(v, Pow256(i - 1));
    }
  }

  lemma DivideTwice(v: nat, d: nat)
    requires d > 0
    ensures 256 * d > 0 && v / 256 / d == v / (256 * d)
  {
    var q := v / 256;
    var e := q / d;
    var rest := 256 * (q % d) + v % 256;
    assert q == d * e + q % d;
    assert v == 256 * (d * e + q % d) + v % 256;
    assert 256 * (d * e) == (256 * d) * e;
    QuotientIs(v, 256 * d, e, rest);
  }

  lemma ProductGrows(d: nat, a: nat, b: nat)
    requires a < b
    ensures d * a + d <= d * b
  {
    assert d * b == d * a + d * (b - a);
    assert d * (b - a) == d + d * (b - a - 1);
  }

  lemma QuotientIs(v: nat, d: nat, e: nat, rest: nat)
    requires d > 0 && v == d * e + rest && rest < d
    ensures v / d == e
  {
    var f := v / d;
    assert v == d * f + v % d;
    if f > e {
      ProductGrows(d, e, f);
    } else if f < e {
      ProductGrows(d, f, e);
    }
  }

  /** The layout of RFC 8439's 96-bit nonce here: four zero bytes, then the counter's eight digits, least first. */
  lemma NonceLayout(counter: U64, i: nat)
    requires i < NONCE_LEN
    ensures NonceBytes(counter)[i] == if i < 4 then 0 else Digit(counter, i - 4)
  {
    if i >= 4 {
      LittleEndianDigit(counter, 8, i - 4);
    }
  }

  lemma NonceInjective(a: U64, b: U64)
    requires NonceBytes(a) == NonceBytes(b)
    ensures a == b
  {
    U64FitsEightBytes();
    LittleEndianRoundTrip(a, 8);
    LittleEndianRoundTrip(b, 8);
    assert NonceBytes(a)[4..] == LittleEndian(a, 8) && NonceBytes(b)[4..] == LittleEndian(b, 8);
  }

  /** The counter value the cipher uses for its `i`-th frame; it wraps at 2^64. */
  function CounterOf(i: nat): U64 { i % U64_SIZE }

  lemma CounterNext(i: nat)
    ensures CounterOf(i + 1) == (CounterOf(i) + 1) % U64_SIZE
  {
  }

  /** Two frames of one direction share a nonce exactly when their numbers agree
      modulo 2^64; in particular the first 2^64 nonces are pairwise distinct. */
  lemma NonceReuse(i: nat, j: nat)
    ensures NonceBytes(CounterOf(i)) == NonceBytes(CounterOf(j)) <==> i % U64_SIZE == j % U64_SIZE
    ensures i < j < U64_SIZE ==> NonceBytes(CounterOf(i)) != NonceBytes(CounterOf(j))
  {
    if NonceBytes(CounterOf(i)) == NonceBytes(CounterOf(j)) {
      NonceInjective(CounterOf(i), CounterOf(j));
    }
  }

  // --- Sealing and opening --------------------------------------------------

  function Seal(aead: Aead, counter: U64, f: Frame): (ct: seq<Byte>)
    ensures |ct| == EncFrameLen(|f.cell|)
  {
    aead.encrypt(NonceBytes(counter), Plaintext(f))
  }

  function Open(aead: Aead, counter: U64, ct: seq<Byte>): Option<Frame> {
    match aead.decrypt(NonceBytes(counter), ct)
    case None => None
    case Some(pt) => if |pt| < KIND_LEN then None else Some(Frame(pt[0], pt[KIND_LEN..]))
  }

  lemma OpenSealed(aead: Aead, counter: U64, f: Frame)
    ensures Open(aead, counter, Seal(aead, counter, f)) == Some(f)
  {
  }

  /** What is encrypted is the kind byte and then the cell, under the nonce of the counter. */
  lemma SealedPlaintext(aead: Aead, counter: U64, f: Frame)
    ensures aead.decrypt(NonceBytes(counter), Seal(aead, counter, f)) == Some([f.kind] + f.cell)
  {
  }

  class FrameCipher {
    const aead: Aead
    var counter: U64

    constructor (aead: Aead)
      ensures this.aead == aead && counter == 0
    {
      this.aead := aead;
      counter := 0;
    }

    method NextNonce() returns (nonce: seq<Byte>)
      modifies this
      ensures nonce == NonceBytes(old(counter))
      ensures counter == (old(counter) + 1) % U64_SIZE
    {
      nonce := NonceBytes(counter);
      counter := (counter + 1) % U64_SIZE;
    }

    method SealFrame(f: Frame) returns (ct: seq<Byte>)
      modifies this
      ensures ct == Seal(aead, old(counter), f)
      ensures counter == (old(counter) + 1) % U64_SIZE
    {
      var nonce := NextNonce();
      ct := aead.encrypt(nonce, [f.kind] + f.cell);
    }

    /** The counter moves on even when the frame is rejected. */
    method OpenFrame(ct: seq<Byte>) returns (r: Option<Frame>)
      modifies this
      ensures r == Open(aead, old(counter), ct)
      ensures counter == (old(counter) + 1) % U64_SIZE
    {
      var nonce := NextNonce();
      match aead.decrypt(nonce, ct) {
        case None => r := None;
        case Some(pt) =>
          if |pt| < KIND_LEN {
            r := None;
          } else {
            r := Some(Frame(pt[0], pt[KIND_LEN..]));
          }
      }
    }
  }

  // --- A whole direction: the bytes sent and what a receiver makes of bytes --

  predicate Uniform(frames: seq<Frame>, cellBytes: nat) {
    forall i :: 0 <= i < |frames| ==> |frames[i].cell| == cellBytes
  }

  /** The wire bytes of `frames`, the first of them being the direction's frame number `first`. */
  function Wire(aead: Aead, frames: seq<Frame>, first: nat): seq<Byte> {
    if frames == [] then []
    else Seal(aead, CounterOf(first), frames[0]) + Wire(aead, frames[1..], first + 1)
  }

  lemma {:induction false} WireSnoc(aead: Aead, frames: seq<Frame>, f: Frame, first: nat)
    ensures Wire(aead, frames + [f], first)
         == Wire(aead, frames, first) + Seal(aead, CounterOf(first + |frames|), f)
  {
    if frames == [] {
      assert Wire(aead, [f][1..], first + 1) == [];
    } else {
      assert (frames + [f])[1..] == frames[1..] + [f];
      WireSnoc(aead, frames[1..], f, first + 1);
    }
  }

  lemma {:induction false} WireLength(aead: Aead, frames: seq<Frame>, first: nat, cellBytes: nat)
    requires Uniform(frames, cellBytes)
    ensures |Wire(aead, frames, first)| == EncFrameLen(cellBytes) * |frames|
  {
    var len := EncFrameLen(cellBytes);
    if frames != [] {
      WireLength(aead, frames[1..], first + 1, cellBytes);
      assert len + len * (|frames| - 1) == len * |frames|;
    }
  }

  /** Number of whole blocks in a byte string. */
  function Blocks(w: seq<Byte>, len: nat): nat
    requires len > 0
    decreases |w|
  {
    if |w| < len then 0 else 1 + Blocks(w[len..], len)
  }

  lemma {:induction false} BlocksBound(w: seq<Byte>, len: nat)
    requires len > 0
    ensures Blocks(w, len) * len <= |w| < Blocks(w, len) * len + len
    decreases |w|
  {
    if |w| >= len {
      var rest := Blocks(w[len..], len);
      BlocksBound(w[len..], len);
      assert (rest + 1) * len == rest * len + len;
    }
  }

  datatype Outcome = Eof | Aborted

  datatype Received = Received(frames: seq<Frame>, outcome: Outcome)

  /** What the receiver accepts from a byte stream, having already accepted `done` frames:
      whole blocks are opened in order, the first failure aborts, a partial last block is end of stream. */
  function Receive(aead: Aead, w: seq<Byte>, len: nat, done: nat): Received
    requires len > 0
    decreases |w|
  {
    if |w| < len then Received([], Eof)
    else
      match Open(aead, CounterOf(done), w[..len])
      case None => Received([], Aborted)
      case Some(f) =>
        var rest := Receive(aead, w[len..], len, done + 1);
        Received([f] + rest.frames, rest.outcome)
  }

  /** How many leading blocks of `w` are, byte for byte, the next sealed frames `frames[done..]`. */
  function IntactBlocks(aead: Aead, w: seq<Byte>, len: nat, frames: seq<Frame>, done: nat): (k: nat)
    requires len > 0
    ensures k <= Blocks(w, len) && (done <= |frames| ==> done + k <= |frames|)
    decreases |w|
  {
    if |w| < len || done >= |frames| || w[..len] != Seal(aead, CounterOf(done), frames[done]) then 0
    else 1 + IntactBlocks(aead, w[len..], len, frames, done + 1)
  }

  /** `block` was produced by the sender under the nonce of frame number `at`. */
  ghost predicate SealedUnder(aead: Aead, block: seq<Byte>, frames: seq<Frame>, at: nat) {
    exists j ::
      && 0 <= j < |frames|
      && NonceBytes(CounterOf(j)) == NonceBytes(CounterOf(at))
      && block == Seal(aead, CounterOf(j), frames[j])
  }

  /** Ciphertext integrity for the bytes that arrived: a block that opens under the
      receiver's nonce was sealed by the sender under that very nonce. */
  ghost predicate NoForgery(aead: Aead, w: seq<Byte>, len: nat, frames: seq<Frame>, done: nat)
    requires len > 0
    decreases |w|
  {
    |w| >= len ==>
      && (Open(aead, CounterOf(done), w[..len]).Some? ==> SealedUnder(aead, w[..len], frames, done))
      && NoForgery(aead, w[len..], len, frames, done + 1)
  }

  lemma NonceIsOwn(i: nat, j: nat)
    requires i < U64_SIZE && j < U64_SIZE && NonceBytes(CounterOf(i)) == NonceBytes(CounterOf(j))
    ensures i == j
  {
    NonceInjective(CounterOf(i), CounterOf(j));
  }

  lemma SealedUnderIsOwn(aead: Aead, block: seq<Byte>, frames: seq<Frame>, at: nat)
    requires |frames| <= U64_SIZE && at < U64_SIZE
    requires SealedUnder(aead, block, frames, at)
    ensures at < |frames| && block == Seal(aead, CounterOf(at), frames[at])
  {
    var j :|
      && 0 <= j < |frames|
      && NonceBytes(CounterOf(j)) == NonceBytes(CounterOf(at))
      && block == Seal(aead, CounterOf(j), frames[j]);
    NonceIsOwn(j, at);
  }

  /** Without forgeries the next block opens exactly when it is the next frame as sealed. */
  lemma OpensIffIntact(aead: Aead, block: seq<Byte>, frames: seq<Frame>, at: nat)
    requires |frames| <= U64_SIZE && at < U64_SIZE
    requires Open(aead, CounterOf(at), block).Some? ==> SealedUnder(aead, block, frames, at)
    ensures Open(aead, CounterOf(at), block)
         == if at < |frames| && block == Seal(aead, CounterOf(at), frames[at]) then Some(frames[at]) else None
  {
    if Open(aead, CounterOf(at), block).Some? {
      SealedUnderIsOwn(aead, block, frames, at);
    }
    if at < |frames| {
      OpenSealed(aead, CounterOf(at), frames[at]);
    }
  }

  lemma SliceCons(frames: seq<Frame>, from: nat, to: nat)
    requires from < to <= |frames|
    ensures [frames[from]] + frames[from + 1..to] == frames[from..to]
  {
  }

  /** Authenticated prefix: whatever was inserted, removed, reordered or changed on the
      wire, the receiver accepts exactly the untouched leading frames and nothing else; it
      reports an abort exactly when a whole further block was read after them. */
  lemma {:induction false} AuthenticatedPrefix(aead: Aead, w: seq<Byte>, len: nat, frames: seq<Frame>, done: nat)
    requires len > 0 && done <= |frames| <= U64_SIZE
    requires Blocks(w, len) + done <= U64_SIZE
    requires NoForgery(aead, w, len, frames, done)
    ensures
      var k := IntactBlocks(aead, w, len, frames, done);
      && Receive(aead, w, len, done).frames == frames[done..done + k]
      && (Receive(aead, w, len, done).outcome == Aborted <==> k < Blocks(w, len))
    decreases |w|
  {
    if |w| >= len {
      OpensIffIntact(aead, w[..len], frames, done);
      if Open(aead, CounterOf(done), w[..len]).Some? {
        AuthenticatedPrefix(aead, w[len..], len, frames, done + 1);
        var k := IntactBlocks(aead, w[len..], len, frames, done + 1);
        SliceCons(frames, done, done + 1 + k);
      }
    }
  }

  /** On an untampered wire nothing is lost: a receiver that has read any prefix of the
      sent bytes holds exactly the frames whose blocks are whole, and never aborts. */
  lemma {:induction false} HonestReceive(aead: Aead, frames: seq<Frame>, cellBytes: nat, w: seq<Byte>, first: nat)
    requires Uniform(frames, cellBytes)
    requires w <= Wire(aead, frames, first)
    ensures Blocks(w, EncFrameLen(cellBytes)) <= |frames|
    ensures Receive(aead, w, EncFrameLen(cellBytes), first)
         == Received(frames[..Blocks(w, EncFrameLen(cellBytes))], Eof)
    decreases |w|
  {
    var len := EncFrameLen(cellBytes);
    if |w| >= len {
      var tail := Wire(aead, frames[1..], first + 1);
      var head := Seal(aead, CounterOf(first), frames[0]);
      assert (head + tail)[..len] == head && (head + tail)[len..] == tail;
      assert w[..len] == head && w[len..] <= tail;
      OpenSealed(aead, CounterOf(first), frames[0]);
      HonestReceive(aead, frames[1..], cellBytes, w[len..], first + 1);
      var k := Blocks(w[len..], len);
      assert [frames[0]] + frames[1..][..k] == frames[..1 + k];
    }
  }
}
