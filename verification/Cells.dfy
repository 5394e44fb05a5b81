/** The uniform cell format that carries every real byte on the wire. */
module Cells {
  import opened Base

  const CELL_BYTES: nat := 514
  const CELL_HEADER: nat := 4
  const CELL_PAYLOAD: nat := 510
  const STREAM_ID_SINGLE: U16 := 0

  function BigEndian16(v: U16): seq<Byte> { [v / 256, v % 256] }

  function FromBigEndian16(hi: Byte, lo: Byte): U16 { hi * 256 + lo }

  /** Padding drawn from `pad`, one byte per position. */
  function Padding(n: nat, pad: nat -> Byte): (p: seq<Byte>)
    ensures |p| == n
  {
    seq(n, i requires 0 <= i => pad(i))
  }

  function EncodeRealCell(streamId: U16, data: seq<Byte>, pad: nat -> Byte): (cell: seq<Byte>)
    ensures |cell| == CELL_BYTES
  {
    var n := Min(|data|, CELL_PAYLOAD);
    BigEndian16(streamId) + BigEndian16(n) + data[..n] + Padding(CELL_PAYLOAD - n, pad)
  }

  function EncodeCloseCell(streamId: U16, pad: nat -> Byte): (cell: seq<Byte>)
    ensures |cell| == CELL_BYTES
  {
    BigEndian16(streamId) + [0, 0] + Padding(CELL_PAYLOAD, pad)
  }

  /** The layout of a cell: stream id and length, high byte first, the data, and padding to the end. */
  lemma EncodedLayout(streamId: U16, data: seq<Byte>, pad: nat -> Byte)
    requires |data| <= CELL_PAYLOAD
    ensures
      var cell := EncodeRealCell(streamId, data, pad);
      && (cell[0] as int) * 256 + cell[1] as int == streamId && (cell[2] as int) * 256 + cell[3] as int == |data|
      && cell[CELL_HEADER..CELL_HEADER + |data|] == data
      && forall i :: CELL_HEADER + |data| <= i < CELL_BYTES ==> cell[i] == pad(i - CELL_HEADER - |data|)
  {
    assert data[..|data|] == data;
  }

  datatype Decoded = Decoded(streamId: U16, data: seq<Byte>)

  /** Total on every byte string: short cells read as an empty cell of stream 0,
      an over-long length field is cut at the end of the cell. */
  function DecodeRealCell(cell: seq<Byte>): (d: Decoded)
    ensures |d.data| <= Max(0, |cell| - CELL_HEADER)
  {
    if |cell| < CELL_HEADER then Decoded(0, [])
    else
      var n := FromBigEndian16(cell[2], cell[3]);
      var end := Min(CELL_HEADER + n, |cell|);
      Decoded(FromBigEndian16(cell[0], cell[1]), cell[CELL_HEADER..end])
  }

  /** Decoding an encoded cell gives back the stream and the (truncated) data, whatever the padding. */
  lemma CellRoundTrip(streamId: U16, data: seq<Byte>, pad: nat -> Byte)
    ensures DecodeRealCell(EncodeRealCell(streamId, data, pad))
         == Decoded(streamId, data[..Min(|data|, CELL_PAYLOAD)])
  {
  }

  lemma CloseCellRoundTrip(streamId: U16, pad: nat -> Byte)
    ensures DecodeRealCell(EncodeCloseCell(streamId, pad)) == Decoded(streamId, [])
  {
  }

  /** `slice.chunks(CELL_PAYLOAD)`. */
  function Chunks(data: seq<Byte>): seq<seq<Byte>> {
    if data == [] then []
    else if |data| <= CELL_PAYLOAD then [data]
    else [data[..CELL_PAYLOAD]] + Chunks(data[CELL_PAYLOAD..])
  }

  /** The cells the reader task sends for one read of the source. */
  function CellsOfRead(streamId: U16, read: seq<Byte>, pad: nat -> Byte): seq<seq<Byte>> {
    var chunks := Chunks(read);
    seq(|chunks|, i requires 0 <= i < |chunks| => EncodeRealCell(streamId, chunks[i], pad))
  }

  /** The payload bytes of a list of real cells, in order. */
  function Payload(cells: seq<seq<Byte>>): seq<Byte> {
    if cells == [] then []
    else DecodeRealCell(cells[0]).data + Payload(cells[1..])
  }

  lemma {:induction false} PayloadAppend(a: seq<seq<Byte>>, b: seq<seq<Byte>>)
    ensures Payload(a + b) == Payload(a) + Payload(b)
  {
    if a == [] {
      assert a + b == b;
    } else {
      assert (a + b)[1..] == a[1..] + b;
      PayloadAppend(a[1..], b);
    }
  }

  lemma PayloadPrefix(a: seq<seq<Byte>>, b: seq<seq<Byte>>)
    requires a <= b
    ensures Payload(a) <= Payload(b)
  {
  }

  /** Splitting a read into cells and decoding them again loses nothing, and no
      data cell is ever empty, so none can be taken for a close sentinel. */
  lemma {:induction false} ReadRoundTrip(streamId: U16, read: seq<Byte>, pad: nat -> Byte)
    ensures Payload(CellsOfRead(streamId, read, pad)) == read
    ensures forall c :: c in CellsOfRead(streamId, read, pad) ==>
      |c| == CELL_BYTES && DecodeRealCell(c).streamId == streamId && DecodeRealCell(c).data != []
    decreases |read|
  {
    var cells := CellsOfRead(streamId, read, pad);
    if read != [] {
      var head := if |read| <= CELL_PAYLOAD then read else read[..CELL_PAYLOAD];
      var tail := read[|head|..];
      assert Chunks(read) == [head] + Chunks(tail);
      assert cells == [EncodeRealCell(streamId, head, pad)] + CellsOfRead(streamId, tail, pad);
      CellRoundTrip(streamId, head, pad);
      assert head[..Min(|head|, CELL_PAYLOAD)] == head;
      ReadRoundTrip(streamId, tail, pad);
      assert head + tail == read;
    }
  }

  /** All cells the reader sends over a run of reads (padding may differ each time). */
  function CellsOfReads(streamId: U16, inputs: seq<seq<Byte>>, pad: nat -> (nat -> Byte)): seq<seq<Byte>> {
    if inputs == [] then []
    else
      var last := |inputs| - 1;
      CellsOfReads(streamId, inputs[..last], pad) + CellsOfRead(streamId, inputs[last], pad(last))
  }

  predicate AllWhole(cells: seq<seq<Byte>>) { forall i :: 0 <= i < |cells| ==> |cells[i]| == CELL_BYTES }

  lemma {:induction false} AllCellsWhole(streamId: U16, inputs: seq<seq<Byte>>, pad: nat -> (nat -> Byte))
    ensures AllWhole(CellsOfReads(streamId, inputs, pad))
  {
    if inputs != [] {
      var n := |inputs| - 1;
      AllCellsWhole(streamId, inputs[..n], pad);
      assert AllWhole(CellsOfRead(streamId, inputs[n], pad(n)));
    }
  }

  lemma LastReadRoundTrip(streamId: U16, init: seq<seq<Byte>>, last: seq<Byte>, head: seq<seq<Byte>>, pad: nat -> Byte)
    requires Payload(head) == Concat(init)
    ensures Payload(head + CellsOfRead(streamId, last, pad)) == Concat(init + [last])
  {
    ReadRoundTrip(streamId, last, pad);
    PayloadAppend(head, CellsOfRead(streamId, last, pad));
    ConcatSnoc(init, last);
  }

  /** The cells sent carry exactly the source bytes, however the source was split into reads. */
  lemma {:induction false} ReadsRoundTrip(streamId: U16, inputs: seq<seq<Byte>>, pad: nat -> (nat -> Byte))
    ensures Payload(CellsOfReads(streamId, inputs, pad)) == Concat(inputs)
    ensures AllWhole(CellsOfReads(streamId, inputs, pad))
  {
    AllCellsWhole(streamId, inputs, pad);
    if inputs != [] {
      var n := |inputs| - 1;
      ReadsRoundTrip(streamId, inputs[..n], pad);
      LastReadRoundTrip(streamId, inputs[..n], inputs[n], CellsOfReads(streamId, inputs[..n], pad), pad(n));
      assert inputs == inputs[..n] + [inputs[n]];
    }
  }
}
