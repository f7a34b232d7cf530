/** The snapshot wire format: a 4-byte frame header, a 16-byte snapshot header and 24-byte
    level records, all little-endian. */
module Codec {
  import opened Core

  type Byte = x: nat | x < 256

  const U16_SPAN: nat := 0x1_0000
  const U32_SPAN: nat := 0x1_0000_0000
  const U64_SPAN: nat := 0x1_0000_0000_0000_0000
  const I64_SPAN: int := 0x8000_0000_0000_0000

  type U16 = x: nat | x < U16_SPAN
  type U32 = x: nat | x < U32_SPAN
  type U64 = x: nat | x < U64_SPAN
  type I64 = x: int | -I64_SPAN <= x < I64_SPAN

  const HEADER_SIZE: nat := 4
  const SNAPSHOT_HEADER_SIZE: nat := 16
  const RECORD_SIZE: nat := 24
  const SNAPSHOT_TYPE: nat := 7

  datatype LevelRecord = LevelRecord(price: I64, quantity: I64, count: U32, reserved: U32)

  datatype Snapshot = Snapshot(sequence: U64, symbol: U32, bids: seq<LevelRecord>, asks: seq<LevelRecord>)

  // ---- Integers -----------------------------------------------------------

  function Span(n: nat): (p: nat)
    ensures p >= 1
  {
    if n == 0 then 1 else 256 * Span(n - 1)
  }

  /** `n` little-endian bytes of `v`. */
  function Bytes(v: nat, n: nat): (bs: seq<Byte>)
    ensures |bs| == n
  {
    if n == 0 then [] else [v % 256] + Bytes(v / 256, n - 1)
  }

  function Value(bs: seq<Byte>): nat {
    if bs == [] then 0 else bs[0] + 256 * Value(bs[1..])
  }

  lemma {:induction false} ValueOfBytes(v: nat, n: nat)
    requires v < Span(n)
    ensures Value(Bytes(v, n)) == v
  {
    if n > 0 {
      ValueOfBytes(v / 256, n - 1);
      assert Bytes(v, n)[1..] == Bytes(v / 256, n - 1);
    }
  }

  lemma {:induction false} BytesOfValue(bs: seq<Byte>)
    ensures Value(bs) < Span(|bs|)
    ensures Bytes(Value(bs), |bs|) == bs
  {
    if bs != [] {
      BytesOfValue(bs[1..]);
    }
  }

  lemma Spans()
    ensures Span(1) == 256 && Span(2) == U16_SPAN && Span(4) == U32_SPAN && Span(8) == U64_SPAN
  {
    assert Span(2) == 256 * Span(1);
    assert Span(4) == 256 * Span(3) && Span(3) == 256 * Span(2);
    assert Span(6) == 256 * Span(5) && Span(5) == 256 * Span(4);
    assert Span(8) == 256 * Span(7) && Span(7) == 256 * Span(6);
  }

  function Bytes2(v: U16): (bs: seq<Byte>)
    ensures |bs| == 2
  {
    var n := 2;
    Bytes(v, n)
  }

  function Bytes4(v: U32): (bs: seq<Byte>)
    ensures |bs| == 4
  {
    var n := 4;
    Bytes(v, n)
  }

  function Bytes8(v: U64): (bs: seq<Byte>)
    ensures |bs| == 8
  {
    var n := 8;
    Bytes(v, n)
  }

  /** Two's complement. */
  function ToWord(x: I64): U64 {
    if x >= 0 then x else x + U64_SPAN
  }

  function FromWord(w: U64): I64 {
    if w < I64_SPAN then w else w - U64_SPAN
  }

  // ---- Encoding -----------------------------------------------------------

  function RecordBytes(r: LevelRecord): (bs: seq<Byte>)
    ensures |bs| == RECORD_SIZE
  {
    Bytes8(ToWord(r.price)) + Bytes8(ToWord(r.quantity)) + Bytes4(r.count) + Bytes4(r.reserved)
  }

  function RecordsBytes(rs: seq<LevelRecord>): (bs: seq<Byte>)
    ensures |bs| == RECORD_SIZE * |rs|
  {
    if rs == [] then [] else RecordBytes(rs[0]) + RecordsBytes(rs[1..])
  }

  function PayloadSize(s: Snapshot): nat {
    SNAPSHOT_HEADER_SIZE + (|s.bids| + |s.asks|) * RECORD_SIZE
  }

  /** The payload fits the frame header's 16-bit length. */
  predicate Fits(s: Snapshot) {
    PayloadSize(s) < U16_SPAN
  }

  function FrameBytes(length: U16, kind: Byte, reserved: Byte): (bs: seq<Byte>)
    ensures |bs| == HEADER_SIZE
  {
    Bytes2(length) + [kind, reserved]
  }

  function SnapshotHeaderBytes(s: Snapshot): (bs: seq<Byte>)
    requires Fits(s)
    ensures |bs| == SNAPSHOT_HEADER_SIZE
  {
    Bytes8(s.sequence) + Bytes4(s.symbol) + Bytes2(|s.bids|) + Bytes2(|s.asks|)
  }

  /** The bytes of a snapshot message. */
  function SnapshotBytes(s: Snapshot): (bs: seq<Byte>)
    requires Fits(s)
    ensures |bs| == HEADER_SIZE + PayloadSize(s)
  {
    FrameBytes(PayloadSize(s), SNAPSHOT_TYPE, 0) + SnapshotHeaderBytes(s) + RecordsBytes(s.bids) + RecordsBytes(s.asks)
  }

  /** `memcpy` into a buffer at a cursor. */
  method Copy(out: array<Byte>, cursor: nat, bs: seq<Byte>) returns (next: nat)
    requires cursor + |bs| <= out.Length
    modifies out
    ensures next == cursor + |bs|
    ensures out[..] == old(out[..cursor]) + bs + old(out[cursor + |bs|..])
  {
    for i := 0 to |bs|
      invariant out[..] == old(out[..cursor]) + bs[..i] + old(out[cursor + i..])
    {
      out[cursor + i] := bs[i];
    }
    next := cursor + |bs|;
  }

  lemma Spliced(head: seq<Byte>, before: seq<Byte>, from: nat)
    requires |head| <= from <= |before|
    ensures (head + before[|head|..])[..|head|] == head
    ensures (head + before[|head|..])[from..] == before[from..]
  {
  }

  lemma SnapshotParts(s: Snapshot)
    requires Fits(s)
    ensures FrameBytes(PayloadSize(s), SNAPSHOT_TYPE, 0) + SnapshotHeaderBytes(s)
              + (RecordsBytes(s.bids) + RecordsBytes(s.asks)) == SnapshotBytes(s)
  {
  }

  /** `encode_snapshot`: writes the whole message, or nothing and returns zero. */
  method EncodeSnapshot(out: array<Byte>, s: Snapshot) returns (written: nat)
    modifies out
    ensures written == if out.Length < HEADER_SIZE + PayloadSize(s) || !Fits(s) then 0 else HEADER_SIZE + PayloadSize(s)
    ensures written == 0 ==> out[..] == old(out[..])
    ensures written > 0 ==> Fits(s) && written <= out.Length && out[..] == SnapshotBytes(s) + old(out[written..])
  {
    var payload := SNAPSHOT_HEADER_SIZE + (|s.bids| + |s.asks|) * RECORD_SIZE;
    var total := HEADER_SIZE + payload;
    if out.Length < total || |s.bids| > 0xFFFF || |s.asks| > 0xFFFF || payload > 0xFFFF {
      return 0;
    }
    ghost var before := out[..];
    var headers := FrameBytes(payload, SNAPSHOT_TYPE, 0) + SnapshotHeaderBytes(s);
    var cursor := CopyBoth(out, 0, FrameBytes(payload, SNAPSHOT_TYPE, 0), SnapshotHeaderBytes(s));
    assert out[..] == headers + before[20..];
    Spliced(headers, before, total);
    cursor := CopyBoth(out, cursor, RecordsBytes(s.bids), RecordsBytes(s.asks));
    assert out[..] == headers + (RecordsBytes(s.bids) + RecordsBytes(s.asks)) + before[total..];
    SnapshotParts(s);
    return total;
  }

  method CopyBoth(out: array<Byte>, cursor: nat, a: seq<Byte>, b: seq<Byte>) returns (next: nat)
    requires cursor + |a| + |b| <= out.Length
    modifies out
    ensures next == cursor + |a| + |b|
    ensures out[..] == old(out[..cursor]) + (a + b) + old(out[cursor + |a| + |b|..])
  {
    next := Copy(out, cursor, a);
    next := Copy(out, next, b);
  }

  // ---- Decoding -----------------------------------------------------------

  datatype DecodeStatus = DecodeOk | Incomplete | UnexpectedType | Malformed

  datatype Decoded = Decoded(status: DecodeStatus, snapshot: Option<Snapshot>, consumed: nat)

  function Failed(status: DecodeStatus): Decoded {
    Decoded(status, None, 0)
  }

  lemma ValueBound(bs: seq<Byte>)
    ensures Value(bs) < Span(|bs|)
  {
    BytesOfValue(bs);
  }

  function Word2(bs: seq<Byte>): U16
    requires |bs| == 2
  {
    ValueBound(bs);
    Spans();
    Value(bs)
  }

  function Word4(bs: seq<Byte>): U32
    requires |bs| == 4
  {
    ValueBound(bs);
    Spans();
    Value(bs)
  }

  function Word8(bs: seq<Byte>): U64
    requires |bs| == 8
  {
    ValueBound(bs);
    Spans();
    Value(bs)
  }

  function ReadRecord(bs: seq<Byte>): LevelRecord
    requires |bs| == RECORD_SIZE
  {
    LevelRecord(FromWord(Word8(bs[..8])), FromWord(Word8(bs[8..16])), Word4(bs[16..20]), Word4(bs[20..]))
  }

  function ReadRecords(bs: seq<Byte>, n: nat): (rs: seq<LevelRecord>)
    requires |bs| == RECORD_SIZE * n
    ensures |rs| == n
  {
    if n == 0 then [] else [ReadRecord(bs[..RECORD_SIZE])] + ReadRecords(bs[RECORD_SIZE..], n - 1)
  }

  /** `decode_snapshot`. */
  function DecodeSnapshot(input: seq<Byte>): Decoded {
    if |input| < HEADER_SIZE then Failed(Incomplete)
    else
      var length := Word2(input[..2]);
      if input[2] != SNAPSHOT_TYPE then Failed(UnexpectedType)
      else if |input| < HEADER_SIZE + length then Failed(Incomplete)
      else if length < SNAPSHOT_HEADER_SIZE then Failed(Malformed)
      else
        var bidCount, askCount := Word2(input[16..18]), Word2(input[18..20]);
        if SNAPSHOT_HEADER_SIZE + (bidCount + askCount) * RECORD_SIZE != length then Failed(Malformed)
        else
          var middle := 20 + bidCount * RECORD_SIZE;
          var end := HEADER_SIZE + length;
          Decoded(DecodeOk,
                  Some(Snapshot(Word8(input[4..12]), Word4(input[12..16]),
                                ReadRecords(input[20..middle], bidCount), ReadRecords(input[middle..end], askCount))),
                  end)
  }

  // ---- Decode inverts encode ----------------------------------------------

  lemma WordsRoundTrip2(v: U16)
    ensures Word2(Bytes2(v)) == v
  {
    var n := 2;
    Spans();
    ValueOfBytes(v, n);
  }

  lemma WordsRoundTrip4(v: U32)
    ensures Word4(Bytes4(v)) == v
  {
    var n := 4;
    Spans();
    ValueOfBytes(v, n);
  }

  lemma WordsRoundTrip8(v: U64)
    ensures Word8(Bytes8(v)) == v
  {
    var n := 8;
    Spans();
    ValueOfBytes(v, n);
  }

  lemma RecordRoundTrip(r: LevelRecord)
    ensures ReadRecord(RecordBytes(r)) == r
  {
    RecordLayout(r);
  }

  /** The record layout: price, quantity, count and reserved bytes at offsets 0, 8, 16 and 20. */
  lemma RecordLayout(r: LevelRecord)
    ensures var bs := RecordBytes(r);
            && Value(bs[..8]) == (if r.price >= 0 then r.price else r.price + U64_SPAN)
            && Value(bs[8..16]) == (if r.quantity >= 0 then r.quantity else r.quantity + U64_SPAN)
            && Value(bs[16..20]) == r.count
            && Value(bs[20..]) == r.reserved
  {
    WordsRoundTrip8(ToWord(r.price));
    WordsRoundTrip8(ToWord(r.quantity));
    WordsRoundTrip4(r.count);
    WordsRoundTrip4(r.reserved);
    var bs := RecordBytes(r);
    assert bs[..8] == Bytes8(ToWord(r.price));
    assert bs[8..16] == Bytes8(ToWord(r.quantity));
    assert bs[16..20] == Bytes4(r.count);
    assert bs[20..] == Bytes4(r.reserved);
  }

  lemma {:induction false} RecordsRoundTrip(rs: seq<LevelRecord>)
    ensures ReadRecords(RecordsBytes(rs), |rs|) == rs
  {
    if rs != [] {
      RecordRoundTrip(rs[0]);
      RecordsRoundTrip(rs[1..]);
      var bs := RecordsBytes(rs);
      assert bs[..RECORD_SIZE] == RecordBytes(rs[0]);
      assert bs[RECORD_SIZE..] == RecordsBytes(rs[1..]);
    }
  }

  /** The fields of an encoded snapshot, at their offsets, whatever follows the message. */
  lemma Offsets(s: Snapshot, input: seq<Byte>)
    requires Fits(s) && SnapshotBytes(s) <= input
    ensures input[..2] == Bytes2(PayloadSize(s)) && input[2] == SNAPSHOT_TYPE
    ensures input[4..12] == Bytes8(s.sequence) && input[12..16] == Bytes4(s.symbol)
    ensures input[16..18] == Bytes2(|s.bids|) && input[18..20] == Bytes2(|s.asks|)
    ensures var middle := 20 + |s.bids| * RECORD_SIZE;
            input[20..middle] == RecordsBytes(s.bids)
              && input[middle..HEADER_SIZE + PayloadSize(s)] == RecordsBytes(s.asks)
  {
    var bs := SnapshotBytes(s);
    var header, frame := SnapshotHeaderBytes(s), FrameBytes(PayloadSize(s), SNAPSHOT_TYPE, 0);
    assert input[..4] == bs[..4] == frame && input[4..20] == bs[4..20] == header;
    assert input[..2] == frame[..2] && input[2] == frame[2];
    assert input[4..12] == header[..8] && input[12..16] == header[8..12];
    assert input[16..18] == header[12..14] && input[18..20] == header[14..16];
    var middle := 20 + |s.bids| * RECORD_SIZE;
    assert input[20..middle] == bs[20..middle] == RecordsBytes(s.bids);
    assert input[middle..|bs|] == bs[middle..] == RecordsBytes(s.asks);
  }

  /** Decoding inverts encoding for every snapshot that fits, whatever bytes follow. */
  lemma SnapshotRoundTrip(s: Snapshot, trailing: seq<Byte>)
    requires Fits(s)
    ensures DecodeSnapshot(SnapshotBytes(s) + trailing) == Decoded(DecodeOk, Some(s), |SnapshotBytes(s)|)
  {
    var input := SnapshotBytes(s) + trailing;
    Offsets(s, input);
    WordsRoundTrip2(PayloadSize(s));
    WordsRoundTrip2(|s.bids|);
    WordsRoundTrip2(|s.asks|);
    WordsRoundTrip8(s.sequence);
    WordsRoundTrip4(s.symbol);
    RecordsRoundTrip(s.bids);
    RecordsRoundTrip(s.asks);
  }

  /** Every proper prefix of a message is reported as incomplete. */
  lemma PrefixIncomplete(s: Snapshot, k: nat)
    requires Fits(s) && k < |SnapshotBytes(s)|
    ensures DecodeSnapshot(SnapshotBytes(s)[..k]) == Failed(Incomplete)
  {
    if k >= HEADER_SIZE {
      var bs := SnapshotBytes(s);
      Offsets(s, bs);
      WordsRoundTrip2(PayloadSize(s));
      assert bs[..k][..2] == bs[..2] && bs[..k][2] == bs[2];
    }
  }

  // ---- Encode inverts decode, up to the reserved header byte --------------

  lemma BytesOfWords2(bs: seq<Byte>)
    requires |bs| == 2
    ensures Bytes2(Word2(bs)) == bs
  {
    BytesOfValue(bs);
  }

  lemma BytesOfWords4(bs: seq<Byte>)
    requires |bs| == 4
    ensures Bytes4(Word4(bs)) == bs
  {
    BytesOfValue(bs);
  }

  lemma BytesOfWords8(bs: seq<Byte>)
    requires |bs| == 8
    ensures Bytes8(Word8(bs)) == bs
  {
    BytesOfValue(bs);
  }

  lemma ReadRecordInverse(bs: seq<Byte>)
    requires |bs| == RECORD_SIZE
    ensures RecordBytes(ReadRecord(bs)) == bs
  {
    BytesOfWords8(bs[..8]);
    BytesOfWords8(bs[8..16]);
    BytesOfWords4(bs[16..20]);
    BytesOfWords4(bs[20..]);
    assert bs == bs[..8] + bs[8..16] + bs[16..20] + bs[20..];
  }

  lemma {:induction false} ReadRecordsInverse(bs: seq<Byte>, n: nat)
    requires |bs| == RECORD_SIZE * n
    ensures RecordsBytes(ReadRecords(bs, n)) == bs
  {
    if n > 0 {
      ReadRecordInverse(bs[..RECORD_SIZE]);
      ReadRecordsInverse(bs[RECORD_SIZE..], n - 1);
      assert bs == bs[..RECORD_SIZE] + bs[RECORD_SIZE..];
    }
  }

  lemma HeaderInverse(bs: seq<Byte>, s: Snapshot)
    requires |bs| == SNAPSHOT_HEADER_SIZE && Fits(s)
    requires s.sequence == Word8(bs[..8]) && s.symbol == Word4(bs[8..12])
    requires |s.bids| == Word2(bs[12..14]) && |s.asks| == Word2(bs[14..])
    ensures SnapshotHeaderBytes(s) == bs
  {
    BytesOfWords8(bs[..8]);
    BytesOfWords4(bs[8..12]);
    BytesOfWords2(bs[12..14]);
    BytesOfWords2(bs[14..]);
    assert bs == bs[..8] + bs[8..12] + bs[12..14] + bs[14..];
  }

  lemma FrameInverse(bs: seq<Byte>, length: U16)
    requires |bs| == HEADER_SIZE && bs[2] == SNAPSHOT_TYPE && length == Word2(bs[..2])
    ensures FrameBytes(length, SNAPSHOT_TYPE, 0) == bs[3 := 0]
  {
    BytesOfWords2(bs[..2]);
    assert bs[3 := 0] == bs[..2] + [bs[2], 0];
  }

  lemma HeaderSlices(input: seq<Byte>)
    requires |input| >= 20
    ensures input[..4][..2] == input[..2]
    ensures input[4..20][..8] == input[4..12] && input[4..20][8..12] == input[12..16]
    ensures input[4..20][12..14] == input[16..18] && input[4..20][14..] == input[18..20]
  {
  }

  lemma Reassemble(input: seq<Byte>, middle: nat, end: nat)
    requires 20 <= middle <= end <= |input|
    ensures input[..end][3 := 0] == input[..4][3 := 0] + input[4..20] + input[20..middle] + input[middle..end]
  {
  }

  /** `s` is what the fields of `input` say, level records included. */
  ghost predicate ReadFrom(input: seq<Byte>, s: Snapshot) {
    && Fits(s) && HEADER_SIZE + PayloadSize(s) <= |input|
    && input[2] == SNAPSHOT_TYPE && PayloadSize(s) == Word2(input[..2])
    && s.sequence == Word8(input[4..12]) && s.symbol == Word4(input[12..16])
    && |s.bids| == Word2(input[16..18]) && |s.asks| == Word2(input[18..20])
    && var middle := 20 + |s.bids| * RECORD_SIZE;
    && s.bids == ReadRecords(input[20..middle], |s.bids|)
    && s.asks == ReadRecords(input[middle..HEADER_SIZE + PayloadSize(s)], |s.asks|)
  }

  lemma DecodedFrom(input: seq<Byte>) returns (s: Snapshot)
    requires DecodeSnapshot(input).status == DecodeOk
    ensures DecodeSnapshot(input) == Decoded(DecodeOk, Some(s), HEADER_SIZE + PayloadSize(s))
    ensures ReadFrom(input, s)
  {
    s := DecodeSnapshot(input).snapshot.value;
  }

  lemma Reencoded(input: seq<Byte>, s: Snapshot)
    requires ReadFrom(input, s)
    ensures SnapshotBytes(s) == input[..HEADER_SIZE + PayloadSize(s)][3 := 0]
  {
    var middle, end := 20 + |s.bids| * RECORD_SIZE, HEADER_SIZE + PayloadSize(s);
    HeaderSlices(input);
    HeaderInverse(input[4..20], s);
    FrameInverse(input[..4], PayloadSize(s));
    ReadRecordsInverse(input[20..middle], |s.bids|);
    ReadRecordsInverse(input[middle..end], |s.asks|);
    Reassemble(input, middle, end);
  }

  /** Whatever decodes re-encodes to the same bytes, except that the header's reserved byte
      becomes zero. */
  lemma DecodeInverse(input: seq<Byte>)
    requires DecodeSnapshot(input).status == DecodeOk
    ensures var d := DecodeSnapshot(input);
            && d.snapshot.Some? && 3 < d.consumed <= |input| && Fits(d.snapshot.value)
            && SnapshotBytes(d.snapshot.value) == input[..d.consumed][3 := 0]
  {
    var s := DecodedFrom(input);
    Reencoded(input, s);
  }

  // ---- The bytes on the wire ----------------------------------------------

  /** Two bytes, low byte first. */
  function Pair(low: nat, high: nat): nat {
    low + 0x100 * high
  }

  /** Wider numbers too have their low byte first. */
  lemma LowByteFirst(bs: seq<Byte>)
    requires |bs| == 4
    ensures Value(bs) == Pair(bs[0], bs[1]) + 0x1_0000 * Pair(bs[2], bs[3])
  {
    assert Value(bs) == bs[0] + 256 * Value(bs[1..]);
    assert Value(bs[1..]) == bs[1] + 256 * Value(bs[2..]) by { assert bs[1..][1..] == bs[2..]; }
    assert Value(bs[2..]) == bs[2] + 256 * Value(bs[3..]) by { assert bs[2..][1..] == bs[3..]; }
    assert Value(bs[3..]) == bs[3] + 256 * Value(bs[4..]) by { assert bs[3..][1..] == bs[4..]; }
    assert bs[4..] == [];
  }

  lemma PairValue(bs: seq<Byte>)
    requires |bs| == 2
    ensures Word2(bs) == Pair(bs[0], bs[1])
  {
    assert Value(bs) == bs[0] + 256 * Value(bs[1..]);
    assert Value(bs[1..]) == bs[1] + 256 * Value(bs[2..]) by { assert bs[1..][1..] == bs[2..]; }
    assert bs[2..] == [];
  }

  lemma PairAt(input: seq<Byte>, at: nat, v: U16)
    requires at + 2 <= |input|
    ensures Word2(input[at..at + 2]) == Pair(input[at], input[at + 1])
    ensures input[at..at + 2] == Bytes2(v) ==> Pair(input[at], input[at + 1]) == v
  {
    PairValue(input[at..at + 2]);
    WordsRoundTrip2(v);
  }

  lemma QuadAt(input: seq<Byte>, at: nat, v: U32)
    requires at + 4 <= |input| && input[at..at + 4] == Bytes4(v)
    ensures Pair(input[at], input[at + 1]) + 0x1_0000 * Pair(input[at + 2], input[at + 3]) == v
  {
    LowByteFirst(input[at..at + 4]);
    WordsRoundTrip4(v);
  }

  /** The header of a snapshot message: payload length, type 7, a zero byte, sequence, symbol and
      the two level counts. */
  lemma HeaderLayout(s: Snapshot)
    requires Fits(s)
    ensures var bs := SnapshotBytes(s);
            && |bs| == 20 + 24 * (|s.bids| + |s.asks|)
            && Pair(bs[0], bs[1]) == |bs| - 4 && bs[2] == 7 && bs[3] == 0
            && Value(bs[4..12]) == s.sequence
            && Pair(bs[12], bs[13]) + 0x1_0000 * Pair(bs[14], bs[15]) == s.symbol
            && Pair(bs[16], bs[17]) == |s.bids| && Pair(bs[18], bs[19]) == |s.asks|
  {
    var bs := SnapshotBytes(s);
    Offsets(s, bs);
    assert bs[..2] == bs[0..2];
    PairAt(bs, 0, PayloadSize(s));
    PairAt(bs, 16, |s.bids|);
    PairAt(bs, 18, |s.asks|);
    WordsRoundTrip8(s.sequence);
    QuadAt(bs, 12, s.symbol);
  }

  lemma {:induction false} RecordsSlice(rs: seq<LevelRecord>, k: nat)
    requires k < |rs|
    ensures RECORD_SIZE * k + RECORD_SIZE <= |RecordsBytes(rs)|
    ensures RecordsBytes(rs)[RECORD_SIZE * k..RECORD_SIZE * k + RECORD_SIZE] == RecordBytes(rs[k])
  {
    if k > 0 {
      RecordsSlice(rs[1..], k - 1);
      var bs, at := RecordsBytes(rs), RECORD_SIZE * (k - 1);
      assert bs[RECORD_SIZE..] == RecordsBytes(rs[1..]);
      assert bs[RECORD_SIZE * k..RECORD_SIZE * k + RECORD_SIZE] == bs[RECORD_SIZE..][at..at + RECORD_SIZE];
    }
  }

  lemma SliceOfSlice(bs: seq<Byte>, from: nat, to: nat, at: nat, n: nat)
    requires from <= to <= |bs| && at + n <= to - from
    ensures bs[from + at..from + at + n] == bs[from..to][at..at + n]
  {
    var a, b := bs[from + at..from + at + n], bs[from..to][at..at + n];
    assert |a| == |b| && forall i :: 0 <= i < n ==> a[i] == bs[from + at + i] == b[i];
  }

  lemma BidLayout(s: Snapshot, bs: seq<Byte>, k: nat)
    requires Fits(s) && bs == SnapshotBytes(s) && k < |s.bids|
    ensures bs[20 + 24 * k..20 + 24 * k + 24] == RecordBytes(s.bids[k])
  {
    Offsets(s, bs);
    RecordsSlice(s.bids, k);
    SliceOfSlice(bs, 20, 20 + |s.bids| * RECORD_SIZE, 24 * k, 24);
  }

  lemma AskLayout(s: Snapshot, bs: seq<Byte>, k: nat)
    requires Fits(s) && bs == SnapshotBytes(s) && k < |s.asks|
    ensures var at := 20 + 24 * |s.bids| + 24 * k; bs[at..at + 24] == RecordBytes(s.asks[k])
  {
    Offsets(s, bs);
    RecordsSlice(s.asks, k);
    SliceOfSlice(bs, 20 + |s.bids| * RECORD_SIZE, |bs|, 24 * k, 24);
  }

  /** After it the bids and then the asks, 24 bytes a level. */
  lemma LevelLayout(s: Snapshot, k: nat)
    requires Fits(s) && k < |s.bids| + |s.asks|
    ensures var bs, at := SnapshotBytes(s), 20 + 24 * k;
            && at + 24 <= |bs|
            && bs[at..at + 24] == RecordBytes(if k < |s.bids| then s.bids[k] else s.asks[k - |s.bids|])
  {
    if k < |s.bids| {
      BidLayout(s, SnapshotBytes(s), k);
    } else {
      AskLayout(s, SnapshotBytes(s), k - |s.bids|);
    }
  }

  /** What the decoder says of any bytes at all. */
  lemma DecodeStatuses(input: seq<Byte>)
    ensures var d := DecodeSnapshot(input);
            if |input| < 4 then d.status == Incomplete
            else
              var length := Pair(input[0], input[1]);
              && (d.status == UnexpectedType <==> input[2] != 7)
              && (d.status == Incomplete <==> input[2] == 7 && |input| < 4 + length)
              && (input[2] == 7 && |input| >= 4 + length ==>
                    if length < 16 then d.status == Malformed
                    else
                      var levels := Pair(input[16], input[17]) + Pair(input[18], input[19]);
                      && (d.status == DecodeOk <==> length == 16 + 24 * levels)
                      && (d.status == Malformed <==> length != 16 + 24 * levels)
                      && (d.status == DecodeOk ==> d.snapshot.Some? && d.consumed == 4 + length))
    ensures DecodeSnapshot(input).status != DecodeOk ==> DecodeSnapshot(input) == Failed(DecodeSnapshot(input).status)
  {
    if |input| >= 4 {
      assert input[..2] == input[0..2];
      PairAt(input, 0, 0);
      if |input| >= 20 {
        PairAt(input, 16, 0);
        PairAt(input, 18, 0);
      }
    }
  }
}
