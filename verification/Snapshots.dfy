/** A depth snapshot: the top levels of each side, framed into a scratch buffer that doubles
    until the message fits. */
module Snapshots {
  import opened Bits
  import opened NaiveBook
  import opened Depths
  import opened Codec

  /** A level on the wire, truncated to its field widths. */
  function RecordOf(level: DepthLevel): LevelRecord {
    LevelRecord(FromWord(level.price % U64_SPAN), FromWord(level.quantity % U64_SPAN), level.count % U32_SPAN, 0)
  }

  function RecordsOf(levels: seq<DepthLevel>): seq<LevelRecord> {
    if levels == [] then [] else [RecordOf(levels[0])] + RecordsOf(levels[1..])
  }

  /** The visitor: pushes a record, then asks for more while below `depth`. */
  function Collector(depth: nat): (seq<LevelRecord>, DepthLevel) -> (seq<LevelRecord>, bool) {
    (out: seq<LevelRecord>, level: DepthLevel) => (out + [RecordOf(level)], |out| + 1 < depth)
  }

  function Top(levels: seq<DepthLevel>, depth: nat): seq<DepthLevel> {
    if |levels| <= depth then levels else levels[..depth]
  }

  /** Walking with the collector yields the best `depth` levels, in order. */
  lemma {:induction false} CollectTop(levels: seq<DepthLevel>, depth: nat, out: seq<LevelRecord>)
    requires |out| < depth
    ensures Walk(Collector(depth), out, levels) == out + RecordsOf(Top(levels, depth - |out|))
  {
    if levels != [] {
      var next := out + [RecordOf(levels[0])];
      var top := Top(levels, depth - |out|);
      assert RecordsOf(top) == [RecordOf(levels[0])] + RecordsOf(top[1..]);
      if |next| < depth {
        CollectTop(levels[1..], depth, next);
        assert top[1..] == Top(levels[1..], depth - |next|);
      } else {
        assert top[1..] == [];
      }
    }
  }

  /** The collector pushes before it tests, so even depth zero yields the best level. */
  function Shown(levels: seq<DepthLevel>, depth: nat): seq<DepthLevel> {
    Top(levels, if depth == 0 then 1 else depth)
  }

  lemma Collected(levels: seq<DepthLevel>, depth: nat)
    ensures Walk(Collector(depth), [], levels) == RecordsOf(Shown(levels, depth))
  {
    if depth > 0 {
      CollectTop(levels, depth, []);
    } else if levels != [] {
      assert Shown(levels, 0) == [levels[0]];
      assert RecordsOf([levels[0]]) == [RecordOf(levels[0])] + RecordsOf([]);
    }
  }

  /** The snapshot of a book: both sides' best levels. */
  function SnapshotOf(sequence: U64, symbol: U32, b: Book, depth: nat): Snapshot {
    Snapshot(sequence, symbol, RecordsOf(Shown(Depth(b.bids), depth)), RecordsOf(Shown(Depth(b.asks), depth)))
  }

  const MAX_LEVELS: nat := 2729

  /** The message fits the format and the largest of the four buffers tried. */
  predicate Sendable(s: Snapshot, scratchSize: nat) {
    Fits(s) && HEADER_SIZE + PayloadSize(s) <= 8 * scratchSize
  }

  /** The 16-bit payload length allows exactly 2729 levels in all, and from 8192 scratch bytes
      on nothing else stops a snapshot. */
  lemma LevelCeiling(s: Snapshot, scratchSize: nat)
    ensures Fits(s) <==> |s.bids| + |s.asks| <= MAX_LEVELS
    ensures scratchSize >= 8192 ==> (Sendable(s, scratchSize) <==> |s.bids| + |s.asks| <= MAX_LEVELS)
  {
  }

  /** Four attempts try 1, 2, 4 and 8 times the original size. */
  lemma Doubling(size: nat, attempt: nat)
    requires attempt < 4
    ensures size * Pow2(attempt) * 2 == size * Pow2(attempt + 1)
    ensures size * Pow2(attempt) <= 8 * size
    ensures attempt == 3 ==> size * Pow2(attempt) == 8 * size
  {
    assert Pow2(attempt + 1) == 2 * Pow2(attempt);
    assert attempt == 0 || attempt == 1 || attempt == 2 || attempt == 3;
  }

  /** The scratch size after trying to frame: doubled after each failure; it never shrinks. */
  function Grown(s: Snapshot, size: nat, attempts: nat): (grown: nat)
    ensures grown >= size
    decreases attempts
  {
    if attempts == 0 || (Fits(s) && HEADER_SIZE + PayloadSize(s) <= size) then size
    else Grown(s, 2 * size, attempts - 1)
  }

  /** The size after all four attempts. */
  function Regrown(s: Snapshot, size: nat): (grown: nat)
    ensures grown >= size
  {
    var attempts := 4;
    Grown(s, size, attempts)
  }
}
