/** The market-data feed: trades, level updates and snapshots under one run of sequence
    numbers, unsequenced execution reports, and a subscriber that keeps only the level
    updates. */
module Feed {
  import opened Core
  import opened Bits
  import opened PriceLevels
  import opened NaiveBook
  import opened Depths
  import opened MatchingSpec
  import opened Books
  import opened Codec
  import opened Snapshots

  datatype ExecType = ExecNew | ExecPartialFill | ExecFill | ExecCancelled | ExecReplaced | ExecRejected

  datatype DeltaAction = UpdateLevel | DeleteLevel

  datatype Message =
    | Trade(sequence: U64, matchId: nat, price: int, quantity: int, symbol: nat, aggressorSide: Side)
    | BookDelta(sequence: U64, price: int, quantity: int, symbol: nat, count: nat, side: Side, action: DeltaAction)
    | BookSnapshot(frame: seq<Byte>)
    | ExecutionReport(orderId: nat, matchId: nat, price: int, lastQuantity: int, leavesQuantity: int,
                      client: nat, symbol: nat, exec: ExecType, reason: RejectReason)

  /** The publisher: its next sequence number, everything its sink has received and the size
      of its scratch buffer. */
  datatype Tape = Tape(next: U64, sent: seq<Message>, scratch: nat)

  function BlankTape(scratch: nat): Tape {
    Tape(1, [], scratch)
  }

  /** `next_sequence_++` on a `std::uint64_t`. */
  function Successor(n: U64): U64 {
    (n + 1) % U64_SPAN
  }

  function WithTrade(t: Tape, symbol: nat, f: Fill): Tape {
    t.(next := Successor(t.next),
       sent := t.sent + [Trade(t.next, f.matchId, f.price, f.quantity, symbol, f.aggressorSide)])
  }

  function WithReport(t: Tape, report: Message): Tape {
    t.(sent := t.sent + [report])
  }

  function WithLevel(t: Tape, symbol: nat, side: Side, level: DepthLevel): Tape {
    t.(next := Successor(t.next),
       sent := t.sent + [BookDelta(t.next, level.price, level.quantity, symbol, level.count, side,
                                   if level.count == 0 then DeleteLevel else UpdateLevel)])
  }

  /** A snapshot is sent whole under the next number, or dropped if it cannot be framed; either
      way the scratch buffer keeps the size it grew to. */
  function WithSnapshot(t: Tape, symbol: U32, b: Book, depth: nat): Tape {
    var s := SnapshotOf(t.next, symbol, b, depth);
    var grown := Regrown(s, t.scratch);
    if Sendable(s, t.scratch) then Tape(Successor(t.next), t.sent + [BookSnapshot(SnapshotBytes(s))], grown)
    else t.(scratch := grown)
  }

  class Publisher {
    var nextSequence: U64
    var sent: seq<Message>
    var scratch: array<Byte>

    function State(): Tape
      reads this
    {
      Tape(nextSequence, sent, scratch.Length)
    }

    constructor (scratchBytes: nat)
      ensures State() == BlankTape(scratchBytes) && fresh(scratch)
    {
      nextSequence, sent := 1, [];
      scratch := new Byte[scratchBytes](_ => 0);
    }

    /** `MarketDataPublisher::publish_trade`. */
    method PublishTrade(symbol: nat, f: Fill)
      modifies this`nextSequence, this`sent
      ensures State() == WithTrade(old(State()), symbol, f)
    {
      sent := sent + [Trade(nextSequence, f.matchId, f.price, f.quantity, symbol, f.aggressorSide)];
      nextSequence := (nextSequence + 1) % U64_SPAN;
    }

    /** `MarketDataPublisher::publish_execution_report`. */
    method PublishReport(report: Message)
      requires report.ExecutionReport?
      modifies this`sent
      ensures State() == WithReport(old(State()), report)
    {
      sent := sent + [report];
    }

    /** `MarketDataPublisher::publish_level_update`. */
    method PublishLevelUpdate(symbol: nat, side: Side, level: DepthLevel)
      modifies this`nextSequence, this`sent
      ensures State() == WithLevel(old(State()), symbol, side, level)
    {
      sent := sent + [BookDelta(nextSequence, level.price, level.quantity, symbol, level.count, side,
                                if level.count == 0 then DeleteLevel else UpdateLevel)];
      nextSequence := (nextSequence + 1) % U64_SPAN;
    }

    /** One attempt: the whole message is written, or the scratch buffer is doubled. */
    method Attempt(s: Snapshot) returns (written: nat)
      modifies this`scratch, scratch
      ensures scratch == old(scratch) || fresh(scratch)
      ensures if Fits(s) && HEADER_SIZE + PayloadSize(s) <= old(scratch.Length) then
                && written == HEADER_SIZE + PayloadSize(s) && scratch.Length == old(scratch.Length)
                && scratch[..written] == SnapshotBytes(s)
              else written == 0 && scratch.Length == 2 * old(scratch.Length)
    {
      written := EncodeSnapshot(scratch, s);
      if written == 0 {
        scratch := new Byte[scratch.Length * 2](_ => 0);
      } else {
        assert scratch[..written] == SnapshotBytes(s);
      }
    }

    /** Frames the message, doubling the scratch buffer after each of four failed attempts. */
    method Frame(s: Snapshot) returns (written: nat)
      modifies this`scratch, scratch
      ensures scratch == old(scratch) || fresh(scratch)
      ensures scratch.Length == Regrown(s, old(scratch.Length)) >= old(scratch.Length)
      ensures written == if Sendable(s, old(scratch.Length)) then HEADER_SIZE + PayloadSize(s) else 0
      ensures written > 0 ==> Fits(s) && written <= scratch.Length && scratch[..written] == SnapshotBytes(s)
    {
      ghost var size := scratch.Length;
      written := 0;
      var attempt := 0;
      while attempt < 4 && written == 0
        invariant 0 <= attempt <= 4
        invariant scratch == old(scratch) || fresh(scratch)
        invariant written == 0 ==> scratch.Length == size * Pow2(attempt)
        invariant written == 0 ==> Regrown(s, size) == Grown(s, scratch.Length, 4 - attempt)
        invariant written == 0 && attempt == 4 ==> !Sendable(s, size)
        invariant written > 0 ==> Sendable(s, size) && written == HEADER_SIZE + PayloadSize(s) <= scratch.Length
        invariant written > 0 ==> scratch.Length == Regrown(s, size) && scratch[..written] == SnapshotBytes(s)
      {
        Doubling(size, attempt);
        written := Attempt(s);
        attempt := attempt + 1;
      }
    }

    /** Collects the top levels of both sides. */
    method Collect(symbol: U32, book: OrderBook, depth: nat) returns (s: Snapshot)
      requires book.Valid()
      ensures s == SnapshotOf(nextSequence, symbol, book.model, depth)
    {
      var bids := book.ForEachLevel(Buy, Collector(depth), []);
      var asks := book.ForEachLevel(Sell, Collector(depth), []);
      Collected(Depth(book.model.bids), depth);
      Collected(Depth(book.model.asks), depth);
      s := Snapshot(nextSequence, symbol, bids, asks);
    }

    /** Sends a framed snapshot, unless it cannot be framed. */
    method Emit(s: Snapshot)
      modifies this, scratch
      ensures scratch == old(scratch) || fresh(scratch)
      ensures scratch.Length == Regrown(s, old(scratch.Length))
      ensures if Sendable(s, old(scratch.Length)) then
                sent == old(sent) + [BookSnapshot(SnapshotBytes(s))] && nextSequence == Successor(old(nextSequence))
              else sent == old(sent) && nextSequence == old(nextSequence)
    {
      var written := Frame(s);
      if written == 0 {
        return;
      }
      nextSequence := (nextSequence + 1) % U64_SPAN;
      sent := sent + [BookSnapshot(scratch[..written])];
    }

    /** `MarketDataPublisher::publish_snapshot`: sent whole exactly when it fits the format and
        eight times the scratch buffer, which never shrinks; from 8192 bytes on only the
        format's ceiling counts, for this snapshot and every later one. */
    method PublishSnapshot(symbol: U32, book: OrderBook, depth: nat)
      requires book.Valid()
      modifies this, scratch
      ensures scratch == old(scratch) || fresh(scratch)
      ensures State() == WithSnapshot(old(State()), symbol, old(book.model), depth)
      ensures scratch.Length >= old(scratch.Length)
      ensures var s := SnapshotOf(old(nextSequence), symbol, old(book.model), depth);
              old(scratch.Length) >= 8192 ==> (|sent| > |old(sent)| <==> |s.bids| + |s.asks| <= MAX_LEVELS)
    {
      var s := Collect(symbol, book, depth);
      LevelCeiling(s, scratch.Length);
      Emit(s);
    }
  }

  // ---- Sequence numbers ---------------------------------------------------

  /** The number a subscriber reads off a message; a snapshot's is in its frame. */
  function NumberOf(m: Message): seq<nat> {
    match m
    case Trade(n, _, _, _, _, _) => [n]
    case BookDelta(n, _, _, _, _, _, _) => [n]
    case BookSnapshot(frame) =>
      (match DecodeSnapshot(frame).snapshot case Some(s) => [s.sequence] case None => [])
    case ExecutionReport(_, _, _, _, _, _, _, _, _) => []
  }

  /** The sequence numbers a subscriber sees, in order of arrival. */
  function Numbers(sent: seq<Message>): seq<nat> {
    if sent == [] then [] else Numbers(sent[..|sent| - 1]) + NumberOf(sent[|sent| - 1])
  }

  /** They run 1, 2, 3, ... without a gap, wrapping as 64-bit counters do, up to the
      publisher's counter. */
  ghost predicate GapFree(t: Tape) {
    && t.next == (|Numbers(t.sent)| + 1) % U64_SPAN
    && forall k :: 0 <= k < |Numbers(t.sent)| ==> Numbers(t.sent)[k] == (k + 1) % U64_SPAN
  }

  lemma NumbersAppend(sent: seq<Message>, m: Message)
    ensures Numbers(sent + [m]) == Numbers(sent) + NumberOf(m)
  {
    assert (sent + [m])[..|sent|] == sent;
  }

  /** Sending one message that carries the counter, then advancing it, leaves no gap. */
  lemma NextNumber(t: Tape, m: Message, t': Tape)
    requires GapFree(t) && NumberOf(m) == [t.next]
    requires t'.sent == t.sent + [m] && t'.next == Successor(t.next)
    ensures GapFree(t')
  {
    NumbersAppend(t.sent, m);
    SuccessorOfCount(|Numbers(t.sent)| + 1);
  }

  lemma SuccessorOfCount(n: nat)
    ensures Successor(n % U64_SPAN) == (n + 1) % U64_SPAN
  {
  }

  // ---- A subscriber's replica ---------------------------------------------

  type Replica = map<(Side, int), (int, nat)>

  function Applied(r: Replica, m: Message): Replica {
    if !m.BookDelta? then r
    else if m.action == DeleteLevel then r - {(m.side, m.price)}
    else r[(m.side, m.price) := (m.quantity, m.count)]
  }

  /** Applies only the level updates, in order of arrival. */
  function Replayed(sent: seq<Message>): Replica {
    if sent == [] then map[] else Applied(Replayed(sent[..|sent| - 1]), sent[|sent| - 1])
  }

  lemma ReplayedAppend(sent: seq<Message>, m: Message)
    ensures Replayed(sent + [m]) == Applied(Replayed(sent), m)
  {
    assert (sent + [m])[..|sent|] == sent;
  }

  /** The replica is right about one price: absent if nothing rests there, else the level's
      total quantity and order count. */
  ghost predicate MirrorsAt(r: Replica, b: Book, side: Side, price: int) {
    var os := AtPrice(Queue(b, side), price);
    if os == [] then (side, price) !in r
    else (side, price) in r && r[(side, price)] == (Volume(os), |os|)
  }

  /** The replica is the book's map from side and price to quantity and count. */
  ghost predicate Mirrors(r: Replica, b: Book) {
    forall side, price :: MirrorsAt(r, b, side, price)
  }

  /** The replica is right except possibly at some prices still to be published. */
  ghost predicate MirrorsBut(r: Replica, b: Book, pending: set<(Side, int)>) {
    forall side, price :: (side, price) in pending || MirrorsAt(r, b, side, price)
  }

  /** Publishing a level makes the replica right about it. */
  lemma LevelMirrored(t: Tape, b: Book, symbol: nat, side: Side, price: int, pending: set<(Side, int)>)
    requires MirrorsBut(Replayed(t.sent), b, pending + {(side, price)})
    ensures MirrorsBut(Replayed(WithLevel(t, symbol, side, LevelOf(Queue(b, side), price)).sent), b, pending)
  {
    var level := LevelOf(Queue(b, side), price);
    var t' := WithLevel(t, symbol, side, level);
    ReplayedAppend(t.sent, t'.sent[|t.sent|]);
    var r, r' := Replayed(t.sent), Replayed(t'.sent);
    forall s, p
      ensures (s, p) in pending || MirrorsAt(r', b, s, p)
    {
      if (s, p) != (side, price) {
        assert (s, p) in pending + {(side, price)} || MirrorsAt(r, b, s, p);
      }
    }
  }

  lemma LevelNumbered(t: Tape, symbol: nat, side: Side, level: DepthLevel)
    requires GapFree(t)
    ensures GapFree(WithLevel(t, symbol, side, level))
  {
    var t' := WithLevel(t, symbol, side, level);
    NextNumber(t, t'.sent[|t.sent|], t');
  }

  lemma TradeKeeps(t: Tape, symbol: nat, f: Fill)
    ensures Replayed(WithTrade(t, symbol, f).sent) == Replayed(t.sent)
    ensures GapFree(t) ==> GapFree(WithTrade(t, symbol, f))
  {
    var t' := WithTrade(t, symbol, f);
    ReplayedAppend(t.sent, t'.sent[|t.sent|]);
    if GapFree(t) {
      NextNumber(t, t'.sent[|t.sent|], t');
    }
  }

  lemma ReportKeeps(t: Tape, report: Message)
    requires report.ExecutionReport?
    ensures Replayed(WithReport(t, report).sent) == Replayed(t.sent)
    ensures GapFree(t) ==> GapFree(WithReport(t, report))
  {
    ReplayedAppend(t.sent, report);
    NumbersAppend(t.sent, report);
  }

  // ---- Trade prints -------------------------------------------------------

  datatype Print = Print(matchId: nat, price: int, quantity: int, aggressorSide: Side)

  /** The trades a subscriber sees, in order of arrival. */
  function Prints(sent: seq<Message>): seq<Print> {
    if sent == [] then []
    else
      var m := sent[|sent| - 1];
      Prints(sent[..|sent| - 1]) + (if m.Trade? then [Print(m.matchId, m.price, m.quantity, m.aggressorSide)] else [])
  }

  function PrintOf(f: Fill): Print {
    Print(f.matchId, f.price, f.quantity, f.aggressorSide)
  }

  /** Every fill was printed once, in order, and nothing else was. */
  ghost predicate Printed(sent: seq<Message>, history: seq<Fill>) {
    |Prints(sent)| == |history| && forall k :: 0 <= k < |history| ==> Prints(sent)[k] == PrintOf(history[k])
  }

  lemma PrintsAppend(sent: seq<Message>, m: Message)
    ensures Prints(sent + [m]) ==
            Prints(sent) + (if m.Trade? then [Print(m.matchId, m.price, m.quantity, m.aggressorSide)] else [])
  {
    assert (sent + [m])[..|sent|] == sent;
  }

  // ---- Snapshots against the replica --------------------------------------

  /** A snapshot, sent or dropped, leaves replica, numbering and prints in order. */
  lemma SnapshotKeeps(t: Tape, symbol: U32, b: Book, depth: nat)
    requires GapFree(t)
    ensures var t' := WithSnapshot(t, symbol, b, depth);
            && GapFree(t') && t'.scratch >= t.scratch
            && Replayed(t'.sent) == Replayed(t.sent) && Prints(t'.sent) == Prints(t.sent)
  {
    var s, t' := SnapshotOf(t.next, symbol, b, depth), WithSnapshot(t, symbol, b, depth);
    if Sendable(s, t.scratch) {
      var m := BookSnapshot(SnapshotBytes(s));
      FrameDecodes(s);
      NextNumber(t, m, t');
      ReplayedAppend(t.sent, m);
      PrintsAppend(t.sent, m);
    }
  }

  lemma FrameDecodes(s: Snapshot)
    requires Fits(s)
    ensures DecodeSnapshot(SnapshotBytes(s)) == Decoded(DecodeOk, Some(s), |SnapshotBytes(s)|)
  {
    SnapshotRoundTrip(s, []);
    assert SnapshotBytes(s) + [] == SnapshotBytes(s);
  }

  /** `levels` are the best `limit` levels of a side of the replica, best first. */
  ghost predicate TopOf(r: Replica, side: Side, levels: seq<DepthLevel>, limit: nat) {
    && |levels| <= limit && Worsening(side, levels)
    && (forall j :: 0 <= j < |levels| ==>
          (side, levels[j].price) in r && r[(side, levels[j].price)] == (levels[j].quantity, levels[j].count))
    && (forall p :: (side, p) in r ==>
          || (exists j :: 0 <= j < |levels| && levels[j].price == p)
          || (|levels| == limit && forall j :: 0 <= j < |levels| ==> Rank(side, levels[j].price) < Rank(side, p)))
  }

  lemma {:induction false} AtPriceHas(q: seq<Order>, price: int) returns (k: nat)
    requires AtPrice(q, price) != []
    ensures k < |q| && q[k].price == price
  {
    if q[0].price == price {
      k := 0;
    } else {
      k := AtPriceHas(q[1..], price);
      k := k + 1;
    }
  }

  /** What a snapshot shows of a mirrored book is the top of the replica. */
  lemma TopMirrored(r: Replica, b: Book, side: Side, depth: nat)
    requires Mirrors(r, b) && Sorted(side, Queue(b, side))
    ensures TopOf(r, side, Shown(Depth(Queue(b, side)), depth), if depth == 0 then 1 else depth)
  {
    var q := Queue(b, side);
    var d, levels, limit := Depth(q), Shown(Depth(q), depth), if depth == 0 then 1 else depth;
    DepthMeaning(side, q);
    assert forall j :: 0 <= j < |levels| ==> levels[j] == d[j];
    forall j | 0 <= j < |levels|
      ensures (side, levels[j].price) in r && r[(side, levels[j].price)] == (levels[j].quantity, levels[j].count)
    {
      assert MirrorsAt(r, b, side, d[j].price);
      assert d[j] == LevelOf(q, d[j].price);
    }
    forall p | (side, p) in r
      ensures || (exists j :: 0 <= j < |levels| && levels[j].price == p)
              || (|levels| == limit && forall j :: 0 <= j < |levels| ==> Rank(side, levels[j].price) < Rank(side, p))
    {
      assert MirrorsAt(r, b, side, p);
      var k := AtPriceHas(q, p);
      var j :| 0 <= j < |d| && d[j].price == q[k].price;
      if j < |levels| {
        assert levels[j].price == p;
      }
    }
  }
}
