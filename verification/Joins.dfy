/** A subscriber that joins late: it starts from one decoded snapshot and applies only the
    level updates that follow. */
module Joins {
  import opened Core
  import opened NaiveBook
  import opened Depths
  import opened MatchingSpec
  import opened MatchingLaws
  import opened Risk
  import opened Codec
  import opened Snapshots
  import opened Feed
  import opened DriverSpec
  import opened DriverLaws

  // ---- Starting from a snapshot -------------------------------------------

  function Loaded(r: Replica, side: Side, records: seq<LevelRecord>): Replica {
    if records == [] then r
    else
      var last := records[|records| - 1];
      Loaded(r, side, records[..|records| - 1])[(side, last.price) := (last.quantity, last.count)]
  }

  /** The replica a subscriber builds from the records of a snapshot. */
  function Seeded(s: Snapshot): Replica {
    Loaded(Loaded(map[], Buy, s.bids), Sell, s.asks)
  }

  function Records(s: Snapshot, side: Side): seq<LevelRecord> {
    if side == Buy then s.bids else s.asks
  }

  lemma {:induction false} LoadedOther(r: Replica, side: Side, records: seq<LevelRecord>, key: (Side, int))
    requires key.0 != side
    ensures key in Loaded(r, side, records) <==> key in r
    ensures key in r ==> Loaded(r, side, records)[key] == r[key]
  {
    if records != [] {
      LoadedOther(r, side, records[..|records| - 1], key);
    }
  }

  /** A loaded entry is one of the records. */
  lemma {:induction false} LoadedFrom(r: Replica, side: Side, records: seq<LevelRecord>, price: int) returns (k: nat)
    requires (side, price) in Loaded(r, side, records) && (side, price) !in r
    ensures k < |records| && records[k].price == price
    ensures Loaded(r, side, records)[(side, price)] == (records[k].quantity, records[k].count)
  {
    var last := |records| - 1;
    if records[last].price == price {
      k := last;
    } else {
      k := LoadedFrom(r, side, records[..last], price);
    }
  }

  predicate Apart(records: seq<LevelRecord>) {
    forall i, j :: 0 <= i < j < |records| ==> records[i].price != records[j].price
  }

  /** Records at different prices are all there. */
  lemma {:induction false} LoadedAt(r: Replica, side: Side, records: seq<LevelRecord>, k: nat)
    requires Apart(records) && k < |records|
    ensures (side, records[k].price) in Loaded(r, side, records)
    ensures Loaded(r, side, records)[(side, records[k].price)] == (records[k].quantity, records[k].count)
  {
    var last := |records| - 1;
    if k < last {
      LoadedAt(r, side, records[..last], k);
    }
  }

  lemma SeededFrom(s: Snapshot, side: Side, price: int) returns (k: nat)
    requires (side, price) in Seeded(s)
    ensures k < |Records(s, side)| && Records(s, side)[k].price == price
    ensures Seeded(s)[(side, price)] == (Records(s, side)[k].quantity, Records(s, side)[k].count)
  {
    var bids := Loaded(map[], Buy, s.bids);
    if side == Buy {
      LoadedOther(bids, Sell, s.asks, (side, price));
      k := LoadedFrom(map[], Buy, s.bids, price);
    } else {
      LoadedOther(map[], Buy, s.bids, (side, price));
      k := LoadedFrom(bids, Sell, s.asks, price);
    }
  }

  lemma SeededAt(s: Snapshot, side: Side, k: nat)
    requires Apart(Records(s, side)) && k < |Records(s, side)|
    ensures var record := Records(s, side)[k];
            (side, record.price) in Seeded(s) && Seeded(s)[(side, record.price)] == (record.quantity, record.count)
  {
    var bids := Loaded(map[], Buy, s.bids);
    if side == Buy {
      LoadedAt(map[], Buy, s.bids, k);
      LoadedOther(bids, Sell, s.asks, (side, s.bids[k].price));
    } else {
      LoadedAt(bids, Sell, s.asks, k);
    }
  }

  // ---- What a snapshot loses ----------------------------------------------

  /** The level survives the wire's field widths. */
  predicate WireSized(level: DepthLevel) {
    && -I64_SPAN <= level.price < I64_SPAN
    && -I64_SPAN <= level.quantity < I64_SPAN
    && level.count < U32_SPAN
  }

  lemma WordExact(x: int)
    requires -I64_SPAN <= x < I64_SPAN
    ensures FromWord(x % U64_SPAN) == x
  {
    if x < 0 {
      assert x % U64_SPAN == x + U64_SPAN;
    }
  }

  lemma RecordExact(level: DepthLevel)
    requires WireSized(level)
    ensures RecordOf(level) == LevelRecord(level.price, level.quantity, level.count, 0)
  {
    WordExact(level.price);
    WordExact(level.quantity);
  }

  lemma {:induction false} RecordsAt(levels: seq<DepthLevel>)
    ensures |RecordsOf(levels)| == |levels|
    ensures forall k :: 0 <= k < |levels| ==> RecordsOf(levels)[k] == RecordOf(levels[k])
  {
    if levels != [] {
      RecordsAt(levels[1..]);
    }
  }

  /** A snapshot of this depth shows every level of the side, within the wire's widths. */
  predicate SideComplete(b: Book, side: Side, depth: nat) {
    var d := Depth(Queue(b, side));
    |d| <= (if depth == 0 then 1 else depth) && forall j :: 0 <= j < |d| ==> WireSized(d[j])
  }

  predicate Complete(b: Book, depth: nat) {
    SideComplete(b, Buy, depth) && SideComplete(b, Sell, depth)
  }

  lemma RecordsShown(sequence: U64, symbol: U32, b: Book, depth: nat, side: Side)
    ensures Records(SnapshotOf(sequence, symbol, b, depth), side) == RecordsOf(Shown(Depth(Queue(b, side)), depth))
  {
  }

  /** The records of a completely shown side are its levels. */
  lemma CompleteRecords(b: Book, side: Side, depth: nat, records: seq<LevelRecord>)
    requires Sorted(side, Queue(b, side)) && SideComplete(b, side, depth)
    requires records == RecordsOf(Shown(Depth(Queue(b, side)), depth))
    ensures var d := Depth(Queue(b, side));
            && |records| == |d| && Apart(records)
            && forall j :: 0 <= j < |d| ==> records[j] == LevelRecord(d[j].price, d[j].quantity, d[j].count, 0)
  {
    var d := Depth(Queue(b, side));
    DepthMeaning(side, Queue(b, side));
    RecordsAt(d);
    forall j | 0 <= j < |d|
      ensures records[j] == LevelRecord(d[j].price, d[j].quantity, d[j].count, 0)
    {
      RecordExact(d[j]);
    }
    forall i, j | 0 <= i < j < |records|
      ensures records[i].price != records[j].price
    {
      assert Rank(side, d[i].price) < Rank(side, d[j].price);
    }
  }

  lemma CompleteMirrors(s: Snapshot, b: Book, side: Side, depth: nat, price: int)
    requires Sorted(side, Queue(b, side)) && SideComplete(b, side, depth)
    requires Records(s, side) == RecordsOf(Shown(Depth(Queue(b, side)), depth))
    ensures MirrorsAt(Seeded(s), b, side, price)
  {
    var q := Queue(b, side);
    CompleteRecords(b, side, depth, Records(s, side));
    DepthMeaning(side, q);
    if AtPrice(q, price) == [] {
      if (side, price) in Seeded(s) {
        var k := SeededFrom(s, side, price);
        assert false;
      }
    } else {
      var k := AtPriceHas(q, price);
      var j :| 0 <= j < |Depth(q)| && Depth(q)[j].price == q[k].price;
      SeededAt(s, side, j);
      assert Depth(q)[j] == LevelOf(q, price);
    }
  }

  /** A level the seeded replica is right about was shown, within the wire's widths. */
  lemma MirroredShown(s: Snapshot, b: Book, side: Side, j: nat)
    requires Sorted(side, Queue(b, side)) && j < |Depth(Queue(b, side))|
    requires MirrorsAt(Seeded(s), b, side, Depth(Queue(b, side))[j].price)
    ensures WireSized(Depth(Queue(b, side))[j])
    ensures exists k :: 0 <= k < |Records(s, side)| && Records(s, side)[k].price == Depth(Queue(b, side))[j].price
  {
    var q := Queue(b, side);
    DepthMeaning(side, q);
    var price := Depth(q)[j].price;
    assert Depth(q)[j] == LevelOf(q, price);
    var k := SeededFrom(s, side, price);
  }

  lemma WorseningApart(side: Side, d: seq<DepthLevel>, j: nat, k: nat)
    requires Worsening(side, d) && j < |d| && k < |d| && d[j].price == d[k].price
    ensures j == k
  {
  }

  lemma MirroredComplete(s: Snapshot, b: Book, side: Side, depth: nat)
    requires Sorted(side, Queue(b, side)) && Mirrors(Seeded(s), b)
    requires Records(s, side) == RecordsOf(Shown(Depth(Queue(b, side)), depth))
    ensures SideComplete(b, side, depth)
  {
    var d := Depth(Queue(b, side));
    DepthMeaning(side, Queue(b, side));
    forall j | 0 <= j < |d|
      ensures WireSized(d[j])
    {
      MirroredShown(s, b, side, j);
    }
    if d != [] {
      var last := |d| - 1;
      MirroredShown(s, b, side, last);
      RecordsAt(Shown(d, depth));
      var k :| 0 <= k < |Records(s, side)| && Records(s, side)[k].price == d[last].price;
      RecordExact(d[k]);
      WorseningApart(side, d, last, k);
    }
  }

  /** A subscriber seeded from a snapshot holds exactly the book's levels if and only if the
      snapshot showed every level and every field fitted the wire. */
  lemma SeedExact(sequence: U64, symbol: U32, b: Book, depth: nat)
    requires Sorted(Buy, b.bids) && Sorted(Sell, b.asks)
    ensures Mirrors(Seeded(SnapshotOf(sequence, symbol, b, depth)), b) <==> Complete(b, depth)
  {
    var s := SnapshotOf(sequence, symbol, b, depth);
    RecordsShown(sequence, symbol, b, depth, Buy);
    RecordsShown(sequence, symbol, b, depth, Sell);
    if Complete(b, depth) {
      forall side, price
        ensures MirrorsAt(Seeded(s), b, side, price)
      {
        CompleteMirrors(s, b, side, depth, price);
      }
    }
    if Mirrors(Seeded(s), b) {
      MirroredComplete(s, b, Buy, depth);
      MirroredComplete(s, b, Sell, depth);
    }
  }

  // ---- Following the feed from there --------------------------------------

  /** Applies only the level updates, starting from a given replica. */
  function ReplayedFrom(r: Replica, sent: seq<Message>): Replica {
    if sent == [] then r else Applied(ReplayedFrom(r, sent[..|sent| - 1]), sent[|sent| - 1])
  }

  lemma {:induction false} ReplayedSplit(sent: seq<Message>, later: seq<Message>)
    ensures Replayed(sent + later) == ReplayedFrom(Replayed(sent), later)
  {
    if later == [] {
      assert sent + later == sent;
    } else {
      ReplayedSplit(sent, later[..|later| - 1]);
      assert (sent + later)[..|sent + later| - 1] == sent + later[..|later| - 1];
    }
  }

  lemma MirrorUnique(r: Replica, r': Replica, b: Book)
    requires Mirrors(r, b) && Mirrors(r', b)
    ensures r == r'
  {
    forall key | key in r || key in r'
      ensures key in r && key in r' && r[key] == r'[key]
    {
      assert key == (key.0, key.1);
      assert MirrorsAt(r, b, key.0, key.1) && MirrorsAt(r', b, key.0, key.1);
    }
    assert r.Keys == r'.Keys;
  }

  lemma {:induction false} FillsExtend(d: Driver, symbol: nat, fills: seq<Fill>)
    ensures d.tape.sent <= FillsApplied(d, symbol, fills).tape.sent
  {
    if fills != [] {
      FillsExtend(d, symbol, fills[..|fills| - 1]);
    }
  }

  lemma SettledExtends(d: Driver, o: Order, out: Outcome)
    ensures d.tape.sent <= Settled(d, o, out).tape.sent
  {
    FillsExtend(d, o.symbol, out.fills);
  }

  lemma RequeuedExtends(d: Driver, o: Order, newPrice: int, out: Outcome)
    ensures d.tape.sent <= Requeued(d, o, newPrice, out).tape.sent
  {
    FillsExtend(d, o.symbol, out.fills);
  }

  lemma AnsweredExtends(d: Driver, id: nat, o: Order, newPrice: int, out: Outcome)
    ensures d.tape.sent <= Answered(d, id, o, newPrice, out).tape.sent
  {
    RequeuedExtends(d, o, newPrice, out);
  }

  lemma NewExtends(d: Driver, w: Wire)
    requires w.WireNew?
    ensures d.tape.sent <= New(d, w).tape.sent
  {
    var o := Sequenced(w, d.nextSequence);
    if Gate(d.limits, d.killSwitch, d.exposures, o) == NoReason {
      var (e, out) := Submit(d.engine, o);
      var d1 := d.(engine := e, nextSequence := d.nextSequence + 1);
      SettledExtends(d1, o, out);
      MatchedForm(d, o, Settled(d1, o, out));
    }
  }

  lemma KnownExtends(d: Driver, w: Wire, o: Order)
    requires w.WireReplace?
    ensures d.tape.sent <= ReplaceKnown(d, w, o).tape.sent
  {
    var d1, out := KnownForm(d, w, o);
    AnsweredExtends(d1, w.id, o, w.newPrice, out);
  }

  lemma ReplaceExtends(d: Driver, w: Wire)
    requires w.WireReplace?
    ensures d.tape.sent <= ReplaceAt(d, w).tape.sent
  {
    if Lookup(d.engine.book, w.id).Some? {
      KnownExtends(d, w, Lookup(d.engine.book, w.id).value);
    }
  }

  lemma ProcessExtends(d: Driver, w: Wire)
    ensures d.tape.sent <= Process(d, w).tape.sent
  {
    match w
    case WireNew(_, _, _, _, _, _, _, _, _) => NewExtends(d, w);
    case WireCancel(_, _, _) =>
    case WireReplace(_, _, _, _, _, _) => ReplaceExtends(d, w);
    case WireKillSwitch(_) =>
    case WireSnapshot(_, _) =>
  }

  /** The feed is only ever appended to. */
  lemma {:induction false} RunExtends(d: Driver, ws: seq<Wire>, n: nat)
    requires n <= |ws|
    ensures ProcessAll(d, ws[..n]).tape.sent <= ProcessAll(d, ws).tape.sent
  {
    if n == |ws| {
      assert ws[..n] == ws;
    } else {
      var init := ws[..|ws| - 1];
      RunExtends(d, init, n);
      assert init[..n] == ws[..n];
      ProcessExtends(ProcessAll(d, init), ws[|ws| - 1]);
    }
  }

  /** The bytes a snapshot request puts on the feed. */
  function SentFrame(d: Driver, symbol: nat, depth: nat): seq<Byte> {
    var added := SnapshotSent(d, symbol, depth);
    if |added| == 1 && added[0].BookSnapshot? then added[0].frame else []
  }

  /** What a subscriber holds that decoded one snapshot and then followed the feed from
      position `from`. */
  function Joined(s: Snapshot, sent: seq<Message>, from: nat): Replica {
    ReplayedFrom(Seeded(s), if from <= |sent| then sent[from..] else [])
  }

  /** What a snapshot sent in state `d`, which makes it `after`, gives a newcomer by state `now`:
      seeded from it alone, the newcomer holds the book's levels of that moment if and only if
      the snapshot was complete, and then it holds the current ones. */
  ghost predicate Admits(d: Driver, after: Driver, now: Driver, symbol: nat, depth: nat) {
    var decoded := DecodeSnapshot(SentFrame(d, symbol, depth)).snapshot;
    && decoded.Some?
    && (Mirrors(Seeded(decoded.value), d.engine.book) <==> Complete(d.engine.book, depth))
    && (Complete(d.engine.book, depth) ==>
          && Joined(decoded.value, now.tape.sent, |after.tape.sent|) == Replayed(now.tape.sent)
          && Mirrors(Joined(decoded.value, now.tape.sent, |after.tape.sent|), now.engine.book))
  }

  lemma FrameSent(d: Driver, symbol: nat, depth: nat)
    requires Sendable(SnapshotAsked(d, symbol, depth), d.tape.scratch)
    ensures DecodeSnapshot(SentFrame(d, symbol, depth)).snapshot == Some(SnapshotAsked(d, symbol, depth))
  {
    SnapshotStep(d, symbol, depth);
  }

  lemma SeedMirrors(d: Driver, symbol: nat, depth: nat)
    requires Sorted(Buy, d.engine.book.bids) && Sorted(Sell, d.engine.book.asks)
    ensures Mirrors(Seeded(SnapshotAsked(d, symbol, depth)), d.engine.book) <==> Complete(d.engine.book, depth)
  {
    SeedExact(d.tape.next, symbol % U32_SPAN, d.engine.book, depth);
  }

  lemma SnapshotReplays(d: Driver, symbol: nat, depth: nat)
    requires GapFree(d.tape)
    ensures Replayed(Process(d, WireSnapshot(symbol, depth)).tape.sent) == Replayed(d.tape.sent)
  {
    SnapshotKeeps(d.tape, symbol % U32_SPAN, d.engine.book, depth);
  }

  lemma JoinedFollows(s: Snapshot, sent: seq<Message>, now: seq<Message>)
    requires sent <= now && Seeded(s) == Replayed(sent)
    ensures Joined(s, now, |sent|) == Replayed(now)
  {
    assert now == sent + now[|sent|..];
    ReplayedSplit(sent, now[|sent|..]);
  }

  lemma JoinAdmits(d: Driver, after: Driver, now: Driver, symbol: nat, depth: nat)
    requires Sorted(Buy, d.engine.book.bids) && Sorted(Sell, d.engine.book.asks)
    requires Mirrors(Replayed(d.tape.sent), d.engine.book)
    requires Sendable(SnapshotAsked(d, symbol, depth), d.tape.scratch)
    requires Replayed(after.tape.sent) == Replayed(d.tape.sent)
    requires after.tape.sent <= now.tape.sent && Mirrors(Replayed(now.tape.sent), now.engine.book)
    ensures Admits(d, after, now, symbol, depth)
  {
    var s := SnapshotAsked(d, symbol, depth);
    FrameSent(d, symbol, depth);
    SeedMirrors(d, symbol, depth);
    if Complete(d.engine.book, depth) {
      MirrorUnique(Seeded(s), Replayed(d.tape.sent), d.engine.book);
      JoinedFollows(s, after.tape.sent, now.tape.sent);
    }
  }

  lemma RunMirrors(v: Venue, ws: seq<Wire>)
    requires forall k :: 0 <= k < |ws| ==> Wire32(ws[k])
    ensures var d := ProcessAll(FreshDriver(v), ws);
            && Sorted(Buy, d.engine.book.bids) && Sorted(Sell, d.engine.book.asks)
            && GapFree(d.tape) && Mirrors(Replayed(d.tape.sent), d.engine.book)
  {
    RunOk(v, ws);
    FeedReplica(v, ws);
    OkAllOpen(ProcessAll(FreshDriver(v), ws).engine.book, Buy);
    OkAllOpen(ProcessAll(FreshDriver(v), ws).engine.book, Sell);
  }

  lemma WiresTogether(ws: seq<Wire>, w: Wire, later: seq<Wire>)
    requires Wire32(w) && forall k :: 0 <= k < |ws| ==> Wire32(ws[k])
    requires forall k :: 0 <= k < |later| ==> Wire32(later[k])
    ensures forall k :: 0 <= k < |ws + [w] + later| ==> Wire32((ws + [w] + later)[k])
  {
  }

  lemma AskedReplays(v: Venue, ws: seq<Wire>, symbol: nat, depth: nat)
    requires forall k :: 0 <= k < |ws| ==> Wire32(ws[k])
    ensures Replayed(ProcessAll(FreshDriver(v), ws + [WireSnapshot(symbol, depth)]).tape.sent) ==
            Replayed(ProcessAll(FreshDriver(v), ws).tape.sent)
  {
    RunMirrors(v, ws);
    SnapshotReplays(ProcessAll(FreshDriver(v), ws), symbol, depth);
    assert (ws + [WireSnapshot(symbol, depth)])[..|ws|] == ws;
  }

  lemma KeepsExtending(v: Venue, ws: seq<Wire>, later: seq<Wire>)
    ensures ProcessAll(FreshDriver(v), ws).tape.sent <= ProcessAll(FreshDriver(v), ws + later).tape.sent
  {
    assert (ws + later)[..|ws|] == ws;
    RunExtends(FreshDriver(v), ws + later, |ws|);
  }

  /** A snapshot sent at any point of any run lets a new subscriber in, who then keeps up with
      every further request. */
  lemma LateJoin(v: Venue, ws: seq<Wire>, symbol: nat, depth: nat, later: seq<Wire>, d: Driver, after: Driver,
      now: Driver)
    requires forall k :: 0 <= k < |ws| ==> Wire32(ws[k])
    requires forall k :: 0 <= k < |later| ==> Wire32(later[k])
    requires d == ProcessAll(FreshDriver(v), ws) && Sendable(SnapshotAsked(d, symbol, depth), d.tape.scratch)
    requires after == ProcessAll(FreshDriver(v), ws + [WireSnapshot(symbol, depth)])
    requires now == ProcessAll(FreshDriver(v), ws + [WireSnapshot(symbol, depth)] + later)
    ensures Admits(d, after, now, symbol, depth)
  {
    var asked := ws + [WireSnapshot(symbol, depth)];
    RunMirrors(v, ws);
    WiresTogether(ws, WireSnapshot(symbol, depth), later);
    RunMirrors(v, asked + later);
    AskedReplays(v, ws, symbol, depth);
    KeepsExtending(v, asked, later);
    JoinAdmits(d, after, now, symbol, depth);
  }
}
