/** Laws of the driver over every run: the feed mirrors the book without gaps, accounts
    balance, and every level is in arrival order. */
module DriverLaws {
  import opened Core
  import opened NaiveBook
  import opened Depths
  import opened BookInvariant
  import opened MatchingSpec
  import opened MatchingLaws
  import opened Risk
  import opened Feed
  import opened DriverSpec
  import Codec
  import Snapshots

  // ---- Which levels a request touches -------------------------------------

  predicate PriceIn(fills: seq<Fill>, p: int) {
    exists k :: 0 <= k < |fills| && fills[k].price == p
  }

  lemma {:induction false} ConsumeAtPrice(q: seq<Order>, a: Order, id: nat, p: int)
    requires !PriceIn(Consume(q, a, id).fills, p)
    ensures AtPrice(Consume(q, a, id).left, p) == AtPrice(q, p)
  {
    if !(a.remaining <= 0 || q == [] || !Crosses(a, q[0].price)) {
      var n := Min(a.remaining, q[0].remaining);
      assert Consume(q, a, id).fills[0].price != p;
      if n == q[0].remaining {
        var s := Consume(q[1..], a.(remaining := a.remaining - n), id + 1);
        assert forall k :: 0 <= k < |s.fills| ==> s.fills[k] == Consume(q, a, id).fills[k + 1];
        ConsumeAtPrice(q[1..], a.(remaining := a.remaining - n), id + 1, p);
      }
    }
  }

  lemma {:induction false} InsertAtPrice(q: seq<Order>, o: Order, p: int)
    requires o.price != p
    ensures AtPrice(Insert(q, o), p) == AtPrice(q, p)
  {
    if q == [] || Rank(o.side, o.price) < Rank(o.side, q[0].price) {
      assert ([o] + q)[1..] == q;
    } else {
      InsertAtPrice(q[1..], o, p);
      assert Insert(q, o)[1..] == Insert(q[1..], o);
    }
  }

  lemma {:induction false} WithoutAtPrice(q: seq<Order>, id: nat, p: int)
    requires Find(q, id).Some? ==> Find(q, id).value.price != p
    ensures AtPrice(Without(q, id), p) == AtPrice(q, p)
  {
    if q != [] && q[0].id != id {
      WithoutAtPrice(q[1..], id, p);
    }
  }

  /** The levels named by fills: the resting side at each fill's price. */
  function FillKeys(fills: seq<Fill>): set<(Side, int)> {
    set k | 0 <= k < |fills| :: (Opposite(fills[k].aggressorSide), fills[k].price)
  }

  function RestKey(rested: bool, side: Side, price: int): set<(Side, int)> {
    if rested then {(side, price)} else {}
  }

  lemma Untouched(r: Replica, b: Book, b': Book, before: set<(Side, int)>, pending: set<(Side, int)>)
    requires MirrorsBut(r, b, before)
    requires forall side, price ::
               (side, price) in pending || AtPrice(Queue(b', side), price) == AtPrice(Queue(b, side), price)
    ensures MirrorsBut(r, b', before + pending)
  {
    forall side, price
      ensures (side, price) in before + pending || MirrorsAt(r, b', side, price)
    {
      assert (side, price) in before || MirrorsAt(r, b, side, price);
      assert (side, price) in pending || AtPrice(Queue(b', side), price) == AtPrice(Queue(b, side), price);
    }
  }

  /** A sweep leaves every level alone that no fill names. */
  lemma SweepTouches(q: seq<Order>, o: Order, id: nat, price: int)
    requires AllOpen(q)
    ensures var s := Consume(q, o, id);
            (Opposite(o.side), price) in FillKeys(s.fills) || AtPrice(s.left, price) == AtPrice(q, price)
  {
    var fills := Consume(q, o, id).fills;
    ConsumePriority(q, o, id);
    if PriceIn(fills, price) {
      var k :| 0 <= k < |fills| && fills[k].price == price;
      assert (Opposite(fills[k].aggressorSide), fills[k].price) in FillKeys(fills);
    } else {
      ConsumeAtPrice(q, o, id, price);
    }
  }

  lemma ExecuteTouches(e: Engine, o: Order, side: Side, price: int)
    requires AllOpen(Queue(e.book, Opposite(o.side)))
    ensures var (e', out) := Execute(e, o);
            || (side, price) in FillKeys(out.fills) + RestKey(out.rested, o.side, o.price)
            || AtPrice(Queue(e'.book, side), price) == AtPrice(Queue(e.book, side), price)
  {
    var (e', out) := Execute(e, o);
    var q := Queue(e.book, Opposite(o.side));
    if (side, price) !in FillKeys(out.fills) + RestKey(out.rested, o.side, o.price) {
      if side == Opposite(o.side) {
        SweepTouches(q, o, e.nextMatchId, price);
      } else if out.rested {
        InsertAtPrice(Queue(e.book, side), o.(remaining := out.remainingAfter), price);
      }
    }
  }

  /** After a submission a replica of the old book is right but for the fills' levels and
      the level the remainder joined. */
  lemma SubmitTouches(r: Replica, e: Engine, o: Order, before: set<(Side, int)>)
    requires BookOk(e.book) && MirrorsBut(r, e.book, before)
    ensures var (e', out) := Submit(e, o);
            MirrorsBut(r, e'.book, before + (FillKeys(out.fills) + RestKey(out.rested, o.side, o.price)))
  {
    var (e', out) := Submit(e, o);
    var pending := FillKeys(out.fills) + RestKey(out.rested, o.side, o.price);
    OkAllOpen(e.book, Opposite(o.side));
    forall side, price
      ensures (side, price) in pending || AtPrice(Queue(e'.book, side), price) == AtPrice(Queue(e.book, side), price)
    {
      ExecuteTouches(e, o.(remaining := o.quantity), side, price);
    }
    Untouched(r, e.book, e'.book, before, pending);
  }

  lemma CancelTouches(r: Replica, b: Book, id: nat)
    requires BookOk(b) && Mirrors(r, b) && Lookup(b, id).Some?
    ensures var o := Lookup(b, id).value; MirrorsBut(r, Cancelled(b, id), {(o.side, o.price)})
  {
    var o := Lookup(b, id).value;
    LookupOk(b, id);
    FindMeaning(b.bids, id);
    FindMeaning(b.asks, id);
    forall side, price
      ensures (side, price) in {(o.side, o.price)}
              || AtPrice(Queue(Cancelled(b, id), side), price) == AtPrice(Queue(b, side), price)
    {
      if (side, price) != (o.side, o.price) {
        if Find(Queue(b, side), id).Some? {
          FoundOnOneSide(b, id, side);
        }
        WithoutAtPrice(Queue(b, side), id, price);
      }
    }
    Untouched(r, b, Cancelled(b, id), {}, {(o.side, o.price)});
    assert {} + {(o.side, o.price)} == {(o.side, o.price)};
  }

  lemma FoundOnOneSide(b: Book, id: nat, side: Side)
    requires BookOk(b) && Find(Queue(b, side), id).Some?
    ensures Lookup(b, id) == Find(Queue(b, side), id) && Lookup(b, id).value.side == side
  {
    FindMeaning(b.bids, id);
    FindMeaning(b.asks, id);
    LookupOk(b, id);
  }

  // ---- Publishing the fills -----------------------------------------------

  predicate OnLadder(b: Book, fills: seq<Fill>) {
    forall k :: 0 <= k < |fills| ==> InRange(b, fills[k].price)
  }

  lemma LevelKeeps(t: Tape, b: Book, symbol: nat, side: Side, price: int, pending: set<(Side, int)>)
    requires GapFree(t) && InRange(b, price) && MirrorsBut(Replayed(t.sent), b, pending + {(side, price)})
    ensures var t' := LevelPublished(t, b, symbol, side, price);
            GapFree(t') && MirrorsBut(Replayed(t'.sent), b, pending)
  {
    LevelMirrored(t, b, symbol, side, price, pending);
    LevelNumbered(t, symbol, side, LevelOf(Queue(b, side), price));
  }

  lemma {:induction false} FillsPublished(d: Driver, symbol: nat, fills: seq<Fill>, pending: set<(Side, int)>)
    requires GapFree(d.tape) && OnLadder(d.engine.book, fills)
    requires MirrorsBut(Replayed(d.tape.sent), d.engine.book, pending + FillKeys(fills))
    ensures var d' := FillsApplied(d, symbol, fills);
            && GapFree(d'.tape)
            && MirrorsBut(Replayed(d'.tape.sent), d.engine.book, pending)
            && d' == d.(tape := d'.tape, exposures := d'.exposures, history := d'.history)
  {
    if fills == [] {
      assert pending + FillKeys(fills) == pending;
    } else {
      var init, f := fills[..|fills| - 1], fills[|fills| - 1];
      var key := (Opposite(f.aggressorSide), f.price);
      FillKeysLast(fills);
      assert pending + FillKeys(fills) == pending + {key} + FillKeys(init);
      FillsPublished(d, symbol, init, pending + {key});
      var d1 := FillsApplied(d, symbol, init);
      TradeKeeps(d1.tape, symbol, f);
      LevelKeeps(WithTrade(d1.tape, symbol, f), d.engine.book, symbol, key.0, key.1, pending);
    }
  }

  lemma FillKeysLast(fills: seq<Fill>)
    requires fills != []
    ensures var f := fills[|fills| - 1];
            FillKeys(fills) == FillKeys(fills[..|fills| - 1]) + {(Opposite(f.aggressorSide), f.price)}
  {
    var init, f := fills[..|fills| - 1], fills[|fills| - 1];
    forall key | key in FillKeys(fills)
      ensures key in FillKeys(init) + {(Opposite(f.aggressorSide), f.price)}
    {
      var k :| 0 <= k < |fills| && key == (Opposite(fills[k].aggressorSide), fills[k].price);
      if k < |init| {
        assert init[k] == fills[k];
      }
    }
    forall key | key in FillKeys(init)
      ensures key in FillKeys(fills)
    {
      var k :| 0 <= k < |init| && key == (Opposite(init[k].aggressorSide), init[k].price);
      assert init[k] == fills[k];
    }
    assert f == fills[|fills| - 1];
  }

  // ---- Arrival order within a level ---------------------------------------

  /** Price first, then sequence number. */
  predicate Ahead(side: Side, x: Order, y: Order) {
    Rank(side, x.price) < Rank(side, y.price) || (x.price == y.price && x.sequence < y.sequence)
  }

  /** Priority is price, then sequence number; every number was handed out already, and
      every client id is a 32-bit one. */
  predicate Stamped(side: Side, q: seq<Order>, bound: nat) {
    && (forall k :: 0 <= k < |q| ==> q[k].sequence < bound && q[k].client < ID_SPAN)
    && forall j, k :: 0 <= j < k < |q| ==> Ahead(side, q[j], q[k])
  }

  predicate BookStamped(b: Book, bound: nat) {
    Stamped(Buy, b.bids, bound) && Stamped(Sell, b.asks, bound)
  }

  lemma ThinnedStamped(side: Side, p: seq<Order>, q: seq<Order>, at: seq<nat>, bound: nat)
    requires Stamped(side, q, bound) && Thinned(p, q, at)
    ensures Stamped(side, p, bound)
  {
    forall j, k | 0 <= j < k < |p|
      ensures Ahead(side, p[j], p[k])
    {
      assert at[j] < at[k];
      assert Ahead(side, q[at[j]], q[at[k]]);
    }
  }

  lemma InsertStamped(q: seq<Order>, o: Order, bound: nat)
    requires Sorted(o.side, q) && Stamped(o.side, q, bound) && o.sequence == bound && o.client < ID_SPAN
    ensures Stamped(o.side, Insert(q, o), bound + 1)
  {
    var p := InsertPlace(q, o);
    var r := Insert(q, o);
    InsertedStamped(q, o, p, r, bound);
  }

  lemma InsertedStamped(q: seq<Order>, o: Order, p: nat, r: seq<Order>, bound: nat)
    requires Stamped(o.side, q, bound) && o.sequence == bound && o.client < ID_SPAN && Inserted(q, o, p, r)
    requires forall k :: 0 <= k < p ==> Rank(o.side, q[k].price) <= Rank(o.side, o.price)
    requires forall k :: p <= k < |q| ==> Rank(o.side, o.price) < Rank(o.side, q[k].price)
    ensures Stamped(o.side, r, bound + 1)
  {
    forall j, k | 0 <= j < k < |r|
      ensures Ahead(o.side, r[j], r[k])
    {
      if j != p && k != p {
        var j', k' := if j < p then j else j - 1, if k < p then k else k - 1;
        assert Ahead(o.side, q[j'], q[k']);
      }
    }
  }

  lemma ConsumeStamped(b: Book, a: Order, id: nat, bound: nat)
    requires BookOk(b) && BookStamped(b, bound)
    ensures var side := Opposite(a.side); Stamped(side, Consume(Queue(b, side), a, id).left, bound)
  {
    var side := Opposite(a.side);
    var q := Queue(b, side);
    OkAllOpen(b, side);
    var at := ConsumeThins(q, a, id);
    ThinnedStamped(side, Consume(q, a, id).left, q, at, bound);
  }

  lemma StampedLater(b: Book, bound: nat)
    requires BookStamped(b, bound)
    ensures BookStamped(b, bound + 1)
  {
  }

  lemma AddedStamped(b: Book, o: Order, bound: nat)
    requires BookOk(b) && BookStamped(b, bound) && o.sequence == bound && o.client < ID_SPAN
    ensures BookStamped(Added(b, o), bound + 1)
  {
    StampedLater(b, bound);
    OkAllOpen(b, o.side);
    InsertStamped(Queue(b, o.side), o, bound);
  }

  lemma ExecuteStamped(e: Engine, o: Order, bound: nat)
    requires BookOk(e.book) && BookStamped(e.book, bound) && o.sequence == bound && o.client < ID_SPAN
    ensures BookStamped(Execute(e, o).0.book, bound + 1)
  {
    var side := Opposite(o.side);
    var s := Consume(Queue(e.book, side), o, e.nextMatchId);
    var swept := WithQueue(e.book, side, s.left);
    ConsumeStamped(e.book, o, e.nextMatchId, bound);
    ConsumeKeeps(e.book, o, e.nextMatchId);
    assert BookStamped(swept, bound);
    StampedLater(swept, bound);
    AddedStamped(swept, o.(remaining := s.open), bound);
  }

  lemma SubmitStamped(e: Engine, o: Order, bound: nat)
    requires BookOk(e.book) && BookStamped(e.book, bound) && o.sequence == bound && o.client < ID_SPAN
    ensures BookStamped(Submit(e, o).0.book, bound + 1)
  {
    StampedLater(e.book, bound);
    ExecuteStamped(e, o.(remaining := o.quantity), bound);
  }

  lemma CancelStamped(b: Book, id: nat, bound: nat)
    requires BookOk(b) && BookStamped(b, bound)
    ensures BookStamped(Cancelled(b, id), bound)
  {
    OkAllOpen(b, Buy);
    OkAllOpen(b, Sell);
    var at := WithoutThins(b.bids, id);
    ThinnedStamped(Buy, Without(b.bids, id), b.bids, at, bound);
    var at' := WithoutThins(b.asks, id);
    ThinnedStamped(Sell, Without(b.asks, id), b.asks, at', bound);
  }

  lemma LookupClient(b: Book, id: nat, bound: nat)
    requires BookOk(b) && BookStamped(b, bound) && Lookup(b, id).Some?
    ensures Lookup(b, id).value.client < ID_SPAN
  {
    LookupOk(b, id);
  }

  // ---- Accounts -----------------------------------------------------------

  /** Both parties' entries of every fill, resting side first. */
  function Entries(fills: seq<Fill>, symbol: nat): seq<Entry> {
    if fills == [] then []
    else
      var f := fills[|fills| - 1];
      Entries(fills[..|fills| - 1], symbol) + [RestingEntry(f, symbol), AggressorEntry(f, symbol)]
  }

  ghost predicate Balanced(m: map<nat, Exposure>) {
    Total(m, Position()) == 0 && Total(m, CashFlow()) == 0
  }

  predicate Clients32(fills: seq<Fill>) {
    forall k :: 0 <= k < |fills| ==> fills[k].restingClient < ID_SPAN && fills[k].aggressorClient < ID_SPAN
  }

  /** Exposures are the booked history, which balances to zero and has 32-bit clients. */
  ghost predicate AccountsOk(d: Driver) {
    && d.exposures == RecordedAll(map[], Entries(d.history, d.engine.book.symbol))
    && Balanced(d.exposures)
    && Clients32(d.history)
  }

  lemma RecordedTwo(m: map<nat, Exposure>, log: seq<Entry>, x: Entry, y: Entry)
    ensures RecordedAll(m, log + [x, y]) == Recorded(Recorded(RecordedAll(m, log), x), y)
  {
    var full := log + [x, y];
    assert full[..|full| - 1] == log + [x];
    assert (log + [x])[..|log|] == log;
  }

  lemma {:induction false} FillsAccounted(d: Driver, symbol: nat, fills: seq<Fill>)
    requires AccountsOk(d) && symbol == d.engine.book.symbol && Clients32(fills)
    ensures AccountsOk(FillsApplied(d, symbol, fills))
    ensures FillsApplied(d, symbol, fills).history == d.history + fills
    ensures FillsApplied(d, symbol, fills).engine == d.engine
  {
    if fills != [] {
      var init, f := fills[..|fills| - 1], fills[|fills| - 1];
      FillsAccounted(d, symbol, init);
      var d1 := FillsApplied(d, symbol, init);
      FillAccounted(d1, symbol, f);
      assert d.history + init + [f] == d.history + fills;
    }
  }

  lemma FillAccounted(d: Driver, symbol: nat, f: Fill)
    requires AccountsOk(d) && symbol == d.engine.book.symbol && f.restingClient < ID_SPAN && f.aggressorClient < ID_SPAN
    ensures AccountsOk(FillApplied(d, symbol, f))
  {
    FillCancels(d.exposures, RestingEntry(f, symbol), AggressorEntry(f, symbol));
    RecordedTwo(map[], Entries(d.history, symbol), RestingEntry(f, symbol), AggressorEntry(f, symbol));
    assert (d.history + [f])[..|d.history|] == d.history;
  }

  // ---- The driver invariant -----------------------------------------------

  /** Match ids count the history, with `ahead` fills still to be applied. */
  predicate Numbered(d: Driver, ahead: nat) {
    && d.engine.nextMatchId == |d.history| + ahead + 1
    && forall k :: 0 <= k < |d.history| ==> d.history[k].matchId == k + 1
  }

  /** The driver between matching and publishing: the feed is behind at `pending` only. */
  ghost predicate MidOk(d: Driver, pending: set<(Side, int)>) {
    && BookOk(d.engine.book)
    && BookStamped(d.engine.book, d.nextSequence)
    && GapFree(d.tape)
    && MirrorsBut(Replayed(d.tape.sent), d.engine.book, pending)
    && AccountsOk(d)
    && Printed(d.tape.sent, d.history)
  }

  ghost predicate DriverOk(d: Driver) {
    MidOk(d, {}) && Numbered(d, 0)
  }

  /** What the fills of one submission look like. */
  ghost predicate FillsOk(e: Engine, symbol: nat, fills: seq<Fill>) {
    && OnLadder(e.book, fills)
    && Clients32(fills)
    && (fills != [] ==> symbol == e.book.symbol)
    && forall k :: 0 <= k < |fills| ==> fills[k].matchId == e.nextMatchId + k
  }

  predicate SameLadder(b: Book, b': Book) {
    b'.symbol == b.symbol && b'.base == b.base && b'.numLevels == b.numLevels
  }

  lemma SweepFills(b: Book, o: Order, id: nat, bound: nat)
    requires BookOk(b) && BookStamped(b, bound) && o.client < ID_SPAN
    ensures var fills := Consume(Queue(b, Opposite(o.side)), o, id).fills;
            && OnLadder(b, fills) && Clients32(fills)
            && forall k :: 0 <= k < |fills| ==> fills[k].matchId == id + k
  {
    OkAllOpen(b, Opposite(o.side));
    ConsumePriority(Queue(b, Opposite(o.side)), o, id);
  }

  lemma SubmitFills(e: Engine, o: Order, bound: nat)
    requires BookOk(e.book) && BookStamped(e.book, bound) && o.client < ID_SPAN
    ensures var (e', out) := Submit(e, o);
            && FillsOk(e, o.symbol, out.fills)
            && SameLadder(e.book, e'.book)
            && e'.nextMatchId == e.nextMatchId + |out.fills|
            && (out.rested ==> InRange(e.book, o.price))
  {
    SweepFills(e.book, o.(remaining := o.quantity), e.nextMatchId, bound);
  }

  lemma ReportedKeeps(d: Driver, id: nat, client: nat, symbol: nat, fills: seq<Fill>, leaves: int, exec: ExecType,
                      reason: RejectReason)
    requires DriverOk(d)
    ensures DriverOk(Reported(d, id, client, symbol, fills, leaves, exec, reason))
  {
    var d' := Reported(d, id, client, symbol, fills, leaves, exec, reason);
    var report := d'.tape.sent[|d.tape.sent|];
    ReportKeeps(d.tape, report);
    PrintsAppend(d.tape.sent, report);
  }

  lemma LevelMid(d: Driver, symbol: nat, side: Side, price: int, pending: set<(Side, int)>)
    requires MidOk(d, pending + {(side, price)}) && InRange(d.engine.book, price)
    ensures MidOk(d.(tape := LevelPublished(d.tape, d.engine.book, symbol, side, price)), pending)
  {
    LevelKeeps(d.tape, d.engine.book, symbol, side, price, pending);
    var t := LevelPublished(d.tape, d.engine.book, symbol, side, price);
    PrintsAppend(d.tape.sent, t.sent[|d.tape.sent|]);
  }

  lemma {:induction false} FillsPrinted(d: Driver, symbol: nat, fills: seq<Fill>)
    requires Printed(d.tape.sent, d.history)
    ensures var d' := FillsApplied(d, symbol, fills); Printed(d'.tape.sent, d'.history) && d'.engine == d.engine
  {
    if fills != [] {
      var init, f := fills[..|fills| - 1], fills[|fills| - 1];
      FillsPrinted(d, symbol, init);
      FillPrinted(FillsApplied(d, symbol, init), symbol, f);
    }
  }

  lemma FillPrinted(d: Driver, symbol: nat, f: Fill)
    requires Printed(d.tape.sent, d.history)
    ensures Printed(FillApplied(d, symbol, f).tape.sent, FillApplied(d, symbol, f).history)
  {
    var t := WithTrade(d.tape, symbol, f);
    PrintsAppend(d.tape.sent, t.sent[|d.tape.sent|]);
    var t' := LevelPublished(t, d.engine.book, symbol, Opposite(f.aggressorSide), f.price);
    if t' != t {
      PrintsAppend(t.sent, t'.sent[|t.sent|]);
    }
  }

  /** Applying a submission's fills brings the accounts and the feed up to date. */
  lemma FillsMid(d: Driver, symbol: nat, fills: seq<Fill>, pending: set<(Side, int)>)
    requires MidOk(d, pending + FillKeys(fills)) && Due(d, symbol, fills)
    ensures var d' := FillsApplied(d, symbol, fills);
            MidOk(d', pending) && Numbered(d', 0) && d'.engine == d.engine && d'.nextSequence == d.nextSequence
  {
    FillsPublished(d, symbol, fills, pending);
    FillsPrinted(d, symbol, fills);
    if fills != [] {
      FillsAccounted(d, symbol, fills);
    }
  }

  lemma NewKeeps(d: Driver, w: Wire)
    requires DriverOk(d) && w.WireNew? && w.client < ID_SPAN
    ensures DriverOk(New(d, w))
  {
    var o := Sequenced(w, d.nextSequence);
    var gate := Gate(d.limits, d.killSwitch, d.exposures, o);
    if gate != NoReason {
      RefusedKeeps(d, o, gate);
    } else {
      MatchedKeeps(d, o);
    }
  }

  lemma RefusedKeeps(d: Driver, o: Order, gate: RejectReason)
    requires DriverOk(d)
    ensures DriverOk(Refused(d, o, gate))
  {
    StampedLater(d.engine.book, d.nextSequence);
    ReportedKeeps(d.(nextSequence := d.nextSequence + 1), o.id, o.client, o.symbol, [], o.quantity, ExecRejected, gate);
  }

  lemma MatchedKeeps(d: Driver, o: Order)
    requires DriverOk(d) && o.sequence == d.nextSequence && o.client < ID_SPAN
    ensures DriverOk(Matched(d, o))
  {
    var out := Submit(d.engine, o).1;
    var settled := MatchedOk(d, o);
    ReportedKeeps(settled, o.id, o.client, o.symbol, out.fills, out.remainingAfter, NewExec(out), out.reject);
  }

  lemma SettledNew(d: Driver, o: Order) returns (settled: Driver)
    requires DriverOk(d) && o.sequence == d.nextSequence && o.client < ID_SPAN
    ensures DriverOk(settled)
    ensures settled == Settled(d.(engine := Submit(d.engine, o).0, nextSequence := d.nextSequence + 1), o,
            Submit(d.engine, o).1)
  {
    var (e, out) := Submit(d.engine, o);
    var rest := RestKey(out.rested, o.side, o.price);
    SubmitMid(d, o, {});
    assert {} + (FillKeys(out.fills) + rest) == rest + FillKeys(out.fills);
    var d1 := d.(engine := e, nextSequence := d.nextSequence + 1);
    settled := Settled(d1, o, out);
    SettledOk(d1, o, out);
  }

  lemma MatchedOk(d: Driver, o: Order) returns (settled: Driver)
    requires DriverOk(d) && o.sequence == d.nextSequence && o.client < ID_SPAN
    ensures var out := Submit(d.engine, o).1;
            && DriverOk(settled)
            && Matched(d, o) ==
               Reported(settled, o.id, o.client, o.symbol, out.fills, out.remainingAfter, NewExec(out), out.reject)
  {
    settled := SettledNew(d, o);
    MatchedForm(d, o, settled);
  }

  /** The fills of one submission, ready to be applied to a driver already past matching. */
  ghost predicate Due(d: Driver, symbol: nat, fills: seq<Fill>) {
    && OnLadder(d.engine.book, fills) && Clients32(fills)
    && (fills != [] ==> symbol == d.engine.book.symbol)
    && Numbered(d, |fills|)
    && forall k :: 0 <= k < |fills| ==> fills[k].matchId == |d.history| + 1 + k
  }

  lemma SettledOk(d: Driver, o: Order, out: Outcome)
    requires MidOk(d, RestKey(out.rested, o.side, o.price) + FillKeys(out.fills)) && Due(d, o.symbol, out.fills)
    requires out.rested ==> InRange(d.engine.book, o.price)
    ensures DriverOk(Settled(d, o, out))
  {
    FillsMid(d, o.symbol, out.fills, RestKey(out.rested, o.side, o.price));
    if out.rested {
      assert RestKey(true, o.side, o.price) == {} + {(o.side, o.price)};
      LevelMid(FillsApplied(d, o.symbol, out.fills), o.symbol, o.side, o.price, {});
    }
  }

  lemma RequeuedOk(d: Driver, o: Order, newPrice: int, out: Outcome)
    requires MidOk(d, RestKey(out.rested, o.side, newPrice) + {(o.side, o.price)} + FillKeys(out.fills))
             && Due(d, o.symbol, out.fills)
    requires InRange(d.engine.book, o.price) && InRange(d.engine.book, newPrice)
    ensures DriverOk(Requeued(d, o, newPrice, out))
  {
    var rest := RestKey(out.rested, o.side, newPrice);
    FillsMid(d, o.symbol, out.fills, rest + {(o.side, o.price)});
    var d1 := FillsApplied(d, o.symbol, out.fills);
    LevelMid(d1, o.symbol, o.side, o.price, rest);
    if out.rested {
      assert rest == {} + {(o.side, newPrice)};
      LevelMid(d1.(tape := LevelPublished(d1.tape, d.engine.book, o.symbol, o.side, o.price)), o.symbol, o.side,
        newPrice, {});
    }
  }

  /** Matching alone leaves the feed behind at the fills' levels and the resting level. */
  lemma SubmitMid(d: Driver, o: Order, before: set<(Side, int)>)
    requires MidOk(d, before) && Numbered(d, 0) && o.sequence == d.nextSequence && o.client < ID_SPAN
    ensures var (e, out) := Submit(d.engine, o);
            var d' := d.(engine := e, nextSequence := d.nextSequence + 1);
            && MidOk(d', before + (FillKeys(out.fills) + RestKey(out.rested, o.side, o.price)))
            && Due(d', o.symbol, out.fills) && SameLadder(d.engine.book, e.book)
            && (out.rested ==> InRange(e.book, o.price))
  {
    SubmitFills(d.engine, o, d.nextSequence);
    SubmitKeeps(d.engine, o);
    SubmitStamped(d.engine, o, d.nextSequence);
    SubmitTouches(Replayed(d.tape.sent), d.engine, o, before);
  }

  /** So does cancelling, at the cancelled order's level. */
  lemma CancelMid(d: Driver, id: nat)
    requires DriverOk(d) && Lookup(d.engine.book, id).Some?
    ensures var o := Lookup(d.engine.book, id).value;
            var d' := d.(engine := Cancel(d.engine, id));
            && MidOk(d', {} + {(o.side, o.price)}) && Numbered(d', 0)
            && InRange(d.engine.book, o.price) && o.symbol == d.engine.book.symbol && o.client < ID_SPAN
  {
    var o := Lookup(d.engine.book, id).value;
    LookupOk(d.engine.book, id);
    LookupClient(d.engine.book, id, d.nextSequence);
    CancelledBook(d.engine.book, id);
    CancelStamped(d.engine.book, id, d.nextSequence);
    CancelTouches(Replayed(d.tape.sent), d.engine.book, id);
    assert {} + {(o.side, o.price)} == {(o.side, o.price)};
  }

  lemma CancelKeeps(d: Driver, w: Wire)
    requires DriverOk(d) && w.WireCancel?
    ensures DriverOk(CancelAt(d, w))
  {
    match Lookup(d.engine.book, w.id)
    case None =>
      ReportedKeeps(d, w.id, w.client, w.symbol, [], 0, ExecRejected, UnknownOrder);
    case Some(o) =>
      var e := Cancel(d.engine, w.id);
      CancelMid(d, w.id);
      LevelMid(d.(engine := e), o.symbol, o.side, o.price, {});
      var d1 := d.(engine := e, tape := LevelPublished(d.tape, e.book, o.symbol, o.side, o.price));
      ReportedKeeps(d1, w.id, o.client, o.symbol, [], 0, ExecCancelled, NoReason);
  }

  lemma ReplaceKeepsDriver(d: Driver, w: Wire)
    requires DriverOk(d) && w.WireReplace?
    ensures DriverOk(ReplaceAt(d, w))
  {
    match Lookup(d.engine.book, w.id)
    case None =>
      ReportedKeeps(d, w.id, w.client, w.symbol, [], 0, ExecRejected, UnknownOrder);
    case Some(o) =>
      var (e, out) := Replace(d.engine, w.id, w.newPrice, w.newQuantity, d.nextSequence, w.timestamp);
      var d1 := d.(engine := e, nextSequence := d.nextSequence + 1);
      ReplaceNeverLoses(d.engine, w.id, w.newPrice, w.newQuantity, d.nextSequence, w.timestamp);
      if out.reject != NoReason {
        StampedLater(d.engine.book, d.nextSequence);
        ReportedKeeps(d1, w.id, o.client, o.symbol, [], 0, ExecRejected, out.reject);
      } else {
        ReplaceMid(d, w.id, w.newPrice, w.newQuantity, w.timestamp);
        RequeuedOk(d1, o, w.newPrice, out);
        ReportedKeeps(Requeued(d1, o, w.newPrice, out), w.id, o.client, o.symbol, out.fills, out.remainingAfter,
          ReplaceExec(out), NoReason);
      }
  }

  lemma ReplaceMid(d: Driver, id: nat, price: int, quantity: int, timestamp: int)
    requires DriverOk(d) && ReplaceReject(d.engine, id, price, quantity) == NoReason
    ensures var o := Lookup(d.engine.book, id).value;
            var (e, out) := Replace(d.engine, id, price, quantity, d.nextSequence, timestamp);
            var d' := d.(engine := e, nextSequence := d.nextSequence + 1);
            && MidOk(d', RestKey(out.rested, o.side, price) + {(o.side, o.price)} + FillKeys(out.fills))
            && Due(d', o.symbol, out.fills)
            && InRange(e.book, o.price) && InRange(e.book, price)
  {
    var o := Lookup(d.engine.book, id).value;
    CancelMid(d, id);
    var d1 := d.(engine := Cancel(d.engine, id));
    var amended := Amended(o, price, quantity, d.nextSequence, timestamp);
    SubmitMid(d1, amended, {} + {(o.side, o.price)});
    var (e, out) := Submit(d1.engine, amended);
    var rest := RestKey(out.rested, o.side, price);
    assert {} + {(o.side, o.price)} + (FillKeys(out.fills) + rest) == rest + {(o.side, o.price)} + FillKeys(out.fills);
  }

  predicate Wire32(w: Wire) {
    w.WireNew? ==> w.client < ID_SPAN
  }

  lemma ProcessKeeps(d: Driver, w: Wire)
    requires DriverOk(d) && Wire32(w)
    ensures DriverOk(Process(d, w))
  {
    match w
    case WireNew(_, _, _, _, _, _, _, _, _) => NewKeeps(d, w);
    case WireCancel(_, _, _) => CancelKeeps(d, w);
    case WireReplace(_, _, _, _, _, _) => ReplaceKeepsDriver(d, w);
    case WireKillSwitch(_) =>
    case WireSnapshot(symbol, depth) => SnapshotKeeps(d.tape, symbol % Codec.U32_SPAN, d.engine.book, depth);
  }

  lemma FreshOk(v: Venue)
    ensures DriverOk(FreshDriver(v))
  {
  }

  /** Every reachable driver state satisfies the invariant. */
  lemma {:induction false} RunOk(v: Venue, ws: seq<Wire>)
    requires forall k :: 0 <= k < |ws| ==> Wire32(ws[k])
    ensures DriverOk(ProcessAll(FreshDriver(v), ws))
  {
    if ws == [] {
      FreshOk(v);
    } else {
      RunOk(v, ws[..|ws| - 1]);
      ProcessKeeps(ProcessAll(FreshDriver(v), ws[..|ws| - 1]), ws[|ws| - 1]);
    }
  }

  // ---- What it means ------------------------------------------------------

  /** A subscriber who applies only the published level updates holds, after every request,
      exactly the book's levels; sequence numbers have no gap; and the trade prints are
      exactly the fills. */
  lemma FeedReplica(v: Venue, ws: seq<Wire>)
    requires forall k :: 0 <= k < |ws| ==> Wire32(ws[k])
    ensures var d := ProcessAll(FreshDriver(v), ws);
            && Mirrors(Replayed(d.tape.sent), d.engine.book)
            && GapFree(d.tape)
            && Printed(d.tape.sent, d.history)
  {
    RunOk(v, ws);
    var d := ProcessAll(FreshDriver(v), ws);
    forall side, price
      ensures MirrorsAt(Replayed(d.tape.sent), d.engine.book, side, price)
    {
      assert (side, price) in {} || MirrorsAt(Replayed(d.tape.sent), d.engine.book, side, price);
    }
  }

  /** Positions and cash flows of all accounts sum to zero after every request, so total
      worth at any one mark is zero and summed PnL is the accounts' drift from that mark; each
      account is the fold of its own fills. */
  lemma ZeroSum(v: Venue, ws: seq<Wire>, mark: int, client: nat)
    requires forall k :: 0 <= k < |ws| ==> Wire32(ws[k])
    requires client < ID_SPAN && v.symbol < ID_SPAN
    ensures var d := ProcessAll(FreshDriver(v), ws);
            && Total(d.exposures, Position()) == 0
            && Total(d.exposures, CashFlow()) == 0
            && Total(d.exposures, WorthAt(mark)) == 0
            && Total(d.exposures, OwnPnl()) == Total(d.exposures, Drift(mark))
            && Held(d.exposures, AccountKey(client, v.symbol)) == Own(Entries(d.history, v.symbol), client, v.symbol)
  {
    RunOk(v, ws);
    var d := ProcessAll(FreshDriver(v), ws);
    LadderFixed(FreshDriver(v), ws);
    SummedPnl(d.exposures, mark);
    EntriesOnWire(d.history, v.symbol);
    ExposureIsOwn(Entries(d.history, v.symbol), client, v.symbol);
  }

  /** What every fill re-marked, in the accounts as they stood before it. */
  function Remarkings(fills: seq<Fill>, symbol: nat): int {
    if fills == [] then 0
    else
      var init, f := fills[..|fills| - 1], fills[|fills| - 1];
      Remarkings(init, symbol)
        + Remarking(RecordedAll(map[], Entries(init, symbol)), RestingEntry(f, symbol), AggressorEntry(f, symbol))
  }

  lemma {:induction false} HistoryRemarks(fills: seq<Fill>, symbol: nat)
    ensures Total(RecordedAll(map[], Entries(fills, symbol)), OwnPnl()) == Remarkings(fills, symbol)
  {
    if fills != [] {
      var init, f := fills[..|fills| - 1], fills[|fills| - 1];
      HistoryRemarks(init, symbol);
      RecordedTwo(map[], Entries(init, symbol), RestingEntry(f, symbol), AggressorEntry(f, symbol));
      FillRemarks(RecordedAll(map[], Entries(init, symbol)), RestingEntry(f, symbol), AggressorEntry(f, symbol));
    }
  }

  /** Over every run, summed PnL is the sum of what its fills re-marked. */
  lemma RunPnl(v: Venue, ws: seq<Wire>)
    requires forall k :: 0 <= k < |ws| ==> Wire32(ws[k])
    ensures var d := ProcessAll(FreshDriver(v), ws);
            Total(d.exposures, OwnPnl()) == Remarkings(d.history, v.symbol)
  {
    RunOk(v, ws);
    LadderFixed(FreshDriver(v), ws);
    HistoryRemarks(ProcessAll(FreshDriver(v), ws).history, v.symbol);
  }

  lemma {:induction false} EntriesOnWire(fills: seq<Fill>, symbol: nat)
    requires Clients32(fills) && symbol < ID_SPAN
    ensures OnWire(Entries(fills, symbol))
  {
    if fills != [] {
      EntriesOnWire(fills[..|fills| - 1], symbol);
    }
  }

  lemma SubmitFixed(e: Engine, o: Order)
    ensures SameLadder(e.book, Submit(e, o).0.book)
  {
  }

  lemma ReplaceLadder(e: Engine, id: nat, price: int, quantity: int, sequence: nat, timestamp: int)
    ensures SameLadder(e.book, Replace(e, id, price, quantity, sequence, timestamp).0.book)
  {
    if ReplaceReject(e, id, price, quantity) == NoReason {
      SubmitFixed(Cancel(e, id), Amended(Lookup(e.book, id).value, price, quantity, sequence, timestamp));
    }
  }

  lemma NewFixed(d: Driver, w: Wire)
    requires w.WireNew?
    ensures SameLadder(d.engine.book, New(d, w).engine.book)
  {
    var o := Sequenced(w, d.nextSequence);
    var (e, out) := Submit(d.engine, o);
    SubmitFixed(d.engine, o);
  }

  lemma ReplaceFixed(d: Driver, w: Wire)
    requires w.WireReplace?
    ensures SameLadder(d.engine.book, ReplaceAt(d, w).engine.book)
  {
    if Lookup(d.engine.book, w.id).Some? {
      var o := Lookup(d.engine.book, w.id).value;
      var (e, out) := Replace(d.engine, w.id, w.newPrice, w.newQuantity, d.nextSequence, w.timestamp);
      ReplaceLadder(d.engine, w.id, w.newPrice, w.newQuantity, d.nextSequence, w.timestamp);
    }
  }

  lemma ProcessFixed(d: Driver, w: Wire)
    ensures SameLadder(d.engine.book, Process(d, w).engine.book)
  {
    match w
    case WireNew(_, _, _, _, _, _, _, _, _) => NewFixed(d, w);
    case WireCancel(_, _, _) =>
    case WireReplace(_, _, _, _, _, _) => ReplaceFixed(d, w);
    case WireKillSwitch(_) =>
    case WireSnapshot(_, _) =>
  }

  lemma {:induction false} LadderFixed(d: Driver, ws: seq<Wire>)
    ensures SameLadder(d.engine.book, ProcessAll(d, ws).engine.book)
  {
    if ws != [] {
      LadderFixed(d, ws[..|ws| - 1]);
      ProcessFixed(ProcessAll(d, ws[..|ws| - 1]), ws[|ws| - 1]);
    }
  }

  /** Each side is ordered by price and then by the driver's sequence numbers, every number
      used was handed out before, and the book is never crossed. */
  lemma TimePriority(v: Venue, ws: seq<Wire>)
    requires forall i :: 0 <= i < |ws| ==> Wire32(ws[i])
    ensures var d := ProcessAll(FreshDriver(v), ws);
            && Stamped(Buy, d.engine.book.bids, d.nextSequence)
            && Stamped(Sell, d.engine.book.asks, d.nextSequence)
            && Uncrossed(d.engine.book.bids, d.engine.book.asks)
  {
    RunOk(v, ws);
  }

  lemma ProcessScratch(d: Driver, w: Wire)
    ensures Process(d, w).tape.scratch >= d.tape.scratch
  {
    match w
    case WireNew(_, _, _, _, _, _, _, _, _) => NewScratch(d, w);
    case WireCancel(_, _, _) =>
    case WireReplace(_, _, _, _, _, _) => ReplaceScratch(d, w);
    case WireKillSwitch(_) =>
    case WireSnapshot(_, _) =>
  }

  lemma NewScratch(d: Driver, w: Wire)
    requires w.WireNew?
    ensures New(d, w).tape.scratch == d.tape.scratch
  {
  }

  lemma ReplaceScratch(d: Driver, w: Wire)
    requires w.WireReplace?
    ensures ReplaceAt(d, w).tape.scratch == d.tape.scratch
  {
  }

  lemma {:induction false} RunScratch(d: Driver, ws: seq<Wire>)
    ensures ProcessAll(d, ws).tape.scratch >= d.tape.scratch
  {
    if ws != [] {
      RunScratch(d, ws[..|ws| - 1]);
      ProcessScratch(ProcessAll(d, ws[..|ws| - 1]), ws[|ws| - 1]);
    }
  }

  /** The message a snapshot request adds to the feed, if any. */
  function SnapshotSent(d: Driver, symbol: nat, depth: nat): seq<Message> {
    var sent := Process(d, WireSnapshot(symbol, depth)).tape.sent;
    if |sent| < |d.tape.sent| then [] else sent[|d.tape.sent|..]
  }

  function SnapshotAsked(d: Driver, symbol: nat, depth: nat): Codec.Snapshot {
    Snapshots.SnapshotOf(d.tape.next, symbol % Codec.U32_SPAN, d.engine.book, depth)
  }

  /** The snapshot's levels are the best ones of the replica built from the feed so far. */
  ghost predicate ShowsReplica(d: Driver, s: Codec.Snapshot, depth: nat) {
    var limit := if depth == 0 then 1 else depth;
    var bids := Snapshots.Shown(Depth(d.engine.book.bids), depth);
    var asks := Snapshots.Shown(Depth(d.engine.book.asks), depth);
    && s.bids == Snapshots.RecordsOf(bids) && TopOf(Replayed(d.tape.sent), Buy, bids, limit)
    && s.asks == Snapshots.RecordsOf(asks) && TopOf(Replayed(d.tape.sent), Sell, asks, limit)
  }

  lemma SnapshotStep(d: Driver, symbol: nat, depth: nat)
    ensures var s := SnapshotAsked(d, symbol, depth);
            if Snapshots.Sendable(s, d.tape.scratch) then
              && |SnapshotSent(d, symbol, depth)| == 1 && SnapshotSent(d, symbol, depth)[0].BookSnapshot?
              && Codec.DecodeSnapshot(SnapshotSent(d, symbol, depth)[0].frame).snapshot == Some(s)
            else SnapshotSent(d, symbol, depth) == []
  {
    var s := SnapshotAsked(d, symbol, depth);
    if Snapshots.Sendable(s, d.tape.scratch) {
      FrameDecodes(s);
      var m := BookSnapshot(Codec.SnapshotBytes(s));
      assert (d.tape.sent + [m])[|d.tape.sent|..] == [m];
    }
  }

  lemma SnapshotShows(d: Driver, symbol: nat, depth: nat)
    requires BookOk(d.engine.book) && Mirrors(Replayed(d.tape.sent), d.engine.book)
    ensures ShowsReplica(d, SnapshotAsked(d, symbol, depth), depth)
  {
    OkAllOpen(d.engine.book, Buy);
    OkAllOpen(d.engine.book, Sell);
    TopMirrored(Replayed(d.tape.sent), d.engine.book, Buy, depth);
    TopMirrored(Replayed(d.tape.sent), d.engine.book, Sell, depth);
  }

  /** Whenever a snapshot is asked for, among any requests and other snapshots: it is dropped
      exactly when it cannot be framed (from 8192 scratch bytes, exactly when it has more than
      2729 levels), and sent it carries the next number of the shared run and decodes to the
      best levels of the subscriber's replica at that point. */
  lemma SnapshotsMatchReplica(v: Venue, ws: seq<Wire>, symbol: nat, depth: nat)
    requires forall k :: 0 <= k < |ws| ==> Wire32(ws[k])
    ensures var d := ProcessAll(FreshDriver(v), ws);
            var s, added := SnapshotAsked(d, symbol, depth), SnapshotSent(d, symbol, depth);
            && (added == [] <==>
                  || |s.bids| + |s.asks| > Snapshots.MAX_LEVELS
                  || 20 + 24 * (|s.bids| + |s.asks|) > 8 * d.tape.scratch)
            && (v.scratch >= 8192 ==> (added == [] <==> |s.bids| + |s.asks| > Snapshots.MAX_LEVELS))
            && (added != [] ==>
                  && |added| == 1 && added[0].BookSnapshot?
                  && Codec.DecodeSnapshot(added[0].frame).snapshot == Some(s)
                  && s.sequence == d.tape.next && s.symbol == symbol % Codec.U32_SPAN && ShowsReplica(d, s, depth))
  {
    var d := ProcessAll(FreshDriver(v), ws);
    RunOk(v, ws);
    FeedReplica(v, ws);
    RunScratch(FreshDriver(v), ws);
    Snapshots.LevelCeiling(SnapshotAsked(d, symbol, depth), d.tape.scratch);
    SnapshotStep(d, symbol, depth);
    SnapshotShows(d, symbol, depth);
  }

  lemma LastReport(d: Driver, id: nat, client: nat, symbol: nat, fills: seq<Fill>, leaves: int, exec: ExecType,
      reason: RejectReason)
    ensures var sent := Reported(d, id, client, symbol, fills, leaves, exec, reason).tape.sent;
            && |sent| > 0 && sent[|sent| - 1].ExecutionReport? && sent[|sent| - 1].orderId == id
            && sent[|sent| - 1].lastQuantity == Taken(fills) && sent[|sent| - 1].leavesQuantity == leaves
  {
  }

  /** Whatever happens to a new order, its report accounts for all of it. */
  lemma ReportAddsUp(d: Driver, w: Wire)
    requires DriverOk(d) && w.WireNew?
    ensures var sent := New(d, w).tape.sent;
            && |sent| > 0 && sent[|sent| - 1].ExecutionReport?
            && sent[|sent| - 1].orderId == w.id
            && sent[|sent| - 1].lastQuantity + sent[|sent| - 1].leavesQuantity == w.quantity
  {
    var o := Sequenced(w, d.nextSequence);
    var gate := Gate(d.limits, d.killSwitch, d.exposures, o);
    if gate != NoReason {
      LastReport(d.(nextSequence := d.nextSequence + 1), o.id, o.client, o.symbol, [], o.quantity, ExecRejected, gate);
    } else {
      var (e, out) := Submit(d.engine, o);
      var settled := Settled(d.(engine := e, nextSequence := d.nextSequence + 1), o, out);
      MatchedForm(d, o, settled);
      LastReport(settled, o.id, o.client, o.symbol, out.fills, out.remainingAfter, NewExec(out), out.reject);
      SubmitConserves(d.engine, o);
    }
  }

  /** A replace's report accounts for all of the amended quantity if the engine took it, and for
      nothing if not. */
  lemma ReplaceAddsUp(d: Driver, w: Wire)
    requires DriverOk(d) && w.WireReplace?
    ensures var sent := ReplaceAt(d, w).tape.sent;
            var taken := ReplaceReject(d.engine, w.id, w.newPrice, w.newQuantity) == NoReason;
            && |sent| > 0 && sent[|sent| - 1].ExecutionReport?
            && sent[|sent| - 1].orderId == w.id
            && sent[|sent| - 1].lastQuantity + sent[|sent| - 1].leavesQuantity == if taken then w.newQuantity else 0
  {
    match Lookup(d.engine.book, w.id)
    case None =>
      LastReport(d, w.id, w.client, w.symbol, [], 0, ExecRejected, UnknownOrder);
    case Some(o) =>
      var (e, out) := Replace(d.engine, w.id, w.newPrice, w.newQuantity, d.nextSequence, w.timestamp);
      var d1 := d.(engine := e, nextSequence := d.nextSequence + 1);
      ReplaceNeverLoses(d.engine, w.id, w.newPrice, w.newQuantity, d.nextSequence, w.timestamp);
      if out.reject != NoReason {
        LastReport(d1, w.id, o.client, o.symbol, [], 0, ExecRejected, out.reject);
      } else {
        LastReport(Requeued(d1, o, w.newPrice, out), w.id, o.client, o.symbol, out.fills, out.remainingAfter,
          ReplaceExec(out), NoReason);
      }
  }
}
