/** What one order comes to, told from the order's own fields and the orders it meets. */
module Outcomes {
  import opened Core
  import opened PriceLevels
  import opened NaiveBook
  import opened Depths
  import opened BookInvariant
  import opened MatchingSpec
  import opened MatchingLaws

  // ---- How much an order can trade ----------------------------------------

  /** A resting price an order on `side` with this limit can trade at. */
  predicate WithinLimit(side: Side, limit: int, price: int) {
    if side == Buy then price <= limit else price >= limit
  }

  /** Summed open quantity of the orders priced within a limit. */
  function Affordable(q: seq<Order>, side: Side, limit: int): int {
    if q == [] then 0
    else (if WithinLimit(side, limit, q[0].price) then q[0].remaining else 0) + Affordable(q[1..], side, limit)
  }

  /** What an order could trade with: a market order with everything on the other side, a limit
      order with what is priced within its limit. */
  function Available(b: Book, o: Order): int {
    var q := Queue(b, Opposite(o.side));
    if o.kind == Market then Volume(q) else Affordable(q, o.side, o.price)
  }

  lemma {:induction false} MarketCrossesAll(q: seq<Order>, o: Order)
    requires o.kind == Market
    ensures CrossingVolume(q, o) == Volume(q)
  {
    if q != [] {
      MarketCrossesAll(q[1..], o);
    }
  }

  lemma {:induction false} LimitCrosses(q: seq<Order>, o: Order)
    requires o.kind == Limit
    ensures CrossingVolume(q, o) == Affordable(q, o.side, o.price)
  {
    if q != [] {
      LimitCrosses(q[1..], o);
    }
  }

  lemma AvailableCrosses(b: Book, o: Order)
    ensures CrossingVolume(Queue(b, Opposite(o.side)), o) == Available(b, o)
  {
    if o.kind == Market {
      MarketCrossesAll(Queue(b, Opposite(o.side)), o);
    } else {
      LimitCrosses(Queue(b, Opposite(o.side)), o);
    }
  }

  // ---- Submitting ---------------------------------------------------------

  /** The order reaches the book: right symbol, positive quantity, and a fill-or-kill order finds
      enough. */
  predicate Enters(b: Book, o: Order) {
    o.symbol == b.symbol && o.quantity > 0 && (o.tif == FOK ==> Available(b, o) >= o.quantity)
  }

  /** Every order is refused for exactly these reasons, and one that enters trades all it can, up
      to its quantity. */
  lemma SubmitTrades(e: Engine, o: Order)
    requires BookOk(e.book)
    ensures var (e', out) := Submit(e, o);
            var can := Available(e.book, o);
            && (out.reject == UnknownSymbol <==> o.symbol != e.book.symbol)
            && (out.reject == RejectReason.InvalidQuantity <==> o.symbol == e.book.symbol && o.quantity <= 0)
            && (out.reject == FokNotFillable <==>
                  o.symbol == e.book.symbol && o.quantity > 0 && o.tif == FOK && can < o.quantity)
            && (!Enters(e.book, o) ==> e' == e && out.fills == [] && !out.rested && out.remainingAfter == o.quantity)
            && (Enters(e.book, o) ==>
                  && Taken(out.fills) == Min(o.quantity, can)
                  && out.remainingAfter == o.quantity - Min(o.quantity, can))
  {
    var entering, q := o.(remaining := o.quantity), Queue(e.book, Opposite(o.side));
    AvailableCrosses(e.book, o);
    CrossingSame(q, o, entering);
    OkAllOpen(e.book, Opposite(o.side));
    if Enters(e.book, o) {
      ConsumeTotal(q, entering, e.nextMatchId);
      ConsumeBalance(q, entering, e.nextMatchId);
    }
  }

  /** What is left rests exactly for a day limit order that is not refused for capacity: the own
      side gains the order as it came, with what is left of it open, behind every order at least
      as good and ahead of every worse one.  Whatever else is left is dropped without a reason. */
  lemma SubmitRests(e: Engine, o: Order)
    requires BookOk(e.book)
    ensures var (e', out) := Submit(e, o);
            var left := o.kind == Limit && o.tif == Day && out.remainingAfter > 0;
            var own := Queue(e.book, o.side);
            && (out.rested <==> Enters(e.book, o) && left && out.reject == NoReason)
            && (Enters(e.book, o) && !left ==> out.reject == NoReason)
            && (!out.rested ==> Queue(e'.book, o.side) == own)
            && (out.rested ==> Queued(own, Queue(e'.book, o.side), o.(remaining := out.remainingAfter)))
  {
    var entering := o.(remaining := o.quantity);
    AvailableCrosses(e.book, o);
    CrossingSame(Queue(e.book, Opposite(o.side)), o, entering);
    if Submit(e, o).1.rested {
      InsertQueued(Queue(e.book, o.side), o.(remaining := Submit(e, o).1.remainingAfter));
    }
  }

  /** `q'` is `q` with `o` put in by price and then by arrival. */
  ghost predicate Queued(q: seq<Order>, q': seq<Order>, o: Order) {
    exists p :: 0 <= p <= |q| && QueuedAt(q, q', o, p)
  }

  predicate QueuedAt(q: seq<Order>, q': seq<Order>, o: Order, p: nat)
    requires p <= |q|
  {
    && q' == q[..p] + [o] + q[p..]
    && (forall k :: 0 <= k < p ==> if o.side == Buy then q[k].price >= o.price else q[k].price <= o.price)
    && (forall k :: p <= k < |q| ==> if o.side == Buy then q[k].price < o.price else q[k].price > o.price)
  }

  lemma InsertQueued(q: seq<Order>, o: Order)
    requires Sorted(o.side, q)
    ensures Queued(q, Insert(q, o), o)
  {
    var p := InsertPlace(q, o);
    var r := Insert(q, o);
    assert r == q[..p] + [o] + q[p..];
    assert QueuedAt(q, r, o, p);
  }

  /** A resting order that a fill of `n` meets: gone if that was all of it, else smaller. */
  function AfterFill(o: Order, n: int): seq<Order> {
    if n == o.remaining then [] else [o.(remaining := o.remaining - n)]
  }

  predicate FillOf(f: Fill, o: Order, resting: Order, matchId: nat) {
    && f.matchId == matchId && f.symbol == o.symbol
    && f.restingId == resting.id && f.restingClient == resting.client && f.price == resting.price
    && f.aggressorId == o.id && f.aggressorClient == o.client && f.aggressorSide == o.side
    && 0 < f.quantity <= resting.remaining && (f.restingFullyFilled <==> f.quantity == resting.remaining)
    && (o.kind == Limit ==> WithinLimit(o.side, o.price, f.price))
  }

  /** Fill by fill: the i-th names the i-th best resting order and the order that came, at the
      resting price, which is within the order's limit unless it is a market order, under the
      next match id; what is left of the last order met and the orders beyond it are all that
      is left of that side. */
  ghost predicate Swept(fills: seq<Fill>, left: seq<Order>, q: seq<Order>, o: Order, matchId: nat) {
    var m := |fills|;
    && m <= |q|
    && (forall i :: 0 <= i < m ==> FillOf(fills[i], o, q[i], matchId + i))
    && (forall i :: 0 <= i < m - 1 ==> fills[i].quantity == q[i].remaining)
    && left == if m == 0 then q else AfterFill(q[m - 1], fills[m - 1].quantity) + q[m..]
  }

  lemma ConsumeSweeps(q: seq<Order>, a: Order, id: nat)
    requires AllOpen(q)
    ensures Swept(Consume(q, a, id).fills, Consume(q, a, id).left, q, a, id)
  {
    ConsumePriority(q, a, id);
    EarlierInFull(q, a, id);
    var s := Consume(q, a, id);
    var m := |s.fills|;
    if m > 0 && s.fills[m - 1].restingFullyFilled {
      assert [] + q[m..] == q[m..];
    }
  }

  lemma SweptSame(fills: seq<Fill>, left: seq<Order>, q: seq<Order>, a: Order, o: Order, matchId: nat)
    requires Swept(fills, left, q, a, matchId) && a == o.(remaining := a.remaining)
    ensures Swept(fills, left, q, o, matchId)
  {
  }

  /** An order that enters sweeps the other side; any other leaves it alone. */
  lemma SubmitSweeps(e: Engine, o: Order)
    requires BookOk(e.book)
    ensures var (e', out) := Submit(e, o);
            var other := Opposite(o.side);
            && Swept(out.fills, Queue(e'.book, other), Queue(e.book, other), o, e.nextMatchId)
            && e'.nextMatchId == e.nextMatchId + |out.fills|
  {
    if Enters(e.book, o) {
      var entering, q := o.(remaining := o.quantity), Queue(e.book, Opposite(o.side));
      var s := Consume(q, entering, e.nextMatchId);
      OkAllOpen(e.book, Opposite(o.side));
      EnteredForm(e, o);
      ConsumeSweeps(q, entering, e.nextMatchId);
      SweptSame(s.fills, s.left, q, entering, o, e.nextMatchId);
    } else {
      SubmitTrades(e, o);
    }
  }

  lemma EnteredForm(e: Engine, o: Order)
    requires Enters(e.book, o)
    ensures var (e', out) := Submit(e, o);
            var other := Opposite(o.side);
            var s := Consume(Queue(e.book, other), o.(remaining := o.quantity), e.nextMatchId);
            && out.fills == s.fills && Queue(e'.book, other) == s.left
            && e'.nextMatchId == e.nextMatchId + |s.fills|
  {
    AvailableCrosses(e.book, o);
    CrossingSame(Queue(e.book, Opposite(o.side)), o, o.(remaining := o.quantity));
  }

  lemma {:induction false} EarlierInFull(q: seq<Order>, a: Order, id: nat)
    requires AllOpen(q)
    ensures var s := Consume(q, a, id);
            |s.fills| <= |q| && forall i :: 0 <= i < |s.fills| - 1 ==> s.fills[i].quantity == q[i].remaining
  {
    if !(a.remaining <= 0 || q == [] || !Crosses(a, q[0].price)) {
      var n := Min(a.remaining, q[0].remaining);
      if n == q[0].remaining {
        var a' := a.(remaining := a.remaining - n);
        EarlierInFull(q[1..], a', id + 1);
        var s, s' := Consume(q, a, id), Consume(q[1..], a', id + 1);
        forall i | 0 < i < |s.fills| - 1
          ensures s.fills[i].quantity == q[i].remaining
        {
          assert s.fills[i] == s'.fills[i - 1];
        }
      }
    }
  }

  // ---- Refusals of the book itself ----------------------------------------

  /** The reasons not to rest an order, and the order they are found in. */
  lemma AddRefusals(b: Book, o: Order)
    ensures var reason := AddRefusal(b, o);
            var open := o.kind == Limit && o.remaining > 0;
            var placed := open && b.base <= o.price < b.base + b.numLevels;
            var unused := !HasId(b.bids, o.id) && !HasId(b.asks, o.id);
            && (reason == Some(MarketOrderCannotRest) <==> o.kind == Market)
            && (reason == Some(AddError.InvalidQuantity) <==> o.kind == Limit && o.remaining <= 0)
            && (reason == Some(PriceOutOfRange) <==> open && !placed)
            && (reason == Some(AddError.DuplicateOrderId) <==> placed && !unused)
            && (reason == Some(PoolExhausted) <==> placed && unused && |b.bids| + |b.asks| == b.maxOrders)
            && (reason == None <==> placed && unused && |b.bids| + |b.asks| != b.maxOrders)
  {
  }

  /** The reasons not to re-queue an order in place. */
  lemma ReplaceRefusals(b: Book, id: nat, price: int, quantity: int)
    ensures var reason := ReplaceRefusal(b, id, price, quantity);
            var known := HasId(b.bids, id) || HasId(b.asks, id);
            var placed := b.base <= price < b.base + b.numLevels;
            && (reason == Some(ReplaceNotFound) <==> !known)
            && (reason == Some(ReplaceInvalidQuantity) <==> known && quantity <= 0)
            && (reason == Some(ReplaceOutOfRange) <==> known && quantity > 0 && !placed)
            && (reason == None <==> known && quantity > 0 && placed)
  {
  }

  /** An amended order keeps its identity and gets new terms, all of it open. */
  lemma AmendedTerms(o: Order, price: int, quantity: int, sequence: nat, timestamp: int)
    ensures Amended(o, price, quantity, sequence, timestamp) ==
            Order(o.id, o.client, o.symbol, o.side, o.kind, o.tif, price, quantity, quantity, sequence, timestamp)
  {
  }

  /** Cancelling takes out exactly the order under that id; the others keep their places. */
  lemma CancelTakesOne(b: Book, id: nat)
    requires BookOk(b)
    ensures var b' := Cancelled(b, id);
            && b' == b.(bids := b'.bids, asks := b'.asks)
            && !Resting(b', id)
            && (forall side :: HasId(Queue(b, side), id) ==>
                  exists k :: 0 <= k < |Queue(b, side)| && Queue(b, side)[k].id == id
                              && Queue(b', side) == Queue(b, side)[..k] + Queue(b, side)[k + 1..])
            && (forall side :: !HasId(Queue(b, side), id) ==> Queue(b', side) == Queue(b, side))
  {
    CancelledBook(b, id);
    forall side
      ensures if HasId(Queue(b, side), id) then
                exists k :: 0 <= k < |Queue(b, side)| && Queue(b, side)[k].id == id
                            && Queue(Cancelled(b, id), side) == Queue(b, side)[..k] + Queue(b, side)[k + 1..]
              else Queue(Cancelled(b, id), side) == Queue(b, side)
    {
      WithoutOne(Queue(b, side), id);
    }
  }

  lemma WithoutOne(q: seq<Order>, id: nat)
    requires UniqueIds(q)
    ensures if HasId(q, id) then
              exists k :: 0 <= k < |q| && q[k].id == id && Without(q, id) == q[..k] + q[k + 1..]
            else Without(q, id) == q
  {
    if HasId(q, id) {
      var k :| 0 <= k < |q| && q[k].id == id;
      WithoutAt(q, id, k);
    } else {
      WithoutAbsent(q, id);
    }
  }
}
