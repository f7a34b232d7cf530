/** The matching engine over the imperative order book. */
module Matching {
  import opened Core
  import opened NaiveBook
  import opened Depths
  import opened BookInvariant
  import opened MatchingSpec
  import opened MatchingLaws
  import opened Books

  // ---- The fill-or-kill pre-check -----------------------------------------

  /** The visitor of the pre-check: adds up level totals while the price crosses and stops
      as soon as `cap` is reached. */
  function Tally(a: Order, cap: int): (int, DepthLevel) -> (int, bool) {
    (total: int, level: DepthLevel) =>
      if !Crosses(a, level.price) then (total, false)
      else (total + level.quantity, total + level.quantity < cap)
  }

  function DepthCrossing(d: seq<DepthLevel>, a: Order): int {
    if d == [] then 0
    else (if Crosses(a, d[0].price) then d[0].quantity else 0) + DepthCrossing(d[1..], a)
  }

  lemma {:induction false} DepthCrossingTotal(q: seq<Order>, a: Order)
    ensures DepthCrossing(Depth(q), a) == CrossingVolume(q, a)
  {
    if q != [] {
      DepthCrossingTotal(q[1..], a);
      var rest := Depth(q[1..]);
      assert Depth(q)[1..] == if rest != [] && rest[0].price == q[0].price then rest[1..] else rest;
    }
  }

  lemma {:induction false} DepthPositive(q: seq<Order>)
    requires AllOpen(q)
    ensures forall j :: 0 <= j < |Depth(q)| ==> Depth(q)[j].quantity > 0
  {
    if q != [] {
      DepthPositive(q[1..]);
    }
  }

  lemma {:induction false} BeyondCrossing(d: seq<DepthLevel>, a: Order)
    requires Worsening(Opposite(a.side), d) && d != [] && !Crosses(a, d[0].price)
    ensures DepthCrossing(d, a) == 0
  {
    if |d| > 1 {
      WorseningTail(Opposite(a.side), d);
      assert Rank(Opposite(a.side), d[0].price) < Rank(Opposite(a.side), d[1].price);
      BeyondCrossing(d[1..], a);
    }
  }

  lemma WorseningTail(side: Side, d: seq<DepthLevel>)
    requires Worsening(side, d) && d != []
    ensures Worsening(side, d[1..])
  {
    assert forall k :: 0 <= k < |d| - 1 ==> d[1..][k] == d[k + 1];
  }

  lemma {:induction false} CrossingGrows(d: seq<DepthLevel>, a: Order)
    requires forall j :: 0 <= j < |d| ==> d[j].quantity > 0
    ensures DepthCrossing(d, a) >= 0
  {
    if d != [] {
      CrossingGrows(d[1..], a);
    }
  }

  /** Stopping early never changes the verdict against `cap`. */
  lemma {:induction false} TallyVerdict(d: seq<DepthLevel>, a: Order, cap: int, total: int)
    requires Worsening(Opposite(a.side), d) && total < cap
    requires forall j :: 0 <= j < |d| ==> d[j].quantity > 0
    ensures var t := Walk(Tally(a, cap), total, d);
            && (t < cap <==> total + DepthCrossing(d, a) < cap)
            && (t < cap ==> t == total + DepthCrossing(d, a))
  {
    if d != [] {
      WorseningTail(Opposite(a.side), d);
      CrossingGrows(d[1..], a);
      if !Crosses(a, d[0].price) {
        BeyondCrossing(d, a);
      } else if total + d[0].quantity < cap {
        TallyVerdict(d[1..], a, cap, total + d[0].quantity);
      }
    }
  }

  // ---- One trade ----------------------------------------------------------

  lemma FrontLookup(b: Book, side: Side)
    requires BookOk(b) && Queue(b, side) != []
    ensures Lookup(b, Queue(b, side)[0].id) == Some(Queue(b, side)[0])
    ensures Queue(b, side)[0].remaining > 0
    ensures AtPrice(Queue(b, side), Queue(b, side)[0].price)[..1] == [Queue(b, side)[0]]
  {
    var o := Queue(b, side)[0];
    FindMeaning(b.bids, o.id);
  }

  /** A sweep is its first trade followed by the sweep of what that trade leaves. */
  lemma ConsumeStep(q: seq<Order>, a: Order, id: nat)
    requires a.remaining > 0 && q != [] && Crosses(a, q[0].price) && q[0].remaining > 0
    ensures var n := Min(a.remaining, q[0].remaining);
            var s := Consume(Filled(q, q[0].id, n), a.(remaining := a.remaining - n), id + 1);
            Consume(q, a, id) == Sweep([MakeFill(a, q[0], n, id)] + s.fills, s.left, s.open)
  {
  }

  /** `goal` is what is already done followed by the sweep still to come. */
  ghost predicate Unfinished(goal: Sweep, done: seq<Fill>, q: seq<Order>, a: Order, id: nat) {
    var s := Consume(q, a, id);
    goal == Sweep(done + s.fills, s.left, s.open)
  }

  lemma TradeOnce(goal: Sweep, done: seq<Fill>, q: seq<Order>, a: Order, id: nat)
    requires Unfinished(goal, done, q, a, id)
    requires a.remaining > 0 && q != [] && Crosses(a, q[0].price) && q[0].remaining > 0
    ensures var n := Min(a.remaining, q[0].remaining);
            var q', a' := Filled(q, q[0].id, n), a.(remaining := a.remaining - n);
            && Unfinished(goal, done + [MakeFill(a, q[0], n, id)], q', a', id + 1)
            && |q'| + (if a'.remaining > 0 then 1 else 0) < |q| + 1
  {
    var n := Min(a.remaining, q[0].remaining);
    ConsumeStep(q, a, id);
    var s := Consume(Filled(q, q[0].id, n), a.(remaining := a.remaining - n), id + 1);
    assert done + ([MakeFill(a, q[0], n, id)] + s.fills) == done + [MakeFill(a, q[0], n, id)] + s.fills;
  }

  lemma AllTraded(goal: Sweep, done: seq<Fill>, q: seq<Order>, a: Order, id: nat)
    requires Unfinished(goal, done, q, a, id)
    requires a.remaining <= 0 || q == [] || !Crosses(a, q[0].price)
    ensures goal == Sweep(done, q, a.remaining)
  {
    assert done + [] == done;
  }

  class MatchingEngine {
    const book: OrderBook
    var nextMatchId: nat

    /** The book is sound and, folded for callers as in `OrderBook.Valid`, in good order. */
    ghost predicate Valid()
      reads this, book, book.repr
    {
      && this !in book.repr
      && book.Valid()
      && forall k: nat {:trigger Unfolded(k)} :: Unfolded(k) ==> BookOk(book.model)
    }

    static ghost predicate Unfolded(k: nat) {
      true
    }

    /** The engine of the matching rules that this object stands for. */
    ghost function State(): Engine
      requires Valid()
      reads this, book, book.repr
    {
      Engine(book.model, nextMatchId)
    }

    constructor (symbol: nat, basePrice: int, levels: nat, orders: nat)
      requires 0 < orders <= Slab.NONE
      ensures Valid() && State() == EmptyEngine(symbol, basePrice, levels, orders)
      ensures fresh(book) && fresh(book.repr)
    {
      book := new OrderBook(symbol, basePrice, levels, orders);
      nextMatchId := 1;
    }

    /** Trades with the front order of the best opposite level. */
    method TradeWithFront(a: Order, best: int) returns (fill: Fill)
      requires Valid() && a.remaining > 0
      requires Queue(book.model, Opposite(a.side)) != [] && best == Queue(book.model, Opposite(a.side))[0].price
      modifies this`nextMatchId, book.repr
      ensures Valid() && nextMatchId == old(nextMatchId) + 1
      ensures var q := Queue(old(book.model), Opposite(a.side));
              var n := Min(a.remaining, q[0].remaining);
              && fill == MakeFill(a, q[0], n, old(nextMatchId))
              && book.model == WithQueue(old(book.model), Opposite(a.side), Filled(q, q[0].id, n))
    {
      assert Unfolded(0);
      FrontLookup(book.model, Opposite(a.side));
      var front := book.FrontAt(Opposite(a.side), best);
      var resting := front.value;
      var n := Min(a.remaining, resting.remaining);
      FrontBook(book.model, Opposite(a.side), n);
      fill := Fill(nextMatchId, resting.id, resting.client, a.id, a.client, a.symbol, best, n, a.side,
        n == resting.remaining);
      nextMatchId := nextMatchId + 1;
      var reduced := book.ReduceQuantity(resting.id, n);
    }

    /** One turn of the matching loop: trades if the best opposite price crosses. */
    method TryTrade(a: Order) returns (fill: Option<Fill>)
      requires Valid() && a.remaining > 0
      modifies this`nextMatchId, book.repr
      ensures Valid()
      ensures var side := Opposite(a.side);
              var q := Queue(old(book.model), side);
              && (fill == None <==> q == [] || !Crosses(a, q[0].price))
              && (fill == None ==> book.model == old(book.model) && nextMatchId == old(nextMatchId))
              && (fill.Some? ==>
                    var n := Min(a.remaining, q[0].remaining);
                    && q[0].remaining > 0
                    && fill.value == MakeFill(a, q[0], n, old(nextMatchId)) && nextMatchId == old(nextMatchId) + 1
                    && book.model == WithQueue(old(book.model), side, Filled(q, q[0].id, n)))
    {
      assert Unfolded(0);
      var side := Opposite(a.side);
      var best := book.BestPrice(side);
      if best == None || !Crosses(a, best.value) {
        return None;
      }
      FrontLookup(book.model, side);
      var f := TradeWithFront(a, best.value);
      return Some(f);
    }

    /** The body of the matching loop, carrying what is left of the sweep. */
    method MatchOnce(a: Order, ghost goal: Sweep, ghost done: seq<Fill>) returns (fill: Option<Fill>)
      requires Valid() && a.remaining > 0
      requires Unfinished(goal, done, Queue(book.model, Opposite(a.side)), a, nextMatchId)
      modifies this`nextMatchId, book.repr
      ensures Valid()
      ensures book.model == WithQueue(old(book.model), Opposite(a.side), Queue(book.model, Opposite(a.side)))
      ensures fill == None ==>
                && nextMatchId == old(nextMatchId)
                && goal == Sweep(done, Queue(book.model, Opposite(a.side)), a.remaining)
      ensures fill.Some? ==>
                var q, a' := Queue(book.model, Opposite(a.side)), a.(remaining := a.remaining - fill.value.quantity);
                && nextMatchId == old(nextMatchId) + 1
                && Unfinished(goal, done + [fill.value], q, a', nextMatchId)
                && |q| + (if a'.remaining > 0 then 1 else 0) < |Queue(old(book.model), Opposite(a.side))| + 1
    {
      ghost var q, id := Queue(book.model, Opposite(a.side)), nextMatchId;
      fill := TryTrade(a);
      if fill == None {
        AllTraded(goal, done, q, a, id);
      } else {
        TradeOnce(goal, done, q, a, id);
      }
    }

    /** `MatchingEngine::match_against_book`. */
    method MatchAgainstBook(aggressor: Order, outFills: seq<Fill>) returns (a: Order, fills: seq<Fill>)
      requires Valid()
      modifies this`nextMatchId, book.repr
      ensures Valid()
      ensures var side := Opposite(aggressor.side);
              var s := Consume(Queue(old(book.model), side), aggressor, old(nextMatchId));
              && a == aggressor.(remaining := s.open)
              && fills == outFills + s.fills
              && book.model == WithQueue(old(book.model), side, s.left)
              && nextMatchId == old(nextMatchId) + |s.fills|
    {
      a, fills := aggressor, outFills;
      ghost var side := Opposite(aggressor.side);
      ghost var goal := Consume(Queue(book.model, side), aggressor, nextMatchId);
      ghost var done: seq<Fill> := [];
      assert done + goal.fills == goal.fills;
      while a.remaining > 0
        invariant Valid() && a == aggressor.(remaining := a.remaining)
        invariant fills == outFills + done && nextMatchId == old(nextMatchId) + |done|
        invariant book.model == WithQueue(old(book.model), side, Queue(book.model, side))
        invariant Unfinished(goal, done, Queue(book.model, side), a, nextMatchId)
        decreases |Queue(book.model, side)| + (if a.remaining > 0 then 1 else 0)
      {
        var fill := MatchOnce(a, goal, done);
        if fill == None {
          return;
        }
        fills := fills + [fill.value];
        a := a.(remaining := a.remaining - fill.value.quantity);
        done := done + [fill.value];
      }
      AllTraded(goal, done, Queue(book.model, side), a, nextMatchId);
    }

    /** `MatchingEngine::available_liquidity`: stops early, but decides against `cap` exactly
        as the full total of crossing orders would. */
    method AvailableLiquidity(o: Order, cap: int) returns (total: int)
      requires Valid() && cap > 0
      ensures var crossing := CrossingVolume(Queue(book.model, Opposite(o.side)), o);
              && (total < cap <==> crossing < cap)
              && (total < cap ==> total == crossing)
    {
      assert Unfolded(0);
      ghost var q := Queue(book.model, Opposite(o.side));
      total := book.ForEachLevel(Opposite(o.side), Tally(o, cap), 0);
      OkAllOpen(book.model, Opposite(o.side));
      DepthWorsening(Opposite(o.side), q);
      DepthPositive(q);
      TallyVerdict(Depth(q), o, cap, 0);
      DepthCrossingTotal(q, o);
    }

    /** `MatchingEngine::submit`. */
    method SubmitOrder(order: Order, outFills: seq<Fill>) returns (out: Outcome, fills: seq<Fill>)
      requires Valid()
      modifies this`nextMatchId, book.repr
      ensures Valid()
      ensures (State(), out) == Submit(old(State()), order)
      ensures fills == outFills + out.fills
    {
      assert Unfolded(0);
      fills := outFills;
      if order.symbol != book.symbol {
        return Outcome(UnknownSymbol, [], false, order.quantity), fills;
      }
      if order.quantity <= 0 {
        return Outcome(RejectReason.InvalidQuantity, [], false, order.quantity), fills;
      }
      var entering := order.(remaining := order.quantity);
      if order.tif == FOK {
        var available := AvailableLiquidity(entering, order.quantity);
        if available < order.quantity {
          return Outcome(FokNotFillable, [], false, order.quantity), fills;
        }
      }
      out, fills := MatchAndRest(entering, outFills);
    }

    method MatchAndRest(o: Order, outFills: seq<Fill>) returns (out: Outcome, fills: seq<Fill>)
      requires Valid() && o.symbol == book.symbol && 0 < o.remaining <= o.quantity
      modifies this`nextMatchId, book.repr
      ensures Valid()
      ensures (State(), out) == Execute(old(State()), o)
      ensures fills == outFills + out.fills
    {
      assert Unfolded(0);
      ExecuteKeeps(State(), o);
      var a;
      a, fills := MatchAgainstBook(o, outFills);
      assert fills[|outFills|..] == Consume(Queue(old(book.model), Opposite(o.side)), o, old(nextMatchId)).fills;
      var reason, rested := NoReason, false;
      if a.remaining > 0 && a.kind == Limit && a.tif == Day {
        var added := book.Add(a);
        if added.Ok? {
          rested := true;
        } else {
          reason := BookCapacityExceeded;
        }
      }
      out := Outcome(reason, fills[|outFills|..], rested, a.remaining);
    }

    /** `MatchingEngine::cancel`. */
    method CancelOrder(id: nat) returns (accepted: bool)
      requires Valid()
      modifies book.repr
      ensures Valid() && nextMatchId == old(nextMatchId)
      ensures accepted <==> Resting(old(book.model), id)
      ensures State() == Cancel(old(State()), id)
    {
      assert Unfolded(0);
      CancelledBook(book.model, id);
      var r := book.Cancel(id);
      accepted := r.Ok?;
    }

    /** `MatchingEngine::replace`. */
    method ReplaceOrder(id: nat, price: int, quantity: int, sequence: nat, timestamp: int, outFills: seq<Fill>)
      returns (out: Outcome, fills: seq<Fill>)
      requires Valid()
      modifies this`nextMatchId, book.repr
      ensures Valid()
      ensures (State(), out) == Replace(old(State()), id, price, quantity, sequence, timestamp)
      ensures fills == outFills + out.fills
    {
      assert Unfolded(0);
      fills := outFills;
      var existing := book.FindOrder(id);
      if existing == None {
        return Outcome(UnknownOrder, [], false, 0), fills;
      }
      if quantity <= 0 {
        return Outcome(RejectReason.InvalidQuantity, [], false, 0), fills;
      }
      if book.IndexOf(price) == None {
        return Outcome(InvalidPrice, [], false, 0), fills;
      }
      var updated := Amended(existing.value, price, quantity, sequence, timestamp);
      var cancelled := CancelOrder(id);
      out, fills := SubmitOrder(updated, outFills);
    }
  }
}
