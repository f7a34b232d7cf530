/** Laws of the matching engine, over single requests and over every run from an empty
    book. */
module MatchingLaws {
  import opened Core
  import opened PriceLevels
  import opened NaiveBook
  import opened Depths
  import opened BookInvariant
  import opened MatchingSpec

  // ---- The invariant: never crossed, sorted, unique, open -----------------

  lemma OkAllOpen(b: Book, side: Side)
    requires BookOk(b)
    ensures AllOpen(Queue(b, side)) && Sorted(side, Queue(b, side))
  {
  }

  lemma ConsumeThins(q: seq<Order>, a: Order, id: nat) returns (at: seq<nat>)
    requires AllOpen(q)
    ensures Thinned(Consume(q, a, id).left, q, at) && |Consume(q, a, id).left| <= |q|
  {
    ConsumePriority(q, a, id);
    var s := Consume(q, a, id);
    var m := |s.fills|;
    if m > 0 && !s.fills[m - 1].restingFullyFilled {
      assert s.left[1..] == q[m..];
      at := TailThins(s.left, q, m - 1);
    } else {
      at := TailThins(s.left, q, m);
    }
  }

  /** A tail whose first order may have lost some of its quantity. */
  lemma TailThins(left: seq<Order>, q: seq<Order>, from: nat) returns (at: seq<nat>)
    requires AllOpen(q) && from <= |q| && |left| == |q| - from
    requires left != [] ==> Trimmed(left[0], q[from]) && left[1..] == q[from + 1..]
    ensures Thinned(left, q, at)
  {
    at := seq(|left|, k => k + from);
    forall k | 0 < k < |left|
      ensures left[k] == q[k + from]
    {
      assert left[k] == left[1..][k - 1];
    }
  }

  lemma ConsumeKeeps(b: Book, a: Order, id: nat)
    requires BookOk(b)
    ensures var side := Opposite(a.side); BookOk(WithQueue(b, side, Consume(Queue(b, side), a, id).left))
  {
    var side := Opposite(a.side);
    OkAllOpen(b, side);
    var at := ConsumeThins(Queue(b, side), a, id);
    ThinnedBook(b, side, Consume(Queue(b, side), a, id).left, at);
  }

  /** What is left of an aggressor after the sweep no longer crosses anything. */
  lemma SweptShort(q: seq<Order>, a: Order, id: nat)
    requires AllOpen(q) && a.kind == Limit
    requires Sorted(Opposite(a.side), Consume(q, a, id).left) && Consume(q, a, id).open > 0
    ensures ShortOf(a, Consume(q, a, id).left)
  {
    ConsumeBalance(q, a, id);
  }

  lemma ExecuteKeeps(e: Engine, o: Order)
    requires BookOk(e.book) && o.symbol == e.book.symbol && 0 < o.remaining <= o.quantity
    ensures BookOk(Execute(e, o).0.book)
  {
    var side := Opposite(o.side);
    var q := Queue(e.book, side);
    var s := Consume(q, o, e.nextMatchId);
    ConsumeKeeps(e.book, o, e.nextMatchId);
    OkAllOpen(e.book, side);
    ConsumeBalance(q, o, e.nextMatchId);
    var swept, rest := WithQueue(e.book, side, s.left), o.(remaining := s.open);
    if Rests(rest) && AddRefusal(swept, rest) == None {
      OkAllOpen(swept, side);
      SweptShort(q, o, e.nextMatchId);
      assert ShortOf(rest, Queue(swept, side));
      AddedBook(swept, rest);
    }
  }

  lemma SubmitKeeps(e: Engine, o: Order)
    requires BookOk(e.book)
    ensures BookOk(Submit(e, o).0.book)
  {
    if o.symbol == e.book.symbol && o.quantity > 0 {
      ExecuteKeeps(e, o.(remaining := o.quantity));
    }
  }

  lemma ReplaceKeeps(e: Engine, id: nat, price: int, quantity: int, sequence: nat, timestamp: int)
    requires BookOk(e.book)
    ensures BookOk(Replace(e, id, price, quantity, sequence, timestamp).0.book)
  {
    CancelledBook(e.book, id);
    if ReplaceReject(e, id, price, quantity) == NoReason {
      SubmitKeeps(Cancel(e, id), Amended(Lookup(e.book, id).value, price, quantity, sequence, timestamp));
    }
  }

  // ---- Runs ---------------------------------------------------------------

  datatype Request =
    | NewOrder(order: Order)
    | CancelOrder(id: nat)
    | ReplaceOrder(id: nat, price: int, quantity: int, sequence: nat, timestamp: int)

  function Step(e: Engine, req: Request): (Engine, Outcome) {
    match req
    case NewOrder(o) => Submit(e, o)
    case CancelOrder(id) =>
      (Cancel(e, id), Outcome(if Resting(e.book, id) then NoReason else UnknownOrder, [], false, 0))
    case ReplaceOrder(id, price, quantity, sequence, timestamp) => Replace(e, id, price, quantity, sequence, timestamp)
  }

  function Run(e: Engine, reqs: seq<Request>): Engine
    decreases |reqs|
  {
    if reqs == [] then e else Run(Step(e, reqs[0]).0, reqs[1..])
  }

  lemma StepKeeps(e: Engine, req: Request)
    requires BookOk(e.book)
    ensures BookOk(Step(e, req).0.book)
  {
    match req
    case NewOrder(o) => SubmitKeeps(e, o);
    case CancelOrder(id) => CancelledBook(e.book, id);
    case ReplaceOrder(id, price, quantity, sequence, timestamp) =>
      ReplaceKeeps(e, id, price, quantity, sequence, timestamp);
  }

  lemma {:induction false} RunKeeps(e: Engine, reqs: seq<Request>)
    requires BookOk(e.book)
    ensures BookOk(Run(e, reqs).book)
    decreases |reqs|
  {
    if reqs != [] {
      StepKeeps(e, reqs[0]);
      RunKeeps(Step(e, reqs[0]).0, reqs[1..]);
    }
  }

  function BestOf(q: seq<Order>): Option<int> {
    if q == [] then None else Some(q[0].price)
  }

  /** However the engine is driven from an empty book, the best bid stays strictly below the
      best ask. */
  lemma NeverCrossed(symbol: nat, base: int, numLevels: nat, maxOrders: nat, reqs: seq<Request>)
    ensures var b := Run(EmptyEngine(symbol, base, numLevels, maxOrders), reqs).book;
            && BookOk(b)
            && (BestOf(b.bids).Some? && BestOf(b.asks).Some? ==> BestOf(b.bids).value < BestOf(b.asks).value)
  {
    RunKeeps(EmptyEngine(symbol, base, numLevels, maxOrders), reqs);
  }

  // ---- Fill or kill -------------------------------------------------------

  /** A fill-or-kill order is refused exactly when too little crosses; refused, it changes
      nothing, and accepted, it is filled in full. */
  lemma FillOrKillExact(e: Engine, o: Order)
    requires BookOk(e.book) && o.tif == FOK && o.symbol == e.book.symbol && o.quantity > 0
    ensures var (e', out) := Submit(e, o);
            var available := CrossingVolume(Queue(e.book, Opposite(o.side)), o);
            && (out.reject == FokNotFillable <==> available < o.quantity)
            && (out.reject == FokNotFillable ==> e' == e && out.fills == [])
            && (out.reject != FokNotFillable ==>
                  out.reject == NoReason && Taken(out.fills) == o.quantity && out.remainingAfter == 0)
  {
    var entering, q := o.(remaining := o.quantity), Queue(e.book, Opposite(o.side));
    CrossingSame(q, o, entering);
    OkAllOpen(e.book, Opposite(o.side));
    ConsumeTotal(q, entering, e.nextMatchId);
    ConsumeBalance(q, entering, e.nextMatchId);
  }

  // ---- Conservation -------------------------------------------------------

  lemma {:induction false} InsertVolume(q: seq<Order>, o: Order)
    ensures Volume(Insert(q, o)) == Volume(q) + o.remaining
  {
    if !(q == [] || Rank(o.side, o.price) < Rank(o.side, q[0].price)) {
      InsertVolume(q[1..], o);
    }
  }

  /** On every return path the quantity is what was filled plus what is reported open; the
      opposite side loses exactly the fills and the own side gains exactly what rests. */
  lemma SubmitConserves(e: Engine, o: Order)
    requires BookOk(e.book)
    ensures var (e', out) := Submit(e, o);
            var own, other := o.side, Opposite(o.side);
            && o.quantity == Taken(out.fills) + out.remainingAfter
            && Volume(Queue(e'.book, other)) == Volume(Queue(e.book, other)) - Taken(out.fills)
            && Volume(Queue(e'.book, own)) ==
               Volume(Queue(e.book, own)) + (if out.rested then out.remainingAfter else 0)
            && e'.nextMatchId == e.nextMatchId + |out.fills|
  {
    if Submit(e, o).1.reject !in {UnknownSymbol, RejectReason.InvalidQuantity, FokNotFillable} {
      ExecuteConserves(e, o.(remaining := o.quantity));
    }
  }

  lemma ExecuteConserves(e: Engine, o: Order)
    requires BookOk(e.book)
    ensures var (e', out) := Execute(e, o);
            var own, other := o.side, Opposite(o.side);
            && o.remaining == Taken(out.fills) + out.remainingAfter
            && Volume(Queue(e'.book, other)) == Volume(Queue(e.book, other)) - Taken(out.fills)
            && Volume(Queue(e'.book, own)) ==
               Volume(Queue(e.book, own)) + (if out.rested then out.remainingAfter else 0)
            && e'.nextMatchId == e.nextMatchId + |out.fills|
  {
    var q := Queue(e.book, Opposite(o.side));
    OkAllOpen(e.book, Opposite(o.side));
    ConsumeBalance(q, o, e.nextMatchId);
    InsertVolume(Queue(e.book, o.side), o.(remaining := Consume(q, o, e.nextMatchId).open));
  }

  // ---- Rejection for want of room -----------------------------------------

  /** The opposite orders from the first one the aggressor would not accept. */
  function Beyond(q: seq<Order>, a: Order): seq<Order> {
    if q == [] || !Crosses(a, q[0].price) then q else Beyond(q[1..], a)
  }

  /** An aggressor with something left over has consumed everything that crosses. */
  lemma {:induction false} ConsumeBeyond(q: seq<Order>, a: Order, id: nat)
    requires AllOpen(q) && Consume(q, a, id).open > 0
    ensures Consume(q, a, id).left == Beyond(q, a)
  {
    if a.remaining > 0 && q != [] && Crosses(a, q[0].price) {
      var a' := a.(remaining := a.remaining - q[0].remaining);
      if q[0].remaining <= a.remaining {
        ConsumeBeyond(q[1..], a', id + 1);
        BeyondSame(q[1..], a, a');
      }
    }
  }

  lemma {:induction false} BeyondSame(q: seq<Order>, a: Order, a': Order)
    requires a' == a.(remaining := a'.remaining)
    ensures Beyond(q, a) == Beyond(q, a')
  {
    if q != [] && Crosses(a, q[0].price) {
      BeyondSame(q[1..], a, a');
    }
  }

  /** The order has a remainder to rest: a day limit order larger than what crosses. */
  predicate LeavesRemainder(e: Engine, o: Order) {
    && o.symbol == e.book.symbol && o.quantity > 0 && o.kind == Limit && o.tif == Day
    && CrossingVolume(Queue(e.book, Opposite(o.side)), o) < o.quantity
  }

  /** The orders that are still resting when the remainder asks for room. */
  function Remaining(e: Engine, o: Order): nat {
    |Queue(e.book, o.side)| + |Beyond(Queue(e.book, Opposite(o.side)), o)|
  }

  /** A remainder meets exactly the own side and the orders beyond its price. */
  lemma RemainderMeets(e: Engine, o: Order)
    requires BookOk(e.book) && o.symbol == e.book.symbol && o.quantity > 0
    ensures var entering, opp := o.(remaining := o.quantity), Queue(e.book, Opposite(o.side));
            var s := Consume(opp, entering, e.nextMatchId);
            && (s.open > 0 <==> CrossingVolume(opp, o) < o.quantity)
            && (s.open > 0 ==> s.left == Beyond(opp, o))
  {
    var entering, opp := o.(remaining := o.quantity), Queue(e.book, Opposite(o.side));
    OkAllOpen(e.book, Opposite(o.side));
    CrossingSame(opp, o, entering);
    BeyondSame(opp, o, entering);
    ConsumeTotal(opp, entering, e.nextMatchId);
    ConsumeBalance(opp, entering, e.nextMatchId);
    if Consume(opp, entering, e.nextMatchId).open > 0 {
      ConsumeBeyond(opp, entering, e.nextMatchId);
    }
  }

  /** In terms of the book before the call: an order is refused for capacity if and only if it
      leaves a remainder whose price is off the ladder, whose id is taken on the own side or
      beyond the price, or for which those orders fill the book.  Refused, it leaves exactly
      those orders resting. */
  lemma CapacityReason(e: Engine, o: Order)
    requires BookOk(e.book)
    ensures var (e', out) := Submit(e, o);
            var own, beyond := Queue(e.book, o.side), Beyond(Queue(e.book, Opposite(o.side)), o);
            && (out.reject == BookCapacityExceeded <==>
                  && LeavesRemainder(e, o)
                  && (|| !InRange(e.book, o.price) || HasId(own, o.id) || HasId(beyond, o.id)
                      || Remaining(e, o) == e.book.maxOrders))
            && (out.reject == BookCapacityExceeded ==>
                  Queue(e'.book, o.side) == own && Queue(e'.book, Opposite(o.side)) == beyond)
  {
    if o.symbol == e.book.symbol && o.quantity > 0 {
      RemainderMeets(e, o);
    }
  }

  /** Hence the reason means a full book exactly when those orders fill it, and it always does
      for a fresh id at a price on the ladder. */
  lemma CapacityMeansFull(e: Engine, o: Order)
    requires BookOk(e.book)
    ensures var (e', out) := Submit(e, o);
            var full := |e'.book.bids| + |e'.book.asks| == e.book.maxOrders;
            out.reject == BookCapacityExceeded ==>
              && (full <==> Remaining(e, o) == e.book.maxOrders)
              && (!Resting(e.book, o.id) && InRange(e.book, o.price) ==> full)
  {
    CapacityReason(e, o);
    if !Resting(e.book, o.id) {
      BeyondIds(Queue(e.book, Opposite(o.side)), o, o.id);
    }
  }

  lemma {:induction false} BeyondIds(q: seq<Order>, a: Order, id: nat)
    requires !HasId(q, id)
    ensures !HasId(Beyond(q, a), id)
  {
    if q != [] && Crosses(a, q[0].price) {
      assert q[0].id != id;
      HasIdTail(q, id);
      BeyondIds(q[1..], a, id);
    }
  }

  lemma SweepIds(q: seq<Order>, s: Sweep, id: nat)
    requires |s.fills| <= |q| && LeavesRest(s, q) && !HasId(q, id)
    ensures !HasId(s.left, id)
  {
    var m := |s.fills|;
    var from := if m > 0 && !s.fills[m - 1].restingFullyFilled then m - 1 else m;
    assert forall k :: 0 <= k < |s.left| ==> s.left[k].id == q[from + k].id;
  }

  /** Otherwise it does not: an order off the ladder is refused for capacity
      on a book with room to spare. */
  lemma CapacityReasonMisleads()
    ensures var e := EmptyEngine(1, 100, 10, 8);
            var o := Order(7, 1, 1, Buy, Limit, Day, 50, 5, 5, 1, 0);
            Submit(e, o).1.reject == BookCapacityExceeded && Submit(e, o).0 == e
  {
  }

  /** A rejected order reports zero remaining if and only if it asked for zero. */
  lemma RejectedRemaining(e: Engine, o: Order)
    requires BookOk(e.book)
    ensures var out := Submit(e, o).1;
            out.reject != NoReason ==> (out.remainingAfter == 0 <==> o.quantity == 0)
  {
    SubmitConserves(e, o);
    if o.symbol == e.book.symbol && o.quantity > 0 {
      RemainderMeets(e, o);
    }
  }

  /** So a refused fill-or-kill order for five lots reports five remaining. */
  lemma RejectedRemainderPositive()
    ensures var e := EmptyEngine(1, 100, 10, 8);
            var o := Order(7, 1, 1, Buy, Limit, FOK, 105, 5, 5, 1, 0);
            Submit(e, o).1.reject == FokNotFillable && Submit(e, o).1.remainingAfter == 5
  {
  }

  // ---- Replace ------------------------------------------------------------

  /** Orders at the amended price, with the amended order behind all of them. */
  lemma {:induction false} InsertAtBack(q: seq<Order>, o: Order)
    requires Sorted(o.side, q)
    ensures AtPrice(Insert(q, o), o.price) == AtPrice(q, o.price) + [o]
  {
    if q == [] || Rank(o.side, o.price) < Rank(o.side, q[0].price) {
      AtPriceNone(q, o.price);
      assert ([o] + q)[1..] == q;
    } else {
      SortedTail(o.side, q);
      InsertAtBack(q[1..], o);
    }
  }

  lemma LookupOk(b: Book, id: nat)
    requires BookOk(b) && Lookup(b, id).Some?
    ensures var o := Lookup(b, id).value; RestOk(b, o.side, o) && o.id == id && o in Queue(b, o.side)
    ensures Resting(b, id)
  {
    FindMeaning(b.bids, id);
    FindMeaning(b.asks, id);
    var o := Lookup(b, id).value;
    if o in b.bids {
      var k :| 0 <= k < |b.bids| && b.bids[k] == o;
    } else {
      var k :| 0 <= k < |b.asks| && b.asks[k] == o;
    }
  }

  /** A replace is refused exactly for an id that does not rest, a quantity that is not positive
      or a price off the ladder, and then changes nothing.  Otherwise it is always accepted: the
      order leaves the book and re-enters with the new terms and nothing else changed, and is
      either filled in full or rests under its own id behind every order at its new price. */
  lemma ReplaceNeverLoses(e: Engine, id: nat, price: int, quantity: int, sequence: nat, timestamp: int)
    requires BookOk(e.book)
    ensures var (e', out) := Replace(e, id, price, quantity, sequence, timestamp);
            var known := Resting(e.book, id);
            var valid := known && quantity > 0 && InRange(e.book, price);
            && (out.reject == NoReason <==> valid)
            && (out.reject == UnknownOrder <==> !known)
            && (out.reject == RejectReason.InvalidQuantity <==> known && quantity <= 0)
            && (out.reject == InvalidPrice <==> known && quantity > 0 && !InRange(e.book, price))
            && (!valid ==> e' == e && out.fills == [])
            && (valid ==>
                  && Lookup(e.book, id).Some?
                  && var was := Lookup(e.book, id).value;
                  var amended := Order(id, was.client, was.symbol, was.side, Limit, Day, price, quantity, quantity,
                                       sequence, timestamp);
                  var own := was.side;
                  && (e', out) == Submit(e.(book := Cancelled(e.book, id)), amended)
                  && quantity == Taken(out.fills) + out.remainingAfter
                  && (out.rested <==> out.remainingAfter > 0)
                  && (out.remainingAfter == 0 ==> !Resting(e'.book, id))
                  && (out.rested ==>
                        && Lookup(e'.book, id) == Some(amended.(remaining := out.remainingAfter))
                        && AtPrice(Queue(e'.book, own), price) ==
                           AtPrice(Queue(Cancelled(e.book, id), own), price)
                             + [amended.(remaining := out.remainingAfter)]))
  {
    FindMeaning(e.book.bids, id);
    FindMeaning(e.book.asks, id);
    if ReplaceReject(e, id, price, quantity) == NoReason {
      LookupOk(e.book, id);
      CancelledBook(e.book, id);
      var amended := Amended(Lookup(e.book, id).value, price, quantity, sequence, timestamp);
      CancelledLength(e.book, id);
      assert Admissible(Cancel(e, id), amended);
      SubmitAccepted(Cancel(e, id), amended);
    }
  }

  lemma CancelledLength(b: Book, id: nat)
    requires BookOk(b) && Resting(b, id)
    ensures |Cancelled(b, id).bids| + |Cancelled(b, id).asks| < b.maxOrders
  {
    WithoutLength(b.bids, id);
    WithoutLength(b.asks, id);
  }

  /** A fresh day limit order on the ladder, with a slot free. */
  predicate Admissible(e: Engine, o: Order) {
    && BookOk(e.book) && !Resting(e.book, o.id) && |e.book.bids| + |e.book.asks| < e.book.maxOrders
    && o.symbol == e.book.symbol && o.kind == Limit && o.tif == Day && InRange(e.book, o.price)
    && o.remaining == o.quantity > 0
  }

  /** Such an order is swept and its remainder, if any, is inserted. */
  lemma AdmittedForm(e: Engine, o: Order)
    requires Admissible(e, o)
    ensures var (e', out) := Submit(e, o);
            var s := Consume(Queue(e.book, Opposite(o.side)), o, e.nextMatchId);
            && out.reject == NoReason && out.remainingAfter == s.open >= 0
            && (out.rested <==> s.open > 0)
            && Queue(e'.book, Opposite(o.side)) == s.left && !HasId(s.left, o.id)
            && Queue(e'.book, o.side) ==
               if s.open > 0 then Insert(Queue(e.book, o.side), o.(remaining := s.open)) else Queue(e.book, o.side)
  {
    var q := Queue(e.book, Opposite(o.side));
    OkAllOpen(e.book, Opposite(o.side));
    ConsumeBalance(q, o, e.nextMatchId);
    ConsumePriority(q, o, e.nextMatchId);
    SweepIds(q, Consume(q, o, e.nextMatchId), o.id);
    assert o.(remaining := o.quantity) == o;
  }

  /** It cannot be refused. */
  lemma SubmitAccepted(e: Engine, o: Order)
    requires Admissible(e, o)
    ensures var (e', out) := Submit(e, o);
            && out.reject == NoReason
            && o.quantity == Taken(out.fills) + out.remainingAfter
            && (out.rested <==> out.remainingAfter > 0)
            && (out.remainingAfter == 0 ==> !Resting(e'.book, o.id))
            && (out.rested ==>
                  && Lookup(e'.book, o.id) == Some(o.(remaining := out.remainingAfter))
                  && AtPrice(Queue(e'.book, o.side), o.price) ==
                     AtPrice(Queue(e.book, o.side), o.price) + [o.(remaining := out.remainingAfter)])
  {
    AdmittedForm(e, o);
    SubmitConserves(e, o);
    OkAllOpen(e.book, o.side);
    var (e', out) := Submit(e, o);
    var rest := o.(remaining := out.remainingAfter);
    if out.rested {
      InsertAtBack(Queue(e.book, o.side), rest);
      InsertFound(Queue(e.book, o.side), rest);
      FindMeaning(Queue(e'.book, Opposite(o.side)), o.id);
    }
  }

  lemma {:induction false} InsertFound(q: seq<Order>, o: Order)
    requires !HasId(q, o.id)
    ensures Find(Insert(q, o), o.id) == Some(o)
  {
    if !(q == [] || Rank(o.side, o.price) < Rank(o.side, q[0].price)) {
      assert q[0].id != o.id;
      HasIdTail(q, o.id);
      InsertFound(q[1..], o);
    }
  }
}
