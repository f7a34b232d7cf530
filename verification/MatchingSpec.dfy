/** The matching rules on the reference book: an incoming order consumes the opposite list
    from the front while the price crosses. */
module MatchingSpec {
  import opened Core
  import opened PriceLevels
  import opened NaiveBook
  import opened Depths

  /** One matched quantity between the aggressor and a resting order. */
  datatype Fill = Fill(
    matchId: nat,
    restingId: nat,
    restingClient: nat,
    aggressorId: nat,
    aggressorClient: nat,
    symbol: nat,
    price: int,
    quantity: int,
    aggressorSide: Side,
    restingFullyFilled: bool)

  predicate Crosses(a: Order, price: int) {
    a.kind == Market || (if a.side == Buy then a.price >= price else a.price <= price)
  }

  function MakeFill(a: Order, resting: Order, n: int, id: nat): Fill {
    Fill(id, resting.id, resting.client, a.id, a.client, a.symbol, resting.price, n, a.side, n == resting.remaining)
  }

  /** What one aggressor does to the opposite list. */
  datatype Sweep = Sweep(fills: seq<Fill>, left: seq<Order>, open: int)

  function Consume(q: seq<Order>, a: Order, id: nat): Sweep {
    if a.remaining <= 0 || q == [] || !Crosses(a, q[0].price) then Sweep([], q, a.remaining)
    else
      var n := Min(a.remaining, q[0].remaining);
      var s := if n == q[0].remaining then Consume(q[1..], a.(remaining := a.remaining - n), id + 1)
               else Sweep([], [q[0].(remaining := q[0].remaining - n)] + q[1..], a.remaining - n);
      s.(fills := [MakeFill(a, q[0], n, id)] + s.fills)
  }

  function Taken(fills: seq<Fill>): int {
    if fills == [] then 0 else fills[0].quantity + Taken(fills[1..])
  }

  predicate AllOpen(q: seq<Order>) {
    forall k :: 0 <= k < |q| ==> q[k].remaining > 0
  }

  // ---- Price-time priority, in closed form --------------------------------

  /** What the `i`-th resting order gives up: whatever the orders ahead of it left wanting. */
  function Share(q: seq<Order>, a: Order, i: nat): int
    requires i < |q|
  {
    Min(q[i].remaining, a.remaining - Volume(q[..i]))
  }

  /** Fill `i` names the aggressor and the `i`-th order of the list, at that order's price, for
      its share. */
  ghost predicate InPriority(s: Sweep, q: seq<Order>, a: Order, id: nat) {
    && |s.fills| <= |q|
    && forall i :: 0 <= i < |s.fills| ==>
         && s.fills[i] == Fill(id + i, q[i].id, q[i].client, a.id, a.client, a.symbol, q[i].price, Share(q, a, i),
                               a.side, Share(q, a, i) == q[i].remaining)
         && s.fills[i].quantity > 0
         && Crosses(a, q[i].price)
  }

  /** The untouched orders keep their places; a partly filled one stays in front. */
  ghost predicate LeavesRest(s: Sweep, q: seq<Order>)
    requires |s.fills| <= |q|
  {
    var m := |s.fills|;
    s.left == if m > 0 && !s.fills[m - 1].restingFullyFilled
              then [q[m - 1].(remaining := q[m - 1].remaining - s.fills[m - 1].quantity)] + q[m..]
              else q[m..]
  }

  /** Matching stops only when the aggressor is done, the list is empty or the price no
      longer crosses. */
  ghost predicate Exhausted(s: Sweep, a: Order) {
    s.open <= 0 || s.left == [] || !Crosses(a, s.left[0].price)
  }

  lemma {:induction false} ConsumePriority(q: seq<Order>, a: Order, id: nat)
    requires AllOpen(q)
    ensures InPriority(Consume(q, a, id), q, a, id)
    ensures LeavesRest(Consume(q, a, id), q)
  {
    if !(a.remaining <= 0 || q == [] || !Crosses(a, q[0].price)) {
      var n := Min(a.remaining, q[0].remaining);
      FirstShare(q, a);
      if n == q[0].remaining {
        var a' := a.(remaining := a.remaining - n);
        ConsumePriority(q[1..], a', id + 1);
        var s, s' := Consume(q, a, id), Consume(q[1..], a', id + 1);
        PriorityShift(s, s', q, a, a', id);
        LeftShift(s, s', q);
      }
    }
  }

  lemma FirstShare(q: seq<Order>, a: Order)
    requires q != []
    ensures Share(q, a, 0) == Min(a.remaining, q[0].remaining)
  {
    assert q[..0] == [];
  }

  lemma PriorityShift(s: Sweep, s': Sweep, q: seq<Order>, a: Order, a': Order, id: nat)
    requires q != [] && InPriority(s', q[1..], a', id + 1) && a' == a.(remaining := a.remaining - q[0].remaining)
    requires s.fills == [MakeFill(a, q[0], Share(q, a, 0), id)] + s'.fills
    requires s.fills[0].quantity > 0 && Crosses(a, q[0].price)
    ensures InPriority(s, q, a, id)
  {
    forall i | 0 < i < |s.fills|
      ensures s.fills[i] == MakeFill(a, q[i], Share(q, a, i), id + i) && s.fills[i].quantity > 0
              && Crosses(a, q[i].price)
    {
      assert s.fills[i] == s'.fills[i - 1];
      assert q[..i][1..] == q[1..][..i - 1];
    }
  }

  lemma LeftShift(s: Sweep, s': Sweep, q: seq<Order>)
    requires q != [] && |s'.fills| <= |q[1..]| && LeavesRest(s', q[1..])
    requires s.left == s'.left && |s.fills| == |s'.fills| + 1 && s.fills[1..] == s'.fills
    requires s.fills[0].restingFullyFilled
    ensures LeavesRest(s, q)
  {
    var m := |s'.fills|;
    assert q[1..][m..] == q[m + 1..];
    if m > 0 {
      assert s.fills[m] == s'.fills[m - 1];
    }
  }

  /** The sweep is maximal and conserves quantity on both sides of the trade. */
  lemma {:induction false} ConsumeBalance(q: seq<Order>, a: Order, id: nat)
    requires AllOpen(q)
    ensures Exhausted(Consume(q, a, id), a)
    ensures Consume(q, a, id).open == a.remaining - Taken(Consume(q, a, id).fills)
    ensures Volume(Consume(q, a, id).left) == Volume(q) - Taken(Consume(q, a, id).fills)
    ensures a.remaining >= 0 ==> 0 <= Consume(q, a, id).open <= a.remaining
  {
    if !(a.remaining <= 0 || q == [] || !Crosses(a, q[0].price)) {
      var n := Min(a.remaining, q[0].remaining);
      if n == q[0].remaining {
        ConsumeBalance(q[1..], a.(remaining := a.remaining - n), id + 1);
      }
    }
  }

  /** Total open quantity at prices the aggressor would accept. */
  function CrossingVolume(q: seq<Order>, a: Order): int {
    if q == [] then 0
    else (if Crosses(a, q[0].price) then q[0].remaining else 0) + CrossingVolume(q[1..], a)
  }

  lemma {:induction false} CrossingNonnegative(q: seq<Order>, a: Order)
    requires AllOpen(q)
    ensures CrossingVolume(q, a) >= 0
  {
    if q != [] {
      CrossingNonnegative(q[1..], a);
    }
  }

  lemma {:induction false} NothingCrosses(q: seq<Order>, a: Order)
    requires Sorted(Opposite(a.side), q) && q != [] && !Crosses(a, q[0].price)
    ensures CrossingVolume(q, a) == 0
  {
    if |q| > 1 {
      SortedTail(Opposite(a.side), q);
      NothingCrosses(q[1..], a);
    }
  }

  /** An aggressor takes exactly what crosses, up to what it wants. */
  lemma {:induction false} ConsumeTotal(q: seq<Order>, a: Order, id: nat)
    requires AllOpen(q) && Sorted(Opposite(a.side), q) && a.remaining >= 0
    ensures Taken(Consume(q, a, id).fills) == Min(a.remaining, CrossingVolume(q, a))
  {
    CrossingNonnegative(q, a);
    if a.remaining > 0 && q != [] {
      SortedTail(Opposite(a.side), q);
      CrossingNonnegative(q[1..], a);
      if !Crosses(a, q[0].price) {
        NothingCrosses(q, a);
      } else if q[0].remaining <= a.remaining {
        var a' := a.(remaining := a.remaining - q[0].remaining);
        ConsumeTotal(q[1..], a', id + 1);
        CrossingSame(q[1..], a, a');
      }
    }
  }

  lemma {:induction false} CrossingSame(q: seq<Order>, a: Order, a': Order)
    requires a' == a.(remaining := a'.remaining)
    ensures CrossingVolume(q, a) == CrossingVolume(q, a')
  {
    if q != [] {
      CrossingSame(q[1..], a, a');
    }
  }

  // ---- The engine on values -----------------------------------------------

  datatype Engine = Engine(book: Book, nextMatchId: nat)

  datatype Outcome = Outcome(reject: RejectReason, fills: seq<Fill>, rested: bool, remainingAfter: int)

  predicate Rests(o: Order) {
    o.remaining > 0 && o.kind == Limit && o.tif == Day
  }

  /** Matches a fresh order, then rests what is left if it is a day limit order. */
  function Execute(e: Engine, o: Order): (Engine, Outcome) {
    var side := Opposite(o.side);
    var s := Consume(Queue(e.book, side), o, e.nextMatchId);
    var swept := Engine(WithQueue(e.book, side, s.left), e.nextMatchId + |s.fills|);
    var rest := o.(remaining := s.open);
    if !Rests(rest) then (swept, Outcome(NoReason, s.fills, false, s.open))
    else if AddRefusal(swept.book, rest) == None then
      (swept.(book := Added(swept.book, rest)), Outcome(NoReason, s.fills, true, s.open))
    else (swept, Outcome(BookCapacityExceeded, s.fills, false, s.open))
  }

  /** `MatchingEngine::submit`. */
  function Submit(e: Engine, o: Order): (Engine, Outcome) {
    var entering := o.(remaining := o.quantity);
    if o.symbol != e.book.symbol then (e, Outcome(UnknownSymbol, [], false, o.quantity))
    else if o.quantity <= 0 then (e, Outcome(RejectReason.InvalidQuantity, [], false, o.quantity))
    else if o.tif == FOK && CrossingVolume(Queue(e.book, Opposite(o.side)), entering) < o.quantity then
      (e, Outcome(FokNotFillable, [], false, o.quantity))
    else Execute(e, entering)
  }

  function Cancel(e: Engine, id: nat): Engine {
    e.(book := Cancelled(e.book, id))
  }

  /** Why `MatchingEngine::replace` refuses before touching the book. */
  function ReplaceReject(e: Engine, id: nat, price: int, quantity: int): RejectReason {
    if Lookup(e.book, id) == None then UnknownOrder
    else if quantity <= 0 then RejectReason.InvalidQuantity
    else if !InRange(e.book, price) then InvalidPrice
    else NoReason
  }

  /** `MatchingEngine::replace`: cancel, then submit the amended order. */
  function Replace(e: Engine, id: nat, price: int, quantity: int, sequence: nat, timestamp: int): (Engine, Outcome) {
    var reason := ReplaceReject(e, id, price, quantity);
    if reason != NoReason then (e, Outcome(reason, [], false, 0))
    else Submit(Cancel(e, id), Amended(Lookup(e.book, id).value, price, quantity, sequence, timestamp))
  }

  function EmptyEngine(symbol: nat, base: int, numLevels: nat, maxOrders: nat): Engine {
    Engine(Book(symbol, base, numLevels, maxOrders, [], []), 1)
  }
}
