/** The reference order book: each side is one list, best price first and, within a
    price, oldest first.  No levels, links, bitmaps, maps or slots. */
module NaiveBook {
  import opened Core
  import opened PriceLevels

  datatype Book = Book(
    symbol: nat,
    base: int,
    numLevels: nat,
    maxOrders: nat,
    bids: seq<Order>,
    asks: seq<Order>)

  function Queue(b: Book, side: Side): seq<Order> {
    if side == Buy then b.bids else b.asks
  }

  function WithQueue(b: Book, side: Side, q: seq<Order>): Book {
    if side == Buy then b.(bids := q) else b.(asks := q)
  }

  /** Smaller is better: the highest bid and the lowest ask come first. */
  function Rank(side: Side, price: int): int {
    if side == Buy then -price else price
  }

  /** Converts between ladder index and priority position. */
  function Priority(side: Side, n: nat, i: int): int {
    if side == Buy then n - 1 - i else i
  }

  predicate InRange(b: Book, price: int) {
    0 <= price - b.base < b.numLevels
  }

  predicate HasId(q: seq<Order>, id: nat) {
    exists k :: 0 <= k < |q| && q[k].id == id
  }

  predicate Resting(b: Book, id: nat) {
    HasId(b.bids, id) || HasId(b.asks, id)
  }

  /** Places `o` behind every order whose price is at least as good. */
  function Insert(q: seq<Order>, o: Order): seq<Order> {
    if q == [] || Rank(o.side, o.price) < Rank(o.side, q[0].price) then [o] + q
    else [q[0]] + Insert(q[1..], o)
  }

  function Without(q: seq<Order>, id: nat): seq<Order> {
    if q == [] then []
    else if q[0].id == id then q[1..]
    else [q[0]] + Without(q[1..], id)
  }

  /** Fills `amount` of order `id` in place; a full fill removes it. */
  function Filled(q: seq<Order>, id: nat, amount: int): seq<Order> {
    if q == [] then []
    else if q[0].id == id then
      if amount == q[0].remaining then q[1..]
      else [q[0].(remaining := q[0].remaining - amount)] + q[1..]
    else [q[0]] + Filled(q[1..], id, amount)
  }

  function AtPrice(q: seq<Order>, price: int): seq<Order> {
    if q == [] then []
    else if q[0].price == price then [q[0]] + AtPrice(q[1..], price)
    else AtPrice(q[1..], price)
  }

  function Find(q: seq<Order>, id: nat): Option<Order> {
    if q == [] then None
    else if q[0].id == id then Some(q[0])
    else Find(q[1..], id)
  }

  function Lookup(b: Book, id: nat): Option<Order> {
    match Find(b.bids, id)
    case Some(o) => Some(o)
    case None => Find(b.asks, id)
  }

  datatype AddError = PriceOutOfRange | DuplicateOrderId | PoolExhausted | InvalidQuantity | MarketOrderCannotRest

  /** Why the book refuses to rest `o`, in the order the checks are made. */
  function AddRefusal(b: Book, o: Order): Option<AddError> {
    if o.kind != Limit then Some(MarketOrderCannotRest)
    else if o.remaining <= 0 then Some(AddError.InvalidQuantity)
    else if !InRange(b, o.price) then Some(PriceOutOfRange)
    else if Resting(b, o.id) then Some(AddError.DuplicateOrderId)
    else if |b.bids| + |b.asks| == b.maxOrders then Some(PoolExhausted)
    else None
  }

  function Added(b: Book, o: Order): Book {
    WithQueue(b, o.side, Insert(Queue(b, o.side), o))
  }

  function Cancelled(b: Book, id: nat): Book {
    b.(bids := Without(b.bids, id), asks := Without(b.asks, id))
  }

  function Reduced(b: Book, id: nat, amount: int): Book {
    b.(bids := Filled(b.bids, id, amount), asks := Filled(b.asks, id, amount))
  }

  datatype ReplaceError = ReplaceNotFound | ReplaceOutOfRange | ReplaceInvalidQuantity | ReplacePoolExhausted

  function ReplaceRefusal(b: Book, id: nat, price: int, quantity: int): Option<ReplaceError> {
    if !Resting(b, id) then Some(ReplaceNotFound)
    else if quantity <= 0 then Some(ReplaceInvalidQuantity)
    else if !InRange(b, price) then Some(ReplaceOutOfRange)
    else None
  }

  /** The order with new terms, all of it open again. */
  function Amended(o: Order, price: int, quantity: int, sequence: nat, timestamp: int): Order {
    o.(price := price, quantity := quantity, remaining := quantity, sequence := sequence, timestamp := timestamp)
  }

  // Position forms of the three edits.

  lemma {:induction false} WithoutAt(q: seq<Order>, id: nat, k: nat)
    requires k < |q| && q[k].id == id
    requires forall j :: 0 <= j < k ==> q[j].id != id
    ensures Without(q, id) == RemoveAt(q, k)
  {
    if k == 0 {
      assert RemoveAt(q, k) == q[1..];
    } else {
      WithoutAt(q[1..], id, k - 1);
      assert RemoveAt(q, k) == [q[0]] + RemoveAt(q[1..], k - 1);
    }
  }

  lemma {:induction false} WithoutAbsent(q: seq<Order>, id: nat)
    requires !HasId(q, id)
    ensures Without(q, id) == q
  {
    if q != [] {
      assert q[0].id != id;
      assert !HasId(q[1..], id) by {
        assert forall k :: 0 <= k < |q| - 1 ==> q[1..][k] == q[k + 1];
      }
      WithoutAbsent(q[1..], id);
    }
  }

  lemma {:induction false} FilledAt(q: seq<Order>, id: nat, amount: int, k: nat)
    requires k < |q| && q[k].id == id
    requires forall j :: 0 <= j < k ==> q[j].id != id
    ensures amount == q[k].remaining ==> Filled(q, id, amount) == Without(q, id)
    ensures amount != q[k].remaining ==> Filled(q, id, amount) == q[k := q[k].(remaining := q[k].remaining - amount)]
  {
    if k > 0 {
      FilledAt(q[1..], id, amount, k - 1);
      var o := q[k].(remaining := q[k].remaining - amount);
      assert q[k := o] == [q[0]] + q[1..][k - 1 := o];
    }
  }

  lemma {:induction false} FindAt(q: seq<Order>, k: nat)
    requires k < |q|
    requires forall j :: 0 <= j < k ==> q[j].id != q[k].id
    ensures Find(q, q[k].id) == Some(q[k])
  {
    if k > 0 {
      FindAt(q[1..], k - 1);
    }
  }

  lemma {:induction false} FindMeaning(q: seq<Order>, id: nat)
    ensures Find(q, id) == None <==> !HasId(q, id)
    ensures Find(q, id).Some? ==> Find(q, id).value in q && Find(q, id).value.id == id
  {
    if q != [] {
      FindMeaning(q[1..], id);
      if HasId(q, id) && q[0].id != id {
        var k :| 0 <= k < |q| && q[k].id == id;
        assert q[1..][k - 1].id == id;
      }
      if HasId(q[1..], id) {
        var k :| 0 <= k < |q[1..]| && q[1..][k].id == id;
        assert q[k + 1].id == id;
      }
    }
  }

  lemma {:induction false} InsertLength(q: seq<Order>, o: Order)
    ensures |Insert(q, o)| == |q| + 1
  {
    if !(q == [] || Rank(o.side, o.price) < Rank(o.side, q[0].price)) {
      InsertLength(q[1..], o);
    }
  }

  lemma {:induction false} WithoutLength(q: seq<Order>, id: nat)
    ensures |Without(q, id)| == if HasId(q, id) then |q| - 1 else |q|
  {
    if q != [] && q[0].id != id {
      WithoutLength(q[1..], id);
      HasIdTail(q, id);
    } else if q != [] {
      assert HasId(q, id);
    }
  }

  lemma HasIdTail(q: seq<Order>, id: nat)
    requires q != [] && q[0].id != id
    ensures HasId(q, id) <==> HasId(q[1..], id)
  {
    if HasId(q, id) {
      var k :| 0 <= k < |q| && q[k].id == id;
      assert q[1..][k - 1].id == id;
    }
    if HasId(q[1..], id) {
      var k :| 0 <= k < |q[1..]| && q[1..][k].id == id;
      assert q[k + 1].id == id;
    }
  }

  /** A partial fill keeps the list's length; a full fill removes the order. */
  lemma {:induction false} FilledForm(q: seq<Order>, id: nat, amount: int)
    requires Find(q, id).Some?
    ensures amount == Find(q, id).value.remaining ==> Filled(q, id, amount) == Without(q, id)
    ensures amount != Find(q, id).value.remaining ==> |Filled(q, id, amount)| == |q|
  {
    if q[0].id != id {
      FilledForm(q[1..], id, amount);
    }
  }

  lemma {:induction false} FilledAbsent(q: seq<Order>, id: nat, amount: int)
    requires !HasId(q, id)
    ensures Filled(q, id, amount) == q
  {
    if q != [] {
      assert q[0].id != id;
      HasIdTail(q, id);
      FilledAbsent(q[1..], id, amount);
    }
  }

  // Levels in priority order, flattened, are the reference list.

  function Flatten(levels: seq<seq<Order>>): seq<Order> {
    if levels == [] then [] else levels[0] + Flatten(levels[1..])
  }

  /** Level `r` holds only orders of rank `origin + r`. */
  ghost predicate Ascending(side: Side, levels: seq<seq<Order>>, origin: int) {
    forall r, k :: 0 <= r < |levels| && 0 <= k < |levels[r]| ==> Rank(side, levels[r][k].price) == origin + r
  }

  /** Every order of the list ranks at or behind `bound`. */
  ghost predicate RanksFrom(side: Side, q: seq<Order>, bound: int) {
    forall k :: 0 <= k < |q| ==> Rank(side, q[k].price) >= bound
  }

  lemma {:induction false} FlattenRanks(side: Side, levels: seq<seq<Order>>, origin: int)
    requires Ascending(side, levels, origin)
    ensures RanksFrom(side, Flatten(levels), origin)
  {
    if levels != [] {
      AscendingTail(side, levels, origin);
      FlattenRanks(side, levels[1..], origin + 1);
    }
  }

  lemma AscendingTail(side: Side, levels: seq<seq<Order>>, origin: int)
    requires Ascending(side, levels, origin) && levels != []
    ensures Ascending(side, levels[1..], origin + 1)
  {
    forall r, k | 0 <= r < |levels[1..]| && 0 <= k < |levels[1..][r]|
      ensures Rank(side, levels[1..][r][k].price) == origin + 1 + r
    {
      assert levels[1..][r] == levels[r + 1];
    }
  }

  /** An order goes behind a prefix that ranks no worse and ahead of a tail that ranks worse. */
  lemma InsertBetween(front: seq<Order>, back: seq<Order>, o: Order)
    requires forall k :: 0 <= k < |front| ==> Rank(o.side, front[k].price) <= Rank(o.side, o.price)
    requires RanksFrom(o.side, back, Rank(o.side, o.price) + 1)
    ensures Insert(front + back, o) == front + [o] + back
  {
    InsertSkips(front, back, o);
    assert Insert(back, o) == [o] + back;
    assert front + ([o] + back) == front + [o] + back;
  }

  lemma {:induction false} FlattenInsert(levels: seq<seq<Order>>, origin: int, r: nat, o: Order)
    requires Ascending(o.side, levels, origin) && r < |levels|
    requires Rank(o.side, o.price) == origin + r
    ensures Flatten(levels[r := levels[r] + [o]]) == Insert(Flatten(levels), o)
  {
    var rest := Flatten(levels[1..]);
    AscendingTail(o.side, levels, origin);
    if r == 0 {
      FlattenRanks(o.side, levels[1..], origin + 1);
      InsertBetween(levels[0], rest, o);
      assert levels[r := levels[r] + [o]][1..] == levels[1..];
    } else {
      FlattenInsert(levels[1..], origin + 1, r - 1, o);
      assert levels[r := levels[r] + [o]][1..] == levels[1..][r - 1 := levels[r] + [o]];
      InsertSkips(levels[0], rest, o);
    }
  }

  lemma {:induction false} InsertSkips(front: seq<Order>, back: seq<Order>, o: Order)
    requires forall k :: 0 <= k < |front| ==> Rank(o.side, front[k].price) <= Rank(o.side, o.price)
    ensures Insert(front + back, o) == front + Insert(back, o)
  {
    if front == [] {
      assert front + back == back;
    } else {
      InsertSkips(front[1..], back, o);
      assert (front + back)[1..] == front[1..] + back;
    }
  }

  lemma {:induction false} WithoutSkips(front: seq<Order>, back: seq<Order>, id: nat)
    requires !HasId(front, id)
    ensures Without(front + back, id) == front + Without(back, id)
  {
    if front == [] {
      assert front + back == back;
    } else {
      assert front[0].id != id;
      assert !HasId(front[1..], id) by {
        assert forall k :: 0 <= k < |front| - 1 ==> front[1..][k] == front[k + 1];
      }
      WithoutSkips(front[1..], back, id);
      assert (front + back)[1..] == front[1..] + back;
    }
  }

  lemma {:induction false} WithoutStops(front: seq<Order>, back: seq<Order>, id: nat)
    requires HasId(front, id)
    ensures Without(front + back, id) == Without(front, id) + back
  {
    assert (front + back)[1..] == front[1..] + back;
    if front[0].id != id {
      var k :| 0 <= k < |front| && front[k].id == id;
      assert front[1..][k - 1].id == id;
      WithoutStops(front[1..], back, id);
    }
  }

  lemma {:induction false} FlattenWithout(levels: seq<seq<Order>>, r: nat, id: nat)
    requires r < |levels| && HasId(levels[r], id)
    requires forall j :: 0 <= j < r ==> !HasId(levels[j], id)
    ensures Flatten(levels[r := Without(levels[r], id)]) == Without(Flatten(levels), id)
  {
    var rest := Flatten(levels[1..]);
    if r == 0 {
      WithoutStops(levels[0], rest, id);
      assert levels[r := Without(levels[r], id)][1..] == levels[1..];
    } else {
      FlattenWithout(levels[1..], r - 1, id);
      assert levels[r := Without(levels[r], id)][1..] == levels[1..][r - 1 := Without(levels[r], id)];
      WithoutSkips(levels[0], rest, id);
    }
  }

  lemma {:induction false} FilledSkips(front: seq<Order>, back: seq<Order>, id: nat, amount: int)
    requires !HasId(front, id)
    ensures Filled(front + back, id, amount) == front + Filled(back, id, amount)
  {
    if front == [] {
      assert front + back == back;
    } else {
      assert front[0].id != id;
      assert !HasId(front[1..], id) by {
        assert forall k :: 0 <= k < |front| - 1 ==> front[1..][k] == front[k + 1];
      }
      FilledSkips(front[1..], back, id, amount);
      assert (front + back)[1..] == front[1..] + back;
    }
  }

  lemma {:induction false} FilledStops(front: seq<Order>, back: seq<Order>, id: nat, amount: int)
    requires HasId(front, id)
    ensures Filled(front + back, id, amount) == Filled(front, id, amount) + back
  {
    assert (front + back)[1..] == front[1..] + back;
    if front[0].id != id {
      var k :| 0 <= k < |front| && front[k].id == id;
      assert front[1..][k - 1].id == id;
      FilledStops(front[1..], back, id, amount);
    }
  }

  lemma {:induction false} FlattenFilled(levels: seq<seq<Order>>, r: nat, id: nat, amount: int)
    requires r < |levels| && HasId(levels[r], id)
    requires forall j :: 0 <= j < r ==> !HasId(levels[j], id)
    ensures Flatten(levels[r := Filled(levels[r], id, amount)]) == Filled(Flatten(levels), id, amount)
  {
    var rest := Flatten(levels[1..]);
    if r == 0 {
      FilledStops(levels[0], rest, id, amount);
      assert levels[r := Filled(levels[r], id, amount)][1..] == levels[1..];
    } else {
      FlattenFilled(levels[1..], r - 1, id, amount);
      assert levels[r := Filled(levels[r], id, amount)][1..] == levels[1..][r - 1 := Filled(levels[r], id, amount)];
      FilledSkips(levels[0], rest, id, amount);
    }
  }

  lemma {:induction false} FlattenEmpty(levels: seq<seq<Order>>)
    ensures Flatten(levels) == [] <==> forall j :: 0 <= j < |levels| ==> levels[j] == []
  {
    if levels != [] {
      FlattenEmpty(levels[1..]);
      if forall j :: 0 <= j < |levels[1..]| ==> levels[1..][j] == [] {
        if levels[0] == [] {
          assert forall j :: 0 < j < |levels| ==> levels[j] == levels[1..][j - 1];
        }
      } else {
        var j :| 0 <= j < |levels[1..]| && levels[1..][j] != [];
        assert levels[j + 1] != [];
      }
    }
  }

  lemma {:induction false} AtPriceConcat(a: seq<Order>, b: seq<Order>, price: int)
    ensures AtPrice(a + b, price) == AtPrice(a, price) + AtPrice(b, price)
  {
    if a == [] {
      assert a + b == b;
    } else {
      AtPriceConcat(a[1..], b, price);
      assert (a + b)[1..] == a[1..] + b;
    }
  }

  lemma {:induction false} AtPriceAll(q: seq<Order>, price: int)
    requires forall k :: 0 <= k < |q| ==> q[k].price == price
    ensures AtPrice(q, price) == q
  {
    if q != [] {
      AtPriceAll(q[1..], price);
    }
  }

  lemma {:induction false} AtPriceNone(q: seq<Order>, price: int)
    requires forall k :: 0 <= k < |q| ==> q[k].price != price
    ensures AtPrice(q, price) == []
  {
    if q != [] {
      AtPriceNone(q[1..], price);
    }
  }

  /** A level is recovered from the list as the orders at its price. */
  lemma {:induction false} FlattenLevel(side: Side, levels: seq<seq<Order>>, origin: int, r: nat, price: int)
    requires Ascending(side, levels, origin) && r < |levels|
    requires Rank(side, price) == origin + r
    ensures AtPrice(Flatten(levels), price) == levels[r]
  {
    var rest := Flatten(levels[1..]);
    AscendingTail(side, levels, origin);
    AtPriceConcat(levels[0], rest, price);
    if r == 0 {
      AtPriceAll(levels[0], price);
      FlattenRanks(side, levels[1..], origin + 1);
      AtPriceNone(rest, price);
    } else {
      AtPriceNone(levels[0], price);
      FlattenLevel(side, levels[1..], origin + 1, r - 1, price);
    }
  }
}
