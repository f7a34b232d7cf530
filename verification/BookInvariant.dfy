/** What holds of every book the matching engine can reach: price order, unique ids, only
    open day limit orders of the right symbol, and no crossed prices. */
module BookInvariant {
  import opened Core
  import opened NaiveBook
  import opened Depths

  predicate RestOk(b: Book, side: Side, o: Order) {
    && o.side == side && o.kind == Limit && o.tif == Day && o.symbol == b.symbol
    && 0 < o.remaining <= o.quantity && InRange(b, o.price)
  }

  predicate AllRestOk(b: Book, side: Side, q: seq<Order>) {
    forall k :: 0 <= k < |q| ==> RestOk(b, side, q[k])
  }

  predicate UniqueIds(q: seq<Order>) {
    forall j, k :: 0 <= j < k < |q| ==> q[j].id != q[k].id
  }

  predicate IdsApart(p: seq<Order>, q: seq<Order>) {
    forall j, k :: 0 <= j < |p| && 0 <= k < |q| ==> p[j].id != q[k].id
  }

  /** Every bid is strictly below every ask. */
  predicate Uncrossed(bids: seq<Order>, asks: seq<Order>) {
    forall j, k :: 0 <= j < |bids| && 0 <= k < |asks| ==> bids[j].price < asks[k].price
  }

  predicate SideInv(b: Book, side: Side, q: seq<Order>) {
    Sorted(side, q) && UniqueIds(q) && AllRestOk(b, side, q)
  }

  predicate BookOk(b: Book) {
    && SideInv(b, Buy, b.bids)
    && SideInv(b, Sell, b.asks)
    && IdsApart(b.bids, b.asks)
    && Uncrossed(b.bids, b.asks)
    && |b.bids| + |b.asks| <= b.maxOrders
  }

  // ---- Sublists -----------------------------------------------------------

  /** `p` lists some of `q`'s orders in `q`'s order, possibly with less of them open. */
  ghost predicate Thinned(p: seq<Order>, q: seq<Order>, at: seq<nat>) {
    && |at| == |p|
    && (forall k :: 0 <= k < |p| ==> at[k] < |q| && Trimmed(p[k], q[at[k]]))
    && (forall j, k :: 0 <= j < k < |p| ==> at[j] < at[k])
  }

  predicate Trimmed(o: Order, was: Order) {
    o == was.(remaining := o.remaining) && 0 < o.remaining <= was.remaining
  }

  lemma ThinnedSide(b: Book, side: Side, p: seq<Order>, q: seq<Order>, at: seq<nat>)
    requires SideInv(b, side, q) && Thinned(p, q, at)
    ensures SideInv(b, side, p)
  {
  }

  /** Thinning one side keeps the whole invariant. */
  lemma ThinnedBook(b: Book, side: Side, p: seq<Order>, at: seq<nat>)
    requires BookOk(b) && Thinned(p, Queue(b, side), at) && |p| <= |Queue(b, side)|
    ensures BookOk(WithQueue(b, side, p))
  {
    ThinnedSide(b, side, p, Queue(b, side), at);
    var b' := WithQueue(b, side, p);
    assert AllRestOk(b', Buy, b'.bids) && AllRestOk(b', Sell, b'.asks);
  }

  // ---- Edits --------------------------------------------------------------

  lemma {:induction false} InsertPlace(q: seq<Order>, o: Order) returns (p: nat)
    requires Sorted(o.side, q)
    ensures p <= |q| && Insert(q, o) == q[..p] + [o] + q[p..]
    ensures forall k :: 0 <= k < p ==> Rank(o.side, q[k].price) <= Rank(o.side, o.price)
    ensures forall k :: p <= k < |q| ==> Rank(o.side, o.price) < Rank(o.side, q[k].price)
  {
    if q == [] || Rank(o.side, o.price) < Rank(o.side, q[0].price) {
      p := 0;
      assert Insert(q, o) == q[..0] + [o] + q[0..];
    } else {
      SortedTail(o.side, q);
      var t := InsertPlace(q[1..], o);
      p := t + 1;
      assert forall k :: 1 <= k < |q| ==> q[k] == q[1..][k - 1];
      assert [q[0]] + (q[1..][..t] + [o] + q[1..][t..]) == q[..p] + [o] + q[p..];
    }
  }

  /** `r` is `q` with `o` at position `p`. */
  ghost predicate Inserted(q: seq<Order>, o: Order, p: nat, r: seq<Order>) {
    && p <= |q| && |r| == |q| + 1
    && r[p] == o
    && (forall k :: 0 <= k < p ==> r[k] == q[k])
    && (forall k :: p < k < |r| ==> r[k] == q[k - 1])
  }

  lemma InsertedSorted(q: seq<Order>, o: Order, p: nat, r: seq<Order>)
    requires Inserted(q, o, p, r) && Sorted(o.side, q)
    requires forall k :: 0 <= k < p ==> Rank(o.side, q[k].price) <= Rank(o.side, o.price)
    requires forall k :: p <= k < |q| ==> Rank(o.side, o.price) < Rank(o.side, q[k].price)
    ensures Sorted(o.side, r)
  {
  }

  lemma InsertedIds(q: seq<Order>, o: Order, p: nat, r: seq<Order>)
    requires Inserted(q, o, p, r) && UniqueIds(q) && !HasId(q, o.id)
    ensures UniqueIds(r)
  {
    assert forall k :: 0 <= k < |q| ==> q[k].id != o.id;
  }

  lemma InsertedMembers(q: seq<Order>, o: Order, p: nat, r: seq<Order>)
    requires Inserted(q, o, p, r)
    ensures forall x :: x in r <==> x == o || x in q
  {
    assert r[p] in r;
    forall x | x in q
      ensures x in r
    {
      var k :| 0 <= k < |q| && q[k] == x;
      assert r[if k < p then k else k + 1] == x;
    }
  }

  lemma InsertSide(b: Book, q: seq<Order>, o: Order)
    requires SideInv(b, o.side, q) && RestOk(b, o.side, o) && !HasId(q, o.id)
    ensures SideInv(b, o.side, Insert(q, o))
    ensures forall x :: x in Insert(q, o) <==> x == o || x in q
  {
    var p := InsertPlace(q, o);
    var r := Insert(q, o);
    assert Inserted(q, o, p, r);
    InsertedSorted(q, o, p, r);
    InsertedIds(q, o, p, r);
    InsertedMembers(q, o, p, r);
    assert forall k :: 0 <= k < |r| ==> r[k] in r;
  }

  /** `o`'s price is strictly short of every order on the other side. */
  predicate ShortOf(o: Order, q: seq<Order>) {
    forall k :: 0 <= k < |q| ==> if o.side == Buy then o.price < q[k].price else q[k].price < o.price
  }

  /** Resting a screened order that crosses nothing keeps the invariant. */
  lemma AddedBook(b: Book, o: Order)
    requires BookOk(b) && AddRefusal(b, o) == None && RestOk(b, o.side, o)
    requires ShortOf(o, Queue(b, Opposite(o.side)))
    ensures BookOk(Added(b, o))
  {
    var q, other := Queue(b, o.side), Queue(b, Opposite(o.side));
    InsertSide(b, q, o);
    InsertLength(q, o);
    var b', r := Added(b, o), Insert(q, o);
    assert forall k :: 0 <= k < |other| ==> other[k].id != o.id;
    forall j, k | 0 <= j < |r| && 0 <= k < |other|
      ensures r[j].id != other[k].id
      ensures if o.side == Buy then r[j].price < other[k].price else other[k].price < r[j].price
    {
      assert r[j] in r;
    }
    assert AllRestOk(b', Buy, b'.bids) && AllRestOk(b', Sell, b'.asks);
  }

  /** Removing or shrinking the front order. */
  lemma FrontBook(b: Book, side: Side, amount: int)
    requires BookOk(b) && Queue(b, side) != [] && 0 < amount <= Queue(b, side)[0].remaining
    ensures Reduced(b, Queue(b, side)[0].id, amount) ==
            WithQueue(b, side, Filled(Queue(b, side), Queue(b, side)[0].id, amount))
    ensures BookOk(Reduced(b, Queue(b, side)[0].id, amount))
  {
    var q := Queue(b, side);
    var o := q[0];
    assert !HasId(Queue(b, Opposite(side)), o.id);
    FilledAbsent(Queue(b, Opposite(side)), o.id, amount);
    var p := Filled(q, o.id, amount);
    if amount == o.remaining {
      ThinnedBook(b, side, p, seq(|p|, k => k + 1));
    } else {
      ThinnedBook(b, side, p, seq(|p|, k => k));
    }
  }

  lemma WithoutThins(q: seq<Order>, id: nat) returns (at: seq<nat>)
    requires forall k :: 0 <= k < |q| ==> q[k].remaining > 0
    ensures Thinned(Without(q, id), q, at) && |Without(q, id)| <= |q|
  {
    FindMeaning(q, id);
    if HasId(q, id) {
      var k := FirstAt(q, id);
      WithoutAt(q, id, k);
      at := seq(|q| - 1, j => if j < k then j else j + 1);
    } else {
      WithoutAbsent(q, id);
      at := seq(|q|, j => j);
    }
  }

  lemma {:induction false} FirstAt(q: seq<Order>, id: nat) returns (k: nat)
    requires HasId(q, id)
    ensures k < |q| && q[k].id == id && forall j :: 0 <= j < k ==> q[j].id != id
  {
    if q[0].id == id {
      k := 0;
    } else {
      HasIdTail(q, id);
      k := FirstAt(q[1..], id);
      k := k + 1;
    }
  }

  lemma CancelledBook(b: Book, id: nat)
    requires BookOk(b)
    ensures BookOk(Cancelled(b, id)) && !Resting(Cancelled(b, id), id)
  {
    var at := WithoutThins(b.bids, id);
    ThinnedBook(b, Buy, Without(b.bids, id), at);
    var b' := WithQueue(b, Buy, Without(b.bids, id));
    var at' := WithoutThins(b.asks, id);
    ThinnedBook(b', Sell, Without(b.asks, id), at');
    WithoutGone(b.bids, id);
    WithoutGone(b.asks, id);
  }

  lemma {:induction false} WithoutGone(q: seq<Order>, id: nat)
    requires UniqueIds(q)
    ensures !HasId(Without(q, id), id)
  {
    if HasId(q, id) {
      var k := FirstAt(q, id);
      WithoutAt(q, id, k);
    } else {
      WithoutAbsent(q, id);
    }
  }
}
