/** Price-aggregated depth: what a reader of the book sees, level by level. */
module Depths {
  import opened Core
  import opened PriceLevels
  import opened NaiveBook

  datatype DepthLevel = DepthLevel(price: int, quantity: int, count: nat)

  /** Aggregates a side's list into one entry per run of equal prices. */
  function Depth(q: seq<Order>): seq<DepthLevel> {
    if q == [] then [] else Stacked(q[0], Depth(q[1..]))
  }

  function Stacked(o: Order, rest: seq<DepthLevel>): seq<DepthLevel> {
    if rest != [] && rest[0].price == o.price then
      [DepthLevel(o.price, rest[0].quantity + o.remaining, rest[0].count + 1)] + rest[1..]
    else [DepthLevel(o.price, o.remaining, 1)] + rest
  }

  function Show<S>(visit: (S, DepthLevel) -> (S, bool), s: S, level: DepthLevel): (S, bool) {
    visit(s, level)
  }

  /** Feeds levels to a visitor until it declines to continue. */
  function Walk<S>(visit: (S, DepthLevel) -> (S, bool), s: S, levels: seq<DepthLevel>): S {
    if levels == [] then s
    else
      var (s', more) := Show(visit, s, levels[0]);
      if more then Walk(visit, s', levels[1..]) else s'
  }

  lemma WalkStep<S>(visit: (S, DepthLevel) -> (S, bool), s: S, first: DepthLevel, rest: seq<DepthLevel>)
    ensures Walk(visit, s, [first] + rest) ==
            if Show(visit, s, first).1 then Walk(visit, Show(visit, s, first).0, rest) else Show(visit, s, first).0
  {
    assert ([first] + rest)[1..] == rest;
  }

  predicate Sorted(side: Side, q: seq<Order>) {
    forall j, k :: 0 <= j < k < |q| ==> Rank(side, q[j].price) <= Rank(side, q[k].price)
  }

  /** The level at `price`, as the orders resting there. */
  function LevelOf(q: seq<Order>, price: int): DepthLevel {
    DepthLevel(price, Volume(AtPrice(q, price)), |AtPrice(q, price)|)
  }

  lemma SortedTail(side: Side, q: seq<Order>)
    requires Sorted(side, q) && q != []
    ensures Sorted(side, q[1..])
  {
    assert forall k :: 0 <= k < |q| - 1 ==> q[1..][k] == q[k + 1];
  }

  predicate Worsening(side: Side, d: seq<DepthLevel>) {
    forall j, k :: 0 <= j < k < |d| ==> Rank(side, d[j].price) < Rank(side, d[k].price)
  }

  lemma {:induction false} DepthHead(q: seq<Order>)
    ensures q != [] ==> Depth(q) != [] && Depth(q)[0].price == q[0].price
    ensures q == [] ==> Depth(q) == []
  {
  }

  lemma StackedWorsening(side: Side, o: Order, rest: seq<DepthLevel>)
    requires Worsening(side, rest) && (rest != [] ==> Rank(side, o.price) <= Rank(side, rest[0].price))
    ensures Worsening(side, Stacked(o, rest))
  {
  }

  lemma {:induction false} DepthWorsening(side: Side, q: seq<Order>)
    requires Sorted(side, q)
    ensures Worsening(side, Depth(q))
  {
    if q != [] {
      SortedTail(side, q);
      DepthWorsening(side, q[1..]);
      DepthHead(q[1..]);
      StackedWorsening(side, q[0], Depth(q[1..]));
    }
  }

  lemma LevelOfStep(q: seq<Order>, price: int)
    requires q != []
    ensures var rest := LevelOf(q[1..], price);
            LevelOf(q, price) ==
            if q[0].price != price then rest else DepthLevel(price, rest.quantity + q[0].remaining, rest.count + 1)
  {
    var tail := AtPrice(q[1..], price);
    if q[0].price == price {
      assert AtPrice(q, price) == [q[0]] + tail;
      assert ([q[0]] + tail)[1..] == tail;
    }
  }

  lemma LevelOfNone(side: Side, q: seq<Order>)
    requires Sorted(side, q) && q != [] && (|q| > 1 ==> q[1].price != q[0].price)
    ensures LevelOf(q[1..], q[0].price) == DepthLevel(q[0].price, 0, 0)
  {
    assert forall k :: 0 <= k < |q[1..]| ==> q[1..][k] == q[k + 1];
    AtPriceNone(q[1..], q[0].price);
  }

  /** Every entry carries the totals of the orders resting at its price. */
  lemma {:induction false} DepthEntry(side: Side, q: seq<Order>, j: nat)
    requires Sorted(side, q) && j < |Depth(q)|
    ensures Depth(q)[j] == LevelOf(q, Depth(q)[j].price) && Depth(q)[j].count > 0
  {
    var rest := Depth(q[1..]);
    SortedTail(side, q);
    DepthHead(q[1..]);
    LevelOfStep(q, Depth(q)[j].price);
    DepthWorsening(side, q);
    if rest != [] && rest[0].price == q[0].price {
      DepthEntry(side, q[1..], j);
      assert j > 0 ==> Depth(q)[j] == rest[j] && Depth(q)[j].price != Depth(q)[0].price;
    } else if j > 0 {
      DepthEntry(side, q[1..], j - 1);
      assert Depth(q)[j] == rest[j - 1] && Depth(q)[j].price != Depth(q)[0].price;
    } else {
      LevelOfNone(side, q);
    }
  }

  lemma {:induction false} DepthCovers(q: seq<Order>, k: nat) returns (j: nat)
    requires k < |q|
    ensures j < |Depth(q)| && Depth(q)[j].price == q[k].price
  {
    if k == 0 {
      DepthHead(q);
      j := 0;
    } else {
      j := DepthCovers(q[1..], k - 1);
      j := if Depth(q[1..])[0].price == q[0].price then j else j + 1;
    }
  }

  /** Depth lists every occupied price exactly once, in strictly worsening order, each with
      the total open quantity and number of the orders resting at that price. */
  lemma DepthMeaning(side: Side, q: seq<Order>)
    requires Sorted(side, q)
    ensures Worsening(side, Depth(q))
    ensures forall j :: 0 <= j < |Depth(q)| ==> Depth(q)[j] == LevelOf(q, Depth(q)[j].price) && Depth(q)[j].count > 0
    ensures forall k :: 0 <= k < |q| ==> exists j :: 0 <= j < |Depth(q)| && Depth(q)[j].price == q[k].price
  {
    DepthWorsening(side, q);
    forall j | 0 <= j < |Depth(q)|
      ensures Depth(q)[j] == LevelOf(q, Depth(q)[j].price) && Depth(q)[j].count > 0
    {
      DepthEntry(side, q, j);
    }
    forall k | 0 <= k < |q|
      ensures exists j :: 0 <= j < |Depth(q)| && Depth(q)[j].price == q[k].price
    {
      var j := DepthCovers(q, k);
    }
  }

  /** One level at the front of a list is one depth entry. */
  lemma {:induction false} DepthLevelFirst(level: seq<Order>, rest: seq<Order>, price: int)
    requires level != [] && forall k :: 0 <= k < |level| ==> level[k].price == price
    requires forall k :: 0 <= k < |rest| ==> rest[k].price != price
    ensures Depth(level + rest) == [DepthLevel(price, Volume(level), |level|)] + Depth(rest)
  {
    assert (level + rest)[1..] == level[1..] + rest;
    if |level| == 1 {
      assert level[1..] + rest == rest;
      DepthHead(rest);
      assert Volume(level) == level[0].remaining + Volume(level[1..]);
    } else {
      DepthLevelFirst(level[1..], rest, price);
    }
  }

  // ---- Walking a ladder level by level ------------------------------------

  lemma {:induction false} FlattenSkip(levels: seq<seq<Order>>, r: nat, t: nat)
    requires r <= t <= |levels| && forall j :: r <= j < t ==> levels[j] == []
    ensures Flatten(levels[r..]) == Flatten(levels[t..])
    decreases t - r
  {
    if r < t {
      FlattenSkip(levels, r + 1, t);
      assert levels[r..][1..] == levels[r + 1..];
    }
  }

  /** Depth from position `r` on starts with the level there. */
  lemma DepthFrom(side: Side, levels: seq<seq<Order>>, origin: int, r: nat, price: int)
    requires Ascending(side, levels, origin) && r < |levels| && levels[r] != []
    requires Rank(side, price) == origin + r
    ensures Depth(Flatten(levels[r..])) ==
            [DepthLevel(price, Volume(levels[r]), |levels[r]|)] + Depth(Flatten(levels[r + 1..]))
  {
    assert levels[r..][1..] == levels[r + 1..];
    AscendingFrom(side, levels, origin, r + 1);
    FlattenRanks(side, levels[r + 1..], origin + r + 1);
    DepthLevelFirst(levels[r], Flatten(levels[r + 1..]), price);
  }

  lemma AscendingFrom(side: Side, levels: seq<seq<Order>>, origin: int, r: nat)
    requires Ascending(side, levels, origin) && r <= |levels|
    ensures Ascending(side, levels[r..], origin + r)
  {
    forall t, k | 0 <= t < |levels[r..]| && 0 <= k < |levels[r..][t]|
      ensures Rank(side, levels[r..][t][k].price) == origin + r + t
    {
      assert levels[r..][t] == levels[r + t];
    }
  }
}
