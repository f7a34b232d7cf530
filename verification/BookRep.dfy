/** The book's redundant structures on values: level lists threaded through pool slots,
    the id map and the freelist, and what each book operation does to all of them. */
module BookRep {
  import opened Core
  import opened PriceLevels
  import opened NaiveBook

  // ---- The representation of one side, on values --------------------------

  /** Slot `s` holds an order that belongs in level `i` of `side`. */
  ghost predicate Housed(side: Side, nodes: seq<OrderNode>, base: int, i: int, s: nat) {
    && s < |nodes|
    && nodes[s].levelIndex == i
    && nodes[s].order.side == side
    && nodes[s].order.price == base + i
    && nodes[s].order.kind == Limit
    && nodes[s].order.remaining > 0
  }

  ghost predicate LevelOk(side: Side, level: PriceLevel, fifo: seq<nat>, nodes: seq<OrderNode>, base: int, i: int) {
    && Linked(level, nodes, fifo)
    && forall k {:trigger Housed(side, nodes, base, i, fifo[k])} :: 0 <= k < |fifo| ==>
       Housed(side, nodes, base, i, fifo[k])
  }

  ghost predicate SideOk(side: Side, levels: seq<PriceLevel>, fifos: seq<seq<nat>>, nodes: seq<OrderNode>, base: int) {
    && |levels| == |fifos|
    && forall i {:trigger LevelOk(side, levels[i], fifos[i], nodes, base, i)} ::
         0 <= i < |fifos| ==> LevelOk(side, levels[i], fifos[i], nodes, base, i)
  }

  ghost predicate InPool(fifos: seq<seq<nat>>, nodes: seq<OrderNode>) {
    forall i, k :: 0 <= i < |fifos| && 0 <= k < |fifos[i]| ==> fifos[i][k] < |nodes|
  }

  ghost function LevelOrders(fifos: seq<seq<nat>>, nodes: seq<OrderNode>): (ls: seq<seq<Order>>)
    requires InPool(fifos, nodes)
    ensures |ls| == |fifos|
    ensures forall i :: 0 <= i < |fifos| ==> ls[i] == Orders(nodes, fifos[i])
  {
    seq(|fifos|, i requires 0 <= i < |fifos| => Orders(nodes, fifos[i]))
  }

  /** Levels from best price to worst. */
  function Ranked<T>(side: Side, levels: seq<T>): (r: seq<T>)
    ensures |r| == |levels|
    ensures forall i :: 0 <= i < |r| ==> r[i] == levels[Priority(side, |levels|, i)]
  {
    if side == Sell || levels == [] then levels else Ranked(side, levels[1..]) + [levels[0]]
  }

  ghost function SideQueue(side: Side, fifos: seq<seq<nat>>, nodes: seq<OrderNode>): seq<Order>
    requires InPool(fifos, nodes)
  {
    Flatten(Ranked(side, LevelOrders(fifos, nodes)))
  }

  function Origin(side: Side, base: int, n: nat): int {
    if side == Buy then -(base + n - 1) else base
  }

  lemma SideInPool(side: Side, levels: seq<PriceLevel>, fifos: seq<seq<nat>>, nodes: seq<OrderNode>, base: int)
    requires SideOk(side, levels, fifos, nodes, base)
    ensures InPool(fifos, nodes)
    ensures Ascending(side, Ranked(side, LevelOrders(fifos, nodes)), Origin(side, base, |fifos|))
  {
    forall i, k | 0 <= i < |fifos| && 0 <= k < |fifos[i]|
      ensures fifos[i][k] < |nodes|
    {
      assert LevelOk(side, levels[i], fifos[i], nodes, base, i);
      assert Housed(side, nodes, base, i, fifos[i][k]);
    }
    var ranked: seq<seq<Order>> := Ranked(side, LevelOrders(fifos, nodes));
    forall r, k | 0 <= r < |ranked| && 0 <= k < |ranked[r]|
      ensures Rank(side, ranked[r][k].price) == Origin(side, base, |fifos|) + r
    {
      var i := Priority(side, |fifos|, r);
      assert LevelOk(side, levels[i], fifos[i], nodes, base, i);
      assert Housed(side, nodes, base, i, fifos[i][k]);
    }
  }

  /** Editing one level edits one entry of the priority list. */
  lemma RankedUpdate<T>(side: Side, levels: seq<T>, i: nat, x: T)
    requires i < |levels|
    ensures Ranked(side, levels[i := x]) == Ranked(side, levels)[Priority(side, |levels|, i) := x]
  {
    var after, expected := Ranked(side, levels[i := x]), Ranked(side, levels)[Priority(side, |levels|, i) := x];
    forall j | 0 <= j < |levels|
      ensures after[j] == expected[j]
    {
    }
  }

  /** A change of nodes that spares a side's slots spares the side. */
  lemma SideFrame(side: Side, levels: seq<PriceLevel>, fifos: seq<seq<nat>>,
                  before: seq<OrderNode>, after: seq<OrderNode>, base: int)
    requires SideOk(side, levels, fifos, before, base) && |after| == |before|
    requires InPool(fifos, before)
    requires forall i, k :: 0 <= i < |fifos| && 0 <= k < |fifos[i]| ==> after[fifos[i][k]] == before[fifos[i][k]]
    ensures SideOk(side, levels, fifos, after, base)
    ensures LevelOrders(fifos, after) == LevelOrders(fifos, before)
  {
    forall i | 0 <= i < |fifos|
      ensures LevelOk(side, levels[i], fifos[i], after, base, i)
      ensures Orders(after, fifos[i]) == Orders(before, fifos[i])
    {
      assert LevelOk(side, levels[i], fifos[i], before, base, i);
      LinkedFrame(levels[i], before, after, fifos[i]);
      forall k | 0 <= k < |fifos[i]|
        ensures Housed(side, after, base, i, fifos[i][k])
      {
        assert Housed(side, before, base, i, fifos[i][k]);
      }
    }
  }

  /** Replacing the list of one level, with every other level's nodes left alone. */
  lemma SideEdit(side: Side, levels: seq<PriceLevel>, levels': seq<PriceLevel>, fifos: seq<seq<nat>>, list: seq<nat>,
                 before: seq<OrderNode>, after: seq<OrderNode>, base: int, i: nat)
    requires SideOk(side, levels, fifos, before, base) && |after| == |before| && InPool(fifos, before)
    requires i < |fifos| && |levels'| == |levels|
    requires forall j :: 0 <= j < |levels| && j != i ==> levels'[j] == levels[j]
    requires LevelOk(side, levels'[i], list, after, base, i)
    requires forall s :: 0 <= s < |before| && !(before[s].order.side == side && before[s].levelIndex == i) ==>
             after[s] == before[s]
    ensures SideOk(side, levels', fifos[i := list], after, base)
    ensures InPool(fifos[i := list], after)
    ensures LevelOrders(fifos[i := list], after) == LevelOrders(fifos, before)[i := Orders(after, list)]
  {
    forall j | 0 <= j < |fifos| && j != i
      ensures LevelOk(side, levels'[j], fifos[j], after, base, j)
      ensures Orders(after, fifos[j]) == Orders(before, fifos[j])
    {
      assert LevelOk(side, levels[j], fifos[j], before, base, j);
      forall k | 0 <= k < |fifos[j]|
        ensures after[fifos[j][k]] == before[fifos[j][k]]
        ensures Housed(side, after, base, j, fifos[j][k])
      {
        assert Housed(side, before, base, j, fifos[j][k]);
      }
      LinkedFrame(levels[j], before, after, fifos[j]);
    }
    SideInPool(side, levels', fifos[i := list], after, base);
  }

  /** The same edit seen from the opposite side. */
  lemma OtherSideFrame(side: Side, levels: seq<PriceLevel>, fifos: seq<seq<nat>>,
                       before: seq<OrderNode>, after: seq<OrderNode>, base: int)
    requires SideOk(side, levels, fifos, before, base) && |after| == |before| && InPool(fifos, before)
    requires forall s :: 0 <= s < |before| && before[s].order.side == side ==> after[s] == before[s]
    ensures SideOk(side, levels, fifos, after, base)
    ensures LevelOrders(fifos, after) == LevelOrders(fifos, before)
  {
    forall i, k | 0 <= i < |fifos| && 0 <= k < |fifos[i]|
      ensures after[fifos[i][k]] == before[fifos[i][k]]
    {
      assert LevelOk(side, levels[i], fifos[i], before, base, i);
      assert Housed(side, before, base, i, fifos[i][k]);
    }
    SideFrame(side, levels, fifos, before, after, base);
  }

  // ---- The id map ----------------------------------------------------------

  ghost function Pick(side: Side, bids: seq<seq<nat>>, asks: seq<seq<nat>>): seq<seq<nat>> {
    if side == Buy then bids else asks
  }

  /** The map entry for `id` leads to a node that carries `id` and is linked where it says. */
  ghost predicate Entry(index: map<nat, nat>, bids: seq<seq<nat>>, asks: seq<seq<nat>>, nodes: seq<OrderNode>, id: nat)
    requires id in index
  {
    var s := index[id];
    && s < |nodes|
    && nodes[s].order.id == id
    && nodes[s].levelIndex < |Pick(nodes[s].order.side, bids, asks)|
    && s in Pick(nodes[s].order.side, bids, asks)[nodes[s].levelIndex]
  }

  /** Slot `s` is the one its own order's id maps to. */
  ghost predicate MappedAt(index: map<nat, nat>, nodes: seq<OrderNode>, s: nat) {
    && s < |nodes|
    && nodes[s].order.id in index
    && index[nodes[s].order.id] == s
  }

  ghost predicate Mapped(index: map<nat, nat>, fifos: seq<seq<nat>>, nodes: seq<OrderNode>) {
    && InPool(fifos, nodes)
    && forall i, k {:trigger MappedAt(index, nodes, fifos[i][k])} ::
         0 <= i < |fifos| && 0 <= k < |fifos[i]| ==> MappedAt(index, nodes, fifos[i][k])
  }

  /** The id map is exactly the set of linked nodes. */
  ghost predicate Indexed(index: map<nat, nat>, bids: seq<seq<nat>>, asks: seq<seq<nat>>, nodes: seq<OrderNode>) {
    && Mapped(index, bids, nodes)
    && Mapped(index, asks, nodes)
    && (forall id :: id in index ==> index[id] < |nodes|)
    && forall id {:trigger Entry(index, bids, asks, nodes, id)} :: id in index ==> Entry(index, bids, asks, nodes, id)
  }

  lemma {:induction false} FlattenHas(levels: seq<seq<Order>>, id: nat)
    ensures HasId(Flatten(levels), id) <==> exists r :: 0 <= r < |levels| && HasId(levels[r], id)
  {
    if levels != [] {
      FlattenHas(levels[1..], id);
      HasIdConcat(levels[0], Flatten(levels[1..]), id);
      if r :| 0 <= r < |levels| && HasId(levels[r], id) {
        if r > 0 {
          assert HasId(levels[1..][r - 1], id);
        }
      }
      if r :| 0 <= r < |levels[1..]| && HasId(levels[1..][r], id) {
        assert HasId(levels[r + 1], id);
      }
    }
  }

  lemma HasIdConcat(a: seq<Order>, b: seq<Order>, id: nat)
    ensures HasId(a + b, id) <==> HasId(a, id) || HasId(b, id)
  {
    if k :| 0 <= k < |a| && a[k].id == id {
      assert (a + b)[k].id == id;
    }
    if k :| 0 <= k < |b| && b[k].id == id {
      assert (a + b)[|a| + k].id == id;
    }
    if k :| 0 <= k < |a + b| && (a + b)[k].id == id {
      if k < |a| {
        assert a[k].id == id;
      } else {
        assert b[k - |a|].id == id;
      }
    }
  }

  lemma IndexedHas(side: Side, index: map<nat, nat>, bids: seq<seq<nat>>, asks: seq<seq<nat>>, nodes: seq<OrderNode>,
      id: nat)
    requires Indexed(index, bids, asks, nodes)
    requires id in index && nodes[index[id]].order.side == side
    ensures HasId(SideQueue(side, Pick(side, bids, asks), nodes), id)
  {
    var fifos := Pick(side, bids, asks);
    var ranked: seq<seq<Order>> := Ranked(side, LevelOrders(fifos, nodes));
    FlattenHas(ranked, id);
    assert Entry(index, bids, asks, nodes, id);
    var i := nodes[index[id]].levelIndex;
    var k :| 0 <= k < |fifos[i]| && fifos[i][k] == index[id];
    var r := Priority(side, |fifos|, i);
    assert ranked[r] == Orders(nodes, fifos[i]);
    assert ranked[r][k].id == id;
    assert HasId(ranked[r], id);
  }

  lemma HasIndexed(side: Side, index: map<nat, nat>, levels: seq<PriceLevel>, fifos: seq<seq<nat>>,
                   nodes: seq<OrderNode>, base: int, id: nat, r: nat)
    requires SideOk(side, levels, fifos, nodes, base) && Mapped(index, fifos, nodes)
    requires r < |fifos| && HasId(Ranked(side, LevelOrders(fifos, nodes))[r], id)
    ensures id in index && index[id] < |nodes| && nodes[index[id]].order.side == side
  {
    var i := Priority(side, |fifos|, r);
    var os: seq<Order> := Orders(nodes, fifos[i]);
    var k :| 0 <= k < |os| && os[k].id == id;
    assert LevelOk(side, levels[i], fifos[i], nodes, base, i);
    assert Housed(side, nodes, base, i, fifos[i][k]);
    assert MappedAt(index, nodes, fifos[i][k]);
  }

  /** An id is in a side's list exactly when the map sends it to a node of that side. */
  lemma SideHas(side: Side, index: map<nat, nat>, levels: seq<PriceLevel>, bids: seq<seq<nat>>, asks: seq<seq<nat>>,
                nodes: seq<OrderNode>, base: int, id: nat)
    requires SideOk(side, levels, Pick(side, bids, asks), nodes, base)
    requires Indexed(index, bids, asks, nodes)
    ensures HasId(SideQueue(side, Pick(side, bids, asks), nodes), id) <==>
            id in index && nodes[index[id]].order.side == side
  {
    var fifos := Pick(side, bids, asks);
    var ranked: seq<seq<Order>> := Ranked(side, LevelOrders(fifos, nodes));
    FlattenHas(ranked, id);
    if id in index && nodes[index[id]].order.side == side {
      IndexedHas(side, index, bids, asks, nodes, id);
    }
    if HasId(Flatten(ranked), id) {
      var r :| 0 <= r < |ranked| && HasId(ranked[r], id);
      HasIndexed(side, index, levels, fifos, nodes, base, id, r);
    }
  }

  // ---- The whole representation, on values ---------------------------------

  datatype Rep = Rep(
    base: int,
    bidLevels: seq<PriceLevel>,
    askLevels: seq<PriceLevel>,
    bidFifos: seq<seq<nat>>,
    askFifos: seq<seq<nat>>,
    nodes: seq<OrderNode>,
    index: map<nat, nat>,
    free: seq<nat>)

  function LevelsOf(r: Rep, side: Side): seq<PriceLevel> {
    if side == Buy then r.bidLevels else r.askLevels
  }

  ghost function FifosOf(r: Rep, side: Side): seq<seq<nat>> {
    Pick(side, r.bidFifos, r.askFifos)
  }

  ghost predicate RepOk(r: Rep) {
    && |r.bidFifos| == |r.askFifos|
    && SideOk(Buy, r.bidLevels, r.bidFifos, r.nodes, r.base)
    && SideOk(Sell, r.askLevels, r.askFifos, r.nodes, r.base)
    && Indexed(r.index, r.bidFifos, r.askFifos, r.nodes)
    && forall id :: id in r.index ==> r.index[id] !in r.free
  }

  ghost function RepQueue(r: Rep, side: Side): seq<Order>
    requires RepOk(r)
  {
    SideQueue(side, FifosOf(r, side), r.nodes)
  }

  /** `r'` is `r` with level `i` of `side` holding `list` and nothing else moved. */
  ghost predicate Rehoused(r: Rep, r': Rep, side: Side, i: nat, list: seq<nat>) {
    && i < |FifosOf(r, side)| && |LevelsOf(r, side)| == |FifosOf(r, side)|
    && r'.base == r.base
    && |r'.nodes| == |r.nodes|
    && LevelsOf(r', Opposite(side)) == LevelsOf(r, Opposite(side))
    && FifosOf(r', Opposite(side)) == FifosOf(r, Opposite(side))
    && |LevelsOf(r', side)| == |LevelsOf(r, side)|
    && (forall j :: 0 <= j < |LevelsOf(r, side)| && j != i ==> LevelsOf(r', side)[j] == LevelsOf(r, side)[j])
    && FifosOf(r', side) == FifosOf(r, side)[i := list]
    && (forall s :: 0 <= s < |r.nodes| && !(r.nodes[s].order.side == side && r.nodes[s].levelIndex == i) ==>
       r'.nodes[s] == r.nodes[s])
  }

  /** Level `i` of `side` now holds the orders `os`, and no other level changed. */
  ghost predicate LevelEdited(r: Rep, r': Rep, side: Side, i: nat, os: seq<Order>) {
    && InPool(FifosOf(r, side), r.nodes) && InPool(FifosOf(r', side), r'.nodes)
    && InPool(FifosOf(r, Opposite(side)), r.nodes) && InPool(FifosOf(r', Opposite(side)), r'.nodes)
    && i < |FifosOf(r, side)|
    && LevelOrders(FifosOf(r', side), r'.nodes) == LevelOrders(FifosOf(r, side), r.nodes)[i := os]
    && LevelOrders(FifosOf(r', Opposite(side)), r'.nodes) == LevelOrders(FifosOf(r, Opposite(side)), r.nodes)
  }

  /** Rehousing keeps both sides well formed and edits one entry of one priority list. */
  lemma RehousedSides(r: Rep, r': Rep, side: Side, i: nat, list: seq<nat>)
    requires |r.bidFifos| == |r.askFifos|
    requires SideOk(Buy, r.bidLevels, r.bidFifos, r.nodes, r.base)
    requires SideOk(Sell, r.askLevels, r.askFifos, r.nodes, r.base)
    requires Rehoused(r, r', side, i, list)
    requires LevelOk(side, LevelsOf(r', side)[i], list, r'.nodes, r'.base, i)
    ensures SideOk(Buy, r'.bidLevels, r'.bidFifos, r'.nodes, r'.base)
    ensures SideOk(Sell, r'.askLevels, r'.askFifos, r'.nodes, r'.base)
    ensures LevelEdited(r, r', side, i, Orders(r'.nodes, list))
  {
    var other := Opposite(side);
    SideInPool(side, LevelsOf(r, side), FifosOf(r, side), r.nodes, r.base);
    SideInPool(other, LevelsOf(r, other), FifosOf(r, other), r.nodes, r.base);
    SideEdit(side, LevelsOf(r, side), LevelsOf(r', side), FifosOf(r, side), list, r.nodes, r'.nodes, r.base, i);
    OtherSideFrame(other, LevelsOf(r, other), FifosOf(r, other), r.nodes, r'.nodes, r.base);
  }

  /** Queue form of an appended order. */
  lemma AppendedLevel(levels: seq<seq<Order>>, base: int, i: nat, o: Order)
    requires i < |levels| && o.price == base + i
    requires Ascending(o.side, Ranked(o.side, levels), Origin(o.side, base, |levels|))
    ensures Flatten(Ranked(o.side, levels[i := levels[i] + [o]])) == Insert(Flatten(Ranked(o.side, levels)), o)
  {
    RankedUpdate(o.side, levels, i, levels[i] + [o]);
    FlattenInsert(Ranked(o.side, levels), Origin(o.side, base, |levels|), Priority(o.side, |levels|, i), o);
  }

  lemma AddedQueues(r: Rep, r': Rep, o: Order, i: nat)
    requires RepOk(r) && RepOk(r')
    requires i < |FifosOf(r, o.side)| && o.price == r.base + i
    requires LevelEdited(r, r', o.side, i, Orders(r.nodes, FifosOf(r, o.side)[i]) + [o])
    ensures RepQueue(r', o.side) == Insert(RepQueue(r, o.side), o)
    ensures RepQueue(r', Opposite(o.side)) == RepQueue(r, Opposite(o.side))
  {
    var side := o.side;
    SideInPool(side, LevelsOf(r, side), FifosOf(r, side), r.nodes, r.base);
    AppendedLevel(LevelOrders(FifosOf(r, side), r.nodes), r.base, i, o);
  }

  /** Every node but `n` keeps its identity: id, side and level. */
  ghost predicate SameIdentity(before: seq<OrderNode>, after: seq<OrderNode>, n: nat) {
    && |after| == |before|
    && forall s :: 0 <= s < |before| && s != n ==>
                     && after[s].order.id == before[s].order.id
                     && after[s].order.side == before[s].order.side
                     && after[s].levelIndex == before[s].levelIndex
  }

  lemma MappedAdd(index: map<nat, nat>, fifos: seq<seq<nat>>, nodes: seq<OrderNode>, after: seq<OrderNode>, id: nat,
      n: nat)
    requires Mapped(index, fifos, nodes) && id !in index
    requires forall x :: x in index ==> index[x] != n
    requires SameIdentity(nodes, after, n)
    ensures Mapped(index[id := n], fifos, after)
  {
    forall i, k | 0 <= i < |fifos| && 0 <= k < |fifos[i]|
      ensures MappedAt(index[id := n], after, fifos[i][k])
    {
      assert MappedAt(index, nodes, fifos[i][k]);
    }
  }

  /** Appending slot `n` for a new id to one list keeps the map exact. */
  lemma IndexedAdd(r: Rep, r': Rep, o: Order, i: nat, n: nat)
    requires Indexed(r.index, r.bidFifos, r.askFifos, r.nodes)
    requires o.id !in r.index && n < |r.nodes|
    requires forall x :: x in r.index ==> r.index[x] != n
    requires SameIdentity(r.nodes, r'.nodes, n)
    requires r'.nodes[n].order == o && r'.nodes[n].levelIndex == i < |FifosOf(r, o.side)|
    requires FifosOf(r', o.side) == FifosOf(r, o.side)[i := FifosOf(r, o.side)[i] + [n]]
    requires FifosOf(r', Opposite(o.side)) == FifosOf(r, Opposite(o.side))
    requires r'.index == r.index[o.id := n]
    ensures Indexed(r'.index, r'.bidFifos, r'.askFifos, r'.nodes)
  {
    MappedAdd(r.index, r.bidFifos, r.nodes, r'.nodes, o.id, n);
    MappedAdd(r.index, r.askFifos, r.nodes, r'.nodes, o.id, n);
    var fifos := FifosOf(r, o.side);
    forall j, k | 0 <= j < |FifosOf(r', o.side)| && 0 <= k < |FifosOf(r', o.side)[j]|
      ensures MappedAt(r'.index, r'.nodes, FifosOf(r', o.side)[j][k])
    {
      if k < |fifos[j]| {
        assert MappedAt(r'.index, r'.nodes, fifos[j][k]);
      }
    }
    forall id | id in r'.index
      ensures Entry(r'.index, r'.bidFifos, r'.askFifos, r'.nodes, id)
    {
      if id == o.id {
        assert n in fifos[i] + [n];
      } else {
        assert Entry(r.index, r.bidFifos, r.askFifos, r.nodes, id);
      }
    }
  }

  /** A node written into a free slot disturbs no list. */
  ghost predicate Placed(r: Rep, placed: Rep, o: Order, i: nat, n: nat) {
    && n < |r.nodes| && n in r.free
    && placed == r.(nodes := placed.nodes) && |placed.nodes| == |r.nodes|
    && placed.nodes[n].order == o && placed.nodes[n].levelIndex == i
    && (forall s :: 0 <= s < |r.nodes| && s != n ==> placed.nodes[s] == r.nodes[s])
  }

  lemma SlotInUse(r: Rep, side: Side, i: nat, k: nat)
    requires RepOk(r) && i < |FifosOf(r, side)| && k < |FifosOf(r, side)[i]|
    ensures FifosOf(r, side)[i][k] < |r.nodes| && FifosOf(r, side)[i][k] !in r.free
  {
    assert MappedAt(r.index, r.nodes, FifosOf(r, side)[i][k]);
  }

  lemma PlacedSides(r: Rep, placed: Rep, o: Order, i: nat, n: nat)
    requires RepOk(r) && Placed(r, placed, o, i, n)
    ensures SideOk(Buy, r.bidLevels, r.bidFifos, placed.nodes, r.base)
    ensures SideOk(Sell, r.askLevels, r.askFifos, placed.nodes, r.base)
    ensures InPool(r.bidFifos, placed.nodes) && InPool(r.askFifos, placed.nodes)
    ensures LevelOrders(r.bidFifos, placed.nodes) == LevelOrders(r.bidFifos, r.nodes)
    ensures LevelOrders(r.askFifos, placed.nodes) == LevelOrders(r.askFifos, r.nodes)
  {
    forall j, k | 0 <= j < |r.bidFifos| && 0 <= k < |r.bidFifos[j]|
      ensures placed.nodes[r.bidFifos[j][k]] == r.nodes[r.bidFifos[j][k]]
    {
      SlotInUse(r, Buy, j, k);
    }
    SideFrame(Buy, r.bidLevels, r.bidFifos, r.nodes, placed.nodes, r.base);
    forall j, k | 0 <= j < |r.askFifos| && 0 <= k < |r.askFifos[j]|
      ensures placed.nodes[r.askFifos[j][k]] == r.nodes[r.askFifos[j][k]]
    {
      SlotInUse(r, Sell, j, k);
    }
    SideFrame(Sell, r.askLevels, r.askFifos, r.nodes, placed.nodes, r.base);
  }

  /** After the node is written, its level is still linked and does not yet hold it. */
  lemma PlacedReady(r: Rep, placed: Rep, o: Order, i: nat, n: nat)
    requires RepOk(r) && Placed(r, placed, o, i, n) && i < |FifosOf(r, o.side)|
    ensures |LevelsOf(r, o.side)| == |FifosOf(r, o.side)|
    ensures Linked(LevelsOf(r, o.side)[i], placed.nodes, FifosOf(r, o.side)[i])
    ensures n !in FifosOf(r, o.side)[i]
  {
    PlacedSides(r, placed, o, i, n);
    assert LevelOk(o.side, LevelsOf(r, o.side)[i], FifosOf(r, o.side)[i], placed.nodes, r.base, i);
    forall k | 0 <= k < |FifosOf(r, o.side)[i]|
      ensures FifosOf(r, o.side)[i][k] != n
    {
      SlotInUse(r, o.side, i, k);
    }
  }

  /** Level `i` of `side` was relinked to the slots `list`, changing only links of `touched`. */
  ghost predicate Relisted(r: Rep, r': Rep, side: Side, i: nat, list: seq<nat>, touched: seq<nat>) {
    && i < |FifosOf(r, side)| && |LevelsOf(r, side)| == |FifosOf(r, side)|
    && r'.base == r.base
    && LevelsOf(r', Opposite(side)) == LevelsOf(r, Opposite(side))
    && FifosOf(r', Opposite(side)) == FifosOf(r, Opposite(side))
    && |LevelsOf(r', side)| == |LevelsOf(r, side)|
    && (forall j :: 0 <= j < |LevelsOf(r, side)| && j != i ==> LevelsOf(r', side)[j] == LevelsOf(r, side)[j])
    && FifosOf(r', side) == FifosOf(r, side)[i := list]
    && Linked(LevelsOf(r', side)[i], r'.nodes, list)
    && Relinked(r.nodes, r'.nodes, touched)
  }

  lemma RelistedKeeps(r: Rep, r': Rep, r'': Rep, side: Side, i: nat, list: seq<nat>, touched: seq<nat>)
    requires Relisted(r, r', side, i, list, touched)
    requires r'' == r'.(index := r''.index, free := r''.free)
    ensures Relisted(r, r'', side, i, list, touched)
  {
  }

  /** Slot `n` was pushed onto the back of level `i` of `side`. */
  ghost predicate Pushed(r: Rep, r': Rep, side: Side, i: nat, n: nat) {
    && i < |FifosOf(r, side)|
    && Relisted(r, r', side, i, FifosOf(r, side)[i] + [n], FifosOf(r, side)[i] + [n])
  }

  /** The node at position `k` of level `i` of `side` was unlinked. */
  ghost predicate Popped(r: Rep, r': Rep, side: Side, i: nat, k: nat) {
    && i < |FifosOf(r, side)| && k < |FifosOf(r, side)[i]|
    && Relisted(r, r', side, i, RemoveAt(FifosOf(r, side)[i], k), FifosOf(r, side)[i])
  }

  lemma PushedSides(r: Rep, r': Rep, side: Side, i: nat, n: nat)
    requires |r.bidFifos| == |r.askFifos|
    requires SideOk(Buy, r.bidLevels, r.bidFifos, r.nodes, r.base)
    requires SideOk(Sell, r.askLevels, r.askFifos, r.nodes, r.base)
    requires Pushed(r, r', side, i, n) && Housed(side, r.nodes, r.base, i, n)
    ensures SideOk(Buy, r'.bidLevels, r'.bidFifos, r'.nodes, r'.base)
    ensures SideOk(Sell, r'.askLevels, r'.askFifos, r'.nodes, r'.base)
    ensures InPool(FifosOf(r, side), r.nodes)
    ensures LevelEdited(r, r', side, i, Orders(r.nodes, FifosOf(r, side)[i]) + [r.nodes[n].order])
  {
    var fifo := FifosOf(r, side)[i];
    var list := fifo + [n];
    assert LevelOk(side, LevelsOf(r, side)[i], fifo, r.nodes, r.base, i);
    forall k | 0 <= k < |list|
      ensures Housed(side, r.nodes, r.base, i, list[k])
      ensures Housed(side, r'.nodes, r.base, i, list[k])
    {
      if k < |fifo| {
        assert Housed(side, r.nodes, r.base, i, fifo[k]);
      }
    }
    RehousedSides(r, r', side, i, list);
    assert Orders(r'.nodes, list) == Orders(r.nodes, fifo) + [r.nodes[n].order];
  }

  /** Resting a new order: all structures stay in step and the reference list gains the
      order behind its price. */
  lemma AddRep(r: Rep, placed: Rep, r': Rep, o: Order, i: nat, n: nat)
    requires RepOk(r) && o.kind == Limit && o.remaining > 0
    requires i < |r.bidFifos| && o.price == r.base + i && o.id !in r.index
    requires Placed(r, placed, o, i, n) && Pushed(placed, r', o.side, i, n)
    requires r'.index == r.index[o.id := n]
    requires n !in r'.free && forall x :: x in r'.free ==> x in r.free
    ensures RepOk(r')
    ensures RepQueue(r', o.side) == Insert(RepQueue(r, o.side), o)
    ensures RepQueue(r', Opposite(o.side)) == RepQueue(r, Opposite(o.side))
  {
    PlacedSides(r, placed, o, i, n);
    PushedSides(placed, r', o.side, i, n);
    IndexedAdd(r, r', o, i, n);
    AddedQueues(r, r', o, i);
  }

  /** The order found through the map sits at position `k` of level `i` of `side`. */
  ghost predicate Sits(r: Rep, id: nat, side: Side, i: nat, k: nat) {
    && i < |FifosOf(r, side)| && k < |FifosOf(r, side)[i]|
    && id in r.index && r.index[id] == FifosOf(r, side)[i][k]
  }

  lemma Locate(r: Rep, id: nat) returns (k: nat)
    requires RepOk(r) && id in r.index
    ensures r.index[id] < |r.nodes|
    ensures Sits(r, id, r.nodes[r.index[id]].order.side, r.nodes[r.index[id]].levelIndex, k)
    ensures Housed(r.nodes[r.index[id]].order.side, r.nodes, r.base, r.nodes[r.index[id]].levelIndex, r.index[id])
  {
    assert Entry(r.index, r.bidFifos, r.askFifos, r.nodes, id);
    var node := r.nodes[r.index[id]];
    var fifo := FifosOf(r, node.order.side)[node.levelIndex];
    k :| 0 <= k < |fifo| && fifo[k] == r.index[id];
    assert LevelOk(node.order.side, LevelsOf(r, node.order.side)[node.levelIndex], fifo, r.nodes, r.base,
           node.levelIndex);
    assert Housed(node.order.side, r.nodes, r.base, node.levelIndex, fifo[k]);
  }

  /** A linked slot with this id is the slot the map gives, in the place the node says. */
  lemma IdPlace(r: Rep, id: nat, side: Side, j: nat, x: nat)
    requires RepOk(r) && id in r.index && r.index[id] < |r.nodes|
    requires j < |FifosOf(r, side)| && x < |FifosOf(r, side)[j]|
    requires FifosOf(r, side)[j][x] < |r.nodes| && r.nodes[FifosOf(r, side)[j][x]].order.id == id
    ensures FifosOf(r, side)[j][x] == r.index[id]
    ensures r.nodes[r.index[id]].order.side == side && r.nodes[r.index[id]].levelIndex == j
  {
    assert MappedAt(r.index, r.nodes, FifosOf(r, side)[j][x]);
    assert LevelOk(side, LevelsOf(r, side)[j], FifosOf(r, side)[j], r.nodes, r.base, j);
    assert Housed(side, r.nodes, r.base, j, FifosOf(r, side)[j][x]);
  }

  lemma IdOnlyHere(r: Rep, id: nat, side: Side, i: nat, k: nat)
    requires RepOk(r) && Sits(r, id, side, i, k)
    ensures forall j, x :: 0 <= j < |FifosOf(r, side)| && 0 <= x < |FifosOf(r, side)[j]| && !(j == i && x == k) ==>
                             r.nodes[FifosOf(r, side)[j][x]].order.id != id
  {
    assert Entry(r.index, r.bidFifos, r.askFifos, r.nodes, id);
    IdPlace(r, id, side, i, k);
    assert LevelOk(side, LevelsOf(r, side)[i], FifosOf(r, side)[i], r.nodes, r.base, i);
    forall j, x | 0 <= j < |FifosOf(r, side)| && 0 <= x < |FifosOf(r, side)[j]| && !(j == i && x == k)
      ensures r.nodes[FifosOf(r, side)[j][x]].order.id != id
    {
      if r.nodes[FifosOf(r, side)[j][x]].order.id == id {
        IdPlace(r, id, side, j, x);
      }
    }
  }

  /** An id occurs once in the whole side: at its own level, at its own position. */
  lemma IdOnlyThere(r: Rep, id: nat, side: Side, i: nat, k: nat)
    requires RepOk(r) && Sits(r, id, side, i, k)
    ensures var levels := LevelOrders(FifosOf(r, side), r.nodes);
            && levels[i][k].id == id
            && (forall j :: 0 <= j < k ==> levels[i][j].id != id)
            && (forall j :: 0 <= j < |levels| && j != i ==> !HasId(levels[j], id))
  {
    assert Entry(r.index, r.bidFifos, r.askFifos, r.nodes, id);
    IdOnlyHere(r, id, side, i, k);
  }

  lemma SitsReady(r: Rep, id: nat, side: Side, i: nat, k: nat)
    requires RepOk(r) && Sits(r, id, side, i, k)
    ensures |LevelsOf(r, side)| == |FifosOf(r, side)|
    ensures Linked(LevelsOf(r, side)[i], r.nodes, FifosOf(r, side)[i])
    ensures r.index[id] < |r.nodes| && r.index[id] !in r.free
  {
    assert LevelOk(side, LevelsOf(r, side)[i], FifosOf(r, side)[i], r.nodes, r.base, i);
    assert Entry(r.index, r.bidFifos, r.askFifos, r.nodes, id);
  }

  lemma PoppedLevel(side: Side, level: PriceLevel, level': PriceLevel, fifo: seq<nat>, nodes: seq<OrderNode>,
                    nodes': seq<OrderNode>, base: int, i: nat, k: nat)
    requires LevelOk(side, level, fifo, nodes, base, i) && k < |fifo|
    requires Linked(level', nodes', RemoveAt(fifo, k)) && Relinked(nodes, nodes', fifo)
    ensures LevelOk(side, level', RemoveAt(fifo, k), nodes', base, i)
    ensures Orders(nodes', RemoveAt(fifo, k)) == RemoveAt(Orders(nodes, fifo), k)
    ensures forall s :: 0 <= s < |nodes| && !(nodes[s].order.side == side && nodes[s].levelIndex == i) ==>
            nodes'[s] == nodes[s]
  {
    var list := RemoveAt(fifo, k);
    forall j | 0 <= j < |list|
      ensures Housed(side, nodes', base, i, list[j])
    {
      assert Housed(side, nodes, base, i, fifo[if j < k then j else j + 1]);
    }
    forall j | 0 <= j < |fifo|
      ensures nodes[fifo[j]].order.side == side && nodes[fifo[j]].levelIndex == i
    {
      assert Housed(side, nodes, base, i, fifo[j]);
    }
    assert Orders(nodes', list) == RemoveAt(Orders(nodes, fifo), k);
  }

  lemma PoppedSides(r: Rep, r': Rep, side: Side, i: nat, k: nat)
    requires RepOk(r) && Popped(r, r', side, i, k)
    ensures SideOk(Buy, r'.bidLevels, r'.bidFifos, r'.nodes, r'.base)
    ensures SideOk(Sell, r'.askLevels, r'.askFifos, r'.nodes, r'.base)
    ensures LevelEdited(r, r', side, i, RemoveAt(Orders(r.nodes, FifosOf(r, side)[i]), k))
  {
    var fifo := FifosOf(r, side)[i];
    assert LevelOk(side, LevelsOf(r, side)[i], fifo, r.nodes, r.base, i);
    PoppedLevel(side, LevelsOf(r, side)[i], LevelsOf(r', side)[i], fifo, r.nodes, r'.nodes, r.base, i, k);
    RehousedSides(r, r', side, i, RemoveAt(fifo, k));
  }

  /** Dropping position `k` of one list drops exactly the slot found there. */
  lemma MappedRemove(index: map<nat, nat>, fifos: seq<seq<nat>>, nodes: seq<OrderNode>, nodes': seq<OrderNode>,
                     id: nat, i: nat, k: nat)
    requires Mapped(index, fifos, nodes) && i < |fifos| && k < |fifos[i]|
    requires forall j, x :: 0 <= j < |fifos| && 0 <= x < |fifos[j]| && !(j == i && x == k) ==>
             nodes[fifos[j][x]].order.id != id
    requires SameIdentity(nodes, nodes', |nodes|)
    ensures Mapped(index - {id}, fifos[i := RemoveAt(fifos[i], k)], nodes')
  {
    var fifos' := fifos[i := RemoveAt(fifos[i], k)];
    forall j, x | 0 <= j < |fifos'| && 0 <= x < |fifos'[j]|
      ensures MappedAt(index - {id}, nodes', fifos'[j][x])
    {
      var y := if j == i && x >= k then x + 1 else x;
      assert fifos'[j][x] == fifos[j][y];
      assert MappedAt(index, nodes, fifos[j][y]);
    }
  }

  lemma MappedWithout(index: map<nat, nat>, fifos: seq<seq<nat>>, nodes: seq<OrderNode>, nodes': seq<OrderNode>,
      id: nat)
    requires Mapped(index, fifos, nodes) && SameIdentity(nodes, nodes', |nodes|)
    requires forall j, x :: 0 <= j < |fifos| && 0 <= x < |fifos[j]| ==> nodes[fifos[j][x]].order.id != id
    ensures Mapped(index - {id}, fifos, nodes')
  {
    forall j, x | 0 <= j < |fifos| && 0 <= x < |fifos[j]|
      ensures MappedAt(index - {id}, nodes', fifos[j][x])
    {
      assert MappedAt(index, nodes, fifos[j][x]);
    }
  }

  lemma IdNotOpposite(r: Rep, id: nat, side: Side, i: nat, k: nat)
    requires RepOk(r) && Sits(r, id, side, i, k)
    ensures var fifos := FifosOf(r, Opposite(side));
            forall j, x :: 0 <= j < |fifos| && 0 <= x < |fifos[j]| ==> r.nodes[fifos[j][x]].order.id != id
  {
    var fifos := FifosOf(r, Opposite(side));
    assert Entry(r.index, r.bidFifos, r.askFifos, r.nodes, id);
    IdPlace(r, id, side, i, k);
    forall j, x | 0 <= j < |fifos| && 0 <= x < |fifos[j]|
      ensures r.nodes[fifos[j][x]].order.id != id
    {
      if r.nodes[fifos[j][x]].order.id == id {
        IdPlace(r, id, Opposite(side), j, x);
      }
    }
  }

  lemma RemoveAtKeeps(fifo: seq<nat>, k: nat, s: nat)
    requires k < |fifo| && s in fifo && s != fifo[k]
    ensures s in RemoveAt(fifo, k)
  {
    var y :| 0 <= y < |fifo| && fifo[y] == s;
    assert RemoveAt(fifo, k)[if y < k then y else y - 1] == s;
  }

  lemma EntryRemove(r: Rep, r': Rep, id: nat, side: Side, i: nat, k: nat, x: nat)
    requires Sits(r, id, side, i, k) && x in r.index && x != id
    requires Entry(r.index, r.bidFifos, r.askFifos, r.nodes, x)
    requires Entry(r.index, r.bidFifos, r.askFifos, r.nodes, id)
    requires SameIdentity(r.nodes, r'.nodes, |r.nodes|)
    requires FifosOf(r', side) == FifosOf(r, side)[i := RemoveAt(FifosOf(r, side)[i], k)]
    requires FifosOf(r', Opposite(side)) == FifosOf(r, Opposite(side))
    requires r'.index == r.index - {id}
    ensures Entry(r'.index, r'.bidFifos, r'.askFifos, r'.nodes, x)
    ensures r.index[x] != r.index[id]
  {
    var s := r.index[x];
    if r.nodes[s].order.side == side && r.nodes[s].levelIndex == i {
      RemoveAtKeeps(FifosOf(r, side)[i], k, s);
    }
  }

  lemma OtherSideLacks(r: Rep, id: nat, side: Side, i: nat, k: nat)
    requires RepOk(r) && Sits(r, id, side, i, k)
    ensures !HasId(RepQueue(r, Opposite(side)), id)
  {
    var other := Opposite(side);
    assert Entry(r.index, r.bidFifos, r.askFifos, r.nodes, id);
    IdOnlyThere(r, id, side, i, k);
    IdPlace(r, id, side, i, k);
    SideHas(other, r.index, LevelsOf(r, other), r.bidFifos, r.askFifos, r.nodes, r.base, id);
  }

  lemma DroppedLevel(side: Side, levels: seq<seq<Order>>, i: nat, k: nat, id: nat)
    requires i < |levels| && k < |levels[i]| && levels[i][k].id == id
    requires forall j :: 0 <= j < k ==> levels[i][j].id != id
    requires forall j :: 0 <= j < |levels| && j != i ==> !HasId(levels[j], id)
    ensures Flatten(Ranked(side, levels[i := RemoveAt(levels[i], k)])) == Without(Flatten(Ranked(side, levels)), id)
  {
    WithoutAt(levels[i], id, k);
    RankedUpdate(side, levels, i, Without(levels[i], id));
    assert HasId(levels[i], id);
    FlattenWithout(Ranked(side, levels), Priority(side, |levels|, i), id);
  }

  lemma RemovedQueues(r: Rep, r': Rep, id: nat, side: Side, i: nat, k: nat)
    requires RepOk(r) && RepOk(r') && Sits(r, id, side, i, k)
    requires LevelEdited(r, r', side, i, RemoveAt(Orders(r.nodes, FifosOf(r, side)[i]), k))
    ensures RepQueue(r', side) == Without(RepQueue(r, side), id)
    ensures RepQueue(r', Opposite(side)) == RepQueue(r, Opposite(side))
  {
    IdOnlyThere(r, id, side, i, k);
    DroppedLevel(side, LevelOrders(FifosOf(r, side), r.nodes), i, k, id);
  }

  lemma IndexedRemove(r: Rep, r': Rep, id: nat, side: Side, i: nat, k: nat)
    requires RepOk(r) && Sits(r, id, side, i, k)
    requires SameIdentity(r.nodes, r'.nodes, |r.nodes|)
    requires FifosOf(r', side) == FifosOf(r, side)[i := RemoveAt(FifosOf(r, side)[i], k)]
    requires FifosOf(r', Opposite(side)) == FifosOf(r, Opposite(side))
    requires r'.index == r.index - {id}
    ensures Indexed(r'.index, r'.bidFifos, r'.askFifos, r'.nodes)
    ensures forall x :: x in r'.index ==> r'.index[x] != r.index[id]
  {
    IdOnlyHere(r, id, side, i, k);
    MappedRemove(r.index, FifosOf(r, side), r.nodes, r'.nodes, id, i, k);
    IdNotOpposite(r, id, side, i, k);
    MappedWithout(r.index, FifosOf(r, Opposite(side)), r.nodes, r'.nodes, id);
    assert Entry(r.index, r.bidFifos, r.askFifos, r.nodes, id);
    forall x | x in r'.index
      ensures Entry(r'.index, r'.bidFifos, r'.askFifos, r'.nodes, x)
      ensures r'.index[x] != r.index[id]
    {
      assert Entry(r.index, r.bidFifos, r.askFifos, r.nodes, x);
      EntryRemove(r, r', id, side, i, k, x);
    }
  }

  lemma RelinkedIdentity(before: seq<OrderNode>, after: seq<OrderNode>, touched: seq<nat>)
    requires Relinked(before, after, touched)
    ensures SameIdentity(before, after, |before|)
  {
  }

  lemma PoppedIndex(r: Rep, r': Rep, id: nat, side: Side, i: nat, k: nat)
    requires RepOk(r) && Sits(r, id, side, i, k) && Popped(r, r', side, i, k)
    requires r'.index == r.index - {id}
    requires forall x :: x in r'.free ==> x == r.index[id] || x in r.free
    ensures Indexed(r'.index, r'.bidFifos, r'.askFifos, r'.nodes)
    ensures forall x :: x in r'.index ==> r'.index[x] !in r'.free
  {
    RelinkedIdentity(r.nodes, r'.nodes, FifosOf(r, side)[i]);
    IndexedRemove(r, r', id, side, i, k);
  }

  lemma RemovedOk(r: Rep, r': Rep, id: nat, side: Side, i: nat, k: nat)
    requires RepOk(r) && Sits(r, id, side, i, k) && Popped(r, r', side, i, k)
    requires r'.index == r.index - {id}
    requires forall x :: x in r'.free ==> x == r.index[id] || x in r.free
    ensures RepOk(r')
  {
    PoppedSides(r, r', side, i, k);
    PoppedIndex(r, r', id, side, i, k);
  }

  /** Unlinking an order, erasing its id and freeing its slot: all structures stay in
      step and the reference list loses exactly that order. */
  lemma RemoveRep(r: Rep, r': Rep, id: nat, side: Side, i: nat, k: nat)
    requires RepOk(r) && Sits(r, id, side, i, k) && Popped(r, r', side, i, k)
    requires r'.index == r.index - {id}
    requires forall x :: x in r'.free ==> x == r.index[id] || x in r.free
    ensures RepOk(r')
    ensures RepQueue(r', side) == Without(RepQueue(r, side), id)
    ensures RepQueue(r', Opposite(side)) == RepQueue(r, Opposite(side))
    ensures !HasId(RepQueue(r, Opposite(side)), id)
  {
    RemovedOk(r, r', id, side, i, k);
    PoppedSides(r, r', side, i, k);
    RemovedQueues(r, r', id, side, i, k);
    OtherSideLacks(r, id, side, i, k);
  }

  /** `nodes'` differs from `nodes` only in the open quantity of slot `s`. */
  ghost predicate Requantified(nodes: seq<OrderNode>, nodes': seq<OrderNode>, s: nat, quantity: int) {
    && s < |nodes| && |nodes'| == |nodes|
    && nodes'[s] == nodes[s].(order := nodes[s].order.(remaining := quantity))
    && forall x :: 0 <= x < |nodes| && x != s ==> nodes'[x] == nodes[x]
  }

  /** The order at position `k` of level `i` of `side` lost `amount` of its open quantity
      in place, and so did the level's cached total. */
  ghost predicate Shrunk(r: Rep, r': Rep, side: Side, i: nat, k: nat, amount: int) {
    && i < |FifosOf(r, side)| && |LevelsOf(r, side)| == |FifosOf(r, side)| && k < |FifosOf(r, side)[i]|
    && r'.base == r.base && r'.index == r.index && r'.free == r.free
    && r'.bidFifos == r.bidFifos && r'.askFifos == r.askFifos
    && var s := FifosOf(r, side)[i][k];
    && s < |r.nodes| && Requantified(r.nodes, r'.nodes, s, r.nodes[s].order.remaining - amount)
    && LevelsOf(r', Opposite(side)) == LevelsOf(r, Opposite(side))
    && |LevelsOf(r', side)| == |LevelsOf(r, side)|
    && (forall j :: 0 <= j < |LevelsOf(r, side)| && j != i ==> LevelsOf(r', side)[j] == LevelsOf(r, side)[j])
    && LevelsOf(r', side)[i] == LevelsOf(r, side)[i].(totalQuantity := LevelsOf(r, side)[i].totalQuantity - amount)
  }

  lemma ShrunkLinked(level: PriceLevel, fifo: seq<nat>, nodes: seq<OrderNode>, nodes': seq<OrderNode>, k: nat,
      id: nat, amount: int)
    requires Linked(level, nodes, fifo) && k < |fifo| && nodes[fifo[k]].order.id == id
    requires forall j :: 0 <= j < k ==> nodes[fifo[j]].order.id != id
    requires amount != nodes[fifo[k]].order.remaining
    requires Requantified(nodes, nodes', fifo[k], nodes[fifo[k]].order.remaining - amount)
    ensures Orders(nodes', fifo) == Filled(Orders(nodes, fifo), id, amount)
    ensures Linked(level.(totalQuantity := level.totalQuantity - amount), nodes', fifo)
  {
    var before, o' := Orders(nodes, fifo), nodes'[fifo[k]].order;
    RequantifiedOrders(level, fifo, nodes, nodes', k);
    RequantifiedThreads(level, fifo, nodes, nodes', k);
    VolumeUpdate(before, k, o');
    FilledAt(before, id, amount, k);
  }

  lemma RequantifiedOrders(level: PriceLevel, fifo: seq<nat>, nodes: seq<OrderNode>, nodes': seq<OrderNode>, k: nat)
    requires Linked(level, nodes, fifo) && k < |fifo| && |nodes'| == |nodes|
    requires Requantified(nodes, nodes', fifo[k], nodes'[fifo[k]].order.remaining)
    ensures Orders(nodes', fifo) == Orders(nodes, fifo)[k := nodes'[fifo[k]].order]
  {
  }

  lemma RequantifiedThreads(level: PriceLevel, fifo: seq<nat>, nodes: seq<OrderNode>, nodes': seq<OrderNode>, k: nat)
    requires Linked(level, nodes, fifo) && k < |fifo| && |nodes'| == |nodes|
    requires Requantified(nodes, nodes', fifo[k], nodes'[fifo[k]].order.remaining)
    ensures forall j :: 0 <= j < |fifo| ==> Threaded(nodes', fifo, j)
  {
    forall j | 0 <= j < |fifo|
      ensures Threaded(nodes', fifo, j)
    {
      assert Threaded(nodes, fifo, j);
    }
  }

  lemma ShrunkHoused(side: Side, fifo: seq<nat>, nodes: seq<OrderNode>, nodes': seq<OrderNode>,
                     base: int, i: nat, k: nat, quantity: int)
    requires k < |fifo| && quantity > 0 && Requantified(nodes, nodes', fifo[k], quantity)
    requires forall j :: 0 <= j < |fifo| ==> Housed(side, nodes, base, i, fifo[j])
    ensures forall j :: 0 <= j < |fifo| ==> Housed(side, nodes', base, i, fifo[j])
  {
    forall j | 0 <= j < |fifo|
      ensures Housed(side, nodes', base, i, fifo[j])
    {
      assert Housed(side, nodes, base, i, fifo[j]);
    }
  }

  lemma SelfUpdate<T>(s: seq<T>, i: nat)
    requires i < |s|
    ensures s[i := s[i]] == s
  {
  }

  ghost predicate FirstWithId(r: Rep, id: nat, side: Side, i: nat, k: nat)
    requires i < |FifosOf(r, side)| && k < |FifosOf(r, side)[i]|
  {
    var fifo := FifosOf(r, side)[i];
    && (forall j :: 0 <= j <= k ==> fifo[j] < |r.nodes|)
    && r.nodes[fifo[k]].order.id == id
    && forall j :: 0 <= j < k ==> r.nodes[fifo[j]].order.id != id
  }

  lemma SitsFirst(r: Rep, id: nat, side: Side, i: nat, k: nat)
    requires RepOk(r) && Sits(r, id, side, i, k)
    ensures FirstWithId(r, id, side, i, k)
  {
    assert Entry(r.index, r.bidFifos, r.askFifos, r.nodes, id);
    IdOnlyHere(r, id, side, i, k);
  }

  lemma ShrunkLevel(side: Side, level: PriceLevel, fifo: seq<nat>, nodes: seq<OrderNode>, nodes': seq<OrderNode>,
                    base: int, i: nat, k: nat, id: nat, amount: int)
    requires LevelOk(side, level, fifo, nodes, base, i) && k < |fifo| && nodes[fifo[k]].order.id == id
    requires forall j :: 0 <= j < k ==> nodes[fifo[j]].order.id != id
    requires amount < nodes[fifo[k]].order.remaining
    requires Requantified(nodes, nodes', fifo[k], nodes[fifo[k]].order.remaining - amount)
    ensures LevelOk(side, level.(totalQuantity := level.totalQuantity - amount), fifo, nodes', base, i)
    ensures Orders(nodes', fifo) == Filled(Orders(nodes, fifo), id, amount)
    ensures forall s :: 0 <= s < |nodes| && !(nodes[s].order.side == side && nodes[s].levelIndex == i) ==>
            nodes'[s] == nodes[s]
  {
    assert Housed(side, nodes, base, i, fifo[k]);
    ShrunkLinked(level, fifo, nodes, nodes', k, id, amount);
    ShrunkHoused(side, fifo, nodes, nodes', base, i, k, nodes[fifo[k]].order.remaining - amount);
  }

  lemma ShrunkRehoused(r: Rep, r': Rep, id: nat, side: Side, i: nat, k: nat, amount: int)
    requires Shrunk(r, r', side, i, k, amount) && FirstWithId(r, id, side, i, k)
    requires LevelOk(side, LevelsOf(r, side)[i], FifosOf(r, side)[i], r.nodes, r.base, i)
    requires amount < r.nodes[FifosOf(r, side)[i][k]].order.remaining
    ensures Rehoused(r, r', side, i, FifosOf(r, side)[i])
    ensures LevelOk(side, LevelsOf(r', side)[i], FifosOf(r, side)[i], r'.nodes, r'.base, i)
    ensures Orders(r'.nodes, FifosOf(r, side)[i]) == Filled(Orders(r.nodes, FifosOf(r, side)[i]), id, amount)
  {
    var fifos := FifosOf(r, side);
    ShrunkLevel(side, LevelsOf(r, side)[i], fifos[i], r.nodes, r'.nodes, r.base, i, k, id, amount);
    SelfUpdate(fifos, i);
  }

  lemma ShrunkSides(r: Rep, r': Rep, id: nat, side: Side, i: nat, k: nat, amount: int)
    requires RepOk(r) && Shrunk(r, r', side, i, k, amount) && FirstWithId(r, id, side, i, k)
    requires amount < r.nodes[FifosOf(r, side)[i][k]].order.remaining
    ensures SideOk(Buy, r'.bidLevels, r'.bidFifos, r'.nodes, r'.base)
    ensures SideOk(Sell, r'.askLevels, r'.askFifos, r'.nodes, r'.base)
    ensures LevelEdited(r, r', side, i, Filled(Orders(r.nodes, FifosOf(r, side)[i]), id, amount))
  {
    assert LevelOk(side, LevelsOf(r, side)[i], FifosOf(r, side)[i], r.nodes, r.base, i);
    ShrunkRehoused(r, r', id, side, i, k, amount);
    RehousedSides(r, r', side, i, FifosOf(r, side)[i]);
  }

  lemma MappedSame(index: map<nat, nat>, fifos: seq<seq<nat>>, nodes: seq<OrderNode>, nodes': seq<OrderNode>)
    requires Mapped(index, fifos, nodes) && SameIdentity(nodes, nodes', |nodes|)
    ensures Mapped(index, fifos, nodes')
  {
    forall j, x | 0 <= j < |fifos| && 0 <= x < |fifos[j]|
      ensures MappedAt(index, nodes', fifos[j][x])
    {
      assert MappedAt(index, nodes, fifos[j][x]);
    }
  }

  lemma IndexedSame(r: Rep, nodes': seq<OrderNode>)
    requires Indexed(r.index, r.bidFifos, r.askFifos, r.nodes) && SameIdentity(r.nodes, nodes', |r.nodes|)
    ensures Indexed(r.index, r.bidFifos, r.askFifos, nodes')
  {
    MappedSame(r.index, r.bidFifos, r.nodes, nodes');
    MappedSame(r.index, r.askFifos, r.nodes, nodes');
    forall x | x in r.index
      ensures Entry(r.index, r.bidFifos, r.askFifos, nodes', x)
    {
      assert Entry(r.index, r.bidFifos, r.askFifos, r.nodes, x);
    }
  }

  lemma FilledLevel(side: Side, levels: seq<seq<Order>>, i: nat, id: nat, amount: int)
    requires i < |levels| && HasId(levels[i], id)
    requires forall j :: 0 <= j < |levels| && j != i ==> !HasId(levels[j], id)
    ensures Flatten(Ranked(side, levels[i := Filled(levels[i], id, amount)])) ==
            Filled(Flatten(Ranked(side, levels)), id, amount)
  {
    RankedUpdate(side, levels, i, Filled(levels[i], id, amount));
    FlattenFilled(Ranked(side, levels), Priority(side, |levels|, i), id, amount);
  }

  lemma RequantifiedIdentity(before: seq<OrderNode>, after: seq<OrderNode>, s: nat, quantity: int)
    requires Requantified(before, after, s, quantity)
    ensures SameIdentity(before, after, |before|)
  {
  }

  lemma ShrunkOk(r: Rep, r': Rep, id: nat, side: Side, i: nat, k: nat, amount: int)
    requires RepOk(r) && Sits(r, id, side, i, k) && Shrunk(r, r', side, i, k, amount)
    requires amount < r.nodes[r.index[id]].order.remaining
    ensures RepOk(r')
  {
    RequantifiedIdentity(r.nodes, r'.nodes, FifosOf(r, side)[i][k], r.nodes[r.index[id]].order.remaining - amount);
    IndexedSame(r, r'.nodes);
    SitsFirst(r, id, side, i, k);
    ShrunkSides(r, r', id, side, i, k, amount);
  }

  lemma ShrunkQueues(r: Rep, r': Rep, id: nat, side: Side, i: nat, k: nat, amount: int)
    requires RepOk(r) && RepOk(r') && Sits(r, id, side, i, k)
    requires LevelEdited(r, r', side, i, Filled(Orders(r.nodes, FifosOf(r, side)[i]), id, amount))
    ensures RepQueue(r', side) == Filled(RepQueue(r, side), id, amount)
    ensures RepQueue(r', Opposite(side)) == RepQueue(r, Opposite(side))
  {
    var levels: seq<seq<Order>> := LevelOrders(FifosOf(r, side), r.nodes);
    IdOnlyThere(r, id, side, i, k);
    assert HasId(levels[i], id);
    FilledLevel(side, levels, i, id, amount);
  }

  /** A partial fill in place: the order keeps its position, the aggregates follow. */
  lemma ShrinkRep(r: Rep, r': Rep, id: nat, side: Side, i: nat, k: nat, amount: int)
    requires RepOk(r) && Sits(r, id, side, i, k) && Shrunk(r, r', side, i, k, amount)
    requires 0 < amount < r.nodes[r.index[id]].order.remaining
    ensures RepOk(r')
    ensures RepQueue(r', side) == Filled(RepQueue(r, side), id, amount)
    ensures RepQueue(r', Opposite(side)) == RepQueue(r, Opposite(side))
    ensures !HasId(RepQueue(r, Opposite(side)), id)
  {
    ShrunkOk(r, r', id, side, i, k, amount);
    SitsFirst(r, id, side, i, k);
    ShrunkSides(r, r', id, side, i, k, amount);
    ShrunkQueues(r, r', id, side, i, k, amount);
    OtherSideLacks(r, id, side, i, k);
  }

  /** Writing to a slot outside every list changes nothing that is resting. */
  lemma ScribbleRep(r: Rep, r': Rep, s: nat)
    requires RepOk(r) && s in r.free && s < |r.nodes|
    requires r' == r.(nodes := r'.nodes) && |r'.nodes| == |r.nodes|
    requires forall x :: 0 <= x < |r.nodes| && x != s ==> r'.nodes[x] == r.nodes[x]
    ensures RepOk(r')
    ensures RepQueue(r', Buy) == RepQueue(r, Buy) && RepQueue(r', Sell) == RepQueue(r, Sell)
  {
    MappedSpared(r, r', Buy, s);
    MappedSpared(r, r', Sell, s);
    forall x | x in r.index
      ensures Entry(r.index, r.bidFifos, r.askFifos, r'.nodes, x)
    {
      assert Entry(r.index, r.bidFifos, r.askFifos, r.nodes, x);
    }
    PlacedSides(r, r', r'.nodes[s].order, r'.nodes[s].levelIndex, s);
  }

  lemma MappedSpared(r: Rep, r': Rep, side: Side, s: nat)
    requires RepOk(r) && s in r.free && |r'.nodes| == |r.nodes|
    requires forall x :: 0 <= x < |r.nodes| && x != s ==> r'.nodes[x] == r.nodes[x]
    ensures Mapped(r.index, FifosOf(r, side), r'.nodes)
  {
    var fifos := FifosOf(r, side);
    forall j, x | 0 <= j < |fifos| && 0 <= x < |fifos[j]|
      ensures MappedAt(r.index, r'.nodes, fifos[j][x])
    {
      SlotInUse(r, side, j, x);
      assert MappedAt(r.index, r.nodes, fifos[j][x]);
    }
  }

  lemma {:induction false} FindFlatten(levels: seq<seq<Order>>, r: nat, k: nat)
    requires r < |levels| && k < |levels[r]|
    requires forall j :: 0 <= j < k ==> levels[r][j].id != levels[r][k].id
    requires forall j :: 0 <= j < r ==> !HasId(levels[j], levels[r][k].id)
    ensures Find(Flatten(levels), levels[r][k].id) == Some(levels[r][k])
  {
    var o := levels[r][k];
    if r == 0 {
      assert Flatten(levels)[k] == o;
      assert forall j :: 0 <= j < k ==> Flatten(levels)[j] == levels[0][j];
      FindAt(Flatten(levels), k);
    } else {
      FindFlatten(levels[1..], r - 1, k);
      FindSkips(levels[0], Flatten(levels[1..]), o.id);
    }
  }

  lemma {:induction false} FindSkips(front: seq<Order>, back: seq<Order>, id: nat)
    requires !HasId(front, id)
    ensures Find(front + back, id) == Find(back, id)
  {
    if front == [] {
      assert front + back == back;
    } else {
      assert front[0].id != id;
      HasIdTail(front, id);
      FindSkips(front[1..], back, id);
      assert (front + back)[1..] == front[1..] + back;
    }
  }

  /** Looking an id up in the reference list finds the node the map leads to. */
  lemma LookupSits(r: Rep, id: nat, side: Side, i: nat, k: nat)
    requires RepOk(r) && Sits(r, id, side, i, k) && r.index[id] < |r.nodes|
    ensures Find(RepQueue(r, side), id) == Some(r.nodes[r.index[id]].order)
    ensures Find(RepQueue(r, Opposite(side)), id) == None
    ensures !HasId(RepQueue(r, Opposite(side)), id)
  {
    var levels: seq<seq<Order>> := LevelOrders(FifosOf(r, side), r.nodes);
    IdOnlyThere(r, id, side, i, k);
    FindFlatten(Ranked(side, levels), Priority(side, |levels|, i), k);
    OtherSideLacks(r, id, side, i, k);
    FindMeaning(RepQueue(r, Opposite(side)), id);
  }
}
