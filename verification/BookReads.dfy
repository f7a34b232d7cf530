/** What the book's queries see, on values: single levels, the best price and the walk
    from best level to worst. */
module BookReads {
  import opened Core
  import opened Slab
  import opened PriceLevels
  import opened Ladder
  import opened NaiveBook
  import opened Depths
  import opened BookRep

  /** Priority-ordered levels of a side. */
  ghost function Ranks(r: Rep, side: Side): seq<seq<Order>>
    requires RepOk(r)
  {
    Ranked(side, LevelOrders(FifosOf(r, side), r.nodes))
  }

  lemma RanksAscend(r: Rep, side: Side)
    requires RepOk(r)
    ensures |Ranks(r, side)| == |FifosOf(r, side)| == |LevelsOf(r, side)|
    ensures Ascending(side, Ranks(r, side), Origin(side, r.base, |FifosOf(r, side)|))
    ensures RepQueue(r, side) == Flatten(Ranks(r, side))
  {
    SideInPool(side, LevelsOf(r, side), FifosOf(r, side), r.nodes, r.base);
  }

  /** A level's cached aggregates and head describe the list `os`. */
  ghost predicate Shows(level: PriceLevel, nodes: seq<OrderNode>, os: seq<Order>) {
    && level.orderCount == |os|
    && level.totalQuantity == Volume(os)
    && (os == [] ==> level.head == NONE)
    && (os != [] ==> level.head != NONE && level.head < |nodes| && nodes[level.head].order == os[0])
  }

  lemma LinkedShows(level: PriceLevel, nodes: seq<OrderNode>, fifo: seq<nat>)
    requires Linked(level, nodes, fifo)
    ensures Shows(level, nodes, Orders(nodes, fifo))
  {
  }

  lemma LevelSlots(r: Rep, side: Side, i: nat)
    requires RepOk(r) && i < |LevelsOf(r, side)|
    ensures Linked(LevelsOf(r, side)[i], r.nodes, FifosOf(r, side)[i])
    ensures Ranks(r, side)[Priority(side, |LevelsOf(r, side)|, i)] == Orders(r.nodes, FifosOf(r, side)[i])
  {
    assert LevelOk(side, LevelsOf(r, side)[i], FifosOf(r, side)[i], r.nodes, r.base, i);
  }

  lemma LevelView(r: Rep, side: Side, i: nat)
    requires RepOk(r) && i < |LevelsOf(r, side)|
    ensures var os := AtPrice(RepQueue(r, side), r.base + i);
            && Shows(LevelsOf(r, side)[i], r.nodes, os)
            && Ranks(r, side)[Priority(side, |LevelsOf(r, side)|, i)] == os
  {
    LevelSlots(r, side, i);
    LinkedShows(LevelsOf(r, side)[i], r.nodes, FifosOf(r, side)[i]);
    RankIsLevel(r, side, i);
  }

  lemma RankIsLevel(r: Rep, side: Side, i: nat)
    requires RepOk(r) && i < |LevelsOf(r, side)|
    ensures |Ranks(r, side)| == |LevelsOf(r, side)|
    ensures Ranks(r, side)[Priority(side, |LevelsOf(r, side)|, i)] == AtPrice(RepQueue(r, side), r.base + i)
  {
    var n := |LevelsOf(r, side)|;
    RanksAscend(r, side);
    FlattenLevel(side, Ranks(r, side), Origin(side, r.base, n), Priority(side, n, i), r.base + i);
  }

  lemma OffLadder(r: Rep, side: Side, price: int)
    requires RepOk(r) && !(0 <= price - r.base < |LevelsOf(r, side)|)
    ensures AtPrice(RepQueue(r, side), price) == []
  {
    RanksAscend(r, side);
    FlattenOff(side, Ranks(r, side), Origin(side, r.base, |LevelsOf(r, side)|), price);
  }

  lemma {:induction false} FlattenOff(side: Side, levels: seq<seq<Order>>, origin: int, price: int)
    requires Ascending(side, levels, origin)
    requires !(0 <= Rank(side, price) - origin < |levels|)
    ensures AtPrice(Flatten(levels), price) == []
  {
    if levels != [] {
      AscendingTail(side, levels, origin);
      FlattenOff(side, levels[1..], origin + 1, price);
      AtPriceNone(levels[0], price);
      AtPriceConcat(levels[0], Flatten(levels[1..]), price);
    }
  }

  /** The cached aggregates show exactly the depth of the resting orders. */
  lemma SeenDepth(r: Rep, side: Side)
    requires RepOk(r)
    ensures Seen(side, LevelsOf(r, side), r.base, 0) == Depth(RepQueue(r, side))
  {
    RanksAscend(r, side);
    var ranks := Ranks(r, side);
    forall i | 0 <= i < |LevelsOf(r, side)|
      ensures Shows(LevelsOf(r, side)[i], r.nodes, ranks[Priority(side, |LevelsOf(r, side)|, i)])
    {
      LevelView(r, side, i);
    }
    SeenFrom(side, LevelsOf(r, side), r.nodes, ranks, r.base, 0);
    assert ranks[0..] == ranks;
  }

  lemma {:induction false} SeenFrom(side: Side, levels: seq<PriceLevel>, nodes: seq<OrderNode>, ranks: seq<seq<Order>>,
                                    base: int, r: nat)
    requires |ranks| == |levels| && r <= |levels|
    requires Ascending(side, ranks, Origin(side, base, |levels|))
    requires forall i :: 0 <= i < |levels| ==> Shows(levels[i], nodes, ranks[Priority(side, |levels|, i)])
    ensures Seen(side, levels, base, r) == Depth(Flatten(ranks[r..]))
    decreases |levels| - r
  {
    if r < |levels| {
      var i := Priority(side, |levels|, r);
      assert Shows(levels[i], nodes, ranks[Priority(side, |levels|, i)]);
      SeenFrom(side, levels, nodes, ranks, base, r + 1);
      SeenStep(side, levels, nodes, ranks, base, r);
    }
  }

  lemma SeenStep(side: Side, levels: seq<PriceLevel>, nodes: seq<OrderNode>, ranks: seq<seq<Order>>, base: int, r: nat)
    requires |ranks| == |levels| && r < |levels|
    requires Ascending(side, ranks, Origin(side, base, |levels|))
    requires Shows(levels[Priority(side, |levels|, r)], nodes, ranks[r])
    ensures Depth(Flatten(ranks[r..])) ==
            Shown(levels, base, Priority(side, |levels|, r)) + Depth(Flatten(ranks[r + 1..]))
  {
    if ranks[r] == [] {
      FlattenSkip(ranks, r, r + 1);
    } else {
      DepthFrom(side, ranks, Origin(side, base, |levels|), r, base + Priority(side, |levels|, r));
    }
  }

  /** Every order the id map leads to was accepted as a limit order. */
  lemma ResidentLimit(r: Rep, id: nat)
    requires RepOk(r) && id in r.index
    ensures r.index[id] < |r.nodes| && r.nodes[r.index[id]].order.kind == Limit && r.nodes[r.index[id]].order.id == id
  {
    assert Entry(r.index, r.bidFifos, r.askFifos, r.nodes, id);
    var node := r.nodes[r.index[id]];
    var side, i := node.order.side, node.levelIndex;
    var fifo := FifosOf(r, side)[i];
    var k :| 0 <= k < |fifo| && fifo[k] == r.index[id];
    assert LevelOk(side, LevelsOf(r, side)[i], fifo, r.nodes, r.base, i);
    assert Housed(side, r.nodes, r.base, i, fifo[k]);
  }

  lemma {:induction false} FlattenSorted(side: Side, levels: seq<seq<Order>>, origin: int)
    requires Ascending(side, levels, origin)
    ensures Sorted(side, Flatten(levels))
  {
    if levels != [] {
      AscendingTail(side, levels, origin);
      FlattenSorted(side, levels[1..], origin + 1);
      FlattenRanks(side, levels[1..], origin + 1);
    }
  }

  /** The ladder keeps a side in price order. */
  lemma RepSorted(r: Rep, side: Side)
    requires RepOk(r)
    ensures Sorted(side, RepQueue(r, side))
  {
    RanksAscend(r, side);
    FlattenSorted(side, Ranks(r, side), Origin(side, r.base, |LevelsOf(r, side)|));
  }
}
