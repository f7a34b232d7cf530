/** One side of the price ladder: price levels, their occupancy bitmap and the cached
    best index. */
module Ladder {
  import opened Core
  import opened Bitmaps
  import opened PriceLevels
  import opened NaiveBook
  import opened Depths

  /** Index `a` is a strictly better price than `b`: higher for bids, lower for asks. */
  predicate IsBetter(isBid: bool, a: int, b: int) {
    if isBid then a > b else a < b
  }

  /** `best` names the best set position strictly worse than `bound`, if there is one. */
  ghost predicate IsBestBeyond(isBid: bool, bits: seq<bool>, bound: int, best: Option<nat>) {
    match best
    case Some(i) =>
      && i < |bits| && bits[i] && IsBetter(isBid, bound, i)
      && forall j :: 0 <= j < |bits| && IsBetter(isBid, bound, j) && IsBetter(isBid, j, i) ==> !bits[j]
    case None => forall j :: 0 <= j < |bits| && IsBetter(isBid, bound, j) ==> !bits[j]
  }

  /** The bound every index is worse than. */
  function Unbounded(isBid: bool, n: nat): int {
    if isBid then n else -1
  }

  ghost predicate IsBest(isBid: bool, bits: seq<bool>, best: Option<nat>) {
    IsBestBeyond(isBid, bits, Unbounded(isBid, |bits|), best)
  }

  /** The depth a ladder's cached aggregates show, from priority position `r` on. */
  function Seen(side: Side, levels: seq<PriceLevel>, base: int, r: nat): seq<DepthLevel>
    decreases |levels| - r
  {
    if r >= |levels| then []
    else Shown(levels, base, Priority(side, |levels|, r)) + Seen(side, levels, base, r + 1)
  }

  function Shown(levels: seq<PriceLevel>, base: int, i: nat): seq<DepthLevel>
    requires i < |levels|
  {
    if levels[i].orderCount == 0 then [] else [DepthLevel(base + i, levels[i].totalQuantity, levels[i].orderCount)]
  }

  lemma {:induction false} SeenSkip(side: Side, levels: seq<PriceLevel>, base: int, r: nat, t: nat)
    requires r <= t <= |levels|
    requires forall j :: r <= j < t ==> levels[Priority(side, |levels|, j)].orderCount == 0
    ensures Seen(side, levels, base, r) == Seen(side, levels, base, t)
    decreases t - r
  {
    if r < t {
      SeenSkip(side, levels, base, r + 1, t);
    }
  }

  /** The walk over a ladder, position by position. */
  function WalkFrom<S>(visit: (S, DepthLevel) -> (S, bool), s: S, side: Side, levels: seq<PriceLevel>, base: int,
      r: nat): S
    decreases |levels| - r
  {
    if r >= |levels| then s
    else
      var i := Priority(side, |levels|, r);
      if levels[i].orderCount == 0 then WalkFrom(visit, s, side, levels, base, r + 1)
      else
        var (s', more) := Show(visit, s, DepthLevel(base + i, levels[i].totalQuantity, levels[i].orderCount));
        if more then WalkFrom(visit, s', side, levels, base, r + 1) else s'
  }

  /** An empty level is passed over, both by the walk and in what it sees. */
  lemma PassEmpty<S>(visit: (S, DepthLevel) -> (S, bool), s: S, side: Side, levels: seq<PriceLevel>, base: int, r: nat)
    requires r < |levels| && levels[Priority(side, |levels|, r)].orderCount == 0
    ensures WalkFrom(visit, s, side, levels, base, r) == WalkFrom(visit, s, side, levels, base, r + 1)
    ensures Seen(side, levels, base, r) == Seen(side, levels, base, r + 1)
  {
  }

  /** An occupied level is shown once. */
  lemma ShowOccupied<S>(visit: (S, DepthLevel) -> (S, bool), s: S, side: Side, levels: seq<PriceLevel>, base: int,
      i: nat)
    requires i < |levels| && levels[i].orderCount != 0
    ensures var r := Priority(side, |levels|, i);
            var level := DepthLevel(base + i, levels[i].totalQuantity, levels[i].orderCount);
            var (s', more) := Show(visit, s, level);
            && 0 <= r < |levels|
            && Seen(side, levels, base, r) == [level] + Seen(side, levels, base, r + 1)
            && WalkFrom(visit, s, side, levels, base, r) ==
               if more then WalkFrom(visit, s', side, levels, base, r + 1) else s'
  {
  }

  lemma {:induction false} WalkFromSeen<S>(visit: (S, DepthLevel) -> (S, bool), s: S, side: Side,
      levels: seq<PriceLevel>, base: int, r: nat)
    requires r <= |levels|
    ensures WalkFrom(visit, s, side, levels, base, r) == Walk(visit, s, Seen(side, levels, base, r))
    decreases |levels| - r
  {
    if r < |levels| {
      var i := Priority(side, |levels|, r);
      if levels[i].orderCount == 0 {
        PassEmpty(visit, s, side, levels, base, r);
        WalkFromSeen(visit, s, side, levels, base, r + 1);
      } else {
        WalkFromShown(visit, s, side, levels, base, i);
      }
    }
  }

  lemma {:induction false} WalkFromShown<S>(visit: (S, DepthLevel) -> (S, bool), s: S, side: Side,
      levels: seq<PriceLevel>, base: int, i: nat)
    requires i < |levels| && levels[i].orderCount != 0
    ensures var r := Priority(side, |levels|, i);
            r >= 0 && WalkFrom(visit, s, side, levels, base, r) == Walk(visit, s, Seen(side, levels, base, r))
    decreases |levels| - Priority(side, |levels|, i), 0
  {
    var r := Priority(side, |levels|, i);
    var level := DepthLevel(base + i, levels[i].totalQuantity, levels[i].orderCount);
    ShowOccupied(visit, s, side, levels, base, i);
    WalkStep(visit, s, level, Seen(side, levels, base, r + 1));
    WalkFromSeen(visit, Show(visit, s, level).0, side, levels, base, r + 1);
  }

  lemma WalkResume<S>(visit: (S, DepthLevel) -> (S, bool), s: S, side: Side, bits: seq<bool>, levels: seq<PriceLevel>,
                      base: int, bound: int, next: Option<nat>)
    requires |levels| == |bits| && forall j :: 0 <= j < |bits| ==> (bits[j] <==> levels[j].orderCount != 0)
    requires IsBestBeyond(side == Buy, bits, bound, next)
    requires if side == Buy then 0 <= bound <= |bits| else -1 <= bound < |bits|
    ensures var from := Priority(side, |bits|, bound) + 1;
            && 0 <= from <= |levels|
            && (next.Some? ==> 0 <= next.value < |bits| && levels[next.value].orderCount != 0)
            && (next.Some? ==> from <= Priority(side, |bits|, next.value))
            && WalkFrom(visit, s, side, levels, base, from) ==
               if next == None then s else WalkFrom(visit, s, side, levels, base, Priority(side, |bits|, next.value))
  {
    var from := Priority(side, |bits|, bound) + 1;
    Resume(side, bits, levels, base, bound, next);
    WalkFromSeen(visit, s, side, levels, base, from);
    if next.Some? {
      WalkFromSeen(visit, s, side, levels, base, Priority(side, |bits|, next.value));
    }
  }

  /** After an occupied level whose visitor wants more, the walk goes on at the next one. */
  lemma ShowResume<S>(visit: (S, DepthLevel) -> (S, bool), before: S, side: Side, bits: seq<bool>,
      levels: seq<PriceLevel>, base: int, i: nat, next: Option<nat>)
    requires |levels| == |bits| && forall j :: 0 <= j < |bits| ==> (bits[j] <==> levels[j].orderCount != 0)
    requires i < |levels| && levels[i].orderCount != 0 && IsBestBeyond(side == Buy, bits, i, next)
    requires Show(visit, before, DepthLevel(base + i, levels[i].totalQuantity, levels[i].orderCount)).1
    ensures var n := |levels|;
            var s := Show(visit, before, DepthLevel(base + i, levels[i].totalQuantity, levels[i].orderCount)).0;
            && 0 <= Priority(side, n, i) < n
            && (next.Some? ==> 0 <= next.value < n && levels[next.value].orderCount != 0)
            && (next.Some? ==> Priority(side, n, i) < Priority(side, n, next.value))
            && WalkFrom(visit, before, side, levels, base, Priority(side, n, i)) ==
               if next == None then s else WalkFrom(visit, s, side, levels, base, Priority(side, n, next.value))
  {
    ShowOccupied(visit, before, side, levels, base, i);
    var s := Show(visit, before, DepthLevel(base + i, levels[i].totalQuantity, levels[i].orderCount)).0;
    WalkResume(visit, s, side, bits, levels, base, i, next);
  }

  /** The next occupied index beyond `bound` is where the rest of the side resumes. */
  lemma Resume(side: Side, bits: seq<bool>, levels: seq<PriceLevel>, base: int, bound: int, next: Option<nat>)
    requires |levels| == |bits| && forall j :: 0 <= j < |bits| ==> (bits[j] <==> levels[j].orderCount != 0)
    requires IsBestBeyond(side == Buy, bits, bound, next)
    requires if side == Buy then 0 <= bound <= |bits| else -1 <= bound < |bits|
    ensures var from := Priority(side, |bits|, bound) + 1;
            && 0 <= from <= |levels|
            && (next == None ==> Seen(side, levels, base, from) == [])
            && (next.Some? ==> && 0 <= next.value < |bits| && levels[next.value].orderCount != 0
                               && from <= Priority(side, |bits|, next.value)
                               && Seen(side, levels, base, from) ==
                                  Seen(side, levels, base, Priority(side, |bits|, next.value)))
  {
    var n := |bits|;
    var from := Priority(side, n, bound) + 1;
    var to := if next == None then n else Priority(side, n, next.value);
    forall t | from <= t < to
      ensures levels[Priority(side, n, t)].orderCount == 0
    {
      assert !bits[Priority(side, n, t)];
    }
    SeenSkip(side, levels, base, from, to);
  }

  /** The best set position is the first level seen. */
  lemma BestSeen(side: Side, bits: seq<bool>, levels: seq<PriceLevel>, base: int, best: Option<nat>)
    requires |levels| == |bits| && forall j :: 0 <= j < |bits| ==> (bits[j] <==> levels[j].orderCount != 0)
    requires IsBest(side == Buy, bits, best)
    ensures var d := Seen(side, levels, base, 0);
            && (best == None ==> d == [])
            && (best.Some? ==> d != [] && d[0].price == base + best.value)
  {
    Resume(side, bits, levels, base, Unbounded(side == Buy, |bits|), best);
  }

  class LadderSide {
    const isBid: bool
    const levels: array<PriceLevel>
    const occupied: Bitmap
    var best: Option<nat>
    ghost var fifos: seq<seq<nat>>  // the slots of each level, oldest first

    /** The bitmap is well formed and the cached best index is its best set position. */
    ghost predicate Valid()
      reads this, occupied.words
    {
      && occupied.Valid()
      && occupied.numBits == levels.Length
      && occupied.words as object != levels
      && IsBest(isBid, occupied.Occupied(), best)
    }

    /** The bitmap tells exactly which levels hold orders. */
    ghost predicate InStep()
      requires Valid()
      reads this, occupied.words, levels
    {
      forall i :: 0 <= i < levels.Length ==> (occupied.Occupied()[i] <==> levels[i].orderCount != 0)
    }

    constructor (bid: bool, numLevels: nat)
      ensures Valid() && InStep() && isBid == bid && levels.Length == numLevels
      ensures best == None && |fifos| == numLevels && forall i :: 0 <= i < numLevels ==> fifos[i] == []
      ensures forall i :: 0 <= i < numLevels ==> levels[i] == EMPTY_LEVEL
      ensures fresh(levels) && fresh(occupied) && fresh(occupied.words)
    {
      isBid := bid;
      levels := new PriceLevel[numLevels](_ => EMPTY_LEVEL);
      occupied := new Bitmap(numLevels);
      best := None;
      fifos := seq(numLevels, _ => []);
    }

    /** Called after the first order enters level `index`. */
    method NoteNonempty(index: nat)
      requires Valid() && index < levels.Length
      modifies this`best, occupied.words
      ensures Valid() && occupied.Occupied() == old(occupied.Occupied())[index := true]
    {
      occupied.Set(index);
      if best == None || IsBetter(isBid, index, best.value) {
        best := Some(index);
      }
    }

    /** Called after an order leaves level `index`. */
    method NoteMaybeEmpty(index: nat)
      requires Valid() && index < levels.Length
      modifies this`best, occupied.words
      ensures Valid()
      ensures occupied.Occupied() ==
              if levels[index].orderCount != 0 then old(occupied.Occupied())
              else old(occupied.Occupied())[index := false]
    {
      if levels[index].orderCount != 0 {
        return;
      }
      occupied.Clear(index);
      if best == Some(index) {
        best := NextAfter(index);
      }
    }

    /** Brings the occupancy of a level that was occupied back in step. */
    method Vacate(index: nat)
      requires Valid() && index < levels.Length && occupied.Occupied()[index]
      requires forall i :: 0 <= i < levels.Length && i != index ==>
               (occupied.Occupied()[i] <==> levels[i].orderCount != 0)
      modifies this`best, occupied.words
      ensures Valid() && InStep()
    {
      NoteMaybeEmpty(index);
    }

    /** The best occupied index strictly worse than `index`. */
    method NextAfter(index: nat) returns (next: Option<nat>)
      requires occupied.Valid() && occupied.numBits == levels.Length && index < levels.Length
      ensures IsBestBeyond(isBid, occupied.Occupied(), index, next)
    {
      if isBid {
        if index == 0 {
          next := None;
        } else {
          next := occupied.FindHighestAtOrBelow(index - 1);
          HighestMeaning(occupied.Occupied(), index - 1);
        }
      } else {
        next := occupied.FindLowestAtOrAbove(index + 1);
        LowestMeaning(occupied.Occupied(), index + 1);
      }
    }

    /** Threads slot `n` onto the back of level `index` and keeps the occupancy in step. */
    method PushBack(index: nat, nodes: array<OrderNode>, n: nat)
      requires Valid() && InStep() && n < nodes.Length
      requires index < levels.Length == |fifos| && n !in fifos[index]
      requires nodes as object != levels && nodes as object != occupied.words
      requires Linked(levels[index], nodes[..], fifos[index])
      modifies this`best, this`fifos, levels, occupied.words, nodes
      ensures Valid() && InStep()
      ensures fifos == old(fifos)[index := old(fifos)[index] + [n]]
      ensures Linked(levels[index], nodes[..], old(fifos)[index] + [n])
      ensures Relinked(old(nodes[..]), nodes[..], old(fifos)[index] + [n])
      ensures forall j :: 0 <= j < levels.Length && j != index ==> levels[j] == old(levels[j])
    {
      var wasEmpty := levels[index].orderCount == 0;
      LevelPushBack(levels, index, nodes, n, fifos[index]);
      if wasEmpty {
        NoteNonempty(index);
      }
      fifos := fifos[index := fifos[index] + [n]];
    }

    /** Unlinks slot `n`, at position `k` of level `index`, and keeps the occupancy in step. */
    method Unlink(index: nat, nodes: array<OrderNode>, n: nat, ghost k: nat)
      requires Valid() && InStep()
      requires index < levels.Length == |fifos| && k < |fifos[index]| && fifos[index][k] == n
      requires nodes as object != levels && nodes as object != occupied.words
      requires Linked(levels[index], nodes[..], fifos[index])
      modifies this`best, this`fifos, levels, occupied.words, nodes
      ensures Valid() && InStep()
      ensures fifos == old(fifos)[index := RemoveAt(old(fifos)[index], k)]
      ensures Linked(levels[index], nodes[..], RemoveAt(old(fifos)[index], k))
      ensures Relinked(old(nodes[..]), nodes[..], old(fifos)[index])
      ensures forall j :: 0 <= j < levels.Length && j != index ==> levels[j] == old(levels[j])
    {
      LevelUnlink(levels, index, nodes, n, fifos[index], k);
      Vacate(index);
      fifos := fifos[index := RemoveAt(fifos[index], k)];
    }

    function Faces(): Side {
      if isBid then Buy else Sell
    }

    /** The best price, from the cached index. */
    method BestPrice(base: int) returns (p: Option<int>)
      requires Valid() && InStep()
      ensures var d := Seen(Faces(), levels[..], base, 0);
              p == if d == [] then None else Some(d[0].price)
    {
      BestSeen(Faces(), occupied.Occupied(), levels[..], base, best);
      p := if best == None then None else Some(base + best.value);
    }

    /** Shows level `i` to the visitor; if it wants more, moves on to where the walk resumes. */
    method ShowLevel<S>(base: int, i: nat, visit: (S, DepthLevel) -> (S, bool), before: S)
        returns (s: S, next: Option<nat>)
      requires Valid() && InStep() && i < levels.Length && levels[i].orderCount != 0
      ensures var side, n := Faces(), levels.Length;
              && (next.Some? ==> 0 <= next.value < n && levels[next.value].orderCount != 0)
              && (next.Some? ==> Priority(side, n, i) < Priority(side, n, next.value))
              && WalkFrom(visit, before, side, levels[..], base, Priority(side, n, i)) ==
                 if next == None then s else WalkFrom(visit, s, side, levels[..], base, Priority(side, n, next.value))
    {
      var (s', more) := Show(visit, before, DepthLevel(base + i, levels[i].totalQuantity, levels[i].orderCount));
      s, next := s', None;
      if more {
        next := NextAfter(i);
        ShowResume(visit, before, Faces(), occupied.Occupied(), levels[..], base, i, next);
      } else {
        ShowOccupied(visit, before, Faces(), levels[..], base, i);
      }
    }

    /** Shows the visitor every occupied level once, best first, until it declines. */
    method ForEachLevel<S>(base: int, visit: (S, DepthLevel) -> (S, bool), init: S) returns (s: S)
      requires Valid() && InStep()
      ensures s == Walk(visit, init, Seen(Faces(), levels[..], base, 0))
    {
      s := init;
      var idx, n := best, levels.Length;
      ghost var side, ls := Faces(), levels[..];
      ghost var goal := WalkFrom(visit, init, side, ls, base, 0);
      WalkFromSeen(visit, init, side, ls, base, 0);
      WalkResume(visit, s, side, occupied.Occupied(), ls, base, Unbounded(isBid, n), idx);
      while idx.Some?
        invariant idx.Some? ==> 0 <= idx.value < n && ls[idx.value].orderCount != 0
        invariant goal == if idx == None then s else WalkFrom(visit, s, side, ls, base, Priority(side, n, idx.value))
        decreases if idx == None then 0 else 1 + n - Priority(side, n, idx.value)
      {
        s, idx := ShowLevel(base, idx.value, visit, s);
      }
    }
  }
}
