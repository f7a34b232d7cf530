/** Three ways to index occupied prices that answer the same question: the bitmap ladder,
    an ordered set and a sorted vector. */
module PriceIndex {
  import opened Core
  import opened Bitmaps

  /** `best` is the highest price in the set, if there is one. */
  ghost predicate IsMax(prices: set<int>, best: Option<int>) {
    match best
    case None => forall q :: q !in prices
    case Some(p) => p in prices && forall q :: q in prices ==> q <= p
  }

  lemma MaxUnique(prices: set<int>, a: Option<int>, b: Option<int>)
    requires IsMax(prices, a) && IsMax(prices, b)
    ensures a == b
  {
    if a.Some? && b.Some? {
      assert a.value <= b.value && b.value <= a.value;
    }
  }

  /** The bitmap with a cached best, as the order book's ladder uses it. */
  class LadderIndex {
    const occupied: Bitmap
    var best: Option<nat>
    ghost var prices: set<int>

    ghost predicate Valid()
      reads this, occupied.words
    {
      && occupied.Valid()
      && (forall p :: p in prices <==> 0 <= p < occupied.numBits && occupied.Occupied()[p])
      && IsMax(prices, Cached())
    }

    function Cached(): Option<int>
      reads this
    {
      if best == None then None else Some(best.value)
    }

    constructor (numPrices: nat)
      ensures Valid() && prices == {} && occupied.numBits == numPrices && fresh(occupied.words)
    {
      occupied := new Bitmap(numPrices);
      best := None;
      prices := {};
    }

    method Insert(p: int)
      requires Valid() && 0 <= p < occupied.numBits
      modifies this, occupied.words
      ensures Valid() && prices == old(prices) + {p}
    {
      occupied.Set(p);
      if best == None || p > best.value {
        best := Some(p);
      }
      prices := prices + {p};
    }

    method Erase(p: int)
      requires Valid() && 0 <= p < occupied.numBits
      modifies this, occupied.words
      ensures Valid() && prices == old(prices) - {p}
    {
      occupied.Clear(p);
      prices := prices - {p};
      if best == Some(p) {
        best := HighestBelow(p);
      }
    }

    method HighestBelow(p: nat) returns (found: Option<nat>)
      requires occupied.Valid()
      ensures match found
              case None => forall j :: 0 <= j < p && j < occupied.numBits ==> !occupied.Occupied()[j]
              case Some(r) => && r < p && r < occupied.numBits && occupied.Occupied()[r]
                              && forall j :: r < j < p && j < occupied.numBits ==> !occupied.Occupied()[j]
    {
      if p == 0 {
        return None;
      }
      found := occupied.FindHighestAtOrBelow(p - 1);
      HighestMeaning(occupied.Occupied(), p - 1);
    }

    method Best() returns (b: Option<int>)
      requires Valid()
      ensures IsMax(prices, b)
    {
      b := if best == None then None else Some(best.value);
    }
  }

  lemma {:induction false} MaxExists(s: set<int>, x: int) returns (m: int)
    requires x in s
    ensures m in s && forall y :: y in s ==> y <= m
    decreases |s|
  {
    var rest := s - {x};
    if z :| z in rest {
      var y := MaxExists(rest, z);
      m := if x > y then x else y;
      assert forall w :: w in s ==> w == x || w in rest;
    } else {
      m := x;
      assert forall w :: w in s ==> w == x || w in rest;
    }
  }

  /** The ordered set; its last element is its maximum. */
  class TreeIndex {
    var prices: set<int>

    constructor ()
      ensures prices == {}
    {
      prices := {};
    }

    method Insert(p: int)
      modifies this
      ensures prices == old(prices) + {p}
    {
      prices := prices + {p};
    }

    method Erase(p: int)
      modifies this
      ensures prices == old(prices) - {p}
    {
      prices := prices - {p};
    }

    method Best() returns (b: Option<int>)
      ensures IsMax(prices, b)
    {
      if x :| x in prices {
        ghost var m := MaxExists(prices, x);
        var last :| last in prices && forall q :: q in prices ==> q <= last;
        return Some(last);
      }
      return None;
    }
  }

  ghost function Elements(v: seq<int>): set<int> {
    set k | 0 <= k < |v| :: v[k]
  }

  predicate StrictlyAscending(v: seq<int>) {
    forall j, k :: 0 <= j < k < |v| ==> v[j] < v[k]
  }

  /** The sorted vector. */
  class FlatIndex {
    var v: seq<int>

    ghost predicate Valid()
      reads this
    {
      StrictlyAscending(v)
    }

    ghost function Prices(): set<int>
      reads this
    {
      Elements(v)
    }

    constructor ()
      ensures Valid() && Prices() == {}
    {
      v := [];
    }

    /** `std::lower_bound`: the first position not below `p`, by binary search. */
    method LowerBound(p: int) returns (at: nat)
      requires Valid()
      ensures at <= |v|
      ensures forall k :: 0 <= k < at ==> v[k] < p
      ensures forall k :: at <= k < |v| ==> p <= v[k]
    {
      var lo, hi := 0, |v|;
      while lo < hi
        invariant 0 <= lo <= hi <= |v|
        invariant forall k :: 0 <= k < lo ==> v[k] < p
        invariant forall k :: hi <= k < |v| ==> p <= v[k]
      {
        var mid := (lo + hi) / 2;
        if v[mid] < p {
          lo := mid + 1;
        } else {
          hi := mid;
        }
      }
      at := lo;
    }

    method Insert(p: int)
      requires Valid()
      modifies this
      ensures Valid() && Prices() == old(Prices()) + {p}
    {
      var at := LowerBound(p);
      if at == |v| || v[at] != p {
        InsertElements(v, at, p);
        v := v[..at] + [p] + v[at..];
      } else {
        assert p in Elements(v);
      }
    }

    method Erase(p: int)
      requires Valid()
      modifies this
      ensures Valid() && Prices() == old(Prices()) - {p}
    {
      var at := LowerBound(p);
      if at != |v| && v[at] == p {
        EraseElements(v, at);
        v := v[..at] + v[at + 1..];
      } else {
        assert p !in Elements(v);
      }
    }

    method Best() returns (b: Option<int>)
      requires Valid()
      ensures IsMax(Prices(), b)
    {
      if v == [] {
        return None;
      }
      assert v[|v| - 1] in Elements(v);
      return Some(v[|v| - 1]);
    }
  }

  lemma InsertElements(v: seq<int>, at: nat, p: int)
    requires at <= |v|
    ensures Elements(v[..at] + [p] + v[at..]) == Elements(v) + {p}
  {
    var w := v[..at] + [p] + v[at..];
    assert w[at] == p;
    forall x | x in Elements(v)
      ensures x in Elements(w)
    {
      var k :| 0 <= k < |v| && v[k] == x;
      assert w[if k < at then k else k + 1] == x;
    }
  }

  lemma EraseElements(v: seq<int>, at: nat)
    requires StrictlyAscending(v) && at < |v|
    ensures Elements(v[..at] + v[at + 1..]) == Elements(v) - {v[at]}
  {
    var w := v[..at] + v[at + 1..];
    assert forall k :: 0 <= k < |w| ==> w[k] == v[if k < at then k else k + 1];
    forall x | x in Elements(v) && x != v[at]
      ensures x in Elements(w)
    {
      var k :| 0 <= k < |v| && v[k] == x;
      assert w[if k < at then k else k - 1] == x;
    }
  }

  datatype Op = InsertPrice(p: int) | ErasePrice(p: int)

  function Applied(prices: set<int>, op: Op): set<int> {
    match op
    case InsertPrice(p) => prices + {p}
    case ErasePrice(p) => prices - {p}
  }

  /** The prices occupied after a sequence of operations. */
  function After(ops: seq<Op>): set<int> {
    if ops == [] then {} else Applied(After(ops[..|ops| - 1]), ops[|ops| - 1])
  }

  /** One operation on each of three indices that agree. */
  method StepAll(ladder: LadderIndex, tree: TreeIndex, flat: FlatIndex, op: Op)
      returns (a: Option<int>, b: Option<int>, c: Option<int>)
    requires ladder.Valid() && flat.Valid() && 0 <= op.p < ladder.occupied.numBits
    requires ladder.prices == tree.prices == flat.Prices()
    modifies ladder, ladder.occupied.words, tree, flat
    ensures ladder.Valid() && flat.Valid()
    ensures ladder.prices == tree.prices == flat.Prices() == Applied(old(tree.prices), op)
    ensures a == b == c && IsMax(tree.prices, b)
  {
    if op.InsertPrice? {
      ladder.Insert(op.p);
      tree.Insert(op.p);
      flat.Insert(op.p);
    } else {
      ladder.Erase(op.p);
      tree.Erase(op.p);
      flat.Erase(op.p);
    }
    a := ladder.Best();
    b := tree.Best();
    c := flat.Best();
    MaxUnique(tree.prices, a, b);
    MaxUnique(tree.prices, b, c);
  }

  /** Drives the three indices in lockstep: after every operation all three report the same
      best price, the highest one occupied. */
  method Lockstep(numPrices: nat, ops: seq<Op>) returns (bests: seq<(Option<int>, Option<int>, Option<int>)>)
    requires forall k :: 0 <= k < |ops| ==> 0 <= ops[k].p < numPrices
    ensures |bests| == |ops|
    ensures forall k :: 0 <= k < |ops| ==>
              bests[k].0 == bests[k].1 == bests[k].2 && IsMax(After(ops[..k + 1]), bests[k].0)
  {
    var ladder := new LadderIndex(numPrices);
    var tree := new TreeIndex();
    var flat := new FlatIndex();
    bests := [];
    for i := 0 to |ops|
      invariant ladder.Valid() && flat.Valid() && fresh(ladder) && fresh(ladder.occupied.words) && fresh(tree)
                && fresh(flat)
      invariant ladder.occupied.numBits == numPrices
      invariant ladder.prices == tree.prices == flat.Prices() == After(ops[..i])
      invariant |bests| == i
      invariant forall k :: 0 <= k < i ==>
                  bests[k].0 == bests[k].1 == bests[k].2 && IsMax(After(ops[..k + 1]), bests[k].0)
    {
      assert ops[..i + 1][..i] == ops[..i];
      var a, b, c := StepAll(ladder, tree, flat, ops[i]);
      bests := bests + [(a, b, c)];
    }
  }
}
