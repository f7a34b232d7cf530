/** One price level: an intrusive doubly linked FIFO threaded through pool slots,
    with cached aggregates. */
module PriceLevels {
  import opened Core
  import opened Slab

  /** A pooled resting order; `prev` and `next` are slots, `NONE` for a null pointer. */
  datatype OrderNode = OrderNode(order: Order, prev: nat, next: nat, levelIndex: nat)

  datatype PriceLevel = PriceLevel(head: nat, tail: nat, totalQuantity: int, orderCount: nat)

  const EMPTY_LEVEL := PriceLevel(NONE, NONE, 0, 0)

  /** The resting orders behind a list of slots. */
  function Orders(nodes: seq<OrderNode>, fifo: seq<nat>): (os: seq<Order>)
    requires forall k :: 0 <= k < |fifo| ==> fifo[k] < |nodes|
    ensures |os| == |fifo|
    ensures forall k :: 0 <= k < |fifo| ==> os[k] == nodes[fifo[k]].order
  {
    seq(|fifo|, k requires 0 <= k < |fifo| => nodes[fifo[k]].order)
  }

  function RemoveAt<T>(s: seq<T>, k: nat): (r: seq<T>)
    requires k < |s|
    ensures |r| == |s| - 1
    ensures forall j :: 0 <= j < k ==> r[j] == s[j]
    ensures forall j :: k <= j < |s| - 1 ==> r[j] == s[j + 1]
  {
    seq(|s| - 1, j requires 0 <= j < |s| - 1 => if j < k then s[j] else s[j + 1])
  }

  function Volume(os: seq<Order>): int {
    if os == [] then 0 else os[0].remaining + Volume(os[1..])
  }

  /** The node at position `k` of the list points to both its neighbours. */
  ghost predicate Threaded(nodes: seq<OrderNode>, fifo: seq<nat>, k: int)
    requires 0 <= k < |fifo|
  {
    && fifo[k] < |nodes|
    && nodes[fifo[k]].prev == (if k == 0 then NONE else fifo[k - 1])
    && nodes[fifo[k]].next == (if k + 1 == |fifo| then NONE else fifo[k + 1])
  }

  /** Both link directions walk exactly `fifo`, which repeats no slot. */
  ghost predicate Links(head: nat, tail: nat, nodes: seq<OrderNode>, fifo: seq<nat>) {
    && |nodes| <= NONE
    && Distinct(fifo)
    && (forall k :: 0 <= k < |fifo| ==> fifo[k] < |nodes|)
    && head == (if fifo == [] then NONE else fifo[0])
    && tail == (if fifo == [] then NONE else fifo[|fifo| - 1])
    && (forall k {:trigger Threaded(nodes, fifo, k)} :: 0 <= k < |fifo| ==> Threaded(nodes, fifo, k))
  }

  /** `level` is exactly the list `fifo`, and its cached aggregates are the list's
      length and total open quantity. */
  ghost predicate Linked(level: PriceLevel, nodes: seq<OrderNode>, fifo: seq<nat>) {
    && Links(level.head, level.tail, nodes, fifo)
    && level.orderCount == |fifo|
    && level.totalQuantity == Volume(Orders(nodes, fifo))
  }

  lemma {:induction false} VolumeAppend(os: seq<Order>, o: Order)
    ensures Volume(os + [o]) == Volume(os) + o.remaining
  {
    if os != [] {
      VolumeAppend(os[1..], o);
      assert (os + [o])[1..] == os[1..] + [o];
    }
  }

  lemma {:induction false} VolumeRemove(os: seq<Order>, k: nat)
    requires k < |os|
    ensures Volume(RemoveAt(os, k)) == Volume(os) - os[k].remaining
  {
    if k == 0 {
      assert RemoveAt(os, k) == os[1..];
    } else {
      VolumeRemove(os[1..], k - 1);
      assert RemoveAt(os, k)[1..] == RemoveAt(os[1..], k - 1);
    }
  }

  lemma {:induction false} VolumeUpdate(os: seq<Order>, k: nat, o: Order)
    requires k < |os|
    ensures Volume(os[k := o]) == Volume(os) - os[k].remaining + o.remaining
  {
    if k == 0 {
      assert os[k := o][1..] == os[1..];
    } else {
      VolumeUpdate(os[1..], k - 1, o);
      assert os[k := o][1..] == os[1..][k - 1 := o];
    }
  }

  /** Link changes that touch none of a list's nodes leave it linked. */
  lemma LinkedFrame(level: PriceLevel, before: seq<OrderNode>, after: seq<OrderNode>, fifo: seq<nat>)
    requires Linked(level, before, fifo) && |after| == |before|
    requires forall k :: 0 <= k < |fifo| ==> after[fifo[k]] == before[fifo[k]]
    ensures Linked(level, after, fifo)
    ensures Orders(after, fifo) == Orders(before, fifo)
  {
    assert Orders(after, fifo) == Orders(before, fifo);
    forall k | 0 <= k < |fifo|
      ensures Threaded(after, fifo, k)
    {
      assert Threaded(before, fifo, k);
    }
  }

  /** Only the links of the nodes in `touched` differ; every order stays where it was. */
  ghost predicate Relinked(before: seq<OrderNode>, after: seq<OrderNode>, touched: seq<nat>) {
    && |after| == |before|
    && (forall s :: 0 <= s < |before| ==>
       after[s].order == before[s].order && after[s].levelIndex == before[s].levelIndex)
    && (forall s :: 0 <= s < |before| && s !in touched ==> after[s] == before[s])
  }

  /** The nodes after `level_push_back`. */
  function PushedNodes(nodes: seq<OrderNode>, tail: nat, n: nat): seq<OrderNode>
    requires n < |nodes|
  {
    var linked := nodes[n := nodes[n].(prev := tail, next := NONE)];
    if tail < |nodes| then linked[tail := linked[tail].(next := n)] else linked
  }

  /** The nodes after `level_unlink`. */
  function UnlinkedNodes(nodes: seq<OrderNode>, n: nat): seq<OrderNode>
    requires n < |nodes|
  {
    var p, q := nodes[n].prev, nodes[n].next;
    var one := if p < |nodes| then nodes[p := nodes[p].(next := q)] else nodes;
    var two := if q < |nodes| then one[q := one[q].(prev := p)] else one;
    two[n := two[n].(prev := NONE, next := NONE)]
  }

  lemma PushedLinks(nodes: seq<OrderNode>, head: nat, tail: nat, n: nat, fifo: seq<nat>)
    requires Links(head, tail, nodes, fifo) && n < |nodes| && n !in fifo
    ensures var after := PushedNodes(nodes, tail, n);
            && Links(if tail != NONE then head else n, n, after, fifo + [n])
            && Relinked(nodes, after, fifo + [n])
  {
    var after, list := PushedNodes(nodes, tail, n), fifo + [n];
    forall k | 0 <= k < |fifo|
      ensures Threaded(after, list, k)
    {
      assert Threaded(nodes, fifo, k);
    }
    assert Threaded(after, list, |fifo|);
  }

  lemma UnlinkedRelinks(nodes: seq<OrderNode>, head: nat, tail: nat, fifo: seq<nat>, k: nat)
    requires Links(head, tail, nodes, fifo) && k < |fifo|
    ensures Relinked(nodes, UnlinkedNodes(nodes, fifo[k]), fifo)
  {
    assert Threaded(nodes, fifo, k);
  }

  lemma UnlinkedThread(nodes: seq<OrderNode>, head: nat, tail: nat, fifo: seq<nat>, k: nat, j: nat)
    requires Links(head, tail, nodes, fifo) && k < |fifo| && j < |fifo| - 1
    ensures Threaded(UnlinkedNodes(nodes, fifo[k]), RemoveAt(fifo, k), j)
  {
    assert Threaded(nodes, fifo, k);
    assert Threaded(nodes, fifo, if j < k then j else j + 1);
  }

  lemma UnlinkedLinks(nodes: seq<OrderNode>, head: nat, tail: nat, fifo: seq<nat>, k: nat)
    requires Links(head, tail, nodes, fifo) && k < |fifo|
    ensures var n := fifo[k];
            Links(if nodes[n].prev != NONE then head else nodes[n].next,
                  if nodes[n].next != NONE then tail else nodes[n].prev,
                  UnlinkedNodes(nodes, n), RemoveAt(fifo, k))
  {
    assert Threaded(nodes, fifo, k);
    forall j | 0 <= j < |fifo| - 1
      ensures Threaded(UnlinkedNodes(nodes, fifo[k]), RemoveAt(fifo, k), j)
    {
      UnlinkedThread(nodes, head, tail, fifo, k, j);
    }
  }

  lemma NeighboursApart(nodes: seq<OrderNode>, head: nat, tail: nat, fifo: seq<nat>, k: nat)
    requires Links(head, tail, nodes, fifo) && k < |fifo|
    ensures nodes[fifo[k]].prev == NONE || nodes[fifo[k]].prev < |nodes|
    ensures nodes[fifo[k]].next == NONE || nodes[fifo[k]].next < |nodes|
    ensures nodes[fifo[k]].prev != fifo[k] && nodes[fifo[k]].next != fifo[k]
  {
    assert Threaded(nodes, fifo, k);
  }

  lemma UnlinkedVolume(before: seq<OrderNode>, after: seq<OrderNode>, fifo: seq<nat>, k: nat)
    requires Relinked(before, after, fifo) && k < |fifo|
    requires forall j :: 0 <= j < |fifo| ==> fifo[j] < |before|
    ensures Volume(Orders(after, RemoveAt(fifo, k))) == Volume(Orders(before, fifo)) - before[fifo[k]].order.remaining
  {
    var os := Orders(before, fifo);
    assert Orders(after, RemoveAt(fifo, k)) == RemoveAt(os, k);
    VolumeRemove(os, k);
  }

  /** Appends the node in slot `n` to the back of level `i`. */
  method LevelPushBack(levels: array<PriceLevel>, i: nat, nodes: array<OrderNode>, n: nat, ghost fifo: seq<nat>)
    requires i < levels.Length && n < nodes.Length && n !in fifo
    requires Linked(levels[i], nodes[..], fifo)
    modifies levels, nodes
    ensures Linked(levels[i], nodes[..], fifo + [n])
    ensures Relinked(old(nodes[..]), nodes[..], fifo + [n])
    ensures forall j :: 0 <= j < levels.Length && j != i ==> levels[j] == old(levels[j])
  {
    PushedLinks(nodes[..], levels[i].head, levels[i].tail, n, fifo);
    ghost var before := nodes[..];
    var level := levels[i];
    nodes[n] := nodes[n].(prev := level.tail, next := NONE);
    if level.tail != NONE {
      nodes[level.tail] := nodes[level.tail].(next := n);
    } else {
      level := level.(head := n);
    }
    assert nodes[..] == PushedNodes(before, level.tail, n);
    level := level.(tail := n);
    level := level.(totalQuantity := level.totalQuantity + nodes[n].order.remaining);
    levels[i] := level.(orderCount := level.orderCount + 1);
    assert Orders(nodes[..], fifo + [n]) == Orders(before, fifo) + [nodes[n].order];
    VolumeAppend(Orders(before, fifo), nodes[n].order);
  }

  /** Bridges the neighbours of the node in slot `n` and clears its own links. */
  method Detach(nodes: array<OrderNode>, n: nat)
    requires n < nodes.Length <= NONE
    requires nodes[n].prev == NONE || nodes[n].prev < nodes.Length
    requires nodes[n].next == NONE || nodes[n].next < nodes.Length
    requires nodes[n].prev != n && nodes[n].next != n
    modifies nodes
    ensures nodes[..] == UnlinkedNodes(old(nodes[..]), n)
  {
    if nodes[n].prev != NONE {
      nodes[nodes[n].prev] := nodes[nodes[n].prev].(next := nodes[n].next);
    }
    if nodes[n].next != NONE {
      nodes[nodes[n].next] := nodes[nodes[n].next].(prev := nodes[n].prev);
    }
    nodes[n] := nodes[n].(prev := NONE, next := NONE);
  }

  /** Removes the node in slot `n`, at position `k` of level `i`, wherever it sits. */
  method LevelUnlink(levels: array<PriceLevel>, i: nat, nodes: array<OrderNode>, n: nat,
                     ghost fifo: seq<nat>, ghost k: nat)
    requires i < levels.Length && k < |fifo| && fifo[k] == n
    requires Linked(levels[i], nodes[..], fifo)
    modifies levels, nodes
    ensures Linked(levels[i], nodes[..], RemoveAt(fifo, k))
    ensures Relinked(old(nodes[..]), nodes[..], fifo)
    ensures forall j :: 0 <= j < levels.Length && j != i ==> levels[j] == old(levels[j])
  {
    ghost var before := nodes[..];
    var level, node := levels[i], nodes[n];
    NeighboursApart(before, level.head, level.tail, fifo, k);
    UnlinkedLinks(before, level.head, level.tail, fifo, k);
    UnlinkedRelinks(before, level.head, level.tail, fifo, k);
    UnlinkedVolume(before, UnlinkedNodes(before, n), fifo, k);
    if node.prev == NONE {
      level := level.(head := node.next);
    }
    if node.next == NONE {
      level := level.(tail := node.prev);
    }
    Detach(nodes, n);
    level := level.(totalQuantity := level.totalQuantity - node.order.remaining);
    levels[i] := level.(orderCount := level.orderCount - 1);
  }
}
