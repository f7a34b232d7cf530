/** The limit order book: two ladders of intrusive FIFOs over one slab pool, with an
    id map, kept in step with the reference book. */
module Books {
  import opened Core
  import opened Slab
  import opened PriceLevels
  import opened Ladder
  import opened NaiveBook
  import opened Depths
  import opened BookRep
  import opened BookReads

  datatype Result<+T, +E> = Ok(value: T) | Err(error: E)

  datatype CancelError = CancelNotFound

  datatype ReduceError = ReduceNotFound | InvalidFillAmount

  const BLANK_ORDER := Order(0, 0, 0, Buy, Limit, Day, 0, 0, 0, 0, 0)

  const BLANK_NODE := OrderNode(BLANK_ORDER, NONE, NONE, 0)

  class OrderBook {
    const symbol: nat
    const base: int
    const numLevels: nat
    const maxOrders: nat
    const bids: LadderSide
    const asks: LadderSide
    const pool: SlabPool<OrderNode>
    var orderIndex: map<nat, nat>
    var orderCount: nat
    ghost var model: Book  // the reference book this object stands for
    ghost const repr: set<object>  // every object the book owns

    ghost function Footprint(): set<object> {
      {this, bids, asks, bids.levels, asks.levels, bids.occupied.words, asks.occupied.words,
       pool, pool.storage, pool.nextFree}
    }

    /** The component objects are pairwise distinct. */
    ghost predicate Separate() {
      && bids != asks
      && bids.levels != asks.levels
      && bids.occupied.words != asks.occupied.words
      && pool.nextFree != bids.occupied.words
      && pool.nextFree != asks.occupied.words
    }

    ghost function Snapshot(): Rep
      reads this`orderIndex, bids, asks, bids.levels, asks.levels, bids.occupied.words, asks.occupied.words
      reads pool, pool.storage, pool.nextFree
    {
      Rep(base, bids.levels[..], asks.levels[..], bids.fifos, asks.fifos, pool.storage[..], orderIndex, pool.free)
    }

    /** Both ladders are well formed and their bitmaps agree with their levels. */
    ghost predicate Ladders()
      reads bids, asks, bids.levels, asks.levels, bids.occupied.words, asks.occupied.words
    {
      && Separate()
      && bids.isBid && bids.Valid() && bids.InStep() && bids.levels.Length == numLevels == |bids.fifos|
      && !asks.isBid && asks.Valid() && asks.InStep() && asks.levels.Length == numLevels == |asks.fifos|
      && pool.storage.Length == maxOrders
    }

    /** Everything but the agreement of the counters with the lists. */
    ghost predicate Sound()
      reads this`orderIndex, bids, asks, bids.levels, asks.levels, bids.occupied.words, asks.occupied.words
      reads pool, pool.storage, pool.nextFree
    {
      && Ladders()
      && pool.Valid() && pool.capacity == maxOrders
      && RepOk(Snapshot())
    }

    /** The reference book this object stands for. */
    ghost function Model(): Book
      requires Sound()
      reads this`orderIndex, bids, asks, bids.levels, asks.levels, bids.occupied.words, asks.occupied.words
      reads pool, pool.storage, pool.nextFree
    {
      Book(symbol, base, numLevels, maxOrders, RepQueue(Snapshot(), Buy), RepQueue(Snapshot(), Sell))
    }

    /** The five structures agree with each other and with the reference book. */
    ghost predicate Intact()
      reads Footprint()
    {
      && Sound()
      && orderCount == pool.liveCount
      && orderCount == |Model().bids| + |Model().asks|
      && model == Model()
    }

    /** `Intact`, kept folded: callers of the book reason with `model` alone, and the book's
        own methods unfold it by mentioning `Unfolded`. */
    ghost predicate Valid()
      reads this, repr
    {
      && this in repr
      && model.symbol == symbol && model.base == base && model.numLevels == numLevels && model.maxOrders == maxOrders
      && orderCount == |model.bids| + |model.asks| <= maxOrders
      && forall k: nat {:trigger Unfolded(k)} :: Unfolded(k) ==> repr == Footprint() && Intact()
    }

    static ghost predicate Unfolded(k: nat) {
      true
    }

    function LadderOf(side: Side): LadderSide {
      if side == Buy then bids else asks
    }

    constructor (sym: nat, basePrice: int, levels: nat, orders: nat)
      requires 0 < orders <= NONE
      ensures Valid()
      ensures fresh(repr)
      ensures model == Book(sym, basePrice, levels, orders, [], [])
    {
      symbol, base, numLevels, maxOrders := sym, basePrice, levels, orders;
      var b := new LadderSide(true, levels);
      var a := new LadderSide(false, levels);
      var p := new SlabPool<OrderNode>(orders, BLANK_NODE);
      bids, asks, pool := b, a, p;
      orderIndex, orderCount := map[], 0;
      ghost var owned: set<object> :=
        {b, a, b.levels, a.levels, b.occupied.words, a.occupied.words, p, p.storage, p.nextFree};
      assert fresh(owned);
      repr := {this} + owned;
      new;
      assert fresh(repr);
      assert repr == Footprint();
      assert Ladders();
      EmptyRep(Snapshot());
      Seal();
    }

    /** Records what the structures now stand for. */
    ghost method Seal()
      requires Sound() && repr == Footprint() && orderCount == pool.liveCount
      requires orderCount == |RepQueue(Snapshot(), Buy)| + |RepQueue(Snapshot(), Sell)|
      modifies this`model
      ensures Valid() && model == old(Model())
    {
      model := Model();
    }

    /** The id map answers exactly "is this order resting". */
    lemma ResidentIds(id: nat)
      requires Sound()
      ensures Resting(Model(), id) <==> id in orderIndex
    {
      var r := Snapshot();
      SideHas(Buy, r.index, r.bidLevels, r.bidFifos, r.askFifos, r.nodes, r.base, id);
      SideHas(Sell, r.index, r.askLevels, r.bidFifos, r.askFifos, r.nodes, r.base, id);
    }

    /** The other side of the book is as it was. */
    twostate predicate OtherKept(side: Side)
      reads LadderOf(Opposite(side)), LadderOf(Opposite(side)).levels, LadderOf(Opposite(side)).occupied.words
    {
      var other := LadderOf(Opposite(side));
      unchanged(other) && unchanged(other.levels) && unchanged(other.occupied.words)
    }

    twostate lemma LaddersKept(side: Side)
      requires old(Ladders()) && OtherKept(side)
      requires LadderOf(side).Valid() && LadderOf(side).InStep() && |LadderOf(side).fifos| == numLevels
      ensures Ladders()
    {
    }

    /** Only level `index` of `side` was relinked. */
    twostate lemma LevelRelisted(side: Side, new index: nat, new list: seq<nat>, new touched: seq<nat>)
      requires OtherKept(side) && index < LadderOf(side).levels.Length && index < old(|LadderOf(side).fifos|)
      requires LadderOf(side).levels.Length == |LadderOf(side).fifos|
      requires LadderOf(side).fifos == old(LadderOf(side).fifos)[index := list]
      requires LadderOf(side).levels[..] == old(LadderOf(side).levels[..])[index := LadderOf(side).levels[index]]
      requires Linked(LadderOf(side).levels[index], pool.storage[..], list)
      requires Relinked(old(pool.storage[..]), pool.storage[..], touched)
      ensures Relisted(old(Snapshot()), Snapshot(), side, index, list, touched)
    {
    }

    /** Threads the node already written in slot `n` onto the back of its level. */
    method Enqueue(side: Side, index: nat, n: nat)
      requires Separate() && LadderOf(side).Valid() && LadderOf(side).InStep()
      requires index < LadderOf(side).levels.Length == |LadderOf(side).fifos| && n < pool.storage.Length
      requires n !in LadderOf(side).fifos[index]
      requires Linked(LadderOf(side).levels[index], pool.storage[..], LadderOf(side).fifos[index])
      modifies LadderOf(side), LadderOf(side).levels, LadderOf(side).occupied.words, pool.storage
      ensures LadderOf(side).Valid() && LadderOf(side).InStep()
      ensures var list := old(LadderOf(side).fifos)[index] + [n];
              Relisted(old(Snapshot()), Snapshot(), side, index, list, list)
    {
      ghost var list := LadderOf(side).fifos[index] + [n];
      LadderOf(side).PushBack(index, pool.storage, n);
      LevelRelisted(side, index, list, list);
    }

    /** Takes the node in slot `n` out of its level. */
    method Dequeue(side: Side, index: nat, n: nat, ghost k: nat) returns (ghost list: seq<nat>)
      requires Separate() && LadderOf(side).Valid() && LadderOf(side).InStep()
      requires index < LadderOf(side).levels.Length == |LadderOf(side).fifos|
      requires k < |LadderOf(side).fifos[index]| && LadderOf(side).fifos[index][k] == n
      requires Linked(LadderOf(side).levels[index], pool.storage[..], LadderOf(side).fifos[index])
      modifies LadderOf(side), LadderOf(side).levels, LadderOf(side).occupied.words, pool.storage
      ensures LadderOf(side).Valid() && LadderOf(side).InStep()
      ensures list == RemoveAt(old(LadderOf(side).fifos)[index], k)
      ensures Relisted(old(Snapshot()), Snapshot(), side, index, list, old(LadderOf(side).fifos)[index])
    {
      ghost var fifo := LadderOf(side).fifos[index];
      list := RemoveAt(fifo, k);
      LadderOf(side).Unlink(index, pool.storage, n, k);
      LevelRelisted(side, index, list, fifo);
    }

    method LinkIn(side: Side, index: nat, n: nat)
      requires Ladders() && index < numLevels && n < maxOrders
      requires n !in LadderOf(side).fifos[index]
      requires Linked(LadderOf(side).levels[index], pool.storage[..], LadderOf(side).fifos[index])
      modifies LadderOf(side), LadderOf(side).levels, LadderOf(side).occupied.words, pool.storage
      ensures Ladders()
      ensures var list := old(LadderOf(side).fifos)[index] + [n];
              Relisted(old(Snapshot()), Snapshot(), side, index, list, list)
    {
      Enqueue(side, index, n);
      LaddersKept(side);
    }

    /** Writes `order` into slot `n` and links it in. */
    method Place(order: Order, index: nat, n: nat, ghost before: Rep)
      requires Ladders() && index < numLevels && n < maxOrders
      requires RepOk(before) && n in before.free && before == Snapshot().(free := before.free)
      modifies LadderOf(order.side), LadderOf(order.side).levels, LadderOf(order.side).occupied.words, pool.storage
      ensures Ladders()
      ensures var node := old(pool.storage[n]).(order := order, levelIndex := index);
              var placed := before.(nodes := before.nodes[n := node]);
              && Placed(before, placed, order, index, n)
              && Pushed(placed, Snapshot(), order.side, index, n)
    {
      pool.storage[n] := pool.storage[n].(order := order, levelIndex := index);
      assert pool.storage[..] == before.nodes[n := pool.storage[n]];
      PlacedReady(before, before.(nodes := pool.storage[..]), order, index, n);
      LinkIn(order.side, index, n);
    }

    /** Takes a slot from the pool; blanking it disturbs nothing that is resting. */
    method Claim() returns (slot: Option<nat>)
      requires Sound()
      modifies pool, pool.storage
      ensures Ladders() && pool.Valid()
      ensures slot == None <==> old(pool.liveCount) == maxOrders
      ensures slot == None ==> Snapshot() == old(Snapshot()) && pool.liveCount == old(pool.liveCount)
      ensures slot.Some? ==>
                && pool.liveCount == old(pool.liveCount) + 1
                && slot.value < maxOrders && slot.value in old(pool.free) && slot.value !in pool.free
                && (forall x :: x in pool.free ==> x in old(pool.free))
                && var blanked := Snapshot().(free := old(pool.free));
                && RepOk(blanked)
                && RepQueue(blanked, Buy) == old(RepQueue(Snapshot(), Buy))
                && RepQueue(blanked, Sell) == old(RepQueue(Snapshot(), Sell))
    {
      ghost var before := Snapshot();
      slot := pool.Allocate();
      if slot.Some? {
        ScribbleRep(before, before.(nodes := pool.storage[..]), slot.value);
      }
    }

    /** Records under which slot an id rests. */
    method Register(id: nat, n: nat)
      requires Ladders()
      modifies this`orderIndex, this`orderCount
      ensures Ladders() && orderCount == old(orderCount) + 1
      ensures Snapshot() == old(Snapshot()).(index := old(orderIndex)[id := n])
    {
      orderIndex := orderIndex[id := n];
      orderCount := orderCount + 1;
    }

    /** Fills a claimed slot with `order`, links it in and records its id. */
    method Settle(order: Order, index: nat, n: nat, ghost blanked: Rep)
      requires Ladders() && order.kind == Limit && order.remaining > 0
      requires index < numLevels && order.price == base + index && order.id !in orderIndex
      requires n < maxOrders && n !in pool.free && n in blanked.free
      requires forall x :: x in pool.free ==> x in blanked.free
      requires RepOk(blanked) && blanked == Snapshot().(free := blanked.free)
      modifies this`orderIndex, this`orderCount, LadderOf(order.side), LadderOf(order.side).levels,
               LadderOf(order.side).occupied.words, pool.storage
      ensures Ladders() && orderCount == old(orderCount) + 1
      ensures RepOk(Snapshot())
      ensures RepQueue(Snapshot(), order.side) == Insert(RepQueue(blanked, order.side), order)
      ensures RepQueue(Snapshot(), Opposite(order.side)) == RepQueue(blanked, Opposite(order.side))
    {
      ghost var node := pool.storage[n].(order := order, levelIndex := index);
      Place(order, index, n, blanked);
      Register(order.id, n);
      AddRep(blanked, blanked.(nodes := blanked.nodes[n := node]), Snapshot(), order, index, n);
    }

    /** Allocates a slot for an order that passed every other check and rests it there. */
    method Store(order: Order, index: nat) returns (stored: bool)
      requires Sound() && order.kind == Limit && order.remaining > 0
      requires index < numLevels && order.price == base + index && order.id !in orderIndex
      modifies this`orderIndex, this`orderCount, LadderOf(order.side), LadderOf(order.side).levels,
               LadderOf(order.side).occupied.words, pool, pool.storage
      ensures Sound()
      ensures stored <==> old(pool.liveCount) < maxOrders
      ensures pool.liveCount == old(pool.liveCount) + (if stored then 1 else 0)
      ensures orderCount == old(orderCount) + (if stored then 1 else 0)
      ensures RepQueue(Snapshot(), order.side) ==
              if stored then Insert(old(RepQueue(Snapshot(), order.side)), order)
              else old(RepQueue(Snapshot(), order.side))
      ensures RepQueue(Snapshot(), Opposite(order.side)) == old(RepQueue(Snapshot(), Opposite(order.side)))
    {
      var slot := Claim();
      if slot == None {
        return false;
      }
      ghost var blanked := Snapshot().(free := old(pool.free));
      Settle(order, index, slot.value, blanked);
      return true;
    }

    /** The checks `add` makes before it touches the pool. */
    method Screen(order: Order) returns (refusal: Option<AddError>)
      requires Sound()
      ensures refusal == None <==>
              order.kind == Limit && order.remaining > 0 && IndexOf(order.price).Some? && order.id !in orderIndex
      ensures refusal.Some? ==> AddRefusal(Model(), order) == refusal
      ensures refusal == None ==> AddRefusal(Model(), order) ==
                                  if |Model().bids| + |Model().asks| == maxOrders then Some(PoolExhausted) else None
    {
      ResidentIds(order.id);
      if order.kind != Limit {
        return Some(MarketOrderCannotRest);
      }
      if order.remaining <= 0 {
        return Some(AddError.InvalidQuantity);
      }
      if IndexOf(order.price) == None {
        return Some(PriceOutOfRange);
      }
      if order.id in orderIndex {
        return Some(AddError.DuplicateOrderId);
      }
      return None;
    }

    /** `OrderBook::add`: rests the order behind every order whose price is at least as
        good, or names the first check that refuses it and changes nothing. */
    method Add(order: Order) returns (r: Result<nat, AddError>)
      requires Valid()
      modifies repr
      ensures Valid()
      ensures r == (match AddRefusal(old(model), order) case None => Ok(order.id) case Some(e) => Err(e))
      ensures model == if r.Ok? then Added(old(model), order) else old(model)
    {
      assert Unfolded(0);
      var refusal := Screen(order);
      if refusal.Some? {
        return Err(refusal.value);
      }
      InsertLength(Queue(Model(), order.side), order);
      var stored := Store(order, IndexOf(order.price).value);
      Seal();
      return if stored then Ok(order.id) else Err(PoolExhausted);
    }

    /** `OrderBook::index_of`. */
    function IndexOf(price: int): (i: Option<nat>)
      ensures i.Some? <==> 0 <= price - base < numLevels
      ensures i.Some? ==> price == base + i.value
    {
      var offset := price - base;
      if offset < 0 || offset >= numLevels then None else Some(offset)
    }

    /** Slot `n` is at position `k` of a well-linked level; folded as `Valid` is. */
    ghost predicate Linkable(side: Side, index: nat, n: nat, k: nat)
      reads bids, asks, bids.levels, asks.levels, pool.storage
    {
      && index < LadderOf(side).levels.Length && index < |LadderOf(side).fifos|
      && k < |LadderOf(side).fifos[index]| && LadderOf(side).fifos[index][k] == n
      && forall u: nat {:trigger Unfolded(u)} ::
           Unfolded(u) ==> Linked(LadderOf(side).levels[index], pool.storage[..], LadderOf(side).fifos[index])
    }

    method LinkOut(side: Side, index: nat, n: nat, ghost k: nat)
      requires Ladders() && index < numLevels && Linkable(side, index, n, k)
      modifies LadderOf(side), LadderOf(side).levels, LadderOf(side).occupied.words, pool.storage
      ensures Ladders()
      ensures var fifo := old(LadderOf(side).fifos)[index];
              Relisted(old(Snapshot()), Snapshot(), side, index, RemoveAt(fifo, k), fifo)
    {
      assert Unfolded(0);
      ghost var list := Dequeue(side, index, n, k);
      LaddersKept(side);
    }

    /** Takes `spent` off an unlinked order, returns its slot and forgets its id. */
    method Discard(id: nat, n: nat, spent: int)
      requires Ladders() && pool.Valid() && n < pool.capacity == maxOrders && n !in pool.free && orderCount > 0
      modifies this`orderIndex, this`orderCount, pool`freeHead, pool`liveCount, pool`free, pool.nextFree, pool.storage
      ensures Ladders() && pool.Valid()
      ensures orderCount == old(orderCount) - 1 && pool.liveCount == old(pool.liveCount) - 1
      ensures forall x :: x in pool.free <==> x == n || x in old(pool.free)
      ensures forall x :: 0 <= x < maxOrders && x != n ==> pool.storage[x] == old(pool.storage[x])
      ensures Snapshot() == old(Snapshot()).(index := old(orderIndex) - {id}, free := pool.free,
              nodes := pool.storage[..])
    {
      var o := pool.storage[n].order;
      pool.storage[n] := pool.storage[n].(order := o.(remaining := o.remaining - spent));
      pool.Deallocate(n);
      orderIndex := orderIndex - {id};
      orderCount := orderCount - 1;
    }

    /** Unlinks a node while it still carries its open quantity, only then spends that
        quantity, frees the slot and forgets the id. */
    method TakeOut(id: nat, side: Side, index: nat, n: nat, spent: int, ghost k: nat) returns (ghost popped: Rep)
      requires Ladders() && pool.Valid() && index < numLevels && n < pool.capacity == maxOrders && n !in pool.free
               && orderCount > 0
      requires Linkable(side, index, n, k)
      modifies this`orderIndex, this`orderCount, LadderOf(side), LadderOf(side).levels, LadderOf(side).occupied.words
      modifies pool`freeHead, pool`liveCount, pool`free, pool.nextFree, pool.storage
      ensures Ladders() && pool.Valid()
      ensures orderCount == old(orderCount) - 1 && pool.liveCount == old(pool.liveCount) - 1
      ensures forall x :: x in pool.free <==> x == n || x in old(pool.free)
      ensures orderIndex == old(orderIndex) - {id}
      ensures var fifo := old(LadderOf(side).fifos)[index];
              Relisted(old(Snapshot()), popped, side, index, RemoveAt(fifo, k), fifo)
      ensures Snapshot() == popped.(nodes := pool.storage[..])
      ensures |popped.nodes| == maxOrders && forall x :: 0 <= x < maxOrders && x != n ==>
              pool.storage[x] == popped.nodes[x]
    {
      ghost var before, fifo := Snapshot(), LadderOf(side).fifos[index];
      LinkOut(side, index, n, k);
      ghost var linked := Snapshot();
      Discard(id, n, spent);
      popped := linked.(index := orderIndex, free := pool.free);
      RelistedKeeps(before, linked, popped, side, index, RemoveAt(fifo, k), fifo);
    }

    /** Removes a resting order whose last `spent` lots are consumed (none, for a cancel). */
    method Evict(id: nat, side: Side, index: nat, n: nat, spent: int, ghost k: nat)
      requires Sound() && Sits(Snapshot(), id, side, index, k) && orderIndex[id] == n && orderCount > 0
      modifies this`orderIndex, this`orderCount, LadderOf(side), LadderOf(side).levels, LadderOf(side).occupied.words
      modifies pool, pool.storage, pool.nextFree
      ensures Sound()
      ensures orderIndex == old(orderIndex) - {id}
      ensures orderCount == old(orderCount) - 1 && pool.liveCount == old(pool.liveCount) - 1
      ensures RepQueue(Snapshot(), side) == Without(old(RepQueue(Snapshot(), side)), id)
      ensures RepQueue(Snapshot(), Opposite(side)) == old(RepQueue(Snapshot(), Opposite(side)))
      ensures !HasId(RepQueue(Snapshot(), Opposite(side)), id)
    {
      ghost var before := Snapshot();
      SitsReady(before, id, side, index, k);
      ghost var popped := TakeOut(id, side, index, n, spent, k);
      RemoveRep(before, popped, id, side, index, k);
      ScribbleRep(popped, Snapshot(), n);
    }

    /** `OrderBook::cancel`. */
    method Cancel(id: nat) returns (r: Result<(), CancelError>)
      requires Valid()
      modifies repr
      ensures Valid()
      ensures r == if Resting(old(model), id) then Ok(()) else Err(CancelNotFound)
      ensures model == Cancelled(old(model), id) && !Resting(model, id)
      ensures orderCount == old(orderCount) - (if r.Ok? then 1 else 0)
    {
      assert Unfolded(0);
      ResidentIds(id);
      ghost var before := Model();
      if id !in orderIndex {
        WithoutAbsent(before.bids, id);
        WithoutAbsent(before.asks, id);
        return Err(CancelNotFound);
      }
      ghost var k := Locate(Snapshot(), id);
      var n := orderIndex[id];
      var side := pool.storage[n].order.side;
      SideLength(before, id);
      Evict(id, side, pool.storage[n].levelIndex, n, 0, k);
      WithoutAbsent(Queue(before, Opposite(side)), id);
      WithoutLength(Queue(before, side), id);
      ResidentIds(id);
      Seal();
      return Ok(());
    }

    /** Takes `amount` off an order in place and off its level's cached total. */
    method Shrink(side: Side, index: nat, n: nat, amount: int, ghost k: nat)
      requires Ladders() && index < numLevels && n < maxOrders
      requires k < |LadderOf(side).fifos[index]| && LadderOf(side).fifos[index][k] == n
      modifies LadderOf(side).levels, pool.storage
      ensures Ladders()
      ensures Shrunk(old(Snapshot()), Snapshot(), side, index, k, amount)
    {
      var o := pool.storage[n].order;
      pool.storage[n] := pool.storage[n].(order := o.(remaining := o.remaining - amount));
      var levels := LadderOf(side).levels;
      levels[index] := levels[index].(totalQuantity := levels[index].totalQuantity - amount);
    }

    /** The partial-fill branch of `reduce_quantity`. */
    method FillInPlace(id: nat, side: Side, index: nat, n: nat, amount: int, ghost k: nat)
      requires Sound() && Sits(Snapshot(), id, side, index, k) && orderIndex[id] == n && n < maxOrders
      requires 0 < amount < pool.storage[n].order.remaining
      modifies LadderOf(side).levels, pool.storage
      ensures Sound()
      ensures RepQueue(Snapshot(), side) == Filled(old(RepQueue(Snapshot(), side)), id, amount)
      ensures RepQueue(Snapshot(), Opposite(side)) == old(RepQueue(Snapshot(), Opposite(side)))
    {
      ghost var before := Snapshot();
      Shrink(side, index, n, amount, k);
      ShrinkRep(before, Snapshot(), id, side, index, k, amount);
    }

    /** Both branches of `reduce_quantity`. */
    method ApplyFill(id: nat, side: Side, index: nat, n: nat, amount: int, ghost k: nat)
      requires Sound() && Sits(Snapshot(), id, side, index, k) && orderIndex[id] == n && n < maxOrders && orderCount > 0
      requires 0 < amount <= pool.storage[n].order.remaining
      requires Find(RepQueue(Snapshot(), side), id) == Some(pool.storage[n].order)
      modifies this`orderIndex, this`orderCount, LadderOf(side), LadderOf(side).levels, LadderOf(side).occupied.words
      modifies pool, pool.storage, pool.nextFree
      ensures Sound()
      ensures RepQueue(Snapshot(), side) == Filled(old(RepQueue(Snapshot(), side)), id, amount)
      ensures RepQueue(Snapshot(), Opposite(side)) == old(RepQueue(Snapshot(), Opposite(side)))
      ensures orderCount - old(orderCount) == pool.liveCount - old(pool.liveCount)
      ensures orderCount - old(orderCount) == |RepQueue(Snapshot(), side)| - old(|RepQueue(Snapshot(), side)|)
    {
      ghost var q := RepQueue(Snapshot(), side);
      FilledForm(q, id, amount);
      FindMeaning(q, id);
      WithoutLength(q, id);
      if amount == pool.storage[n].order.remaining {
        Evict(id, side, index, n, amount, k);
      } else {
        FillInPlace(id, side, index, n, amount, k);
      }
    }

    /** Where the order behind a mapped id is linked, and that the reference list finds it. */
    lemma LocateResident(id: nat, n: nat) returns (k: nat)
      requires Sound() && id in orderIndex && orderIndex[id] == n
      ensures n < maxOrders
      ensures var node := pool.storage[n];
              && Sits(Snapshot(), id, node.order.side, node.levelIndex, k)
              && Find(RepQueue(Snapshot(), node.order.side), id) == Some(node.order)
              && Find(RepQueue(Snapshot(), Opposite(node.order.side)), id) == None
              && !HasId(RepQueue(Snapshot(), Opposite(node.order.side)), id)
    {
      k := Locate(Snapshot(), id);
      LookupSits(Snapshot(), id, pool.storage[n].order.side, pool.storage[n].levelIndex, k);
    }

    /** `OrderBook::reduce_quantity`: a partial fill keeps the order's place in its queue,
        a full fill removes it. */
    method ReduceQuantity(id: nat, amount: int) returns (r: Result<(), ReduceError>)
      requires Valid()
      modifies repr
      ensures Valid()
      ensures r == match Lookup(old(model), id)
                   case None => Err(ReduceNotFound)
                   case Some(o) => if amount <= 0 || amount > o.remaining then Err(InvalidFillAmount) else Ok(())
      ensures model == if r.Ok? then Reduced(old(model), id, amount) else old(model)
    {
      assert Unfolded(0);
      ghost var before := Model();
      ResidentIds(id);
      if id !in orderIndex {
        FindMeaning(before.bids, id);
        FindMeaning(before.asks, id);
        return Err(ReduceNotFound);
      }
      var n := orderIndex[id];
      ghost var k := LocateResident(id, n);
      var node := pool.storage[n];
      if amount <= 0 || amount > node.order.remaining {
        return Err(InvalidFillAmount);
      }
      FilledAbsent(Queue(before, Opposite(node.order.side)), id, amount);
      ApplyFill(id, node.order.side, node.levelIndex, n, amount, k);
      Seal();
      return Ok(());
    }

    /** `OrderBook::replace`: the order re-queues at the back of its new level under its own
        id.  Past the three checks the re-insertion cannot fail, so the defensive
        pool-exhausted branch is never taken. */
    method Replace(id: nat, price: int, quantity: int, sequence: nat, timestamp: int)
        returns (r: Result<(), ReplaceError>)
      requires Valid()
      modifies repr
      ensures Valid()
      ensures r == (match ReplaceRefusal(old(model), id, price, quantity) case None => Ok(()) case Some(e) => Err(e))
      ensures r.Err? ==> model == old(model)
      ensures r.Ok? ==> && Lookup(old(model), id).Some?
                        && model == Added(Cancelled(old(model), id),
                                            Amended(Lookup(old(model), id).value, price, quantity, sequence, timestamp))
    {
      var existing := FindOrder(id);
      if existing == None {
        return Err(ReplaceNotFound);
      }
      if quantity <= 0 {
        return Err(ReplaceInvalidQuantity);
      }
      if IndexOf(price) == None {
        return Err(ReplaceOutOfRange);
      }
      var updated := Amended(existing.value, price, quantity, sequence, timestamp);
      var cancelled := Cancel(id);
      var added := Add(updated);
      if added.Err? {
        return Err(ReplacePoolExhausted);
      }
      return Ok(());
    }

    /** `OrderBook::find`. */
    method FindOrder(id: nat) returns (found: Option<Order>)
      requires Valid()
      ensures found == Lookup(model, id)
      ensures found.Some? ==> Resting(model, id) && found.value.kind == Limit && found.value.id == id
      ensures found == None ==> !Resting(model, id)
    {
      assert Unfolded(0);
      ResidentIds(id);
      if id !in orderIndex {
        FindMeaning(Model().bids, id);
        FindMeaning(Model().asks, id);
        return None;
      }
      ghost var k := Locate(Snapshot(), id);
      ResidentLimit(Snapshot(), id);
      var node := pool.storage[orderIndex[id]];
      LookupSits(Snapshot(), id, node.order.side, node.levelIndex, k);
      return Some(node.order);
    }

    /** `OrderBook::best_bid` and `best_ask`: the price at the front of the side's list. */
    method BestPrice(side: Side) returns (p: Option<int>)
      requires Valid()
      ensures p == if Queue(model, side) == [] then None else Some(Queue(model, side)[0].price)
    {
      assert Unfolded(0);
      SeenDepth(Snapshot(), side);
      DepthHead(Queue(Model(), side));
      p := LadderOf(side).BestPrice(base);
    }

    /** A ladder level shows exactly the orders at its price. */
    lemma LevelSeen(side: Side, index: nat) returns (os: seq<Order>)
      requires Sound() && index < numLevels
      ensures os == AtPrice(RepQueue(Snapshot(), side), base + index)
      ensures index < LadderOf(side).levels.Length && Shows(LevelsOf(Snapshot(), side)[index], Snapshot().nodes, os)
    {
      os := AtPrice(RepQueue(Snapshot(), side), base + index);
      LevelView(Snapshot(), side, index);
    }

    method ReadLevel(side: Side, index: nat, ghost q: seq<Order>) returns (level: DepthLevel)
      requires index < LadderOf(side).levels.Length
      requires Shows(LevelsOf(Snapshot(), side)[index], Snapshot().nodes, AtPrice(q, base + index))
      ensures level == LevelOf(q, base + index)
    {
      var l := LadderOf(side).levels[index];
      level := DepthLevel(base + index, l.totalQuantity, l.orderCount);
    }

    /** `OrderBook::level_at`: a level's cached totals, or nothing off the ladder. */
    method LevelAt(side: Side, price: int) returns (level: Option<DepthLevel>)
      requires Valid()
      ensures level == if InRange(model, price) then Some(LevelOf(Queue(model, side), price)) else None
    {
      assert Unfolded(0);
      var index := IndexOf(price);
      if index == None {
        return None;
      }
      ghost var os := LevelSeen(side, index.value);
      var l := ReadLevel(side, index.value, RepQueue(Snapshot(), side));
      return Some(l);
    }

    method ReadFront(side: Side, index: nat, ghost os: seq<Order>) returns (front: Option<Order>)
      requires index < LadderOf(side).levels.Length && Shows(LevelsOf(Snapshot(), side)[index], Snapshot().nodes, os)
      ensures front == if os == [] then None else Some(os[0])
    {
      var head := LadderOf(side).levels[index].head;
      if head == NONE {
        return None;
      }
      return Some(pool.storage[head].order);
    }

    /** `OrderBook::front_at`: the oldest order at a price. */
    method FrontAt(side: Side, price: int) returns (front: Option<Order>)
      requires Valid()
      ensures var os := AtPrice(Queue(model, side), price);
              front == if os == [] then None else Some(os[0])
    {
      assert Unfolded(0);
      var index := IndexOf(price);
      if index == None {
        OffLadder(Snapshot(), side, price);
        return None;
      }
      ghost var os := LevelSeen(side, index.value);
      front := ReadFront(side, index.value, os);
    }

    /** `OrderBook::for_each_level`: shows the visitor every occupied level once, in strictly
        worsening price order, until it declines. */
    method ForEachLevel<S>(side: Side, visit: (S, DepthLevel) -> (S, bool), init: S) returns (s: S)
      requires Valid()
      ensures Worsening(side, Depth(Queue(model, side)))
      ensures s == Walk(visit, init, Depth(Queue(model, side)))
    {
      assert Unfolded(0);
      SeenDepth(Snapshot(), side);
      RepSorted(Snapshot(), side);
      DepthWorsening(side, Queue(model, side));
      s := LadderOf(side).ForEachLevel(base, visit, init);
    }
  }

  lemma SideLength(b: Book, id: nat)
    requires Resting(b, id)
    ensures |b.bids| + |b.asks| > 0
  {
  }

  /** A book with no orders satisfies the representation. */
  lemma EmptyRep(r: Rep)
    requires |r.bidFifos| == |r.askFifos| == |r.bidLevels| == |r.askLevels| && |r.nodes| <= NONE
    requires forall i :: 0 <= i < |r.bidFifos| ==> r.bidFifos[i] == [] && r.askFifos[i] == []
    requires forall i :: 0 <= i < |r.bidLevels| ==> r.bidLevels[i] == EMPTY_LEVEL && r.askLevels[i] == EMPTY_LEVEL
    requires r.index == map[]
    ensures RepOk(r) && RepQueue(r, Buy) == [] && RepQueue(r, Sell) == []
  {
    EmptySide(Buy, r.bidLevels, r.bidFifos, r.nodes, r.base);
    EmptySide(Sell, r.askLevels, r.askFifos, r.nodes, r.base);
  }

  lemma EmptySide(side: Side, levels: seq<PriceLevel>, fifos: seq<seq<nat>>, nodes: seq<OrderNode>, base: int)
    requires |fifos| == |levels| && |nodes| <= NONE
    requires forall i :: 0 <= i < |fifos| ==> fifos[i] == [] && levels[i] == EMPTY_LEVEL
    ensures SideOk(side, levels, fifos, nodes, base) && InPool(fifos, nodes)
    ensures SideQueue(side, fifos, nodes) == []
  {
    FlattenEmpty(Ranked(side, LevelOrders(fifos, nodes)));
  }
}
