/** A ledger per order id: over any run, everything ever entered under an id is filled,
    still resting, or was withdrawn. */
module Ledger {
  import opened Core
  import opened NaiveBook
  import opened BookInvariant
  import opened MatchingSpec
  import opened MatchingLaws

  function OpenIn(q: seq<Order>, x: nat): int {
    if q == [] then 0 else (if q[0].id == x then q[0].remaining else 0) + OpenIn(q[1..], x)
  }

  /** Open quantity resting under id `x`. */
  function Open(b: Book, x: nat): int {
    OpenIn(b.bids, x) + OpenIn(b.asks, x)
  }

  function FilledResting(fills: seq<Fill>, x: nat): int {
    if fills == [] then 0 else (if fills[0].restingId == x then fills[0].quantity else 0) + FilledResting(fills[1..], x)
  }

  function FilledAggressing(fills: seq<Fill>, x: nat): int {
    if fills == [] then 0
    else (if fills[0].aggressorId == x then fills[0].quantity else 0) + FilledAggressing(fills[1..], x)
  }

  /** Quantity a request brings in under id `x`. */
  function Entered(e: Engine, req: Request, x: nat): int {
    match req
    case NewOrder(o) => if o.id == x then o.quantity else 0
    case CancelOrder(_) => 0
    case ReplaceOrder(id, price, quantity, _, _) =>
      if id == x && ReplaceReject(e, id, price, quantity) == NoReason then quantity else 0
  }

  function OpenUnder(b: Book, id: nat): int {
    match Lookup(b, id) case Some(o) => o.remaining case None => 0
  }

  function Unrested(out: Outcome): int {
    if out.rested then 0 else out.remainingAfter
  }

  /** Quantity a request takes out under id `x` without a trade: cancelled, replaced away,
      refused or dropped. */
  function Withdrawn(e: Engine, req: Request, x: nat): int {
    match req
    case NewOrder(o) => if o.id == x then Unrested(Step(e, req).1) else 0
    case CancelOrder(id) => if id == x then OpenUnder(e.book, x) else 0
    case ReplaceOrder(id, price, quantity, _, _) =>
      if id == x && ReplaceReject(e, id, price, quantity) == NoReason
      then OpenUnder(e.book, x) + Unrested(Step(e, req).1) else 0
  }

  // ---- One request --------------------------------------------------------

  lemma {:induction false} ConsumeLedger(q: seq<Order>, a: Order, id: nat, x: nat)
    ensures var s := Consume(q, a, id);
            && OpenIn(s.left, x) + FilledResting(s.fills, x) == OpenIn(q, x)
            && FilledAggressing(s.fills, x) == if a.id == x then Taken(s.fills) else 0
  {
    if !(a.remaining <= 0 || q == [] || !Crosses(a, q[0].price)) {
      var n := Min(a.remaining, q[0].remaining);
      if n == q[0].remaining {
        ConsumeLedger(q[1..], a.(remaining := a.remaining - n), id + 1, x);
      }
    }
  }

  lemma {:induction false} InsertLedger(q: seq<Order>, o: Order, x: nat)
    ensures OpenIn(Insert(q, o), x) == OpenIn(q, x) + (if o.id == x then o.remaining else 0)
  {
    if !(q == [] || Rank(o.side, o.price) < Rank(o.side, q[0].price)) {
      InsertLedger(q[1..], o, x);
    }
  }

  lemma {:induction false} WithoutLedger(q: seq<Order>, id: nat, x: nat)
    ensures OpenIn(Without(q, id), x) ==
            OpenIn(q, x) - (if x == id && Find(q, id).Some? then Find(q, id).value.remaining else 0)
  {
    if q != [] && q[0].id != id {
      WithoutLedger(q[1..], id, x);
    }
  }

  lemma CancelLedger(b: Book, id: nat, x: nat)
    requires BookOk(b)
    ensures Open(Cancelled(b, id), x) == Open(b, x) - (if x == id then OpenUnder(b, id) else 0)
  {
    WithoutLedger(b.bids, id, x);
    WithoutLedger(b.asks, id, x);
    FindMeaning(b.bids, id);
    FindMeaning(b.asks, id);
  }

  lemma OpenBySide(b: Book, side: Side, x: nat)
    ensures Open(b, x) == OpenIn(Queue(b, side), x) + OpenIn(Queue(b, Opposite(side)), x)
  {
  }

  /** Execution edits each side's list in one way only. */
  lemma ExecuteSides(e: Engine, o: Order)
    ensures var (e', out) := Execute(e, o);
            var s := Consume(Queue(e.book, Opposite(o.side)), o, e.nextMatchId);
            && out.fills == s.fills && out.remainingAfter == s.open
            && Queue(e'.book, Opposite(o.side)) == s.left
            && Queue(e'.book, o.side) ==
               if out.rested then Insert(Queue(e.book, o.side), o.(remaining := s.open)) else Queue(e.book, o.side)
  {
  }

  lemma ExecuteLedger(e: Engine, o: Order, x: nat)
    requires BookOk(e.book)
    ensures var (e', out) := Execute(e, o);
            Open(e'.book, x) + FilledResting(out.fills, x) + FilledAggressing(out.fills, x)
              + (if o.id == x then Unrested(out) else 0)
            == Open(e.book, x) + (if o.id == x then o.remaining else 0)
  {
    var q := Queue(e.book, Opposite(o.side));
    var (e', out) := Execute(e, o);
    ExecuteSides(e, o);
    OpenBySide(e.book, o.side, x);
    OpenBySide(e'.book, o.side, x);
    ConsumeLedger(q, o, e.nextMatchId, x);
    OkAllOpen(e.book, Opposite(o.side));
    ConsumeBalance(q, o, e.nextMatchId);
    InsertLedger(Queue(e.book, o.side), o.(remaining := out.remainingAfter), x);
  }

  lemma SubmitLedger(e: Engine, o: Order, x: nat)
    requires BookOk(e.book)
    ensures var (e', out) := Submit(e, o);
            Open(e'.book, x) + FilledResting(out.fills, x) + FilledAggressing(out.fills, x)
              + (if o.id == x then Unrested(out) else 0)
            == Open(e.book, x) + (if o.id == x then o.quantity else 0)
  {
    ExecuteLedger(e, o.(remaining := o.quantity), x);
  }

  lemma StepLedger(e: Engine, req: Request, x: nat)
    requires BookOk(e.book)
    ensures var (e', out) := Step(e, req);
            Open(e'.book, x) + FilledResting(out.fills, x) + FilledAggressing(out.fills, x) + Withdrawn(e, req, x)
            == Open(e.book, x) + Entered(e, req, x)
  {
    match req
    case NewOrder(o) =>
      SubmitLedger(e, o, x);
    case CancelOrder(id) =>
      CancelLedger(e.book, id, x);
      FindMeaning(e.book.bids, id);
      FindMeaning(e.book.asks, id);
    case ReplaceOrder(id, price, quantity, sequence, timestamp) =>
      if ReplaceReject(e, id, price, quantity) == NoReason {
        CancelLedger(e.book, id, x);
        CancelledBook(e.book, id);
        LookupOk(e.book, id);
        SubmitLedger(Cancel(e, id), Amended(Lookup(e.book, id).value, price, quantity, sequence, timestamp), x);
      }
  }

  // ---- Whole runs ---------------------------------------------------------

  datatype Totals = Totals(entered: int, resting: int, aggressing: int, withdrawn: int)

  function RunTotals(e: Engine, reqs: seq<Request>, x: nat): Totals
    decreases |reqs|
  {
    if reqs == [] then Totals(0, 0, 0, 0)
    else
      var (e', out) := Step(e, reqs[0]);
      var t := RunTotals(e', reqs[1..], x);
      Totals(t.entered + Entered(e, reqs[0], x), t.resting + FilledResting(out.fills, x),
             t.aggressing + FilledAggressing(out.fills, x), t.withdrawn + Withdrawn(e, reqs[0], x))
  }

  lemma {:induction false} RunLedger(e: Engine, reqs: seq<Request>, x: nat)
    requires BookOk(e.book)
    ensures var t := RunTotals(e, reqs, x);
            Open(e.book, x) + t.entered == t.aggressing + t.resting + Open(Run(e, reqs).book, x) + t.withdrawn
    decreases |reqs|
  {
    if reqs != [] {
      StepLedger(e, reqs[0], x);
      StepKeeps(e, reqs[0]);
      RunLedger(Step(e, reqs[0]).0, reqs[1..], x);
    }
  }

  /** Over every run from an empty engine and for every id: what was entered equals what was
      filled as aggressor, plus filled at rest, plus still resting, plus withdrawn. */
  lemma VolumeConserved(symbol: nat, base: int, numLevels: nat, maxOrders: nat, reqs: seq<Request>, x: nat)
    ensures var e := EmptyEngine(symbol, base, numLevels, maxOrders);
            var t := RunTotals(e, reqs, x);
            t.entered == t.aggressing + t.resting + Open(Run(e, reqs).book, x) + t.withdrawn
  {
    RunLedger(EmptyEngine(symbol, base, numLevels, maxOrders), reqs, x);
  }
}
