/** What the driver answers to each request, told from the fields of the request, the book and
    the trades it caused. */
module Answers {
  import opened Core
  import opened NaiveBook
  import opened BookInvariant
  import opened MatchingSpec
  import opened MatchingLaws
  import opened Outcomes
  import opened Risk
  import opened Feed
  import opened DriverSpec
  import opened DriverLaws

  /** The last message is a report with these fields: the summed quantity, last price and last
      match id are those of the fills, zero if there are none. */
  predicate ReportedLast(sent: seq<Message>, id: nat, client: nat, symbol: nat, fills: seq<Fill>, leaves: int,
      exec: ExecType, reason: RejectReason)
  {
    sent != [] && sent[|sent| - 1] ==
    if fills == [] then ExecutionReport(id, 0, 0, 0, leaves, client, symbol, exec, reason)
    else
      var last := fills[|fills| - 1];
      ExecutionReport(id, last.matchId, last.price, Taken(fills), leaves, client, symbol, exec, reason)
  }

  lemma ReportedIsLast(d: Driver, id: nat, client: nat, symbol: nat, fills: seq<Fill>, leaves: int, exec: ExecType,
      reason: RejectReason)
    ensures var d' := Reported(d, id, client, symbol, fills, leaves, exec, reason);
            ReportedLast(d'.tape.sent, id, client, symbol, fills, leaves, exec, reason)
  {
  }

  // ---- New orders ---------------------------------------------------------

  /** The order a message asks for, in the driver's next place. */
  function Asked(d: Driver, w: Wire): Order
    requires w.WireNew?
  {
    Order(w.id, w.client, w.symbol, w.side, w.kind, w.tif, w.price, w.quantity, w.quantity, d.nextSequence, w.timestamp)
  }

  lemma AskedIsSequenced(d: Driver, w: Wire)
    requires w.WireNew?
    ensures Sequenced(w, d.nextSequence) == Asked(d, w)
  {
  }

  /** What becomes of it: refused at the gate with all of it open, or what the engine makes of
      it. */
  function Answer(d: Driver, w: Wire): (Engine, Outcome)
    requires w.WireNew?
  {
    var gate := Gate(d.limits, d.killSwitch, d.exposures, Asked(d, w));
    if gate != NoReason then (d.engine, Outcome(gate, [], false, w.quantity)) else Submit(d.engine, Asked(d, w))
  }

  lemma {:induction false} FillsHistory(d: Driver, symbol: nat, fills: seq<Fill>)
    ensures FillsApplied(d, symbol, fills).history == d.history + fills
    ensures FillsApplied(d, symbol, fills).limits == d.limits
    ensures FillsApplied(d, symbol, fills).killSwitch == d.killSwitch
  {
    if fills != [] {
      FillsHistory(d, symbol, fills[..|fills| - 1]);
      assert d.history + fills[..|fills| - 1] + [fills[|fills| - 1]] == d.history + fills;
    }
  }

  /** The request carries exactly this order to the engine, uses up one sequence number, and
      leaves the limits and the switch alone. */
  lemma NewReaches(d: Driver, w: Wire)
    requires w.WireNew?
    ensures var d' := New(d, w);
            var (e, out) := Answer(d, w);
            && d'.engine == e && d'.history == d.history + out.fills
            && d'.nextSequence == d.nextSequence + 1 && d'.limits == d.limits && d'.killSwitch == d.killSwitch
  {
    var o := Asked(d, w);
    AskedIsSequenced(d, w);
    if Gate(d.limits, d.killSwitch, d.exposures, o) == NoReason {
      var (e, out) := Submit(d.engine, o);
      var d1 := d.(engine := e, nextSequence := d.nextSequence + 1);
      FillsHistory(d1, o.symbol, out.fills);
      MatchedForm(d, o, Settled(d1, o, out));
    }
  }

  /** How a new order is reported, from the reason, what is left, whether it traded and whether
      it rests. */
  function NewOrderExec(reason: RejectReason, leaves: int, traded: bool, rests: bool): ExecType {
    if reason != NoReason then ExecRejected
    else if leaves == 0 then ExecFill
    else if traded then ExecPartialFill
    else if rests then ExecNew
    else ExecCancelled
  }

  /** And its one report, sent last. */
  lemma NewReports(d: Driver, w: Wire)
    requires w.WireNew?
    ensures var out := Answer(d, w).1;
            var exec := NewOrderExec(out.reject, out.remainingAfter, out.fills != [], out.rested);
            ReportedLast(New(d, w).tape.sent, w.id, w.client, w.symbol, out.fills, out.remainingAfter, exec, out.reject)
  {
    var o := Asked(d, w);
    AskedIsSequenced(d, w);
    var gate := Gate(d.limits, d.killSwitch, d.exposures, o);
    if gate != NoReason {
      ReportedIsLast(d.(nextSequence := d.nextSequence + 1), w.id, w.client, w.symbol, [], w.quantity, ExecRejected,
        gate);
    } else {
      var (e, out) := Submit(d.engine, o);
      var settled := Settled(d.(engine := e, nextSequence := d.nextSequence + 1), o, out);
      MatchedForm(d, o, settled);
      ReportedIsLast(settled, o.id, o.client, o.symbol, out.fills, out.remainingAfter, NewExec(out), out.reject);
    }
  }

  /** A trade on the order's side, under its id and client, at a price within its limit. */
  predicate CausedBy(f: Fill, w: Wire)
    requires w.WireNew?
  {
    && f.aggressorId == w.id && f.aggressorClient == w.client && f.aggressorSide == w.side && f.quantity > 0
    && (w.kind == Limit ==> WithinLimit(w.side, w.price, f.price))
  }

  lemma NewFills(d: Driver, w: Wire)
    requires BookOk(d.engine.book) && w.WireNew?
    ensures var d' := New(d, w);
            |d.history| <= |d'.history| && forall k :: |d.history| <= k < |d'.history| ==> CausedBy(d'.history[k], w)
  {
    NewReaches(d, w);
    AnswerCaused(d, w);
    SuffixCaused(d.history, Answer(d, w).1.fills, w);
  }

  lemma AnswerCaused(d: Driver, w: Wire)
    requires BookOk(d.engine.book) && w.WireNew?
    ensures var fills := Answer(d, w).1.fills; forall k :: 0 <= k < |fills| ==> CausedBy(fills[k], w)
  {
    var o := Asked(d, w);
    if Gate(d.limits, d.killSwitch, d.exposures, o) == NoReason {
      SubmitCaused(d.engine, o, w);
    }
  }

  lemma SubmitCaused(e: Engine, o: Order, w: Wire)
    requires BookOk(e.book) && w.WireNew? && o.id == w.id && o.client == w.client && o.side == w.side
    requires o.kind == w.kind && o.price == w.price
    ensures var fills := Submit(e, o).1.fills; forall k :: 0 <= k < |fills| ==> CausedBy(fills[k], w)
  {
    SubmitSweeps(e, o);
  }

  lemma SuffixCaused(history: seq<Fill>, fills: seq<Fill>, w: Wire)
    requires w.WireNew? && forall k :: 0 <= k < |fills| ==> CausedBy(fills[k], w)
    ensures forall k :: |history| <= k < |history + fills| ==> CausedBy((history + fills)[k], w)
  {
  }

  lemma NewPrinted(d: Driver, w: Wire)
    requires DriverOk(d) && w.WireNew? && Wire32(w)
    ensures Printed(d.tape.sent, d.history) && Printed(New(d, w).tape.sent, New(d, w).history)
    ensures BookOk(d.engine.book)
  {
    ProcessKeeps(d, w);
  }

  /** Every trade a new order causes is printed on the order's side at a price within its limit,
      and is booked under its id and client. */
  lemma NewTrades(d: Driver, w: Wire)
    requires DriverOk(d) && w.WireNew? && Wire32(w)
    ensures var d' := New(d, w);
            var before, prints := |Prints(d.tape.sent)|, Prints(d'.tape.sent);
            && before == |d.history| <= |d'.history| == |prints|
            && (forall k :: before <= k < |prints| ==>
                  && prints[k].aggressorSide == w.side && prints[k].quantity > 0
                  && (w.kind == Limit ==> WithinLimit(w.side, w.price, prints[k].price)))
            && (forall k :: before <= k < |prints| ==>
                  d'.history[k].aggressorId == w.id && d'.history[k].aggressorClient == w.client)
  {
    NewPrinted(d, w);
    NewFills(d, w);
  }

  lemma SweptIds(fills: seq<Fill>, left: seq<Order>, q: seq<Order>, o: Order, matchId: nat, id: nat)
    requires Swept(fills, left, q, o, matchId) && !HasId(q, id)
    ensures !HasId(left, id)
  {
    var m := |fills|;
    if m > 0 {
      var from := if fills[m - 1].quantity == q[m - 1].remaining then m else m - 1;
      assert forall k :: 0 <= k < |left| ==> left[k].id == q[from + k].id;
    }
  }

  /** An order in one of the queues is what its id looks up. */
  lemma LookupHas(b: Book, side: Side, k: nat)
    requires BookOk(b) && k < |Queue(b, side)|
    ensures Lookup(b, Queue(b, side)[k].id) == Some(Queue(b, side)[k])
  {
    FindAt(Queue(b, side), k);
    if side == Sell {
      FindMeaning(b.bids, b.asks[k].id);
    }
  }

  /** If the request leaves an order under an id that did not rest before, it is the one asked
      for, with part of it open, on its own side of the book. */
  lemma NewRests(d: Driver, w: Wire)
    requires BookOk(d.engine.book) && w.WireNew? && !Resting(d.engine.book, w.id)
    ensures var b := New(d, w).engine.book;
            Resting(b, w.id) ==>
              && Lookup(b, w.id).Some?
              && var o := Lookup(b, w.id).value;
              && o == Order(w.id, w.client, w.symbol, w.side, Limit, Day, w.price, w.quantity, o.remaining,
                            d.nextSequence, w.timestamp)
              && o in Queue(b, w.side) && 0 < o.remaining <= w.quantity
  {
    var o := Asked(d, w);
    var (e, out) := Answer(d, w);
    NewReaches(d, w);
    if Gate(d.limits, d.killSwitch, d.exposures, o) == NoReason {
      EnginePlaces(d.engine, o);
    }
  }

  lemma EnginePlaces(e: Engine, o: Order)
    requires BookOk(e.book) && !Resting(e.book, o.id)
    ensures var (e', out) := Submit(e, o);
            Resting(e'.book, o.id) ==>
              && o.kind == Limit && o.tif == Day && 0 < out.remainingAfter <= o.quantity
              && Lookup(e'.book, o.id) == Some(o.(remaining := out.remainingAfter))
              && o.(remaining := out.remainingAfter) in Queue(e'.book, o.side)
  {
    var (e', out) := Submit(e, o);
    var own, other := Queue(e.book, o.side), Opposite(o.side);
    SubmitRests(e, o);
    SubmitSweeps(e, o);
    SubmitTrades(e, o);
    SubmitKeeps(e, o);
    SweptIds(out.fills, Queue(e'.book, other), Queue(e.book, other), o, e.nextMatchId, o.id);
    if out.rested {
      var rest := o.(remaining := out.remainingAfter);
      var p :| 0 <= p <= |own| && QueuedAt(own, Queue(e'.book, o.side), rest, p);
      assert Queue(e'.book, o.side)[p] == rest;
      LookupHas(e'.book, o.side, p);
      AvailableNonnegative(e.book, o);
    }
  }

  lemma AvailableNonnegative(b: Book, o: Order)
    requires BookOk(b)
    ensures Available(b, o) >= 0
  {
    OkAllOpen(b, Opposite(o.side));
    AvailableCrosses(b, o);
    CrossingNonnegative(Queue(b, Opposite(o.side)), o);
  }

  // ---- Cancels and replaces -----------------------------------------------

  /** A cancel takes exactly that order out of the book and reports it to its owner; for an id
      that does not rest it only reports that to the sender.  Nothing trades either way. */
  lemma CancelAnswers(d: Driver, w: Wire)
    requires BookOk(d.engine.book) && w.WireCancel?
    ensures var d' := CancelAt(d, w);
            var found := Lookup(d.engine.book, w.id);
            && (found.Some? <==> Resting(d.engine.book, w.id))
            && d'.engine == d.engine.(book := if found.Some? then Cancelled(d.engine.book, w.id) else d.engine.book)
            && d' == d.(engine := d'.engine, tape := d'.tape)
            && (if found.Some? then
                  ReportedLast(d'.tape.sent, w.id, found.value.client, found.value.symbol, [], 0, ExecCancelled,
                    NoReason)
                else ReportedLast(d'.tape.sent, w.id, w.client, w.symbol, [], 0, ExecRejected, UnknownOrder))
  {
    FindMeaning(d.engine.book.bids, w.id);
    FindMeaning(d.engine.book.asks, w.id);
  }

  /** A replace of a resting order hands the engine the new terms under the next sequence number;
      of any other id it only reports that to the sender. */
  lemma ReplaceReaches(d: Driver, w: Wire)
    requires BookOk(d.engine.book) && w.WireReplace?
    ensures var d' := ReplaceAt(d, w);
            if !Resting(d.engine.book, w.id) then
              && d' == d.(tape := d'.tape)
              && ReportedLast(d'.tape.sent, w.id, w.client, w.symbol, [], 0, ExecRejected, UnknownOrder)
            else
              var (e, out) := Replace(d.engine, w.id, w.newPrice, w.newQuantity, d.nextSequence, w.timestamp);
              && d'.engine == e && d'.history == d.history + out.fills
              && d'.nextSequence == d.nextSequence + 1 && d'.limits == d.limits && d'.killSwitch == d.killSwitch
  {
    FindMeaning(d.engine.book.bids, w.id);
    FindMeaning(d.engine.book.asks, w.id);
    if Lookup(d.engine.book, w.id).Some? {
      KnownReaches(d, w, Lookup(d.engine.book, w.id).value);
    }
  }

  lemma RefusedTradesNothing(e: Engine, id: nat, price: int, quantity: int, sequence: nat, timestamp: int)
    requires BookOk(e.book)
    ensures var out := Replace(e, id, price, quantity, sequence, timestamp).1;
            out.reject != NoReason ==> out.fills == []
  {
    ReplaceNeverLoses(e, id, price, quantity, sequence, timestamp);
  }

  lemma KnownReaches(d: Driver, w: Wire, o: Order)
    requires BookOk(d.engine.book) && w.WireReplace?
    ensures var d' := ReplaceKnown(d, w, o);
            var (e, out) := Replace(d.engine, w.id, w.newPrice, w.newQuantity, d.nextSequence, w.timestamp);
            && d'.engine == e && d'.history == d.history + out.fills
            && d'.nextSequence == d.nextSequence + 1 && d'.limits == d.limits && d'.killSwitch == d.killSwitch
  {
    var (e, out) := Replace(d.engine, w.id, w.newPrice, w.newQuantity, d.nextSequence, w.timestamp);
    RefusedTradesNothing(d.engine, w.id, w.newPrice, w.newQuantity, d.nextSequence, w.timestamp);
    AnsweredHistory(d.(engine := e, nextSequence := d.nextSequence + 1), w.id, o, w.newPrice, out);
  }

  lemma AnsweredHistory(d: Driver, id: nat, o: Order, newPrice: int, out: Outcome)
    requires out.reject != NoReason ==> out.fills == []
    ensures var d' := Answered(d, id, o, newPrice, out);
            && d'.engine == d.engine && d'.history == d.history + out.fills
            && d'.nextSequence == d.nextSequence && d'.limits == d.limits && d'.killSwitch == d.killSwitch
  {
    FillsHistory(d, o.symbol, out.fills);
  }

  /** How an accepted replace is reported. */
  function ReplaceOrderExec(leaves: int, traded: bool): ExecType {
    if leaves == 0 then ExecFill else if traded then ExecPartialFill else ExecReplaced
  }

  /** And its one report to the owner, sent last. */
  lemma ReplaceReports(d: Driver, w: Wire)
    requires BookOk(d.engine.book) && w.WireReplace? && Resting(d.engine.book, w.id)
    ensures Lookup(d.engine.book, w.id).Some?
    ensures var o := Lookup(d.engine.book, w.id).value;
            var out := Replace(d.engine, w.id, w.newPrice, w.newQuantity, d.nextSequence, w.timestamp).1;
            if out.reject != NoReason then
              ReportedLast(ReplaceAt(d, w).tape.sent, w.id, o.client, o.symbol, [], 0, ExecRejected, out.reject)
            else
              ReportedLast(ReplaceAt(d, w).tape.sent, w.id, o.client, o.symbol, out.fills, out.remainingAfter,
                ReplaceOrderExec(out.remainingAfter, out.fills != []), NoReason)
  {
    FindMeaning(d.engine.book.bids, w.id);
    FindMeaning(d.engine.book.asks, w.id);
    var o := Lookup(d.engine.book, w.id).value;
    var (e, out) := Replace(d.engine, w.id, w.newPrice, w.newQuantity, d.nextSequence, w.timestamp);
    AnsweredReports(d.(engine := e, nextSequence := d.nextSequence + 1), w.id, o, w.newPrice, out);
  }

  lemma AnsweredReports(d: Driver, id: nat, o: Order, newPrice: int, out: Outcome)
    ensures var sent := Answered(d, id, o, newPrice, out).tape.sent;
            if out.reject != NoReason then
              ReportedLast(sent, id, o.client, o.symbol, [], 0, ExecRejected, out.reject)
            else
              ReportedLast(sent, id, o.client, o.symbol, out.fills, out.remainingAfter,
                ReplaceOrderExec(out.remainingAfter, out.fills != []), NoReason)
  {
    if out.reject != NoReason {
      ReportedIsLast(d, id, o.client, o.symbol, [], 0, ExecRejected, out.reject);
    } else {
      ReportedIsLast(Requeued(d, o, newPrice, out), id, o.client, o.symbol, out.fills, out.remainingAfter,
        ReplaceExec(out), NoReason);
    }
  }

  // ---- The operator -------------------------------------------------------

  /** A new venue: an empty ladder, the switch off, no account, nothing sent, and every counter at
      one. */
  lemma FreshStart(v: Venue)
    ensures var d := FreshDriver(v);
            && d.engine.book == Book(v.symbol, v.base, v.numLevels, v.maxOrders, [], [])
            && d.engine.nextMatchId == d.nextSequence == d.tape.next == 1
            && !d.killSwitch && d.limits == v.limits && d.exposures == map[] && d.history == []
            && d.tape.sent == [] && d.tape.scratch == v.scratch
  {
  }

  /** The switch changes nothing but itself, a snapshot nothing but the feed. */
  lemma OperatorAnswers(d: Driver, engaged: bool, symbol: nat, depth: nat)
    ensures Process(d, WireKillSwitch(engaged)) == d.(killSwitch := engaged)
    ensures var d' := Process(d, WireSnapshot(symbol, depth)); d' == d.(tape := d'.tape)
  {
  }

  /** While the switch is engaged a new order only uses up a sequence number and is reported
      back in full. */
  lemma SwitchStops(d: Driver, w: Wire)
    requires d.killSwitch && w.WireNew?
    ensures var d' := New(d, w);
            && d' == d.(nextSequence := d.nextSequence + 1, tape := d'.tape)
            && ReportedLast(d'.tape.sent, w.id, w.client, w.symbol, [], w.quantity, ExecRejected, RiskKillSwitch)
  {
  }
}
