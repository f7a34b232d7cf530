/** The driver over the imperative engine, risk and feed. */
module Replay {
  import opened Core
  import opened MatchingSpec
  import opened Matching
  import opened Risk
  import opened Feed
  import opened DriverSpec
  import opened DriverLaws
  import Codec
  import Slab

  lemma {:induction false} TakenAppend(fills: seq<Fill>, f: Fill)
    ensures Taken(fills + [f]) == Taken(fills) + f.quantity
  {
    if fills != [] {
      TakenAppend(fills[1..], f);
      assert (fills + [f])[1..] == fills[1..] + [f];
    }
  }

  class ReplayEngine {
    const matching: MatchingEngine
    const risk: RiskEngine
    const feed: Publisher
    var nextSequence: nat
    var fillScratch: seq<Fill>
    ghost var history: seq<Fill>

    ghost predicate Valid()
      reads this, feed, matching, matching.book, matching.book.repr
    {
      && matching.Valid()
      && this !in matching.book.repr && risk !in matching.book.repr
      && feed !in matching.book.repr && matching !in matching.book.repr
      && feed.scratch !in matching.book.repr
    }

    ghost function State(): Driver
      requires Valid()
      reads this, risk, feed, matching, matching.book, matching.book.repr
    {
      Driver(matching.State(), risk.limits, risk.killSwitch, risk.exposures, feed.State(), nextSequence, history)
    }

    constructor (m: MatchingEngine, r: RiskEngine, f: Publisher)
      requires m.Valid() && r !in m.book.repr && f !in m.book.repr && m !in m.book.repr
      requires f.scratch !in m.book.repr
      ensures Valid() && matching == m && risk == r && feed == f
      ensures State() == Driver(m.State(), r.limits, r.killSwitch, r.exposures, f.State(), 1, [])
    {
      matching, risk, feed := m, r, f;
      nextSequence, fillScratch, history := 1, [], [];
    }

    /** `ReplayEngine::publish_level`. */
    method PublishLevel(symbol: nat, side: Side, price: int)
      requires Valid()
      modifies feed`nextSequence, feed`sent
      ensures Valid()
      ensures feed.State() == LevelPublished(old(feed.State()), matching.book.model, symbol, side, price)
    {
      var level := matching.book.LevelAt(side, price);
      if level.Some? {
        feed.PublishLevelUpdate(symbol, side, level.value);
      }
    }

    method RecordBoth(symbol: nat, f: Fill)
      modifies risk`exposures
      ensures risk.exposures ==
              Recorded(Recorded(old(risk.exposures), RestingEntry(f, symbol)), AggressorEntry(f, symbol))
    {
      risk.RecordFill(f.restingClient, symbol, Opposite(f.aggressorSide), f.price, f.quantity);
      risk.RecordFill(f.aggressorClient, symbol, f.aggressorSide, f.price, f.quantity);
    }

    method ApplyFill(symbol: nat, f: Fill)
      requires Valid()
      modifies feed`nextSequence, feed`sent, risk`exposures, this`history
      ensures Valid() && State() == FillApplied(old(State()), symbol, f)
    {
      feed.PublishTrade(symbol, f);
      var restingSide := Opposite(f.aggressorSide);
      RecordBoth(symbol, f);
      PublishLevel(symbol, restingSide, f.price);
      history := history + [f];
    }

    /** `ReplayEngine::apply_fills`. */
    method ApplyFills(symbol: nat, fills: seq<Fill>)
      requires Valid()
      modifies feed`nextSequence, feed`sent, risk`exposures, this`history
      ensures Valid() && State() == FillsApplied(old(State()), symbol, fills)
    {
      for i := 0 to |fills|
        invariant Valid() && State() == FillsApplied(old(State()), symbol, fills[..i])
      {
        assert fills[..i + 1][..i] == fills[..i];
        ApplyFill(symbol, fills[i]);
      }
      assert fills[..|fills|] == fills;
    }

    /** The totals of one report: the sum of the fills and the last fill's price and id. */
    method Summarise(fills: seq<Fill>) returns (total: int, lastPrice: int, lastMatchId: nat)
      ensures total == Taken(fills)
      ensures lastPrice == (if fills == [] then 0 else fills[|fills| - 1].price)
      ensures lastMatchId == (if fills == [] then 0 else fills[|fills| - 1].matchId)
    {
      total, lastPrice, lastMatchId := 0, 0, 0;
      for i := 0 to |fills|
        invariant total == Taken(fills[..i])
        invariant lastPrice == (if i == 0 then 0 else fills[i - 1].price)
        invariant lastMatchId == (if i == 0 then 0 else fills[i - 1].matchId)
      {
        TakenAppend(fills[..i], fills[i]);
        assert fills[..i + 1] == fills[..i] + [fills[i]];
        total := total + fills[i].quantity;
        lastPrice := fills[i].price;
        lastMatchId := fills[i].matchId;
      }
      assert fills[..|fills|] == fills;
    }

    /** `ReplayEngine::publish_report`. */
    method PublishReport(id: nat, client: nat, symbol: nat, fills: seq<Fill>, leaves: int, exec: ExecType,
        reason: RejectReason)
      requires Valid()
      modifies feed`nextSequence, feed`sent
      ensures Valid() && State() == Reported(old(State()), id, client, symbol, fills, leaves, exec, reason)
    {
      var total, lastPrice, lastMatchId := Summarise(fills);
      feed.PublishReport(ExecutionReport(id, lastMatchId, lastPrice, total, leaves, client, symbol, exec, reason));
    }

    /** Publishes the fills of a submission and the level its remainder joined. */
    method Settle(o: Order, out: Outcome)
      requires Valid() && fillScratch == out.fills
      modifies this`history, risk`exposures, feed`nextSequence, feed`sent
      ensures Valid() && State() == Settled(old(State()), o, out)
    {
      ApplyFills(o.symbol, fillScratch);
      if out.rested {
        PublishLevel(o.symbol, o.side, o.price);
      }
    }

    method ExecOf(out: Outcome) returns (exec: ExecType)
      requires fillScratch == out.fills
      ensures exec == NewExec(out)
    {
      if out.reject != NoReason {
        return ExecRejected;
      } else if out.remainingAfter == 0 {
        return ExecFill;
      } else if fillScratch != [] {
        return ExecPartialFill;
      } else if out.rested {
        return ExecNew;
      } else {
        return ExecCancelled;
      }
    }

    /** Publishes the answer to a new order. */
    method Conclude(o: Order, out: Outcome)
      requires Valid() && fillScratch == out.fills
      modifies this`history, risk`exposures, feed`nextSequence, feed`sent
      ensures Valid() && State() == Concluded(old(State()), o, out)
    {
      Settle(o, out);
      var exec := ExecOf(out);
      PublishReport(o.id, o.client, o.symbol, fillScratch, out.remainingAfter, exec, out.reject);
    }

    /** Matches a screened order, sequenced in state `d`, and publishes what it did. */
    method MatchAndPublish(o: Order, ghost d: Driver)
      requires Valid() && State() == d.(nextSequence := d.nextSequence + 1)
      modifies this`fillScratch, this`history, matching, matching.book.repr, risk`exposures, feed`nextSequence,
               feed`sent
      ensures Valid() && State() == Matched(d, o)
    {
      var out := CallSubmit(o, d);
      Conclude(o, out);
    }

    /** Hands a sequenced order to the engine. */
    method CallSubmit(o: Order, ghost d: Driver) returns (out: Outcome)
      requires Valid() && State() == d.(nextSequence := d.nextSequence + 1)
      modifies this`fillScratch, matching, matching.book.repr
      ensures Valid() && fillScratch == out.fills
      ensures out == Submit(d.engine, o).1
      ensures State() == d.(engine := Submit(d.engine, o).0, nextSequence := d.nextSequence + 1)
    {
      out, fillScratch := matching.SubmitOrder(o, []);
    }

    /** `ReplayEngine::process_new_order`. */
    method ProcessNewOrder(w: Wire)
      requires Valid() && w.WireNew?
      modifies this, matching, matching.book.repr, risk`exposures, feed`nextSequence, feed`sent
      ensures Valid() && State() == New(old(State()), w)
    {
      var order := Order(w.id, w.client, w.symbol, w.side, w.kind, w.tif, w.price, w.quantity, w.quantity,
        nextSequence, w.timestamp);
      nextSequence := nextSequence + 1;
      var gate := risk.CheckNewOrder(order);
      if gate != NoReason {
        PublishReport(order.id, order.client, order.symbol, [], order.quantity, ExecRejected, gate);
        return;
      }
      MatchAndPublish(order, old(State()));
    }

    /** `ReplayEngine::process_cancel`. */
    method ProcessCancel(w: Wire)
      requires Valid() && w.WireCancel?
      modifies matching, matching.book.repr, feed`nextSequence, feed`sent
      ensures Valid() && State() == CancelAt(old(State()), w)
    {
      var existing := matching.book.FindOrder(w.id);
      if existing == None {
        PublishReport(w.id, w.client, w.symbol, [], 0, ExecRejected, UnknownOrder);
        return;
      }
      var o := existing.value;
      var accepted := matching.CancelOrder(w.id);
      if accepted {
        PublishLevel(o.symbol, o.side, o.price);
        PublishReport(w.id, o.client, o.symbol, [], 0, ExecCancelled, NoReason);
      }
    }

    /** The publishing half of `process_replace`. */
    method Answer(id: nat, o: Order, newPrice: int, out: Outcome)
      requires Valid() && fillScratch == out.fills
      modifies this`history, risk`exposures, feed`nextSequence, feed`sent
      ensures Valid() && State() == Answered(old(State()), id, o, newPrice, out)
    {
      if out.reject != NoReason {
        PublishReport(id, o.client, o.symbol, [], 0, ExecRejected, out.reject);
        return;
      }
      ApplyFills(o.symbol, fillScratch);
      PublishLevel(o.symbol, o.side, o.price);
      if out.rested {
        PublishLevel(o.symbol, o.side, newPrice);
      }
      var exec :=
        if out.remainingAfter == 0 then ExecFill else if fillScratch != [] then ExecPartialFill else ExecReplaced;
      PublishReport(id, o.client, o.symbol, fillScratch, out.remainingAfter, exec, NoReason);
    }

    /** `ReplayEngine::process_replace`. */
    method ProcessReplace(w: Wire)
      requires Valid() && w.WireReplace?
      modifies this, matching, matching.book.repr, risk`exposures, feed`nextSequence, feed`sent
      ensures Valid() && State() == ReplaceAt(old(State()), w)
    {
      var existing := matching.book.FindOrder(w.id);
      if existing == None {
        PublishReport(w.id, w.client, w.symbol, [], 0, ExecRejected, UnknownOrder);
        return;
      }
      ReplaceAndAnswer(w, existing.value);
    }

    method ReplaceAndAnswer(w: Wire, o: Order)
      requires Valid() && w.WireReplace?
      modifies this, matching, matching.book.repr, risk`exposures, feed`nextSequence, feed`sent
      ensures Valid() && State() == ReplaceKnown(old(State()), w, o)
    {
      var out := CallReplace(w);
      Answer(w.id, o, w.newPrice, out);
    }

    /** Sequences a replace and hands it to the engine. */
    method CallReplace(w: Wire) returns (out: Outcome)
      requires Valid() && w.WireReplace?
      modifies this`nextSequence, this`fillScratch, matching, matching.book.repr
      ensures Valid() && fillScratch == out.fills
      ensures var d := old(State());
              && out == Replace(d.engine, w.id, w.newPrice, w.newQuantity, d.nextSequence, w.timestamp).1
              && State() == d.(
                 engine := Replace(d.engine, w.id, w.newPrice, w.newQuantity, d.nextSequence, w.timestamp).0,
                 nextSequence := d.nextSequence + 1)
    {
      var seqno := nextSequence;
      nextSequence := nextSequence + 1;
      out, fillScratch := matching.ReplaceOrder(w.id, w.newPrice, w.newQuantity, seqno, w.timestamp, []);
    }

    /** One request to the driver, or one of the operator's actions beside it. */
    method ProcessOne(w: Wire)
      requires Valid()
      modifies this, matching, matching.book.repr, risk, feed, feed.scratch
      ensures Valid() && State() == Process(old(State()), w)
      ensures feed.scratch == old(feed.scratch) || fresh(feed.scratch)
    {
      match w {
        case WireNew(_, _, _, _, _, _, _, _, _) =>
          ProcessNewOrder(w);
        case WireCancel(_, _, _) =>
          ProcessCancel(w);
        case WireReplace(_, _, _, _, _, _) =>
          ProcessReplace(w);
        case WireKillSwitch(engaged) =>
          risk.SetKillSwitch(engaged);
        case WireSnapshot(symbol, depth) =>
          feed.PublishSnapshot(symbol % Codec.U32_SPAN, matching.book, depth);
      }
    }
  }

  /** Builds a venue and drives it through any sequence of requests.  The engine ends in the
      state the driver rules give, so every law of their runs holds of the objects: the feed's
      replica is the book, its numbers have no gap, and the accounts balance. */
  method Drive(v: Venue, ws: seq<Wire>) returns (engine: ReplayEngine)
    requires 0 < v.maxOrders <= Slab.NONE && forall k :: 0 <= k < |ws| ==> Wire32(ws[k])
    ensures engine.Valid() && engine.State() == ProcessAll(FreshDriver(v), ws)
    ensures Mirrors(Replayed(engine.feed.sent), engine.matching.book.model) && GapFree(engine.feed.State())
    ensures Balanced(engine.risk.exposures)
  {
    var m := new MatchingEngine(v.symbol, v.base, v.numLevels, v.maxOrders);
    var r := new RiskEngine(v.limits);
    var f := new Publisher(v.scratch);
    engine := new ReplayEngine(m, r, f);
    for i := 0 to |ws|
      invariant engine.Valid() && engine.State() == ProcessAll(FreshDriver(v), ws[..i])
      invariant engine.matching == m && engine.risk == r && engine.feed == f
      invariant fresh(engine) && fresh(m) && fresh(m.book.repr) && fresh(r) && fresh(f) && fresh(f.scratch)
    {
      assert ws[..i + 1][..i] == ws[..i];
      engine.ProcessOne(ws[i]);
    }
    assert ws[..|ws|] == ws;
    RunOk(v, ws);
    FeedReplica(v, ws);
  }
}
