/** What one request puts on the feed: market data of the venue's symbol, then one report. */
module Transcripts {
  import opened Core
  import opened NaiveBook
  import opened BookInvariant
  import opened MatchingSpec
  import opened MatchingLaws
  import opened Outcomes
  import opened Risk
  import opened Feed
  import opened DriverSpec

  predicate MarketData(m: Message, symbol: nat) {
    (m.Trade? || m.BookDelta?) && m.symbol == symbol
  }

  /** Only market data of this symbol was added. */
  predicate MarketOnly(sent: seq<Message>, sent': seq<Message>, symbol: nat) {
    sent <= sent' && forall k :: |sent| <= k < |sent'| ==> MarketData(sent'[k], symbol)
  }

  /** Market data of this symbol was added, and then one report. */
  predicate OneReportLast(sent: seq<Message>, sent': seq<Message>, symbol: nat) {
    && |sent| < |sent'| && MarketOnly(sent, sent'[..|sent'| - 1], symbol)
    && sent'[|sent'| - 1].ExecutionReport?
  }

  lemma MarketThen(a: seq<Message>, b: seq<Message>, c: seq<Message>, symbol: nat)
    requires MarketOnly(a, b, symbol) && MarketOnly(b, c, symbol)
    ensures MarketOnly(a, c, symbol)
  {
  }

  lemma LevelMarket(t: Tape, b: Book, symbol: nat, side: Side, price: int)
    ensures MarketOnly(t.sent, LevelPublished(t, b, symbol, side, price).sent, symbol)
  {
  }

  lemma FillMarket(d: Driver, symbol: nat, f: Fill)
    ensures MarketOnly(d.tape.sent, FillApplied(d, symbol, f).tape.sent, symbol)
  {
    var t := WithTrade(d.tape, symbol, f);
    LevelMarket(t, d.engine.book, symbol, Opposite(f.aggressorSide), f.price);
  }

  lemma {:induction false} FillsMarket(d: Driver, symbol: nat, fills: seq<Fill>)
    ensures MarketOnly(d.tape.sent, FillsApplied(d, symbol, fills).tape.sent, symbol)
  {
    if fills != [] {
      var d1 := FillsApplied(d, symbol, fills[..|fills| - 1]);
      FillsMarket(d, symbol, fills[..|fills| - 1]);
      FillMarket(d1, symbol, fills[|fills| - 1]);
      MarketThen(d.tape.sent, d1.tape.sent, FillsApplied(d, symbol, fills).tape.sent, symbol);
    }
  }

  lemma SettledMarket(d: Driver, o: Order, out: Outcome)
    ensures MarketOnly(d.tape.sent, Settled(d, o, out).tape.sent, o.symbol)
  {
    var d1 := FillsApplied(d, o.symbol, out.fills);
    FillsMarket(d, o.symbol, out.fills);
    LevelMarket(d1.tape, d.engine.book, o.symbol, o.side, o.price);
    MarketThen(d.tape.sent, d1.tape.sent, Settled(d, o, out).tape.sent, o.symbol);
  }

  lemma RequeuedMarket(d: Driver, o: Order, newPrice: int, out: Outcome)
    ensures MarketOnly(d.tape.sent, Requeued(d, o, newPrice, out).tape.sent, o.symbol)
  {
    var d1 := FillsApplied(d, o.symbol, out.fills);
    var d2 := d1.(tape := LevelPublished(d1.tape, d.engine.book, o.symbol, o.side, o.price));
    FillsMarket(d, o.symbol, out.fills);
    LevelMarket(d1.tape, d.engine.book, o.symbol, o.side, o.price);
    MarketThen(d.tape.sent, d1.tape.sent, d2.tape.sent, o.symbol);
    LevelMarket(d2.tape, d.engine.book, o.symbol, o.side, newPrice);
    MarketThen(d.tape.sent, d2.tape.sent, Requeued(d, o, newPrice, out).tape.sent, o.symbol);
  }

  lemma ReportAfter(sent: seq<Message>, d: Driver, id: nat, client: nat, symbol: nat, fills: seq<Fill>, leaves: int,
      exec: ExecType, reason: RejectReason, venue: nat)
    requires MarketOnly(sent, d.tape.sent, venue)
    ensures OneReportLast(sent, Reported(d, id, client, symbol, fills, leaves, exec, reason).tape.sent, venue)
  {
    var sent' := Reported(d, id, client, symbol, fills, leaves, exec, reason).tape.sent;
    assert sent'[..|sent'| - 1] == d.tape.sent;
  }

  /** An order for another symbol adds no market data. */
  lemma StrangerSettles(d: Driver, o: Order, out: Outcome)
    requires out.fills == [] && !out.rested
    ensures Settled(d, o, out) == d
  {
  }

  lemma NewTranscript(d: Driver, w: Wire)
    requires BookOk(d.engine.book) && w.WireNew?
    ensures OneReportLast(d.tape.sent, New(d, w).tape.sent, d.engine.book.symbol)
  {
    var o := Sequenced(w, d.nextSequence);
    var gate := Gate(d.limits, d.killSwitch, d.exposures, o);
    var venue := d.engine.book.symbol;
    if gate != NoReason {
      ReportAfter(d.tape.sent, d.(nextSequence := d.nextSequence + 1), o.id, o.client, o.symbol, [], o.quantity,
        ExecRejected, gate, venue);
    } else {
      var (e, out) := Submit(d.engine, o);
      var d1 := d.(engine := e, nextSequence := d.nextSequence + 1);
      SubmitTrades(d.engine, o);
      if o.symbol == venue {
        SettledMarket(d1, o, out);
      } else {
        StrangerSettles(d1, o, out);
      }
      MatchedForm(d, o, Settled(d1, o, out));
      ReportAfter(d.tape.sent, Settled(d1, o, out), o.id, o.client, o.symbol, out.fills, out.remainingAfter,
        NewExec(out), out.reject, venue);
    }
  }

  lemma CancelTranscript(d: Driver, w: Wire)
    requires BookOk(d.engine.book) && w.WireCancel?
    ensures OneReportLast(d.tape.sent, CancelAt(d, w).tape.sent, d.engine.book.symbol)
  {
    var venue := d.engine.book.symbol;
    match Lookup(d.engine.book, w.id)
    case None =>
      ReportAfter(d.tape.sent, d, w.id, w.client, w.symbol, [], 0, ExecRejected, UnknownOrder, venue);
    case Some(o) =>
      var e := Cancel(d.engine, w.id);
      LookupOk(d.engine.book, w.id);
      LevelMarket(d.tape, e.book, o.symbol, o.side, o.price);
      var d1 := d.(engine := e, tape := LevelPublished(d.tape, e.book, o.symbol, o.side, o.price));
      ReportAfter(d.tape.sent, d1, w.id, o.client, o.symbol, [], 0, ExecCancelled, NoReason, venue);
  }

  lemma AnsweredTranscript(d: Driver, id: nat, o: Order, newPrice: int, out: Outcome)
    ensures OneReportLast(d.tape.sent, Answered(d, id, o, newPrice, out).tape.sent, o.symbol)
  {
    if out.reject != NoReason {
      ReportAfter(d.tape.sent, d, id, o.client, o.symbol, [], 0, ExecRejected, out.reject, o.symbol);
    } else {
      RequeuedMarket(d, o, newPrice, out);
      ReportAfter(d.tape.sent, Requeued(d, o, newPrice, out), id, o.client, o.symbol, out.fills, out.remainingAfter,
        ReplaceExec(out), NoReason, o.symbol);
    }
  }

  lemma ReplaceTranscript(d: Driver, w: Wire)
    requires BookOk(d.engine.book) && w.WireReplace?
    ensures OneReportLast(d.tape.sent, ReplaceAt(d, w).tape.sent, d.engine.book.symbol)
  {
    match Lookup(d.engine.book, w.id)
    case None =>
      ReportAfter(d.tape.sent, d, w.id, w.client, w.symbol, [], 0, ExecRejected, UnknownOrder, d.engine.book.symbol);
    case Some(o) =>
      LookupOk(d.engine.book, w.id);
      KnownTranscript(d, w, o);
  }

  lemma KnownTranscript(d: Driver, w: Wire, o: Order)
    requires w.WireReplace?
    ensures OneReportLast(d.tape.sent, ReplaceKnown(d, w, o).tape.sent, o.symbol)
  {
    var d1, out := KnownForm(d, w, o);
    AnsweredTranscript(d1, w.id, o, w.newPrice, out);
  }

  /** Every request of a client adds market data of the venue's symbol and then exactly one
      report; the operator's switch adds nothing. */
  lemma OneReportEach(d: Driver, w: Wire)
    requires BookOk(d.engine.book) && !w.WireSnapshot?
    ensures if w.WireKillSwitch? then Process(d, w).tape == d.tape
            else OneReportLast(d.tape.sent, Process(d, w).tape.sent, d.engine.book.symbol)
  {
    match w
    case WireNew(_, _, _, _, _, _, _, _, _) => NewTranscript(d, w);
    case WireCancel(_, _, _) => CancelTranscript(d, w);
    case WireReplace(_, _, _, _, _, _) => ReplaceTranscript(d, w);
    case WireKillSwitch(_) =>
  }
}
