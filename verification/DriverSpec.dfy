/** The driver on values: sequence a request, gate it, match it, account for the fills and
    publish what changed. */
module DriverSpec {
  import opened Core
  import opened NaiveBook
  import opened Depths
  import opened MatchingSpec
  import opened Risk
  import opened Feed
  import Codec

  /** Everything the driver composes.  `history` records every fill ever made. */
  datatype Driver = Driver(
    engine: Engine,
    limits: Limits,
    killSwitch: bool,
    exposures: map<nat, Exposure>,
    tape: Tape,
    nextSequence: nat,
    history: seq<Fill>)

  /** The driver's requests, and the two things an operator does beside it: the kill switch and
      a snapshot of the book on the same feed. */
  datatype Wire =
    | WireNew(id: nat, client: nat, symbol: nat, side: Side, kind: OrderType, tif: TimeInForce,
              price: int, quantity: int, timestamp: int)
    | WireCancel(id: nat, client: nat, symbol: nat)
    | WireReplace(id: nat, client: nat, symbol: nat, newPrice: int, newQuantity: int, timestamp: int)
    | WireKillSwitch(engaged: bool)
    | WireSnapshot(symbol: nat, depth: nat)

  function RestingEntry(f: Fill, symbol: nat): Entry {
    Entry(f.restingClient, symbol, Opposite(f.aggressorSide), f.price, f.quantity)
  }

  function AggressorEntry(f: Fill, symbol: nat): Entry {
    Entry(f.aggressorClient, symbol, f.aggressorSide, f.price, f.quantity)
  }

  /** Publishes the current state of a level, if the price is on the ladder. */
  function LevelPublished(t: Tape, b: Book, symbol: nat, side: Side, price: int): Tape {
    if InRange(b, price) then WithLevel(t, symbol, side, LevelOf(Queue(b, side), price)) else t
  }

  function FillApplied(d: Driver, symbol: nat, f: Fill): Driver {
    d.(tape := LevelPublished(WithTrade(d.tape, symbol, f), d.engine.book, symbol, Opposite(f.aggressorSide), f.price),
       exposures := Recorded(Recorded(d.exposures, RestingEntry(f, symbol)), AggressorEntry(f, symbol)),
       history := d.history + [f])
  }

  /** `ReplayEngine::apply_fills`; accounting and publishing never touch the engine. */
  function FillsApplied(d: Driver, symbol: nat, fills: seq<Fill>): (r: Driver)
    ensures r.engine == d.engine && r.nextSequence == d.nextSequence && r.tape.scratch == d.tape.scratch
  {
    if fills == [] then d
    else FillApplied(FillsApplied(d, symbol, fills[..|fills| - 1]), symbol, fills[|fills| - 1])
  }

  function Reported(d: Driver, id: nat, client: nat, symbol: nat, fills: seq<Fill>, leaves: int,
                    exec: ExecType, reason: RejectReason): Driver
  {
    var last := |fills| - 1;
    d.(tape := WithReport(d.tape, ExecutionReport(
      id,
      if fills == [] then 0 else fills[last].matchId,
      if fills == [] then 0 else fills[last].price,
      Taken(fills), leaves, client, symbol, exec, reason)))
  }

  function Sequenced(w: Wire, sequence: nat): Order
    requires w.WireNew?
  {
    Order(w.id, w.client, w.symbol, w.side, w.kind, w.tif, w.price, w.quantity, w.quantity, sequence, w.timestamp)
  }

  function NewExec(out: Outcome): ExecType {
    if out.reject != NoReason then ExecRejected
    else if out.remainingAfter == 0 then ExecFill
    else if out.fills != [] then ExecPartialFill
    else if out.rested then ExecNew
    else ExecCancelled
  }

  /** Applies a submission's fills, then publishes the level its remainder joined. */
  function Settled(d: Driver, o: Order, out: Outcome): Driver {
    var d' := FillsApplied(d, o.symbol, out.fills);
    if out.rested then d'.(tape := LevelPublished(d'.tape, d.engine.book, o.symbol, o.side, o.price)) else d'
  }

  /** An order that failed the risk gate. */
  function Refused(d: Driver, o: Order, gate: RejectReason): Driver {
    Reported(d.(nextSequence := d.nextSequence + 1), o.id, o.client, o.symbol, [], o.quantity, ExecRejected, gate)
  }

  /** A submission, once the engine has answered. */
  function Concluded(d: Driver, o: Order, out: Outcome): Driver {
    Reported(Settled(d, o, out), o.id, o.client, o.symbol, out.fills, out.remainingAfter, NewExec(out), out.reject)
  }

  /** An order that passed it. */
  function Matched(d: Driver, o: Order): Driver {
    var (e, out) := Submit(d.engine, o);
    Concluded(d.(engine := e, nextSequence := d.nextSequence + 1), o, out)
  }

  lemma MatchedForm(d: Driver, o: Order, settled: Driver)
    requires settled == Settled(d.(engine := Submit(d.engine, o).0, nextSequence := d.nextSequence + 1), o,
             Submit(d.engine, o).1)
    ensures var out := Submit(d.engine, o).1;
            Matched(d, o) == Reported(settled, o.id, o.client, o.symbol, out.fills, out.remainingAfter, NewExec(out),
              out.reject)
  {
  }

  /** `ReplayEngine::process_new_order`. */
  function New(d: Driver, w: Wire): Driver
    requires w.WireNew?
  {
    var o := Sequenced(w, d.nextSequence);
    var gate := Gate(d.limits, d.killSwitch, d.exposures, o);
    if gate != NoReason then Refused(d, o, gate) else Matched(d, o)
  }

  /** `ReplayEngine::process_cancel`. */
  function CancelAt(d: Driver, w: Wire): Driver
    requires w.WireCancel?
  {
    match Lookup(d.engine.book, w.id)
    case None => Reported(d, w.id, w.client, w.symbol, [], 0, ExecRejected, UnknownOrder)
    case Some(o) =>
      var e := Cancel(d.engine, w.id);
      var d1 := d.(engine := e, tape := LevelPublished(d.tape, e.book, o.symbol, o.side, o.price));
      Reported(d1, w.id, o.client, o.symbol, [], 0, ExecCancelled, NoReason)
  }

  function ReplaceExec(out: Outcome): ExecType {
    if out.remainingAfter == 0 then ExecFill
    else if out.fills != [] then ExecPartialFill
    else ExecReplaced
  }

  /** Applies a replace's fills, then publishes the vacated level and the one joined. */
  function Requeued(d: Driver, o: Order, newPrice: int, out: Outcome): Driver {
    var d1 := FillsApplied(d, o.symbol, out.fills);
    var d2 := d1.(tape := LevelPublished(d1.tape, d.engine.book, o.symbol, o.side, o.price));
    if out.rested then d2.(tape := LevelPublished(d2.tape, d.engine.book, o.symbol, o.side, newPrice)) else d2
  }

  /** A replace of a resting order, once the engine has answered. */
  function Answered(d: Driver, id: nat, o: Order, newPrice: int, out: Outcome): Driver {
    if out.reject != NoReason then Reported(d, id, o.client, o.symbol, [], 0, ExecRejected, out.reject)
    else Reported(Requeued(d, o, newPrice, out), id, o.client, o.symbol, out.fills, out.remainingAfter,
      ReplaceExec(out), NoReason)
  }

  /** The engine replaces a resting order `o` and the driver answers. */
  function ReplaceKnown(d: Driver, w: Wire, o: Order): Driver
    requires w.WireReplace?
  {
    var (e, out) := Replace(d.engine, w.id, w.newPrice, w.newQuantity, d.nextSequence, w.timestamp);
    Answered(d.(engine := e, nextSequence := d.nextSequence + 1), w.id, o, w.newPrice, out)
  }

  lemma KnownForm(d: Driver, w: Wire, o: Order) returns (d1: Driver, out: Outcome)
    requires w.WireReplace?
    ensures d1.tape == d.tape && ReplaceKnown(d, w, o) == Answered(d1, w.id, o, w.newPrice, out)
  {
    var (e, outcome) := Replace(d.engine, w.id, w.newPrice, w.newQuantity, d.nextSequence, w.timestamp);
    d1, out := d.(engine := e, nextSequence := d.nextSequence + 1), outcome;
  }

  /** `ReplayEngine::process_replace`. */
  function ReplaceAt(d: Driver, w: Wire): Driver
    requires w.WireReplace?
  {
    match Lookup(d.engine.book, w.id)
    case None => Reported(d, w.id, w.client, w.symbol, [], 0, ExecRejected, UnknownOrder)
    case Some(o) => ReplaceKnown(d, w, o)
  }

  function Process(d: Driver, w: Wire): Driver {
    match w
    case WireNew(_, _, _, _, _, _, _, _, _) => New(d, w)
    case WireCancel(_, _, _) => CancelAt(d, w)
    case WireReplace(_, _, _, _, _, _) => ReplaceAt(d, w)
    case WireKillSwitch(engaged) => d.(killSwitch := engaged)
    case WireSnapshot(symbol, depth) =>
      d.(tape := WithSnapshot(d.tape, symbol % Codec.U32_SPAN, d.engine.book, depth))
  }

  function ProcessAll(d: Driver, ws: seq<Wire>): Driver {
    if ws == [] then d else Process(ProcessAll(d, ws[..|ws| - 1]), ws[|ws| - 1])
  }

  /** How a venue is set up: one symbol's ladder and capacity, the limits and the feed's
      scratch size. */
  datatype Venue = Venue(symbol: nat, base: int, numLevels: nat, maxOrders: nat, limits: Limits, scratch: nat)

  function FreshDriver(v: Venue): Driver {
    Driver(EmptyEngine(v.symbol, v.base, v.numLevels, v.maxOrders), v.limits, false, map[], BlankTape(v.scratch), 1, [])
  }
}
