/** What every client's account comes to, told from the two parties of each trade. */
module Accounts {
  import opened Core
  import opened MatchingSpec
  import opened Risk
  import opened DriverSpec
  import opened DriverLaws

  function Buyer(f: Fill): nat {
    if f.aggressorSide == Buy then f.aggressorClient else f.restingClient
  }

  function Seller(f: Fill): nat {
    if f.aggressorSide == Buy then f.restingClient else f.aggressorClient
  }

  /** What a client bought less what it sold. */
  function NetPosition(fills: seq<Fill>, client: nat): int {
    if fills == [] then 0
    else
      var f := fills[|fills| - 1];
      NetPosition(fills[..|fills| - 1], client)
        + (if Buyer(f) == client then f.quantity else 0) - (if Seller(f) == client then f.quantity else 0)
  }

  /** What it was paid for what it sold less what it paid for what it bought. */
  function NetCash(fills: seq<Fill>, client: nat): int {
    if fills == [] then 0
    else
      var f := fills[|fills| - 1];
      NetCash(fills[..|fills| - 1], client)
        + (if Seller(f) == client then f.price * f.quantity else 0)
        - (if Buyer(f) == client then f.price * f.quantity else 0)
  }

  /** The price of its latest trade. */
  function LatestPrice(fills: seq<Fill>, client: nat): int {
    if fills == [] then 0
    else
      var f := fills[|fills| - 1];
      if Buyer(f) == client || Seller(f) == client then f.price else LatestPrice(fills[..|fills| - 1], client)
  }

  lemma OwnTwo(log: seq<Entry>, x: Entry, y: Entry, client: nat, symbol: nat)
    ensures var before := Own(log, client, symbol);
            var between := if x.client == client && x.symbol == symbol then Booked(before, x) else before;
            Own(log + [x, y], client, symbol) ==
            if y.client == client && y.symbol == symbol then Booked(between, y) else between
  {
    var full := log + [x, y];
    assert full[..|full| - 1] == log + [x];
    assert (log + [x])[..|log|] == log;
  }

  /** One fill books the buyer long and paying, the seller short and paid. */
  lemma FillBooked(before: Exposure, f: Fill, client: nat, symbol: nat)
    ensures var x, y := RestingEntry(f, symbol), AggressorEntry(f, symbol);
            var between := if x.client == client then Booked(before, x) else before;
            var after := if y.client == client then Booked(between, y) else between;
            && x.symbol == y.symbol == symbol
            && after.position == before.position
               + (if Buyer(f) == client then f.quantity else 0) - (if Seller(f) == client then f.quantity else 0)
            && after.cashFlow == before.cashFlow
               + (if Seller(f) == client then f.price * f.quantity else 0)
               - (if Buyer(f) == client then f.price * f.quantity else 0)
            && after.lastMark == if Buyer(f) == client || Seller(f) == client then f.price else before.lastMark
  {
  }

  lemma {:induction false} OwnIsNet(fills: seq<Fill>, client: nat, symbol: nat)
    ensures Own(Entries(fills, symbol), client, symbol) ==
            Exposure(NetPosition(fills, client), NetCash(fills, client), LatestPrice(fills, client))
  {
    if fills != [] {
      var init, f := fills[..|fills| - 1], fills[|fills| - 1];
      OwnIsNet(init, client, symbol);
      OwnTwo(Entries(init, symbol), RestingEntry(f, symbol), AggressorEntry(f, symbol), client, symbol);
      FillBooked(Own(Entries(init, symbol), client, symbol), f, client, symbol);
    }
  }

  /** After every request of every run each client's account is what it bought less what it sold,
      the cash that changed hands for it, and the price of its latest trade. */
  lemma AccountsAreTrades(v: Venue, ws: seq<Wire>, client: nat)
    requires forall k :: 0 <= k < |ws| ==> Wire32(ws[k])
    requires client < ID_SPAN && v.symbol < ID_SPAN
    ensures var d := ProcessAll(FreshDriver(v), ws);
            Held(d.exposures, AccountKey(client, v.symbol)) ==
            Exposure(NetPosition(d.history, client), NetCash(d.history, client), LatestPrice(d.history, client))
  {
    ZeroSum(v, ws, 0, client);
    OwnIsNet(ProcessAll(FreshDriver(v), ws).history, client, v.symbol);
  }
}
