/** Pre-trade risk and post-trade exposure accounting. */
module Risk {
  import opened Core
  import opened Bits

  datatype Limits = Limits(maxOrderSize: int, maxPosition: int, maxLoss: int)

  datatype Exposure = Exposure(position: int, cashFlow: int, lastMark: int)

  const FLAT := Exposure(0, 0, 0)

  function Pnl(x: Exposure): int {
    x.cashFlow + x.position * x.lastMark
  }

  /** Number of values of a `std::uint32_t`. */
  const ID_SPAN := 0x1_0000_0000

  /** `RiskEngine::account_key`. */
  function AccountKey(client: nat, symbol: nat): nat {
    var half := 32;
    Or(ShiftLeft(client, half), symbol)
  }

  function Signed(side: Side, n: int): int {
    if side == Buy then n else -n
  }

  /** One party's side of a fill. */
  datatype Entry = Entry(client: nat, symbol: nat, side: Side, price: int, quantity: int)

  function Booked(x: Exposure, e: Entry): Exposure {
    Exposure(x.position + Signed(e.side, e.quantity), x.cashFlow - Signed(e.side, e.price * e.quantity), e.price)
  }

  function Held(m: map<nat, Exposure>, key: nat): Exposure {
    if key in m then m[key] else FLAT
  }

  function Recorded(m: map<nat, Exposure>, e: Entry): map<nat, Exposure> {
    var key := AccountKey(e.client, e.symbol);
    m[key := Booked(Held(m, key), e)]
  }

  function RecordedAll(m: map<nat, Exposure>, log: seq<Entry>): map<nat, Exposure> {
    if log == [] then m else Recorded(RecordedAll(m, log[..|log| - 1]), log[|log| - 1])
  }

  /** The reason to refuse, in the order the checks are made. */
  function Gate(limits: Limits, killSwitch: bool, m: map<nat, Exposure>, o: Order): RejectReason {
    var x := Held(m, AccountKey(o.client, o.symbol));
    if killSwitch then RiskKillSwitch
    else if o.quantity > limits.maxOrderSize then RiskMaxOrderSize
    else if !(-limits.maxPosition <= x.position + Signed(o.side, o.quantity) <= limits.maxPosition) then RiskMaxPosition
    else if AccountKey(o.client, o.symbol) in m && Pnl(x) < limits.maxLoss then RiskMaxLoss
    else NoReason
  }

  /** Each reason, from the limits and the account as they stand; the first that applies is
      given, and none means that all the checks are met. */
  lemma GateReasons(limits: Limits, killSwitch: bool, m: map<nat, Exposure>, o: Order)
    ensures var reason := Gate(limits, killSwitch, m, o);
            var key := AccountKey(o.client, o.symbol);
            var held := if key in m then m[key].position else 0;
            var after := if o.side == Buy then held + o.quantity else held - o.quantity;
            var small := o.quantity <= limits.maxOrderSize;
            var within := -limits.maxPosition <= after <= limits.maxPosition;
            var losing := key in m && m[key].cashFlow + m[key].position * m[key].lastMark < limits.maxLoss;
            && (reason == RiskKillSwitch <==> killSwitch)
            && (reason == RiskMaxOrderSize <==> !killSwitch && !small)
            && (reason == RiskMaxPosition <==> !killSwitch && small && !within)
            && (reason == RiskMaxLoss <==> !killSwitch && small && within && losing)
            && (reason == NoReason <==> !killSwitch && small && within && !losing)
  {
  }

  class RiskEngine {
    const limits: Limits
    var killSwitch: bool
    var exposures: map<nat, Exposure>

    constructor (limits: Limits)
      ensures this.limits == limits && !killSwitch && exposures == map[]
    {
      this.limits, killSwitch, exposures := limits, false, map[];
    }

    /** `RiskEngine::check_new_order`. */
    method CheckNewOrder(o: Order) returns (reason: RejectReason)
      ensures reason == Gate(limits, killSwitch, exposures, o)
      ensures reason == NoReason ==>
                var held := Held(exposures, AccountKey(o.client, o.symbol)).position;
                !killSwitch && -limits.maxPosition <= held + Signed(o.side, o.quantity) <= limits.maxPosition
    {
      if killSwitch {
        return RiskKillSwitch;
      }
      if o.quantity > limits.maxOrderSize {
        return RiskMaxOrderSize;
      }
      var key := AccountKey(o.client, o.symbol);
      var current := if key in exposures then exposures[key].position else 0;
      var prospective := current + (if o.side == Buy then o.quantity else -o.quantity);
      if prospective > limits.maxPosition || prospective < -limits.maxPosition {
        return RiskMaxPosition;
      }
      if key in exposures && Pnl(exposures[key]) < limits.maxLoss {
        return RiskMaxLoss;
      }
      return NoReason;
    }

    /** `RiskEngine::record_fill`. */
    method RecordFill(client: nat, symbol: nat, side: Side, price: int, quantity: int)
      modifies this`exposures
      ensures exposures == Recorded(old(exposures), Entry(client, symbol, side, price, quantity))
    {
      var key := AccountKey(client, symbol);
      var x := if key in exposures then exposures[key] else FLAT;
      var signedQty := if side == Buy then quantity else -quantity;
      var proceeds := price * quantity;
      var cash := if side == Sell then proceeds else -proceeds;
      exposures := exposures[key := Exposure(x.position + signedQty, x.cashFlow + cash, price)];
    }

    method SetKillSwitch(engaged: bool)
      modifies this`killSwitch
      ensures killSwitch == engaged
    {
      killSwitch := engaged;
    }
  }

  // ---- Account keys never collide -----------------------------------------

  lemma {:induction false} OrDisjoint(x: nat, n: nat, y: nat)
    requires y < Pow2(n)
    ensures Or(x * Pow2(n), y) == x * Pow2(n) + y
    decreases n
  {
    if n > 0 && x > 0 && y > 0 {
      var p := Pow2(n - 1);
      assert x * Pow2(n) == 2 * (x * p);
      OrDisjoint(x, n - 1, y / 2);
      assert x * p > 0;
    }
  }

  lemma KeyForm(client: nat, symbol: nat)
    requires client < ID_SPAN && symbol < ID_SPAN
    ensures AccountKey(client, symbol) == client * ID_SPAN + symbol
  {
    var n := 32;
    Pow2At32(n);
    WordSpan();
    assert client * ID_SPAN < ID_SPAN * ID_SPAN == WORD_SPAN;
    OrDisjoint(client, n, symbol);
  }

  lemma Pow2At32(n: nat)
    requires n == 32
    ensures Pow2(n) == ID_SPAN
  {
    assert Pow2(8) == 256;
    Pow2Add(8, 8);
    Pow2Add(16, 16);
  }

  /** Two accounts with 32-bit ids share a key only if they are the same account. */
  lemma KeysDistinct(client: nat, symbol: nat, client': nat, symbol': nat)
    requires client < ID_SPAN && symbol < ID_SPAN && client' < ID_SPAN && symbol' < ID_SPAN
    requires AccountKey(client, symbol) == AccountKey(client', symbol')
    ensures client == client' && symbol == symbol'
  {
    KeyForm(client, symbol);
    KeyForm(client', symbol');
  }

  predicate OnWire(log: seq<Entry>) {
    forall k :: 0 <= k < |log| ==> log[k].client < ID_SPAN && log[k].symbol < ID_SPAN
  }

  /** An account's exposure folded from its own entries alone. */
  function Own(log: seq<Entry>, client: nat, symbol: nat): Exposure {
    if log == [] then FLAT
    else
      var rest, e := Own(log[..|log| - 1], client, symbol), log[|log| - 1];
      if e.client == client && e.symbol == symbol then Booked(rest, e) else rest
  }

  /** Every exposure is exactly the fold of that account's own fills. */
  lemma {:induction false} ExposureIsOwn(log: seq<Entry>, client: nat, symbol: nat)
    requires OnWire(log) && client < ID_SPAN && symbol < ID_SPAN
    ensures Held(RecordedAll(map[], log), AccountKey(client, symbol)) == Own(log, client, symbol)
  {
    if log != [] {
      var rest, e := log[..|log| - 1], log[|log| - 1];
      ExposureIsOwn(rest, client, symbol);
      if AccountKey(client, symbol) == AccountKey(e.client, e.symbol) {
        KeysDistinct(client, symbol, e.client, e.symbol);
      }
    }
  }

  // ---- Totals over all accounts -------------------------------------------

  ghost function Total(m: map<nat, Exposure>, f: Exposure -> int): int {
    if m == map[] then 0
    else
      var k :| k in m;
      f(m[k]) + Total(m - {k}, f)
  }

  /** The total does not depend on the order in which accounts are visited. */
  lemma {:induction false} TotalSplit(m: map<nat, Exposure>, f: Exposure -> int, k: nat)
    requires k in m
    ensures Total(m, f) == f(m[k]) + Total(m - {k}, f)
    decreases |m|
  {
    var j :| j in m && Total(m, f) == f(m[j]) + Total(m - {j}, f);
    if j != k {
      TotalSplit(m - {j}, f, k);
      TotalSplit(m - {k}, f, j);
      assert m - {j} - {k} == m - {k} - {j};
    }
  }

  lemma TotalUpdate(m: map<nat, Exposure>, f: Exposure -> int, k: nat, x: Exposure)
    requires f(FLAT) == 0
    ensures Total(m[k := x], f) == Total(m, f) - f(Held(m, k)) + f(x)
  {
    TotalSplit(m[k := x], f, k);
    if k in m {
      TotalSplit(m, f, k);
      assert m[k := x] - {k} == m - {k};
    } else {
      assert m[k := x] - {k} == m;
    }
  }

  function Position(): Exposure -> int {
    (x: Exposure) => x.position
  }

  function CashFlow(): Exposure -> int {
    (x: Exposure) => x.cashFlow
  }

  /** Worth of an account if everybody were marked at `p`. */
  function WorthAt(p: int): Exposure -> int {
    (x: Exposure) => x.cashFlow + x.position * p
  }

  lemma Distribute(a: int, b: int, p: int)
    ensures (a + b) * p == a * p + b * p
  {
  }

  /** The total of a sum is the sum of the totals. */
  lemma {:induction false} TotalAdds(m: map<nat, Exposure>, f: Exposure -> int, g: Exposure -> int, h: Exposure -> int)
    requires forall x :: f(x) == g(x) + h(x)
    ensures Total(m, f) == Total(m, g) + Total(m, h)
    decreases |m|
  {
    if m != map[] {
      var k :| k in m;
      TotalSplit(m, f, k);
      TotalSplit(m, g, k);
      TotalSplit(m, h, k);
      TotalAdds(m - {k}, f, g, h);
    }
  }

  function PositionAt(p: int): Exposure -> int {
    (x: Exposure) => x.position * p
  }

  lemma {:induction false} TotalScales(m: map<nat, Exposure>, p: int)
    ensures Total(m, PositionAt(p)) == Total(m, Position()) * p
    decreases |m|
  {
    if m != map[] {
      var k :| k in m;
      TotalSplit(m, PositionAt(p), k);
      TotalSplit(m, Position(), k);
      TotalScales(m - {k}, p);
      Distribute(m[k].position, Total(m - {k}, Position()), p);
    }
  }

  lemma TotalLinear(m: map<nat, Exposure>, p: int)
    ensures Total(m, WorthAt(p)) == Total(m, CashFlow()) + Total(m, Position()) * p
  {
    TotalAdds(m, WorthAt(p), CashFlow(), PositionAt(p));
    TotalScales(m, p);
  }

  /** Booking one entry moves the totals by that entry. */
  lemma RecordedTotals(m: map<nat, Exposure>, e: Entry)
    ensures Total(Recorded(m, e), Position()) == Total(m, Position()) + Signed(e.side, e.quantity)
    ensures Total(Recorded(m, e), CashFlow()) == Total(m, CashFlow()) - Signed(e.side, e.price * e.quantity)
  {
    var key := AccountKey(e.client, e.symbol);
    TotalUpdate(m, Position(), key, Booked(Held(m, key), e));
    TotalUpdate(m, CashFlow(), key, Booked(Held(m, key), e));
  }

  /** The two sides of one fill cancel, even when one account is on both. */
  lemma FillCancels(m: map<nat, Exposure>, e: Entry, other: Entry)
    requires other.side == Opposite(e.side) && other.price == e.price && other.quantity == e.quantity
    ensures Total(Recorded(Recorded(m, e), other), Position()) == Total(m, Position())
    ensures Total(Recorded(Recorded(m, e), other), CashFlow()) == Total(m, CashFlow())
  {
    RecordedTotals(m, e);
    RecordedTotals(Recorded(m, e), other);
  }

  // ---- Marking every account at its own last fill -------------------------

  function OwnPnl(): Exposure -> int {
    (x: Exposure) => Pnl(x)
  }

  /** What an account's own mark adds over the common mark `p`. */
  function Drift(p: int): Exposure -> int {
    (x: Exposure) => x.position * (x.lastMark - p)
  }

  lemma DriftAt(x: Exposure, p: int)
    ensures Pnl(x) == WorthAt(p)(x) + Drift(p)(x)
  {
    assert x.position * x.lastMark == x.position * p + x.position * (x.lastMark - p);
  }

  lemma TotalPnl(m: map<nat, Exposure>, p: int)
    ensures Total(m, OwnPnl()) == Total(m, WorthAt(p)) + Total(m, Drift(p))
  {
    forall x
      ensures OwnPnl()(x) == WorthAt(p)(x) + Drift(p)(x)
    {
      DriftAt(x, p);
    }
    TotalAdds(m, OwnPnl(), WorthAt(p), Drift(p));
  }

  /** Where cash and positions balance, summed PnL at own marks is exactly the summed drift
      of the marks from any one price; it vanishes if and only if those drifts cancel. */
  lemma SummedPnl(m: map<nat, Exposure>, p: int)
    requires Total(m, Position()) == 0 && Total(m, CashFlow()) == 0
    ensures Total(m, WorthAt(p)) == 0
    ensures Total(m, OwnPnl()) == Total(m, Drift(p))
  {
    TotalLinear(m, p);
    TotalPnl(m, p);
  }

  /** In particular it vanishes whenever all open accounts were last marked at one price. */
  lemma CommonMark(m: map<nat, Exposure>, p: int)
    requires Total(m, Position()) == 0 && Total(m, CashFlow()) == 0
    requires forall k :: k in m ==> m[k].position == 0 || m[k].lastMark == p
    ensures Total(m, OwnPnl()) == 0
  {
    SummedPnl(m, p);
    NoSummedDrift(m, p);
  }

  lemma {:induction false} NoSummedDrift(m: map<nat, Exposure>, p: int)
    requires forall k :: k in m ==> m[k].position == 0 || m[k].lastMark == p
    ensures Total(m, Drift(p)) == 0
    decreases |m|
  {
    if m != map[] {
      var k :| k in m;
      TotalSplit(m, Drift(p), k);
      NoSummedDrift(m - {k}, p);
      NoDrift(m[k], p);
    }
  }

  lemma NoDrift(x: Exposure, p: int)
    requires x.position == 0 || x.lastMark == p
    ensures Drift(p)(x) == 0
  {
  }

  // ---- Summed PnL, fill by fill -------------------------------------------

  /** What re-marking a holding at `price` gains. */
  function Gain(x: Exposure, price: int): int {
    x.position * (price - x.lastMark)
  }

  /** An entry at the new mark is worth nothing by itself: PnL moves by the re-marking of what
      was already held. */
  lemma BookedPnl(x: Exposure, e: Entry)
    ensures Pnl(Booked(x, e)) == Pnl(x) + Gain(x, e.price)
  {
    var n := Signed(e.side, e.quantity);
    Distribute(x.position, n, e.price);
    assert Signed(e.side, e.price * e.quantity) == n * e.price;
    assert x.position * e.price == x.position * x.lastMark + Gain(x, e.price);
  }

  /** What a fill between two parties re-marks: both holdings, or one if it is a self-trade. */
  function Remarking(m: map<nat, Exposure>, e: Entry, other: Entry): int {
    var key, key' := AccountKey(e.client, e.symbol), AccountKey(other.client, other.symbol);
    Gain(Held(m, key), e.price) + (if key == key' then 0 else Gain(Held(m, key'), other.price))
  }

  /** A fill leaves summed PnL unchanged if and only if the parties' re-marking gains cancel. */
  lemma FillRemarks(m: map<nat, Exposure>, e: Entry, other: Entry)
    requires other.price == e.price
    ensures Total(Recorded(Recorded(m, e), other), OwnPnl()) == Total(m, OwnPnl()) + Remarking(m, e, other)
  {
    RecordedPnl(m, e);
    RecordedPnl(Recorded(m, e), other);
    SecondGain(m, e, other);
  }

  /** The first entry leaves its account at the fill's price and every other as it was. */
  lemma SecondGain(m: map<nat, Exposure>, e: Entry, other: Entry)
    requires other.price == e.price
    ensures var key, key' := AccountKey(e.client, e.symbol), AccountKey(other.client, other.symbol);
            Gain(Held(Recorded(m, e), key'), other.price) ==
            if key == key' then 0 else Gain(Held(m, key'), other.price)
  {
  }

  lemma RecordedPnl(m: map<nat, Exposure>, e: Entry)
    ensures var x := Held(m, AccountKey(e.client, e.symbol));
            Total(Recorded(m, e), OwnPnl()) == Total(m, OwnPnl()) + Gain(x, e.price)
  {
    var key := AccountKey(e.client, e.symbol);
    var x := Held(m, key);
    BookedOwn(x, e);
    PnlUpdate(m, key, Booked(x, e));
  }

  lemma OwnPnlAt(x: Exposure)
    ensures OwnPnl()(x) == Pnl(x)
  {
  }

  lemma BookedOwn(x: Exposure, e: Entry)
    ensures OwnPnl()(Booked(x, e)) == OwnPnl()(x) + Gain(x, e.price)
  {
    OwnPnlAt(x);
    OwnPnlAt(Booked(x, e));
    BookedPnl(x, e);
  }

  lemma PnlUpdate(m: map<nat, Exposure>, k: nat, x: Exposure)
    ensures Total(m[k := x], OwnPnl()) == Total(m, OwnPnl()) - OwnPnl()(Held(m, k)) + OwnPnl()(x)
  {
    OwnPnlAt(FLAT);
    TotalUpdate(m, OwnPnl(), k, x);
  }

  /** Clients 1 and 3 buy one lot each from client 2, at 10 and then at 20. */
  function UnevenMarks(): map<nat, Exposure> {
    var first := Recorded(Recorded(map[], Entry(2, 0, Sell, 10, 1)), Entry(1, 0, Buy, 10, 1));
    Recorded(Recorded(first, Entry(2, 0, Sell, 20, 1)), Entry(3, 0, Buy, 20, 1))
  }

  lemma UnevenMarksForm()
    ensures var k1, k2, k3 := AccountKey(1, 0), AccountKey(2, 0), AccountKey(3, 0);
            && k1 != k2 && k2 != k3 && k1 != k3
            && UnevenMarks() == map[k1 := Exposure(1, -10, 10), k2 := Exposure(-2, 30, 20), k3 := Exposure(1, -20, 20)]
  {
    KeyForm(1, 0);
    KeyForm(2, 0);
    KeyForm(3, 0);
  }

  lemma ThreeAccounts(k1: nat, k2: nat, k3: nat, x1: Exposure, x2: Exposure, x3: Exposure, f: Exposure -> int)
    requires k1 != k2 && k2 != k3 && k1 != k3
    ensures Total(map[k1 := x1, k2 := x2, k3 := x3], f) == f(x1) + f(x2) + f(x3)
  {
    var m3 := map[k3 := x3];
    var m2 := map[k2 := x2, k3 := x3];
    var m := map[k1 := x1, k2 := x2, k3 := x3];
    assert m - {k1} == m2 && m2 - {k2} == m3 && m3 - {k3} == map[];
    TotalSplit(m, f, k1);
    TotalSplit(m2, f, k2);
    TotalSplit(m3, f, k3);
  }

  /** There cash and positions balance, and summed PnL does not. */
  lemma SummedPnlNotZero()
    ensures Total(UnevenMarks(), Position()) == 0 && Total(UnevenMarks(), CashFlow()) == 0
    ensures Total(UnevenMarks(), OwnPnl()) == -10
  {
    var k1, k2, k3 := AccountKey(1, 0), AccountKey(2, 0), AccountKey(3, 0);
    var x1, x2, x3 := Exposure(1, -10, 10), Exposure(-2, 30, 20), Exposure(1, -20, 20);
    UnevenMarksForm();
    ThreeAccounts(k1, k2, k3, x1, x2, x3, Position());
    ThreeAccounts(k1, k2, k3, x1, x2, x3, CashFlow());
    ThreeAccounts(k1, k2, k3, x1, x2, x3, OwnPnl());
  }
}
