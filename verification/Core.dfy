/** Domain vocabulary shared by the book, the matching engine, risk and the feed. */
module Core {

  datatype Option<+T> = None | Some(value: T)

  datatype Side = Buy | Sell

  function Opposite(s: Side): Side {
    if s == Buy then Sell else Buy
  }

  datatype OrderType = Limit | Market

  datatype TimeInForce = Day | IOC | FOK

  datatype RejectReason =
    | NoReason
    | InvalidPrice
    | InvalidQuantity
    | UnknownSymbol
    | UnknownOrder
    | DuplicateOrderId
    | FokNotFillable
    | BookCapacityExceeded
    | RiskMaxOrderSize
    | RiskMaxPosition
    | RiskMaxLoss
    | RiskKillSwitch

  /** Prices are ticks and quantities are lots; both are unbounded here. */
  datatype Order = Order(
    id: nat,
    client: nat,
    symbol: nat,
    side: Side,
    kind: OrderType,
    tif: TimeInForce,
    price: int,
    quantity: int,
    remaining: int,
    sequence: nat,
    timestamp: int)

  function Min(a: int, b: int): int {
    if a <= b then a else b
  }
}
