/** Shared vocabulary of the exchange and the trading client: identifiers, limits and the messages they exchange. */
module Types {

  type ClientId = nat
  type TickerId = nat
  type OrderId = nat
  type Price = int
  type Qty = nat
  type Priority = nat

  const ME_MAX_TICKERS: nat := 8
  const ME_MAX_NUM_CLIENTS: nat := 256
  const ME_MAX_ORDER_IDS: nat := 1048576
  const ME_MAX_PRICE_LEVELS: nat := 256

  // The largest value of each unsigned (for prices: signed) field type marks "no value".
  const TICKER_ID_INVALID: TickerId := 0xFFFF_FFFF
  const ORDER_ID_INVALID: OrderId := 0xFFFF_FFFF_FFFF_FFFF
  const PRIORITY_INVALID: Priority := 0xFFFF_FFFF_FFFF_FFFF
  const PRICE_INVALID: Price := 0x7FFF_FFFF_FFFF_FFFF
  const QTY_INVALID: Qty := 0xFFFF_FFFF

  datatype Option<+T> = None | Some(value: T)

  // NoSide stands for Side::INVALID.
  datatype Side = Buy | Sell | NoSide

  function SideValue(side: Side): int {
    match side
    case Buy => 1
    case Sell => -1
    case NoSide => 0
  }

  function Opposite(side: Side): Side {
    match side
    case Buy => Sell
    case Sell => Buy
    case NoSide => NoSide
  }

  function Min(a: nat, b: nat): nat {
    if b < a then b else a
  }

  datatype UpdateType = UInvalid | Clear | Add | Modify | Cancel | Trade | SnapshotStart | SnapshotEnd

  datatype MarketUpdate = MarketUpdate(
    kind: UpdateType,
    orderId: OrderId,
    ticker: TickerId,
    side: Side,
    price: Price,
    qty: Qty,
    priority: Priority)

  datatype RequestType = New | CancelOrder

  datatype ClientRequest = ClientRequest(
    kind: RequestType,
    client: ClientId,
    ticker: TickerId,
    orderId: OrderId,
    side: Side,
    price: Price,
    qty: Qty)

  datatype ResponseType = Accepted | Canceled | Filled | CancelRejected

  datatype ClientResponse = ClientResponse(
    kind: ResponseType,
    client: ClientId,
    ticker: TickerId,
    clientOrderId: OrderId,
    marketOrderId: OrderId,
    side: Side,
    price: Price,
    execQty: Qty,
    leavesQty: Qty)
}
