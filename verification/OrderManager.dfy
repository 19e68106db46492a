/** The client's order manager: one managed order per ticker and side, moved to where the strategy wants it. */
module OrderManagement {
  import opened Types

  datatype OrderState = Unset | PendingNew | Live | PendingCancel | Dead

  datatype OMOrder = OMOrder(ticker: TickerId, orderId: OrderId, side: Side, price: Price, qty: Qty, state: OrderState)

  const NO_ORDER := OMOrder(TICKER_ID_INVALID, ORDER_ID_INVALID, NoSide, PRICE_INVALID, QTY_INVALID, Unset)

  // --- The pre-trade risk check ------------------------------------------------------------------------------

  datatype RiskCheckResult = OrderTooLarge | PositionTooLarge | LossTooLarge | Allowed

  datatype RiskCfg = RiskCfg(maxOrderSize: Qty, maxPosition: Qty, maxLoss: real)

  // What the check looks at: the position and profit of a ticker as the client knows them, and its limits.
  datatype RiskInfo = RiskInfo(position: int, totalPnl: real, cfg: RiskCfg)

  function Abs(x: int): nat {
    if x < 0 then -x else x
  }

  function CheckPreTradeRisk(i: RiskInfo, side: Side, qty: Qty): RiskCheckResult {
    if qty > i.cfg.maxOrderSize then OrderTooLarge
    else if Abs(i.position + SideValue(side) * qty) > i.cfg.maxPosition then PositionTooLarge
    else if i.totalPnl < i.cfg.maxLoss then LossTooLarge
    else Allowed
  }

  // --- The order manager as a function of its state ----------------------------------------------------------

  datatype Slot = Slot(ticker: TickerId, side: Side)

  function AllSlots(): set<Slot> {
    set t: nat, side | 0 <= t < ME_MAX_TICKERS && side in {Buy, Sell, NoSide} :: Slot(t, side)
  }

  lemma InAllSlots()
    ensures forall t: nat, side {:trigger Slot(t, side)} :: t < ME_MAX_TICKERS ==> Slot(t, side) in AllSlots()
  {
    forall t: nat, side {:trigger Slot(t, side)} | t < ME_MAX_TICKERS ensures Slot(t, side) in AllSlots() {
      assert side.Buy? || side.Sell? || side.NoSide?;
      assert 0 <= t < ME_MAX_TICKERS && side in {Buy, Sell, NoSide};
    }
  }

  type Orders = map<Slot, OMOrder>

  datatype Manager = Manager(orders: Orders, nextOrderId: OrderId, requests: seq<ClientRequest>)

  ghost predicate Whole(m: Manager) {
    forall t: nat, side {:trigger Slot(t, side)} :: t < ME_MAX_TICKERS ==> Slot(t, side) in m.orders
  }

  function WithNew(m: Manager, client: ClientId, s: Slot, price: Price, qty: Qty): Manager {
    Manager(m.orders[s := OMOrder(s.ticker, m.nextOrderId, s.side, price, qty, PendingNew)], m.nextOrderId + 1,
            m.requests + [ClientRequest(New, client, s.ticker, m.nextOrderId, s.side, price, qty)])
  }

  function WithCancel(m: Manager, client: ClientId, s: Slot): Manager
    requires s in m.orders
  {
    var o := m.orders[s];
    Manager(m.orders[s := o.(state := PendingCancel)], m.nextOrderId,
            m.requests + [ClientRequest(RequestType.CancelOrder, client, o.ticker, o.orderId, o.side, o.price, o.qty)])
  }

  /** Move one order to a price: cancel it if it lives elsewhere, send a new one if there is none and risk allows it. */
  function MoveOrder(m: Manager, client: ClientId, s: Slot, price: Price, qty: Qty, risk: RiskInfo): Manager
    requires s in m.orders
  {
    match m.orders[s].state
    case Live => if m.orders[s].price != price then WithCancel(m, client, s) else m
    case PendingNew => m
    case PendingCancel => m
    case _ =>
      if price != PRICE_INVALID && CheckPreTradeRisk(risk, s.side, qty) == Allowed
        then WithNew(m, client, s, price, qty) else m
  }

  /** Move both orders of a ticker. */
  function MoveOrders(m: Manager, client: ClientId, ticker: TickerId, bid: Price, ask: Price, clip: Qty,
      risk: RiskInfo): Manager
    requires Slot(ticker, Buy) in m.orders && Slot(ticker, Sell) in m.orders
  {
    MoveOrder(MoveOrder(m, client, Slot(ticker, Buy), bid, clip, risk), client, Slot(ticker, Sell), ask, clip, risk)
  }

  /** An order within every limit: its size, the position once it has traded in full, and the loss so far. */
  predicate WithinLimits(risk: RiskInfo, side: Side, qty: Qty) {
    var after := risk.position + (if side == Buy then qty else if side == Sell then -(qty as int) else 0);
    && qty <= risk.cfg.maxOrderSize && risk.totalPnl >= risk.cfg.maxLoss
    && -(risk.cfg.maxPosition as int) <= after <= risk.cfg.maxPosition
  }

  /**
   An order that is pending or already where it is wanted is left alone; one that lives elsewhere is cancelled, under
   its own id; and if there is none, one is sent, exactly as wanted, if it is wanted at all and within every limit.
   */
  lemma MovedAsWanted(m: Manager, client: ClientId, a: Slot, price: Price, qty: Qty, risk: RiskInfo)
    requires a in m.orders
    ensures var o, n := m.orders[a], MoveOrder(m, client, a, price, qty, risk);
      && n.orders.Keys == m.orders.Keys && (forall b :: b in m.orders && b != a ==> n.orders[b] == m.orders[b])
      && (o.state in {PendingNew, PendingCancel} || (o.state == Live && o.price == price) ==> n == m)
      && (o.state == Live && o.price != price ==>
            && n.orders[a] == o.(state := PendingCancel) && n.nextOrderId == m.nextOrderId
            && n.requests == m.requests
                 + [ClientRequest(CancelOrder, client, o.ticker, o.orderId, o.side, o.price, o.qty)])
      && (o.state in {Unset, Dead} ==>
            if price == PRICE_INVALID || !WithinLimits(risk, a.side, qty) then n == m
            else
              && n.orders[a] == OMOrder(a.ticker, m.nextOrderId, a.side, price, qty, PendingNew)
              && n.nextOrderId == m.nextOrderId + 1
              && n.requests == m.requests + [ClientRequest(New, client, a.ticker, m.nextOrderId, a.side, price, qty)])
  {
  }

  function UpdateOrder(o: OMOrder, r: ClientResponse): OMOrder {
    match r.kind
    case Accepted => o.(state := Live)
    case Canceled => o.(state := Dead)
    case Filled => o.(qty := r.leavesQty, state := if r.leavesQty == 0 then Dead else o.state)
    case CancelRejected => o
  }

  function OnOrderUpdate(m: Manager, r: ClientResponse): Manager
    requires Slot(r.ticker, r.side) in m.orders
  {
    m.(orders := m.orders[Slot(r.ticker, r.side) := UpdateOrder(m.orders[Slot(r.ticker, r.side)], r)])
  }

  function SideToIndex(side: Side): nat {
    SideValue(side) + 1
  }

  class OrderManager {
    const client: ClientId
    const tickerSideOrder: array2<OMOrder>
    var nextOrderId: OrderId
    // The queue to the order gateway.
    var requests: seq<ClientRequest>

    ghost predicate Valid() {
      tickerSideOrder.Length0 == ME_MAX_TICKERS && tickerSideOrder.Length1 == 3
    }

    ghost function State(): (m: Manager)
      requires Valid()
      reads this, tickerSideOrder
      ensures Whole(m)
    {
      InAllSlots();
      Manager(map s | s in AllSlots() :: tickerSideOrder[s.ticker, SideToIndex(s.side)], nextOrderId, requests)
    }

    constructor (client: ClientId)
      ensures Valid() && fresh(tickerSideOrder) && this.client == client
      ensures State() == Manager(map s | s in AllSlots() :: NO_ORDER, 1, [])
    {
      this.client := client;
      tickerSideOrder := new OMOrder[ME_MAX_TICKERS, 3]((_, _) => NO_ORDER);
      nextOrderId, requests := 1, [];
    }

    /** Overwrite one slot. */
    method SetOrder(ticker: TickerId, side: Side, order: OMOrder)
      requires Valid() && ticker < ME_MAX_TICKERS
      modifies tickerSideOrder
      ensures State() == old(State()).(orders := old(State()).orders[Slot(ticker, side) := order])
    {
      tickerSideOrder[ticker, SideToIndex(side)] := order;
    }

    method SendNewOrder(ticker: TickerId, price: Price, side: Side, qty: Qty)
      requires Valid() && ticker < ME_MAX_TICKERS
      modifies this, tickerSideOrder
      ensures State() == WithNew(old(State()), client, Slot(ticker, side), price, qty)
    {
      requests := requests + [ClientRequest(New, client, ticker, nextOrderId, side, price, qty)];
      SetOrder(ticker, side, OMOrder(ticker, nextOrderId, side, price, qty, PendingNew));
      nextOrderId := nextOrderId + 1;
    }

    method SendCancelOrder(ticker: TickerId, side: Side)
      requires Valid() && ticker < ME_MAX_TICKERS
      modifies this, tickerSideOrder
      ensures State() == WithCancel(old(State()), client, Slot(ticker, side))
    {
      var order := tickerSideOrder[ticker, SideToIndex(side)];
      requests := requests
        + [ClientRequest(RequestType.CancelOrder, client, order.ticker, order.orderId, order.side, order.price,
          order.qty)];
      SetOrder(ticker, side, order.(state := PendingCancel));
    }

    method Move(ticker: TickerId, price: Price, side: Side, qty: Qty, risk: RiskInfo)
      requires Valid() && ticker < ME_MAX_TICKERS
      modifies this, tickerSideOrder
      ensures State() == MoveOrder(old(State()), client, Slot(ticker, side), price, qty, risk)
    {
      var order := tickerSideOrder[ticker, SideToIndex(side)];
      match order.state {
        case Live =>
          if order.price != price {
            SendCancelOrder(ticker, side);
          }
        case PendingNew =>
        case PendingCancel =>
        case _ =>
          if price != PRICE_INVALID {
            var riskResult := CheckPreTradeRisk(risk, side, qty);
            if riskResult == Allowed {
              SendNewOrder(ticker, price, side, qty);
            }
          }
      }
    }

    method MoveBoth(ticker: TickerId, bidPrice: Price, askPrice: Price, clip: Qty, risk: RiskInfo)
      requires Valid() && ticker < ME_MAX_TICKERS
      modifies this, tickerSideOrder
      ensures State() == MoveOrders(old(State()), client, ticker, bidPrice, askPrice, clip, risk)
    {
      Move(ticker, bidPrice, Buy, clip, risk);
      Move(ticker, askPrice, Sell, clip, risk);
    }

    method OnUpdate(clientResponse: ClientResponse)
      requires Valid() && clientResponse.ticker < ME_MAX_TICKERS
      modifies tickerSideOrder
      ensures State() == OnOrderUpdate(old(State()), clientResponse)
    {
      var order := tickerSideOrder[clientResponse.ticker, SideToIndex(clientResponse.side)];
      match clientResponse.kind {
        case Accepted =>
          order := order.(state := Live);
        case Canceled =>
          order := order.(state := Dead);
        case Filled =>
          order := order.(qty := clientResponse.leavesQty);
          if order.qty == 0 {
            order := order.(state := Dead);
          }
        case CancelRejected =>
      }
      SetOrder(clientResponse.ticker, clientResponse.side, order);
    }
  }
}
