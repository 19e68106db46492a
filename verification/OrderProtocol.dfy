/**
 The client's order protocol over asynchronous channels: requests and responses in flight, an exchange that fills and
 cancels on its own schedule, and what the client may rely on in every interleaving.
 */
module OrderProtocol {
  import opened Types
  import opened OrderManagement

  datatype Key = Key(ticker: TickerId, orderId: OrderId)

  // An order of the client that is open at the exchange.
  datatype Open = Open(side: Side, price: Price, qty: Qty)

  type OpenOrders = map<Key, Open>

  // The client with its queue of requests, what the exchange holds for it, and the responses on their way back.
  datatype System = System(manager: Manager, position: seq<int>, open: OpenOrders, responses: seq<ClientResponse>)

  // Who the client is and the risk limits of each ticker.
  datatype Setup = Setup(client: ClientId, cfg: seq<RiskCfg>)

  datatype Step =
    | Strategy(ticker: TickerId, bid: Price, ask: Price, clip: Qty, totalPnl: real)
    | Respond
    | Serve(marketOrderId: OrderId)
    | Fill(key: Key, exec: Qty, price: Price, marketOrderId: OrderId)

  // --- The exchange, as one client sees it -------------------------------------------------------------------

  function FillReport(client: ClientId, k: Key, o: Open, exec: Qty, price: Price, id: OrderId): ClientResponse
    requires exec <= o.qty
  {
    ClientResponse(Filled, client, k.ticker, k.orderId, id, o.side, price, exec, o.qty - exec)
  }

  function OpenAfter(open: OpenOrders, k: Key, exec: Qty): OpenOrders
    requires k in open && exec <= open[k].qty
  {
    if exec == open[k].qty then open - {k} else open[k := open[k].(qty := open[k].qty - exec)]
  }

  function ServeReport(client: ClientId, open: OpenOrders, r: ClientRequest, id: OrderId): ClientResponse {
    var k := Key(r.ticker, r.orderId);
    if r.kind == New then ClientResponse(Accepted, client, r.ticker, r.orderId, id, r.side, r.price, 0, r.qty)
    else if k in open then
      ClientResponse(Canceled, client, r.ticker, r.orderId, id, open[k].side, open[k].price, QTY_INVALID, open[k].qty)
    else
      ClientResponse(CancelRejected, client, r.ticker, r.orderId, ORDER_ID_INVALID, NoSide, PRICE_INVALID, QTY_INVALID,
        QTY_INVALID)
  }

  function AfterServe(open: OpenOrders, r: ClientRequest): OpenOrders {
    var k := Key(r.ticker, r.orderId);
    if r.kind == New then open[k := Open(r.side, r.price, r.qty)] else open - {k}
  }

  // --- Steps of the whole system -----------------------------------------------------------------------------

  ghost predicate Shaped(u: Setup, s: System) {
    && Whole(s.manager) && |s.position| == |u.cfg| == ME_MAX_TICKERS
    && (forall r {:trigger r in s.responses} :: r in s.responses ==> r.ticker < ME_MAX_TICKERS)
  }

  ghost predicate Enabled(u: Setup, s: System, e: Step)
    requires Shaped(u, s)
  {
    match e
    case Strategy(ticker, _, _, clip, _) => ticker < ME_MAX_TICKERS && clip > 0
    case Respond => s.responses != []
    case Serve(_) => s.manager.requests != []
    case Fill(key, exec, _, _) => key in s.open && 0 < exec <= s.open[key].qty
  }

  /** Taking a response in: first the position, then the order. */
  function Responded(position: seq<int>, r: ClientResponse): seq<int>
    requires r.ticker < |position|
  {
    if r.kind == Filled then position[r.ticker := position[r.ticker] + SideValue(r.side) * r.execQty] else position
  }

  ghost function Next(u: Setup, s: System, e: Step): System
    requires Shaped(u, s) && Enabled(u, s, e)
  {
    match e
    case Strategy(ticker, bid, ask, clip, pnl) =>
      s.(manager := MoveOrders(s.manager, u.client, ticker, bid, ask, clip,
        RiskInfo(s.position[ticker], pnl, u.cfg[ticker])))
    case Respond =>
      var r := s.responses[0];
      assert r in s.responses;
      s.(position := Responded(s.position, r), manager := OnOrderUpdate(s.manager, r), responses := s.responses[1..])
    case Serve(id) =>
      var r := s.manager.requests[0];
      s.(manager := s.manager.(requests := s.manager.requests[1..]), open := AfterServe(s.open, r),
         responses := s.responses + [ServeReport(u.client, s.open, r, id)])
    case Fill(key, exec, price, id) =>
      s.(open := OpenAfter(s.open, key, exec),
         responses := s.responses + [FillReport(u.client, key, s.open[key], exec, price, id)])
  }

  // --- What is in flight for one slot ------------------------------------------------------------------------

  predicate Tradable(a: Slot) {
    a.ticker < ME_MAX_TICKERS && a.side != NoSide
  }

  /** The new orders on their way to the exchange. */
  function NewsOn(rs: seq<ClientRequest>, a: Slot): seq<ClientRequest> {
    if rs == [] then []
    else (if rs[0].kind == New && Slot(rs[0].ticker, rs[0].side) == a then [rs[0]] else []) + NewsOn(rs[1..], a)
  }

  /** The responses on their way to the client that concern this slot. */
  function ReportsOn(rs: seq<ClientResponse>, a: Slot): seq<ClientResponse> {
    if rs == [] then [] else (if Slot(rs[0].ticker, rs[0].side) == a then [rs[0]] else []) + ReportsOn(rs[1..], a)
  }

  function OpenOn(open: OpenOrders, a: Slot, id: OrderId): Option<Qty> {
    var k := Key(a.ticker, id);
    if k in open && open[k].side == a.side then Some(open[k].qty) else None
  }

  /**
   From the quantity the client believes an order has, the reports in flight lead step by step to what is open at the
   exchange: each fill takes its quantity off, and nothing follows the report that closes the order.
   */
  ghost predicate Chain(id: OrderId, qty: Qty, rs: seq<ClientResponse>, open: Option<Qty>)
    decreases |rs|
  {
    if rs == [] then qty > 0 && open == Some(qty)
    else
      var r := rs[0];
      r.clientOrderId == id &&
      match r.kind
      case Filled =>
        && 0 < r.execQty && r.execQty + r.leavesQty == qty
        && (if r.leavesQty == 0 then rs[1..] == [] && open == None else Chain(id, r.leavesQty, rs[1..], open))
      case Canceled => rs[1..] == [] && open == None
      case _ => false
  }

  /** What may be under way for the order of a slot, given its state. */
  ghost predicate SlotOk(o: OMOrder, news: seq<ClientRequest>, open: Option<Qty>, rs: seq<ClientResponse>) {
    match o.state
    case PendingNew =>
      || (|news| == 1 && news[0].orderId == o.orderId && news[0].qty == o.qty > 0 && open == None && rs == [])
      || (news == [] && rs != [] && rs[0].kind == Accepted && rs[0].clientOrderId == o.orderId
          && Chain(o.orderId, o.qty, rs[1..], open))
    case Live => news == [] && Chain(o.orderId, o.qty, rs, open)
    case PendingCancel => news == [] && Chain(o.orderId, o.qty, rs, open)
    case _ => news == [] && open == None && rs == []
  }

  /** The quantity a slot may still trade, as far as the client knows. */
  function Outstanding(o: OMOrder): Qty {
    if o.state == Unset || o.state == Dead then 0 else o.qty
  }

  ghost predicate WithinRisk(s: System, t: TickerId, max: Qty)
    requires Whole(s.manager) && t < ME_MAX_TICKERS && t < |s.position|
  {
    && s.position[t] + Outstanding(s.manager.orders[Slot(t, Buy)]) <= max
    && s.position[t] - Outstanding(s.manager.orders[Slot(t, Sell)]) >= -(max as int)
  }

  /** An order that was ever sent sits in its own slot under an id that was handed out. */
  ghost predicate Numbered(m: Manager, a: Slot)
    requires a in m.orders
  {
    var o := m.orders[a];
    o.state != Unset ==> o.ticker == a.ticker && o.side == a.side && o.orderId < m.nextOrderId
  }

  ghost predicate Apart(m: Manager, a: Slot, b: Slot)
    requires a in m.orders && b in m.orders
  {
    a != b && m.orders[a].state != Unset && m.orders[b].state != Unset ==> m.orders[a].orderId != m.orders[b].orderId
  }

  /** An open order is the one its slot manages. */
  ghost predicate Managed(m: Manager, open: OpenOrders, k: Key)
    requires Whole(m) && k in open
  {
    var a := Slot(k.ticker, open[k].side);
    && Tradable(a) && open[k].qty > 0
    && m.orders[a].state != Unset && m.orders[a].orderId == k.orderId
  }

  /** What is under way for the order of this slot fits its state. */
  ghost predicate Tracked(m: Manager, open: OpenOrders, rs: seq<ClientResponse>, a: Slot)
    requires a in m.orders
  {
    Numbered(m, a) && SlotOk(m.orders[a], NewsOn(m.requests, a), OpenOn(open, a, m.orders[a].orderId), ReportsOn(rs, a))
  }

  ghost predicate AllTracked(m: Manager, open: OpenOrders, rs: seq<ClientResponse>)
    requires Whole(m)
  {
    forall a {:trigger Tradable(a)} :: Tradable(a) ==> a in m.orders && Tracked(m, open, rs, a)
  }

  ghost predicate AllApart(m: Manager)
    requires Whole(m)
  {
    forall a, b {:trigger Tradable(a), Tradable(b)} ::
      Tradable(a) && Tradable(b) ==> a in m.orders && b in m.orders && Apart(m, a, b)
  }

  ghost predicate AllManaged(m: Manager, open: OpenOrders)
    requires Whole(m)
  {
    forall k {:trigger k in open} :: k in open ==> Managed(m, open, k)
  }

  ghost predicate RequestsOk(m: Manager) {
    forall r {:trigger r in m.requests} :: r in m.requests ==>
      r.ticker < ME_MAX_TICKERS && (r.kind == New ==> r.side != NoSide)
  }

  ghost predicate ResponsesOk(rs: seq<ClientResponse>) {
    forall r {:trigger r in rs} :: r in rs ==>
      r.ticker < ME_MAX_TICKERS && (r.kind == CancelRejected <==> r.side == NoSide)
  }

  ghost predicate AllWithinRisk(u: Setup, s: System)
    requires Shaped(u, s)
  {
    forall t {:trigger u.cfg[t]} :: 0 <= t < ME_MAX_TICKERS ==> WithinRisk(s, t, u.cfg[t].maxPosition)
  }

  ghost predicate Inv(u: Setup, s: System) {
    && Shaped(u, s)
    && AllTracked(s.manager, s.open, s.responses) && AllApart(s.manager) && AllManaged(s.manager, s.open)
    && RequestsOk(s.manager) && ResponsesOk(s.responses) && AllWithinRisk(u, s)
  }

  // --- Chains grow at the far end ----------------------------------------------------------------------------

  lemma {:induction false} ChainFilled(id: OrderId, qty: Qty, rs: seq<ClientResponse>, open: Qty, r: ClientResponse)
    requires Chain(id, qty, rs, Some(open)) && r.kind == Filled && r.clientOrderId == id
    requires 0 < r.execQty && r.execQty + r.leavesQty == open
    ensures Chain(id, qty, rs + [r], if r.leavesQty == 0 then None else Some(r.leavesQty))
    decreases |rs|
  {
    var more := rs + [r];
    if rs == [] {
      assert more[0] == r && more[1..] == [];
    } else {
      assert more[0] == rs[0] && more[1..] == rs[1..] + [r];
      ChainFilled(id, rs[0].leavesQty, rs[1..], open, r);
    }
  }

  lemma {:induction false} ChainCanceled(id: OrderId, qty: Qty, rs: seq<ClientResponse>, open: Qty, r: ClientResponse)
    requires Chain(id, qty, rs, Some(open)) && r.kind == Canceled && r.clientOrderId == id
    ensures Chain(id, qty, rs + [r], None)
    decreases |rs|
  {
    var more := rs + [r];
    if rs == [] {
      assert more[0] == r && more[1..] == [];
    } else {
      assert more[0] == rs[0] && more[1..] == rs[1..] + [r];
      ChainCanceled(id, rs[0].leavesQty, rs[1..], open, r);
    }
  }

  lemma {:induction false} NewsAppend(rs: seq<ClientRequest>, r: ClientRequest, a: Slot)
    ensures NewsOn(rs + [r], a)
      == NewsOn(rs, a) + (if r.kind == New && Slot(r.ticker, r.side) == a then [r] else [])
  {
    var more := rs + [r];
    if rs == [] {
      assert more[1..] == [];
    } else {
      assert more[0] == rs[0] && more[1..] == rs[1..] + [r];
      NewsAppend(rs[1..], r, a);
    }
  }

  lemma {:induction false} ReportsAppend(rs: seq<ClientResponse>, r: ClientResponse, a: Slot)
    ensures ReportsOn(rs + [r], a) == ReportsOn(rs, a) + (if Slot(r.ticker, r.side) == a then [r] else [])
  {
    var more := rs + [r];
    if rs == [] {
      assert more[1..] == [];
    } else {
      assert more[0] == rs[0] && more[1..] == rs[1..] + [r];
      ReportsAppend(rs[1..], r, a);
    }
  }

  // --- Every step keeps the invariant ------------------------------------------------------------------------

  lemma OpenElsewhere(m: Manager, open: OpenOrders, k: Key, a: Slot)
    requires Whole(m) && AllApart(m) && k in open && Managed(m, open, k) && Tradable(a)
    requires a in m.orders && Numbered(m, a)
    ensures a != Slot(k.ticker, open[k].side) && m.orders[a].state != Unset ==> m.orders[a].orderId != k.orderId
  {
    assert Tradable(Slot(k.ticker, open[k].side)) && Tradable(a);
  }

  /** An open order under the id a slot manages is that slot's order. */
  lemma OpenOnlyHere(m: Manager, open: OpenOrders, a: Slot)
    requires Whole(m) && AllApart(m) && AllManaged(m, open) && Tradable(a) && a in m.orders
      && m.orders[a].state != Unset
    ensures forall k {:trigger k in open} :: k in open && k.orderId == m.orders[a].orderId ==>
      Slot(k.ticker, open[k].side) == a
  {
    forall k {:trigger k in open} | k in open && k.orderId == m.orders[a].orderId
      ensures Slot(k.ticker, open[k].side) == a {
      assert Managed(m, open, k);
      assert Tradable(a) && Tradable(Slot(k.ticker, open[k].side));
    }
  }

  /** One more report for the order of its slot. */
  lemma FillSlot(m: Manager, open: OpenOrders, rs: seq<ClientResponse>, k: Key, exec: Qty, r: ClientResponse, a: Slot)
    requires Whole(m) && AllApart(m) && k in open && Managed(m, open, k) && 0 < exec <= open[k].qty
    requires r.kind == Filled && r.clientOrderId == k.orderId && r.ticker == k.ticker && r.side == open[k].side
    requires r.execQty == exec && r.leavesQty == open[k].qty - exec
    requires Tradable(a) && a in m.orders && Tracked(m, open, rs, a)
    ensures Tracked(m, OpenAfter(open, k, exec), rs + [r], a)
  {
    hide AllApart;
    hide Whole;
    var o, q := m.orders[a], ReportsOn(rs, a);
    ReportsAppend(rs, r, a);
    OpenElsewhere(m, open, k, a);
    if a == Slot(k.ticker, open[k].side) {
      if o.state == PendingNew {
        assert (q + [r])[0] == q[0] && (q + [r])[1..] == q[1..] + [r];
        ChainFilled(o.orderId, o.qty, q[1..], open[k].qty, r);
      } else {
        ChainFilled(o.orderId, o.qty, q, open[k].qty, r);
      }
    } else {
      assert q + [] == q;
    }
  }

  lemma ManagedAfter(m: Manager, open: OpenOrders, k: Key, exec: Qty)
    requires Whole(m) && AllManaged(m, open) && k in open && exec <= open[k].qty
    ensures AllManaged(m, OpenAfter(open, k, exec))
  {
    var next := OpenAfter(open, k, exec);
    forall j {:trigger j in next} | j in next ensures Managed(m, next, j) {
      assert j in open && Managed(m, open, j);
    }
  }

  lemma ResponsesGrow(rs: seq<ClientResponse>, r: ClientResponse)
    requires ResponsesOk(rs) && r.ticker < ME_MAX_TICKERS && (r.kind == CancelRejected <==> r.side == NoSide)
    ensures ResponsesOk(rs + [r])
  {
  }

  /** A fill at the exchange. */
  lemma FillKeepsInv(u: Setup, s: System, k: Key, exec: Qty, price: Price, id: OrderId)
    requires Inv(u, s) && Enabled(u, s, Fill(k, exec, price, id))
    ensures Inv(u, Next(u, s, Fill(k, exec, price, id)))
  {
    hide AllApart;
    hide Tracked;
    hide Managed;
    hide OpenAfter;
    hide WithinRisk;
    var m, r := s.manager, FillReport(u.client, k, s.open[k], exec, price, id);
    assert k in s.open && Managed(m, s.open, k);
    ManagedSide(m, s.open, k);
    forall a {:trigger Tradable(a)} | Tradable(a)
      ensures a in m.orders && Tracked(m, OpenAfter(s.open, k, exec), s.responses + [r], a) {
      FillSlot(m, s.open, s.responses, k, exec, r, a);
    }
    ManagedAfter(m, s.open, k, exec);
    ResponsesGrow(s.responses, r);
    SameRisk(u, s, Next(u, s, Fill(k, exec, price, id)));
  }

  lemma ManagedSide(m: Manager, open: OpenOrders, k: Key)
    requires Whole(m) && k in open && Managed(m, open, k)
    ensures Tradable(Slot(k.ticker, open[k].side))
  {
  }

  // Serving a request.

  /** The request at the head of the queue is a new order: its slot has nothing else under way. */
  lemma ServeNewSlot(m: Manager, open: OpenOrders, rs: seq<ClientResponse>, r: ClientRequest, p: ClientResponse,
      a: Slot)
    requires Whole(m) && AllApart(m) && AllManaged(m, open) && m.requests != [] && r == m.requests[0] && r.kind == New
    requires Tradable(Slot(r.ticker, r.side)) && Tracked(m, open, rs, Slot(r.ticker, r.side))
    requires p.kind == Accepted && p.clientOrderId == r.orderId && p.ticker == r.ticker && p.side == r.side
    requires Tradable(a) && a in m.orders && Tracked(m, open, rs, a)
    ensures Tracked(m.(requests := m.requests[1..]), AfterServe(open, r), rs + [p], a)
    ensures Key(r.ticker, r.orderId) !in open
  {
    hide Whole;
    var at, k := Slot(r.ticker, r.side), Key(r.ticker, r.orderId);
    var o, q := m.orders[a], ReportsOn(rs, a);
    ReportsAppend(rs, p, a);
    assert NewsOn(m.requests, at) == [r] + NewsOn(m.requests[1..], at);
    assert m.orders[at].orderId == r.orderId && m.orders[at].state == PendingNew;
    OpenOnlyHere(m, open, at);
    if a == at {
      assert NewsOn(m.requests[1..], at) == [];
      assert (q + [p])[0] == p && (q + [p])[1..] == [];
    } else {
      assert Apart(m, at, a) by { assert Tradable(at) && Tradable(a); }
      assert [] + NewsOn(m.requests[1..], a) == NewsOn(m.requests[1..], a);
      assert q + [] == q;
    }
  }

  lemma ServeCancelSlot(u: Setup, m: Manager, open: OpenOrders, rs: seq<ClientResponse>, r: ClientRequest, id: OrderId,
      a: Slot)
    requires Whole(m) && AllApart(m) && AllManaged(m, open) && m.requests != [] && r == m.requests[0] && r.kind != New
    requires Tradable(a) && a in m.orders && Tracked(m, open, rs, a)
    ensures Tracked(m.(requests := m.requests[1..]), AfterServe(open, r), rs + [ServeReport(u.client, open, r, id)], a)
  {
    hide Whole;
    var k, p := Key(r.ticker, r.orderId), ServeReport(u.client, open, r, id);
    var o, q := m.orders[a], ReportsOn(rs, a);
    ReportsAppend(rs, p, a);
    assert [] + NewsOn(m.requests[1..], a) == NewsOn(m.requests[1..], a);
    if k in open {
      assert Managed(m, open, k);
      OpenElsewhere(m, open, k, a);
    }
    if k in open && a == Slot(k.ticker, open[k].side) {
      if o.state == PendingNew {
        assert (q + [p])[0] == q[0] && (q + [p])[1..] == q[1..] + [p];
        ChainCanceled(o.orderId, o.qty, q[1..], open[k].qty, p);
      } else {
        ChainCanceled(o.orderId, o.qty, q, open[k].qty, p);
      }
    } else {
      assert q + [] == q;
    }
  }

  lemma ManagedAfterServe(m: Manager, open: OpenOrders, rs: seq<ClientResponse>, r: ClientRequest)
    requires Whole(m) && AllManaged(m, open) && m.requests != [] && r == m.requests[0]
    requires r.kind == New ==> Tradable(Slot(r.ticker, r.side)) && Tracked(m, open, rs, Slot(r.ticker, r.side))
    ensures AllManaged(m.(requests := m.requests[1..]), AfterServe(open, r))
  {
    var next, n := AfterServe(open, r), m.(requests := m.requests[1..]);
    var at := Slot(r.ticker, r.side);
    if r.kind == New {
      assert NewsOn(m.requests, at) == [r] + NewsOn(m.requests[1..], at);
    }
    forall j {:trigger j in next} | j in next ensures Managed(n, next, j) {
      if j in open { assert Managed(m, open, j); }
    }
  }

  lemma RequestsShrink(m: Manager)
    requires RequestsOk(m) && m.requests != []
    ensures RequestsOk(m.(requests := m.requests[1..])) && m.requests[0].ticker < ME_MAX_TICKERS
    ensures m.requests[0].kind == New ==> m.requests[0].side != NoSide
  {
    assert m.requests[0] in m.requests;
    forall r {:trigger r in m.requests[1..]} | r in m.requests[1..] ensures r in m.requests {
    }
  }

  /** The exchange serves the next request; a new order never finds its id still open. */
  lemma ServeKeepsInv(u: Setup, s: System, id: OrderId)
    requires Inv(u, s) && Enabled(u, s, Serve(id))
    ensures Inv(u, Next(u, s, Serve(id)))
    ensures var r := s.manager.requests[0]; r.kind == New ==> Key(r.ticker, r.orderId) !in s.open
  {
    hide AllApart;
    hide Tracked;
    hide Managed;
    hide AfterServe;
    hide WithinRisk;
    hide RequestsOk;
    var m, r := s.manager, s.manager.requests[0];
    var p, n := ServeReport(u.client, s.open, r, id), m.(requests := m.requests[1..]);
    var at := Slot(r.ticker, r.side);
    RequestsShrink(m);
    assert r.kind == New ==> Tradable(at);
    forall a {:trigger Tradable(a)} | Tradable(a)
      ensures a in n.orders && Tracked(n, AfterServe(s.open, r), s.responses + [p], a) {
      if r.kind == New {
        ServeNewSlot(m, s.open, s.responses, r, p, a);
      } else {
        ServeCancelSlot(u, m, s.open, s.responses, r, id, a);
      }
    }
    if r.kind == New { ServeNewSlot(m, s.open, s.responses, r, p, at); }
    ManagedAfterServe(m, s.open, s.responses, r);
    if r.kind != New && Key(r.ticker, r.orderId) in s.open {
      assert Managed(m, s.open, Key(r.ticker, r.orderId));
      ManagedSide(m, s.open, Key(r.ticker, r.orderId));
    }
    ResponsesGrow(s.responses, p);
    SameApart(m, n);
    SameRisk(u, s, Next(u, s, Serve(id)));
  }

  lemma SameApart(m: Manager, n: Manager)
    requires Whole(m) && Whole(n) && AllApart(m) && n.orders == m.orders
    ensures AllApart(n)
  {
    forall a, b {:trigger Tradable(a), Tradable(b)} | Tradable(a) && Tradable(b)
      ensures a in n.orders && b in n.orders && Apart(n, a, b)
    {
      assert Apart(m, a, b);
    }
  }

  lemma SameRisk(u: Setup, s: System, n: System)
    requires Shaped(u, s) && Shaped(u, n) && AllWithinRisk(u, s)
    requires n.position == s.position && n.manager.orders == s.manager.orders
    ensures AllWithinRisk(u, n)
  {
    forall t {:trigger u.cfg[t]} | 0 <= t < ME_MAX_TICKERS ensures WithinRisk(n, t, u.cfg[t].maxPosition) {
      assert WithinRisk(s, t, u.cfg[t].maxPosition);
    }
  }

  // Taking a response in.

  /** The report at the head of the queue brings the slot's order one step further along its chain. */
  lemma RespondSlot(m: Manager, open: OpenOrders, rs: seq<ClientResponse>, a: Slot)
    requires Whole(m) && rs != [] && ResponsesOk(rs) && Tradable(a) && a in m.orders && Tracked(m, open, rs, a)
    requires Slot(rs[0].ticker, rs[0].side) in m.orders
    ensures Tracked(OnOrderUpdate(m, rs[0]), open, rs[1..], a)
    ensures var r, o := rs[0], m.orders[a];
      if Slot(r.ticker, r.side) == a then
        && r.kind != CancelRejected && o.state != Unset && o.state != Dead && r.clientOrderId == o.orderId
        && Outstanding(UpdateOrder(o, r)) + (if r.kind == Filled then r.execQty else 0) <= Outstanding(o)
      else OnOrderUpdate(m, r).orders[a] == o
  {
    hide Whole;
    var r, o, q := rs[0], m.orders[a], ReportsOn(rs, a);
    assert r in rs;
    if Slot(r.ticker, r.side) == a {
      assert q == [r] + ReportsOn(rs[1..], a);
      assert q[1..] == ReportsOn(rs[1..], a);
    } else {
      assert [] + ReportsOn(rs[1..], a) == ReportsOn(rs[1..], a);
    }
  }

  lemma RespondRisk(u: Setup, s: System, t: TickerId)
    requires Inv(u, s) && Enabled(u, s, Respond) && t < ME_MAX_TICKERS
    ensures Whole(Next(u, s, Respond).manager) && |Next(u, s, Respond).position| == ME_MAX_TICKERS
    ensures WithinRisk(Next(u, s, Respond), t, u.cfg[t].maxPosition)
  {
    hide Tracked;
    hide AllApart;
    hide AllManaged;
    hide RequestsOk;
    hide UpdateOrder;
    hide Outstanding;
    var m, r, max := s.manager, s.responses[0], u.cfg[t].maxPosition;
    var buy, sell := Slot(t, Buy), Slot(t, Sell);
    assert r in s.responses;
    assert WithinRisk(s, t, max);
    assert Tradable(buy) && Tradable(sell);
    RespondSlot(m, s.open, s.responses, buy);
    RespondSlot(m, s.open, s.responses, sell);
  }

  lemma ResponsesShrink(rs: seq<ClientResponse>)
    requires ResponsesOk(rs) && rs != []
    ensures ResponsesOk(rs[1..]) && rs[0].ticker < ME_MAX_TICKERS
  {
    assert rs[0] in rs;
    forall r {:trigger r in rs[1..]} | r in rs[1..] ensures r in rs {
    }
  }

  lemma UpdateKeepsIds(m: Manager, open: OpenOrders, r: ClientResponse)
    requires Whole(m) && r.ticker < ME_MAX_TICKERS && AllApart(m) && AllManaged(m, open)
    requires var a := Slot(r.ticker, r.side); a in m.orders && (Tradable(a) ==> m.orders[a].state != Unset)
    ensures Whole(OnOrderUpdate(m, r)) && AllApart(OnOrderUpdate(m, r)) && AllManaged(OnOrderUpdate(m, r), open)
  {
    var n := OnOrderUpdate(m, r);
    forall a, b {:trigger Tradable(a), Tradable(b)} | Tradable(a) && Tradable(b)
      ensures a in n.orders && b in n.orders && Apart(n, a, b)
    {
      assert Apart(m, a, b);
    }
    forall k {:trigger k in open} | k in open ensures Managed(n, open, k) {
      assert Managed(m, open, k);
    }
  }

  /** The client takes the next response in. */
  lemma RespondKeepsInv(u: Setup, s: System)
    requires Inv(u, s) && Enabled(u, s, Respond)
    ensures Inv(u, Next(u, s, Respond))
  {
    hide AllApart;
    hide AllManaged;
    hide Tracked;
    hide WithinRisk;
    hide OnOrderUpdate;
    hide ResponsesOk;
    var m, rs, r := s.manager, s.responses, s.responses[0];
    ResponsesShrink(rs);
    var at := Slot(r.ticker, r.side);
    forall a {:trigger Tradable(a)} | Tradable(a)
      ensures a in OnOrderUpdate(m, r).orders && Tracked(OnOrderUpdate(m, r), s.open, rs[1..], a)
    {
      RespondSlot(m, s.open, rs, a);
      OrdersKept(m, r);
    }
    if Tradable(at) { RespondSlot(m, s.open, rs, at); }
    UpdateKeepsIds(m, s.open, r);
    OrdersKept(m, r);
    forall t {:trigger u.cfg[t]} | 0 <= t < ME_MAX_TICKERS
      ensures WithinRisk(Next(u, s, Respond), t, u.cfg[t].maxPosition) {
      RespondRisk(u, s, t);
    }
  }

  lemma OrdersKept(m: Manager, r: ClientResponse)
    requires Whole(m) && Slot(r.ticker, r.side) in m.orders
    ensures OnOrderUpdate(m, r).orders.Keys == m.orders.Keys && OnOrderUpdate(m, r).requests == m.requests
  {
  }

  // The strategy moves its orders.

  lemma CancelTracked(m: Manager, open: OpenOrders, rs: seq<ClientResponse>, client: ClientId, a: Slot, b: Slot)
    requires Tradable(a) && a in m.orders && Tracked(m, open, rs, a) && m.orders[a].state == Live
    requires Tradable(b) && b in m.orders && Tracked(m, open, rs, b)
    ensures Tracked(WithCancel(m, client, a), open, rs, b)
    ensures Outstanding(WithCancel(m, client, a).orders[b]) == Outstanding(m.orders[b])
  {
    var o := m.orders[a];
    var r := ClientRequest(RequestType.CancelOrder, client, o.ticker, o.orderId, o.side, o.price, o.qty);
    NewsAppend(m.requests, r, b);
    assert NewsOn(m.requests, b) + [] == NewsOn(m.requests, b);
  }

  lemma CancelKeeps(u: Setup, s: System, a: Slot)
    requires Inv(u, s) && Tradable(a) && a in s.manager.orders && s.manager.orders[a].state == Live
    ensures Inv(u, s.(manager := WithCancel(s.manager, u.client, a)))
  {
    hide Tracked;
    hide Outstanding;
    var m, n := s.manager, WithCancel(s.manager, u.client, a);
    forall b {:trigger Tradable(b)} | Tradable(b) ensures b in n.orders && Tracked(n, s.open, s.responses, b) {
      CancelTracked(m, s.open, s.responses, u.client, a, b);
    }
    forall b, c {:trigger Tradable(b), Tradable(c)} | Tradable(b) && Tradable(c) ensures Apart(n, b, c) {
      assert Apart(m, b, c);
    }
    forall k {:trigger k in s.open} | k in s.open ensures Managed(n, s.open, k) {
      assert Managed(m, s.open, k);
    }
    NumberedAt(m, s.open, s.responses, a);
    forall t {:trigger u.cfg[t]} | 0 <= t < ME_MAX_TICKERS
      ensures WithinRisk(s.(manager := n), t, u.cfg[t].maxPosition)
    {
      assert WithinRisk(s, t, u.cfg[t].maxPosition);
      assert Tradable(Slot(t, Buy)) && Tradable(Slot(t, Sell));
      CancelTracked(m, s.open, s.responses, u.client, a, Slot(t, Buy));
      CancelTracked(m, s.open, s.responses, u.client, a, Slot(t, Sell));
    }
  }

  lemma NumberedAt(m: Manager, open: OpenOrders, rs: seq<ClientResponse>, a: Slot)
    requires a in m.orders && Tracked(m, open, rs, a)
    ensures Numbered(m, a)
  {
  }

  /** Open orders carry ids that were handed out, and none of them sits in an idle slot. */
  lemma IdleSlot(m: Manager, open: OpenOrders, rs: seq<ClientResponse>, a: Slot)
    requires Whole(m) && AllTracked(m, open, rs) && AllManaged(m, open)
    requires Tradable(a) && a in m.orders && m.orders[a].state in {Unset, Dead}
    ensures forall k {:trigger k in open} :: k in open ==>
      k.orderId < m.nextOrderId && Slot(k.ticker, open[k].side) != a
  {
    hide Chain;
    forall k {:trigger k in open} | k in open ensures k.orderId < m.nextOrderId && Slot(k.ticker, open[k].side) != a {
      assert Managed(m, open, k);
      assert Tradable(Slot(k.ticker, open[k].side)) && Tradable(a);
    }
  }

  lemma NewTracked(m: Manager, open: OpenOrders, rs: seq<ClientResponse>, client: ClientId, a: Slot, price: Price,
      qty: Qty, b: Slot)
    requires Tradable(a) && a in m.orders && Tracked(m, open, rs, a) && m.orders[a].state in {Unset, Dead} && qty > 0
    requires Tradable(b) && b in m.orders && Tracked(m, open, rs, b)
    requires forall k {:trigger k in open} :: k in open ==> k.orderId < m.nextOrderId
    ensures Tracked(WithNew(m, client, a, price, qty), open, rs, b)
  {
    hide Chain;
    var r := ClientRequest(New, client, a.ticker, m.nextOrderId, a.side, price, qty);
    NewsAppend(m.requests, r, b);
    assert NewsOn(m.requests, b) + [] == NewsOn(m.requests, b);
  }

  lemma NewKeeps(u: Setup, s: System, a: Slot, price: Price, qty: Qty, pnl: real)
    requires Inv(u, s) && Tradable(a) && a in s.manager.orders && s.manager.orders[a].state in {Unset, Dead} && qty > 0
    requires CheckPreTradeRisk(RiskInfo(s.position[a.ticker], pnl, u.cfg[a.ticker]), a.side, qty) == Allowed
    ensures Inv(u, s.(manager := WithNew(s.manager, u.client, a, price, qty)))
  {
    hide Tracked;
    var m, n := s.manager, WithNew(s.manager, u.client, a, price, qty);
    IdleSlot(m, s.open, s.responses, a);
    forall b {:trigger Tradable(b)} | Tradable(b) ensures b in n.orders && Tracked(n, s.open, s.responses, b) {
      NewTracked(m, s.open, s.responses, u.client, a, price, qty, b);
    }
    forall b, c {:trigger Tradable(b), Tradable(c)} | Tradable(b) && Tradable(c) ensures Apart(n, b, c) {
      assert Apart(m, b, c);
      NumberedAt(m, s.open, s.responses, b);
      NumberedAt(m, s.open, s.responses, c);
    }
    forall k {:trigger k in s.open} | k in s.open ensures Managed(n, s.open, k) {
      assert Managed(m, s.open, k);
    }
    forall t {:trigger u.cfg[t]} | 0 <= t < ME_MAX_TICKERS
      ensures WithinRisk(s.(manager := n), t, u.cfg[t].maxPosition)
    {
      assert WithinRisk(s, t, u.cfg[t].maxPosition);
    }
  }

  /** A decision about one order: nothing, a cancel, or a new order the risk check allowed. */
  lemma MoveOrderKeeps(u: Setup, s: System, a: Slot, price: Price, qty: Qty, pnl: real)
    requires Inv(u, s) && Tradable(a) && qty > 0
    ensures a in s.manager.orders
    ensures var risk := RiskInfo(s.position[a.ticker], pnl, u.cfg[a.ticker]);
      Inv(u, s.(manager := MoveOrder(s.manager, u.client, a, price, qty, risk)))
  {
    hide Inv;
    hide CheckPreTradeRisk;
    InvSlot(u, s, a);
    var o := s.manager.orders[a];
    if o.state == Live {
      if o.price != price { CancelKeeps(u, s, a); }
    } else if o.state in {Unset, Dead} {
      var risk := RiskInfo(s.position[a.ticker], pnl, u.cfg[a.ticker]);
      if price != PRICE_INVALID && CheckPreTradeRisk(risk, a.side, qty) == Allowed {
        NewKeeps(u, s, a, price, qty, pnl);
      }
    }
  }

  lemma InvSlot(u: Setup, s: System, a: Slot)
    requires Inv(u, s) && Tradable(a)
    ensures a in s.manager.orders && Shaped(u, s)
  {
  }

  lemma StrategyKeepsInv(u: Setup, s: System, ticker: TickerId, bid: Price, ask: Price, clip: Qty, pnl: real)
    requires Inv(u, s) && Enabled(u, s, Strategy(ticker, bid, ask, clip, pnl))
    ensures Inv(u, Next(u, s, Strategy(ticker, bid, ask, clip, pnl)))
  {
    hide Inv;
    hide MoveOrder;
    InvSlot(u, s, Slot(ticker, Buy));
    var risk := RiskInfo(s.position[ticker], pnl, u.cfg[ticker]);
    MoveOrderKeeps(u, s, Slot(ticker, Buy), bid, clip, pnl);
    var mid := s.(manager := MoveOrder(s.manager, u.client, Slot(ticker, Buy), bid, clip, risk));
    MoveOrderKeeps(u, mid, Slot(ticker, Sell), ask, clip, pnl);
  }

  // --- Whole runs --------------------------------------------------------------------------------------------

  ghost function Start(): System {
    System(Manager(map a | a in AllSlots() :: NO_ORDER, 1, []), [0, 0, 0, 0, 0, 0, 0, 0], map[], [])
  }

  lemma StartInv(u: Setup)
    requires |u.cfg| == ME_MAX_TICKERS
    ensures Inv(u, Start())
  {
    InAllSlots();
    forall t {:trigger u.cfg[t]} | 0 <= t < ME_MAX_TICKERS ensures WithinRisk(Start(), t, u.cfg[t].maxPosition) {
    }
  }

  /** A run: each step is enabled in the state the steps before it lead to. */
  ghost predicate Runs(u: Setup, steps: seq<Step>, s: System)
    decreases |steps|
  {
    if steps == [] then s == Start()
    else
      exists before: System :: Runs(u, steps[..|steps| - 1], before) && Shaped(u, before)
        && Enabled(u, before, steps[|steps| - 1]) && s == Next(u, before, steps[|steps| - 1])
  }

  lemma StepKeepsInv(u: Setup, s: System, e: Step)
    requires Inv(u, s) && Enabled(u, s, e)
    ensures Inv(u, Next(u, s, e))
  {
    hide Inv;
    match e
    case Strategy(ticker, bid, ask, clip, pnl) => StrategyKeepsInv(u, s, ticker, bid, ask, clip, pnl);
    case Respond => RespondKeepsInv(u, s);
    case Serve(id) => ServeKeepsInv(u, s, id);
    case Fill(key, exec, price, id) => FillKeepsInv(u, s, key, exec, price, id);
  }

  /** Every state of every run satisfies the invariant. */
  lemma {:induction false} RunsKeepInv(u: Setup, steps: seq<Step>, s: System)
    requires |u.cfg| == ME_MAX_TICKERS && Runs(u, steps, s)
    ensures Inv(u, s)
    decreases |steps|
  {
    hide Inv;
    if steps == [] {
      StartInv(u);
    } else {
      var most, e := steps[..|steps| - 1], steps[|steps| - 1];
      var before: System :| Runs(u, most, before) && Shaped(u, before) && Enabled(u, before, e)
        && s == Next(u, before, e);
      RunsKeepInv(u, most, before);
      StepKeepsInv(u, before, e);
    }
  }

  lemma InvShaped(u: Setup, s: System)
    requires Inv(u, s)
    ensures Shaped(u, s)
  {
  }

  lemma InvPosition(u: Setup, s: System, t: TickerId)
    requires Inv(u, s) && t < ME_MAX_TICKERS
    ensures |s.position| == |u.cfg| == ME_MAX_TICKERS && Abs(s.position[t]) <= u.cfg[t].maxPosition
  {
    assert WithinRisk(s, t, u.cfg[t].maxPosition);
  }

  lemma InvRequests(u: Setup, s: System)
    requires Inv(u, s) && s.manager.requests != []
    ensures var r := s.manager.requests[0]; r.ticker < ME_MAX_TICKERS && (r.kind == New ==> r.side != NoSide)
  {
    RequestsShrink(s.manager);
  }

  /** The client's requests are its own, and new orders ask for something. */
  lemma ClientRequests(u: Setup, s: System, e: Step)
    requires Inv(u, s) && Enabled(u, s, e) && (e.Strategy? || e.Respond?)
    requires forall r {:trigger r in s.manager.requests} :: r in s.manager.requests ==>
      r.client == u.client && (r.kind == New ==> r.qty > 0)
    ensures forall r {:trigger r in Next(u, s, e).manager.requests} :: r in Next(u, s, e).manager.requests ==>
      r.client == u.client && (r.kind == New ==> r.qty > 0)
  {
  }

  // --- What follows ------------------------------------------------------------------------------------------

  /** In every state of every run the position limit holds, even if everything outstanding on one side trades. */
  lemma PositionBounded(u: Setup, steps: seq<Step>, s: System, t: TickerId)
    requires |u.cfg| == ME_MAX_TICKERS && Runs(u, steps, s) && t < ME_MAX_TICKERS
    ensures Shaped(u, s)
    ensures var max := u.cfg[t].maxPosition;
      && s.position[t] + Outstanding(s.manager.orders[Slot(t, Buy)]) <= max
      && s.position[t] - Outstanding(s.manager.orders[Slot(t, Sell)]) >= -(max as int)
      && Abs(s.position[t]) <= max
  {
    RunsKeepInv(u, steps, s);
    assert WithinRisk(s, t, u.cfg[t].maxPosition);
  }

  /** The quantity the fills in flight will report. */
  function FillsIn(rs: seq<ClientResponse>): Qty {
    if rs == [] then 0 else (if rs[0].kind == Filled then rs[0].execQty else 0) + FillsIn(rs[1..])
  }

  function OpenQty(open: Option<Qty>): Qty {
    if open == None then 0 else open.value
  }

  lemma {:induction false} ChainCounts(id: OrderId, qty: Qty, rs: seq<ClientResponse>, open: Option<Qty>)
    requires Chain(id, qty, rs, open)
    ensures FillsIn(rs) + OpenQty(open) <= qty
    decreases |rs|
  {
    if rs != [] && rs[0].kind == Filled {
      if rs[0].leavesQty == 0 {
        assert FillsIn(rs[1..]) == 0;
      } else {
        ChainCounts(id, rs[0].leavesQty, rs[1..], open);
      }
    } else if rs != [] {
      assert FillsIn(rs[1..]) == 0;
    }
  }

  lemma SlotCounts(o: OMOrder, news: seq<ClientRequest>, open: Option<Qty>, rs: seq<ClientResponse>)
    requires SlotOk(o, news, open, rs)
    ensures FillsIn(rs) + OpenQty(open) <= Outstanding(o)
  {
    if o.state == Live || o.state == PendingCancel {
      ChainCounts(o.orderId, o.qty, rs, open);
    } else if o.state == PendingNew && rs != [] {
      ChainCounts(o.orderId, o.qty, rs[1..], open);
    }
  }

  /** The limit also holds of the position the client has not heard of yet, and of all the exchange may still fill. */
  lemma TruePositionBounded(u: Setup, steps: seq<Step>, s: System, t: TickerId)
    requires |u.cfg| == ME_MAX_TICKERS && Runs(u, steps, s) && t < ME_MAX_TICKERS
    ensures Shaped(u, s)
    ensures var max, buy, sell := u.cfg[t].maxPosition, Slot(t, Buy), Slot(t, Sell);
      var bought, sold := FillsIn(ReportsOn(s.responses, buy)), FillsIn(ReportsOn(s.responses, sell));
      && s.position[t] + bought - sold + OpenQty(OpenOn(s.open, buy, s.manager.orders[buy].orderId)) <= max
      && s.position[t] + bought - sold - OpenQty(OpenOn(s.open, sell, s.manager.orders[sell].orderId)) >= -(max as int)
  {
    hide SlotOk;
    RunsKeepInv(u, steps, s);
    var m, buy, sell := s.manager, Slot(t, Buy), Slot(t, Sell);
    assert WithinRisk(s, t, u.cfg[t].maxPosition);
    assert Tradable(buy) && Tradable(sell);
    SlotCounts(m.orders[buy], NewsOn(m.requests, buy), OpenOn(s.open, buy, m.orders[buy].orderId),
      ReportsOn(s.responses, buy));
    SlotCounts(m.orders[sell], NewsOn(m.requests, sell), OpenOn(s.open, sell, m.orders[sell].orderId),
      ReportsOn(s.responses, sell));
  }

  /** At most one order per ticker and side is ever open, and a slot that is idle has nothing under way anywhere. */
  lemma OneOrderPerSlot(u: Setup, steps: seq<Step>, s: System, a: Slot)
    requires |u.cfg| == ME_MAX_TICKERS && Runs(u, steps, s) && Tradable(a)
    ensures forall j, k {:trigger j in s.open, k in s.open} ::
      j in s.open && k in s.open && Slot(j.ticker, s.open[j].side) == a && Slot(k.ticker, s.open[k].side) == a ==>
        j == k
    ensures a in s.manager.orders
    ensures s.manager.orders[a].state in {Unset, Dead} ==>
      && NewsOn(s.manager.requests, a) == [] && ReportsOn(s.responses, a) == []
      && forall k {:trigger k in s.open} :: k in s.open ==> Slot(k.ticker, s.open[k].side) != a
  {
    RunsKeepInv(u, steps, s);
    forall j, k {:trigger j in s.open, k in s.open} |
      j in s.open && k in s.open && Slot(j.ticker, s.open[j].side) == a && Slot(k.ticker, s.open[k].side) == a
      ensures j == k
    {
      assert Managed(s.manager, s.open, j) && Managed(s.manager, s.open, k);
    }
    if s.manager.orders[a].state in {Unset, Dead} {
      IdleSlot(s.manager, s.open, s.responses, a);
    }
  }

  /** A rejected cancel, however late, changes nothing: not the position, not the order of any side. */
  lemma RejectsAreHarmless(u: Setup, steps: seq<Step>, s: System)
    requires |u.cfg| == ME_MAX_TICKERS && Runs(u, steps, s) && s.responses != []
      && s.responses[0].kind == CancelRejected
    ensures Shaped(u, s)
    ensures var n := Next(u, s, Respond);
      && n.position == s.position
      && forall a {:trigger Tradable(a)} :: Tradable(a) ==>
           a in n.manager.orders && a in s.manager.orders && n.manager.orders[a] == s.manager.orders[a]
  {
    RunsKeepInv(u, steps, s);
    assert s.responses[0] in s.responses;
  }

  /** Every report about a side finds that side's order waiting for it, under the id it reports on. */
  lemma ReportsFindTheirOrder(u: Setup, steps: seq<Step>, s: System)
    requires |u.cfg| == ME_MAX_TICKERS && Runs(u, steps, s) && s.responses != []
      && s.responses[0].kind != CancelRejected
    ensures var r := s.responses[0]; var a := Slot(r.ticker, r.side);
      && Tradable(a) && a in s.manager.orders
      && s.manager.orders[a].state in {PendingNew, Live, PendingCancel}
      && s.manager.orders[a].orderId == r.clientOrderId
  {
    RunsKeepInv(u, steps, s);
    var r := s.responses[0];
    assert r in s.responses;
    assert Tradable(Slot(r.ticker, r.side));
    RespondSlot(s.manager, s.open, s.responses, Slot(r.ticker, r.side));
  }

  /** The exchange never receives a new order under an id that the client still has open there. */
  lemma NewIdsAreFresh(u: Setup, steps: seq<Step>, s: System)
    requires |u.cfg| == ME_MAX_TICKERS && Runs(u, steps, s) && s.manager.requests != []
      && s.manager.requests[0].kind == New
    ensures var r := s.manager.requests[0];
      Key(r.ticker, r.orderId) !in s.open && r.side != NoSide && r.ticker < ME_MAX_TICKERS
  {
    RunsKeepInv(u, steps, s);
    ServeKeepsInv(u, s, 0);
    RequestsShrink(s.manager);
  }

  // --- What the client asks for --------------------------------------------------------------------------------

  /** The requests about one slot. */
  function SentOn(rs: seq<ClientRequest>, a: Slot): seq<ClientRequest> {
    if rs == [] then [] else (if Slot(rs[0].ticker, rs[0].side) == a then [rs[0]] else []) + SentOn(rs[1..], a)
  }

  /**
   What was sent about a slot that is to have an order at this price: nothing while its order is pending or there
   already; a cancel of an order that lives elsewhere; and a new order, exactly as wanted and within every limit, if
   there was none.
   */
  ghost predicate AsWanted(u: Setup, o: OMOrder, now: OMOrder, sent: seq<ClientRequest>, a: Slot, price: Price,
      qty: Qty, risk: RiskInfo)
  {
    && (o.state in {PendingNew, PendingCancel} || (o.state == Live && o.price == price) ==> sent == [] && now == o)
    && (o.state == Live && o.price != price ==>
          && now == o.(state := PendingCancel) && |sent| == 1
          && sent[0].kind == CancelOrder && sent[0].client == u.client && sent[0].orderId == o.orderId)
    && (o.state in {Unset, Dead} ==>
          if price == PRICE_INVALID || !WithinLimits(risk, a.side, qty) then sent == [] && now == o
          else
            && now.state == PendingNew && now.price == price && now.qty == qty && |sent| == 1
            && sent[0] == ClientRequest(New, u.client, a.ticker, now.orderId, a.side, price, qty))
  }

  lemma {:induction false} SentOnAppend(xs: seq<ClientRequest>, ys: seq<ClientRequest>, a: Slot)
    ensures SentOn(xs + ys, a) == SentOn(xs, a) + SentOn(ys, a)
  {
    if xs == [] {
      assert xs + ys == ys;
    } else {
      assert (xs + ys)[0] == xs[0] && (xs + ys)[1..] == xs[1..] + ys;
      SentOnAppend(xs[1..], ys, a);
    }
  }

  /** One order moved: what was sent is about its slot alone. */
  lemma OneAsWanted(u: Setup, m: Manager, a: Slot, price: Price, qty: Qty, risk: RiskInfo)
    returns (sent: seq<ClientRequest>)
    requires a in m.orders && Numbered(m, a)
    ensures var n := MoveOrder(m, u.client, a, price, qty, risk);
      && n.requests == m.requests + sent && n.orders.Keys == m.orders.Keys
      && (forall b :: b in m.orders && b != a ==> n.orders[b] == m.orders[b] && SentOn(sent, b) == [])
      && SentOn(sent, a) == sent && (forall r :: r in sent ==> Slot(r.ticker, r.side) == a)
      && AsWanted(u, m.orders[a], n.orders[a], sent, a, price, qty, risk)
  {
    hide MoveOrder;
    hide WithinLimits;
    MovedAsWanted(m, u.client, a, price, qty, risk);
    var n := MoveOrder(m, u.client, a, price, qty, risk);
    sent := n.requests[|m.requests|..];
    if sent != [] { assert sent[1..] == []; }
  }

  /** Both sides of a ticker are as wanted, and nothing else was touched or asked for. */
  ghost predicate TickerAsWanted(u: Setup, m: Manager, n: Manager, ticker: TickerId, bid: Price, ask: Price, clip: Qty,
      risk: RiskInfo)
    requires Whole(m) && Whole(n) && ticker < ME_MAX_TICKERS
  {
    var buy, sell := Slot(ticker, Buy), Slot(ticker, Sell);
    && m.requests <= n.requests
    && var sent := n.requests[|m.requests|..];
       && AsWanted(u, m.orders[buy], n.orders[buy], SentOn(sent, buy), buy, bid, clip, risk)
       && AsWanted(u, m.orders[sell], n.orders[sell], SentOn(sent, sell), sell, ask, clip, risk)
       && (forall b {:trigger n.orders[b]} :: b in m.orders && b != buy && b != sell ==>
             b in n.orders && n.orders[b] == m.orders[b] && SentOn(sent, b) == [])
       && (forall r :: r in sent ==> Slot(r.ticker, r.side) in {buy, sell})
  }

  lemma BothAsWanted(u: Setup, m: Manager, ticker: TickerId, bid: Price, ask: Price, clip: Qty, risk: RiskInfo)
    requires Whole(m) && ticker < ME_MAX_TICKERS
    requires Numbered(m, Slot(ticker, Buy)) && Numbered(m, Slot(ticker, Sell))
    ensures var n := MoveOrders(m, u.client, ticker, bid, ask, clip, risk);
      Whole(n) && TickerAsWanted(u, m, n, ticker, bid, ask, clip, risk)
  {
    hide MoveOrder;
    hide AsWanted;
    hide Numbered;
    hide SentOn;
    var buy, sell := Slot(ticker, Buy), Slot(ticker, Sell);
    var first := OneAsWanted(u, m, buy, bid, clip, risk);
    var mid := MoveOrder(m, u.client, buy, bid, clip, risk);
    NumberedOn(m, mid, u.client, buy, bid, clip, risk, sell);
    var second := OneAsWanted(u, mid, sell, ask, clip, risk);
    var n := MoveOrder(mid, u.client, sell, ask, clip, risk);
    assert n.requests == m.requests + (first + second);
    SentOnAppend(first, second, buy);
    SentOnAppend(first, second, sell);
    assert [] + SentOn(second, sell) == SentOn(second, sell) && SentOn(first, buy) + [] == SentOn(first, buy);
    forall b {:trigger n.orders[b]} | b in m.orders && b != buy && b != sell
      ensures b in n.orders && n.orders[b] == m.orders[b] && SentOn(first + second, b) == []
    {
      SentOnAppend(first, second, b);
    }
  }

  /**
   In every run, a step of the strategy sends about each side of its ticker exactly what is wanted there, the bid for
   the buy side and the ask for the sell side, and touches nothing else.
   */
  lemma StrategyAsks(u: Setup, steps: seq<Step>, s: System, ticker: TickerId, bid: Price, ask: Price, clip: Qty,
      pnl: real)
    requires |u.cfg| == ME_MAX_TICKERS && Runs(u, steps, s) && ticker < ME_MAX_TICKERS && clip > 0
    ensures Shaped(u, s)
    ensures var n := Next(u, s, Strategy(ticker, bid, ask, clip, pnl)).manager;
      && Whole(n)
      && TickerAsWanted(u, s.manager, n, ticker, bid, ask, clip, RiskInfo(s.position[ticker], pnl, u.cfg[ticker]))
  {
    hide Inv;
    hide Runs;
    hide MoveOrders;
    hide TickerAsWanted;
    RunsKeepInv(u, steps, s);
    InvNumbered(u, s, Slot(ticker, Buy));
    InvNumbered(u, s, Slot(ticker, Sell));
    BothAsWanted(u, s.manager, ticker, bid, ask, clip, RiskInfo(s.position[ticker], pnl, u.cfg[ticker]));
  }

  lemma InvNumbered(u: Setup, s: System, a: Slot)
    requires Inv(u, s) && Tradable(a)
    ensures Shaped(u, s) && a in s.manager.orders && Numbered(s.manager, a)
  {
    assert Tracked(s.manager, s.open, s.responses, a);
  }

  lemma NumberedOn(m: Manager, n: Manager, client: ClientId, a: Slot, price: Price, qty: Qty, risk: RiskInfo, b: Slot)
    requires a in m.orders && b in m.orders && b != a && Numbered(m, b)
    requires n == MoveOrder(m, client, a, price, qty, risk)
    ensures b in n.orders && Numbered(n, b)
  {
  }
}
