/**
 A client and the real matching engine together: the client's protocol over its channels on one end, the engine's books
 and any number of other clients on the other.
 */
module EndToEnd {
  import opened Types
  import opened PriceTime
  import opened Matching
  import opened Runs
  import opened EngineContract
  import opened Replication
  import P = OrderProtocol

  // The engine's books, and one client with its channels.  What the client has open is what the books say.
  datatype World = World(market: Market, system: P.System)

  datatype Act =
    | Client(step: P.Step)
    | Own
    | Other(request: ClientRequest)

  /** The client acts, or the engine takes the client's next request, or the engine takes somebody else's. */
  ghost predicate Leads(u: P.Setup, w: World, act: Act, n: World)
    requires GoodMarket(w.market) && P.Shaped(u, w.system)
  {
    match act
    case Client(step) =>
      && (step.Strategy? || step.Respond?) && P.Enabled(u, w.system, step)
      && n == World(w.market, P.Next(u, w.system, step))
    case Own =>
      w.system.manager.requests != [] &&
      var r := w.system.manager.requests[0];
      r.client == u.client && Legal(w.market, r) &&
      var e := Handle(w.market, r);
      && n.market == w.market[r.ticker := e.state]
      && n.system == P.System(w.system.manager.(requests := w.system.manager.requests[1..]), w.system.position,
                              n.system.open, w.system.responses + For(e.responses, u.client))
      && HasOpen(n.market, u.client, n.system.open)
    case Other(r) =>
      r.client != u.client && Legal(w.market, r) &&
      var e := Handle(w.market, r);
      && n.market == w.market[r.ticker := e.state]
      && n.system == w.system.(open := n.system.open, responses := w.system.responses + For(e.responses, u.client))
      && HasOpen(n.market, u.client, n.system.open)
  }

  ghost predicate Sound(u: P.Setup, w: World) {
    && GoodMarket(w.market) && P.Inv(u, w.system) && HasOpen(w.market, u.client, w.system.open)
    && forall r {:trigger r in w.system.manager.requests} :: r in w.system.manager.requests ==>
         r.client == u.client && (r.kind == New ==> r.qty > 0)
  }

  /** The books leave no doubt about what a client has open. */
  lemma OpenIsUnique(m: Market, c: ClientId, a: P.OpenOrders, b: P.OpenOrders)
    requires HasOpen(m, c, a) && HasOpen(m, c, b)
    ensures a == b
  {
    forall k: P.Key | k in a ensures k in b && a[k] == b[k] { OpenIn(m, c, a, b, k); }
    forall k: P.Key | k in b ensures k in a { OpenIn(m, c, b, a, k); }
  }

  lemma OpenIn(m: Market, c: ClientId, a: P.OpenOrders, b: P.OpenOrders, k: P.Key)
    requires HasOpen(m, c, a) && HasOpen(m, c, b) && k in a
    ensures k in b && a[k] == b[k]
  {
    var x := m[k.ticker];
    assert Reflects(x.book, x.owners, k.ticker, c, a, None) && Reflects(x.book, x.owners, k.ticker, c, b, None);
    assert Rests(x.book, x.owners, c, k);
    var e :| InBook(x.book, e) && e.id in x.owners && x.owners[e.id] == Owner(c, k.orderId);
    assert Shown(x.book, x.owners, k.ticker, c, a, e) && Shown(x.book, x.owners, k.ticker, c, b, e);
  }

  /** A row of fills is a row of steps of the protocol. */
  lemma {:induction false} FillsAreSteps(u: P.Setup, s: P.System, fills: seq<ClientResponse>, left: P.OpenOrders)
    requires P.Inv(u, s) && FillsLead(u.client, s.open, fills, left)
    ensures P.Inv(u, s.(open := left, responses := s.responses + fills))
    decreases |fills|
  {
    hide P.Inv;
    if fills == [] {
      assert s.responses + fills == s.responses;
    } else {
      var r := fills[0];
      var k := P.Key(r.ticker, r.clientOrderId);
      var step := P.Step.Fill(k, r.execQty, r.price, r.marketOrderId);
      P.InvShaped(u, s);
      P.FillKeepsInv(u, s, k, r.execQty, r.price, r.marketOrderId);
      var n := P.Next(u, s, step);
      assert n == s.(open := P.OpenAfter(s.open, k, r.execQty), responses := s.responses + [r]);
      FillsAreSteps(u, n, fills[1..], left);
      assert s.responses + [r] + fills[1..] == s.responses + fills;
    }
  }

  /** The engine may take the client's next request: what the engine demands of a new order always holds. */
  lemma OwnIsLegal(u: P.Setup, w: World)
    requires Sound(u, w) && w.system.manager.requests != []
    ensures var r := w.system.manager.requests[0]; r.client == u.client && Legal(w.market, r)
  {
    hide P.Inv;
    var s, r := w.system, w.system.manager.requests[0];
    assert r in s.manager.requests;
    P.InvShaped(u, s);
    P.ServeKeepsInv(u, s, 0);
    P.InvRequests(u, s);
    if r.kind == New {
      var x := w.market[r.ticker];
      var k := P.Key(r.ticker, r.orderId);
      assert Reflects(x.book, x.owners, r.ticker, u.client, s.open, None);
      forall i | i in x.owners ensures x.owners[i] != Owner(u.client, r.orderId) {
        assert RestsIn(x.book, i);
        assert InBook(x.book, Lookup(x.book, i));
        assert Shown(x.book, x.owners, r.ticker, u.client, s.open, Lookup(x.book, i));
      }
    }
  }

  lemma OwnKeepsSound(u: P.Setup, w: World, n: World)
    requires Sound(u, w) && P.Shaped(u, w.system) && Leads(u, w, Own, n)
    ensures Sound(u, n)
  {
    hide P.Inv;
    hide HasOpen;
    hide FillsLead;
    hide For;
    var s, r := w.system, w.system.manager.requests[0];
    assert r in s.manager.requests;
    var left, fills, id := EngineServes(w.market, r, u.client, s.open);
    OpenIsUnique(n.market, u.client, left, n.system.open);
    P.ServeKeepsInv(u, s, id);
    var served := P.Next(u, s, P.Serve(id));
    assert served.open == P.AfterServe(s.open, r);
    FillsAreSteps(u, served, fills, left);
    assert served.responses + fills == s.responses + For(Handle(w.market, r).responses, u.client);
    assert n.system == served.(open := left, responses := served.responses + fills);
    forall q {:trigger q in n.system.manager.requests} | q in n.system.manager.requests
      ensures q in s.manager.requests {
    }
    MarketStaysGood(w.market, r);
  }

  lemma MarketStaysGood(m: Market, r: ClientRequest)
    requires GoodMarket(m) && Legal(m, r)
    ensures GoodMarket(m[r.ticker := Handle(m, r).state])
  {
  }

  lemma OtherKeepsSound(u: P.Setup, w: World, r: ClientRequest, n: World)
    requires Sound(u, w) && P.Shaped(u, w.system) && Leads(u, w, Other(r), n)
    ensures Sound(u, n)
  {
    hide P.Inv;
    hide HasOpen;
    hide FillsLead;
    hide For;
    var s := w.system;
    var left, fills, id := EngineServes(w.market, r, u.client, s.open);
    OpenIsUnique(n.market, u.client, left, n.system.open);
    FillsAreSteps(u, s, fills, left);
    MarketStaysGood(w.market, r);
  }

  lemma ClientKeepsSound(u: P.Setup, w: World, step: P.Step, n: World)
    requires Sound(u, w) && P.Shaped(u, w.system) && Leads(u, w, Client(step), n)
    ensures Sound(u, n)
  {
    hide P.Inv;
    hide HasOpen;
    hide GoodMarket;
    P.StepKeepsInv(u, w.system, step);
    P.ClientRequests(u, w.system, step);
  }

  /** A run of the client, the engine and everybody else. */
  ghost predicate RunsTo(u: P.Setup, acts: seq<Act>, w: World)
    decreases |acts|
  {
    if acts == [] then w == World(OpeningMarket(), P.Start())
    else
      exists b: World :: RunsTo(u, acts[..|acts| - 1], b) && GoodMarket(b.market) && P.Shaped(u, b.system)
        && Leads(u, b, acts[|acts| - 1], w)
  }

  lemma StartSound(u: P.Setup)
    requires |u.cfg| == ME_MAX_TICKERS
    ensures Sound(u, World(OpeningMarket(), P.Start()))
  {
    P.StartInv(u);
    EmptyGood();
  }

  /** Every state of every such run is sound. */
  lemma {:induction false} AlwaysSound(u: P.Setup, acts: seq<Act>, w: World)
    requires |u.cfg| == ME_MAX_TICKERS && RunsTo(u, acts, w)
    ensures Sound(u, w)
    decreases |acts|
  {
    hide Sound;
    hide Leads;
    if acts == [] {
      StartSound(u);
    } else {
      var act := acts[|acts| - 1];
      var b: World :| RunsTo(u, acts[..|acts| - 1], b) && GoodMarket(b.market) && P.Shaped(u, b.system)
        && Leads(u, b, act, w);
      AlwaysSound(u, acts[..|acts| - 1], b);
      match act
      case Client(step) => ClientKeepsSound(u, b, step, w);
      case Own => OwnKeepsSound(u, b, w);
      case Other(r) => OtherKeepsSound(u, b, r, w);
    }
  }

  ghost predicate OwnedBy(x: Exchange, c: ClientId, e: Entry) {
    InBook(x.book, e) && e.id in x.owners && x.owners[e.id].client == c
  }

  lemma OnePerSide(u: P.Setup, w: World, t: TickerId, d: Entry, e: Entry)
    requires Sound(u, w) && t < |w.market|
    requires OwnedBy(w.market[t], u.client, d) && OwnedBy(w.market[t], u.client, e) && d.side == e.side
    ensures d == e
  {
    hide WellFormed;
    var x, open := w.market[t], w.system.open;
    assert Reflects(x.book, x.owners, t, u.client, open, None);
    assert Shown(x.book, x.owners, t, u.client, open, d) && Shown(x.book, x.owners, t, u.client, open, e);
    var j, k := P.Key(t, x.owners[d.id].clientOrderId), P.Key(t, x.owners[e.id].clientOrderId);
    assert P.Managed(w.system.manager, open, j) && P.Managed(w.system.manager, open, k);
    assert x.owners[d.id] == x.owners[e.id];
    LookupEntry(x.book, d);
    LookupEntry(x.book, e);
  }

  /**
   With the real engine and any other clients, in every run: the client stays within its position limit, has at most one
   order per ticker and side in the engine's books, and its next request is always one the engine can take.
   */
  lemma ClientWithinLimits(u: P.Setup, acts: seq<Act>, w: World, t: TickerId)
    requires |u.cfg| == ME_MAX_TICKERS && RunsTo(u, acts, w) && t < ME_MAX_TICKERS
    ensures |w.system.position| == ME_MAX_TICKERS
      && -(u.cfg[t].maxPosition as int) <= w.system.position[t] <= u.cfg[t].maxPosition
    ensures |w.market| == ME_MAX_TICKERS
    ensures forall d, e {:trigger OwnedBy(w.market[t], u.client, d), OwnedBy(w.market[t], u.client, e)} ::
      OwnedBy(w.market[t], u.client, d) && OwnedBy(w.market[t], u.client, e) && d.side == e.side ==> d == e
    ensures w.system.manager.requests != [] ==> Legal(w.market, w.system.manager.requests[0])
  {
    hide P.Inv;
    AlwaysSound(u, acts, w);
    P.InvPosition(u, w.system, t);
    forall d, e {:trigger OwnedBy(w.market[t], u.client, d), OwnedBy(w.market[t], u.client, e)} |
      OwnedBy(w.market[t], u.client, d) && OwnedBy(w.market[t], u.client, e) && d.side == e.side
      ensures d == e
    {
      OnePerSide(u, w, t, d, e);
    }
    if w.system.manager.requests != [] { OwnIsLegal(u, w); }
  }
}
