/** Whole runs of the matching engine over all its books, on values. */
module Runs {
  import opened Types
  import opened PriceTime
  import opened Matching

  // One order book per ticker.
  type Market = seq<Exchange>

  // Where a run has led, and every message sent on the way.
  datatype Session = Session(market: Market, responses: seq<ClientResponse>, updates: seq<MarketUpdate>)

  function OpeningMarket(): Market {
    [NEW_EXCHANGE, NEW_EXCHANGE, NEW_EXCHANGE, NEW_EXCHANGE, NEW_EXCHANGE, NEW_EXCHANGE, NEW_EXCHANGE, NEW_EXCHANGE]
  }

  ghost predicate GoodMarket(m: Market) {
    |m| == ME_MAX_TICKERS && forall t :: 0 <= t < |m| ==> Good(m[t])
  }

  function OrderOf(r: ClientRequest): NewOrder {
    NewOrder(r.client, r.orderId, r.side, r.price, r.qty)
  }

  /** A request for a listed ticker; a new order has a side and an order id its client has no live order under. */
  ghost predicate Legal(m: Market, r: ClientRequest) {
    r.ticker < |m| && (r.kind == New ==> CanSubmit(m[r.ticker], OrderOf(r)))
  }

  ghost function Handle(m: Market, r: ClientRequest): (e: Effect)
    requires GoodMarket(m) && Legal(m, r)
    ensures Good(e.state)
  {
    if r.kind == New then
      SubmittedOwnable(m[r.ticker], OrderOf(r));
      AddKeepsGood(m[r.ticker], r.ticker, OrderOf(r));
      AddEffect(m[r.ticker], r.ticker, OrderOf(r))
    else
      CancelKeepsGood(m[r.ticker], r.ticker, r.client, r.orderId);
      CancelEffect(m[r.ticker], r.ticker, r.client, r.orderId)
  }

  ghost predicate LegalRun(rs: seq<ClientRequest>)
    decreases |rs|, 0
  {
    rs == [] || (LegalRun(rs[..|rs| - 1]) && Legal(Run(rs[..|rs| - 1]).market, rs[|rs| - 1]))
  }

  /** The session that follows from handling these requests one after the other. */
  ghost function Run(rs: seq<ClientRequest>): (s: Session)
    requires LegalRun(rs)
    ensures GoodMarket(s.market)
    decreases |rs|, 1
  {
    if rs == [] then
      EmptyGood();
      Session(OpeningMarket(), [], [])
    else
      var s, r := Run(rs[..|rs| - 1]), rs[|rs| - 1];
      var e := Handle(s.market, r);
      Session(s.market[r.ticker := e.state], s.responses + e.responses, s.updates + e.updates)
  }

  lemma EmptyGood()
    ensures Good(NEW_EXCHANGE)
  {
  }

  /** No book is ever crossed or locked, whatever the requests. */
  lemma NeverCrossed(rs: seq<ClientRequest>, t: TickerId)
    requires LegalRun(rs) && t < ME_MAX_TICKERS
    ensures var b := Run(rs).market[t].book;
      forall i, j :: 0 <= i < |b.bids| && 0 <= j < |b.asks| ==> b.bids[i].price < b.asks[j].price
  {
    var b := Run(rs).market[t].book;
    assert Good(Run(rs).market[t]);
    forall i, j | 0 <= i < |b.bids| && 0 <= j < |b.asks| ensures b.bids[i].price < b.asks[j].price {
      PricesDisjoint(b, i, j);
    }
  }
}
