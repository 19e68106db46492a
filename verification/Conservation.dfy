/** Nothing is lost: what the client responses of a run add up to. */
module Conservation {
  import opened Types
  import opened PriceTime
  import opened Matching
  import opened Runs
  import opened Sums

  // --- What the messages say ---------------------------------------------------------------------------------

  /** The quantity a response reports about this order: what it traded, or what was open when it came or went. */
  function Reported(kind: ResponseType, ticker: TickerId, id: OrderId): ClientResponse -> nat {
    (r: ClientResponse) =>
      if r.kind != kind || r.ticker != ticker || r.marketOrderId != id then 0
      else if kind == Filled then r.execQty else r.leavesQty
  }

  function Total(rs: seq<ClientResponse>, kind: ResponseType, ticker: TickerId, id: OrderId): nat {
    Sum(rs, Reported(kind, ticker, id))
  }

  lemma TotalsAppend(a: seq<ClientResponse>, b: seq<ClientResponse>, ticker: TickerId, id: OrderId)
    ensures Total(a + b, Accepted, ticker, id) == Total(a, Accepted, ticker, id) + Total(b, Accepted, ticker, id)
    ensures Total(a + b, Filled, ticker, id) == Total(a, Filled, ticker, id) + Total(b, Filled, ticker, id)
    ensures Total(a + b, Canceled, ticker, id) == Total(a, Canceled, ticker, id) + Total(b, Canceled, ticker, id)
  {
    SumAppend(a, b, Reported(Accepted, ticker, id));
    SumAppend(a, b, Reported(Filled, ticker, id));
    SumAppend(a, b, Reported(Canceled, ticker, id));
  }

  function FilledOn(side: Side): ClientResponse -> nat {
    (r: ClientResponse) => if r.kind == Filled && r.side == side then r.execQty else 0
  }

  function Printed(): MarketUpdate -> nat {
    (u: MarketUpdate) => if u.kind == Trade then u.qty else 0
  }

  // --- What the book holds -----------------------------------------------------------------------------------

  function OpenOf(id: OrderId): Entry -> nat {
    (e: Entry) => if e.id == id then e.qty else 0
  }

  /** The quantity that rests in the book under this id. */
  function RestingQty(b: Book, id: OrderId): nat {
    Sum(b.bids, OpenOf(id)) + Sum(b.asks, OpenOf(id))
  }

  lemma {:induction false} NoneOpen(s: seq<Entry>, id: OrderId)
    requires !Has(s, id)
    ensures Sum(s, OpenOf(id)) == 0
  {
    if s != [] {
      assert s[0].id != id;
      assert forall i :: 0 <= i < |s[1..]| ==> s[1..][i] == s[i + 1];
      NoneOpen(s[1..], id);
    }
  }

  lemma SplitAt(s: seq<Entry>, k: nat, id: OrderId)
    requires k < |s|
    ensures Sum(s, OpenOf(id)) == Sum(s[..k], OpenOf(id)) + OpenOf(id)(s[k]) + Sum(s[k + 1..], OpenOf(id))
    ensures Sum(RemoveAt(s, k), OpenOf(id)) == Sum(s[..k], OpenOf(id)) + Sum(s[k + 1..], OpenOf(id))
  {
    hide Sum;
    assert s == s[..k] + ([s[k]] + s[k + 1..]);
    SumOne(s[k], OpenOf(id));
    SumAppend(s[..k], [s[k]] + s[k + 1..], OpenOf(id));
    SumAppend([s[k]], s[k + 1..], OpenOf(id));
    SumAppend(s[..k], s[k + 1..], OpenOf(id));
  }

  lemma InsertOpens(s: seq<Entry>, k: nat, e: Entry, id: OrderId)
    requires k <= |s|
    ensures Sum(InsertAt(s, k, e), OpenOf(id)) == Sum(s, OpenOf(id)) + OpenOf(id)(e)
  {
    hide Sum;
    assert s == s[..k] + s[k..];
    SumOne(e, OpenOf(id));
    SumAppend(s[..k], s[k..], OpenOf(id));
    SumAppend(s[..k] + [e], s[k..], OpenOf(id));
    SumAppend(s[..k], [e], OpenOf(id));
  }

  /** In a well-formed book the resting quantity of an order is the quantity of its one entry. */
  lemma RestingIsEntry(b: Book, id: OrderId)
    requires WellFormed(b)
    ensures RestingQty(b, id) == if RestsIn(b, id) then Lookup(b, id).qty else 0
  {
    OneSide(b, id);
    if Has(b.bids, id) {
      OneOpen(Buy, b.bids, id);
      NoneOpen(b.asks, id);
    } else if Has(b.asks, id) {
      NoneOpen(b.bids, id);
      OneOpen(Sell, b.asks, id);
    } else {
      NoneOpen(b.bids, id);
      NoneOpen(b.asks, id);
    }
  }

  lemma OneOpen(side: Side, s: seq<Entry>, id: OrderId)
    requires SideOk(side, s) && Has(s, id)
    ensures Sum(s, OpenOf(id)) == s[IndexOf(s, id)].qty
  {
    var k := IndexOf(s, id);
    SplitAt(s, k, id);
    forall i | 0 <= i < k ensures s[i].id != id {
      assert Before(side, s[i], s[k]);
    }
    forall i | k < i < |s| ensures s[i].id != id {
      assert Before(side, s[k], s[i]);
    }
    var t := s[k + 1..];
    forall i | 0 <= i < |t| ensures t[i].id != id {
      assert t[i] == s[k + 1 + i];
    }
    NoneOpen(s[..k], id);
    NoneOpen(t, id);
  }

  // --- One match ---------------------------------------------------------------------------------------------

  function TakenFrom(id: OrderId): Fill -> nat {
    (f: Fill) => if f.passive.id == id then f.exec else 0
  }

  function Taken(): Fill -> nat {
    (f: Fill) => f.exec
  }

  /** Greedy matching moves quantity from the resting orders and from the aggressor into the fills, and loses none. */
  lemma {:induction false} GreedyConserves(side: Side, limit: Price, qty: Qty, s: seq<Entry>, id: OrderId)
    ensures var g := Greedy(side, limit, qty, s);
      && Sum(s, OpenOf(id)) == Sum(g.rest, OpenOf(id)) + Sum(g.fills, TakenFrom(id))
      && qty == g.leaves + Sum(g.fills, Taken())
    decreases |s|
  {
    hide Sum;
    if qty > 0 && s != [] && Crosses(side, limit, s[0].price) {
      var exec := Min(qty, s[0].qty);
      var f := Fill(s[0], exec, qty - exec);
      assert s == [s[0]] + s[1..];
      SumFirst(s[0], s[1..], OpenOf(id));
      if exec == s[0].qty {
        GreedyConserves(side, limit, qty - exec, s[1..], id);
        var fills := Greedy(side, limit, qty - exec, s[1..]).fills;
        SumFirst(f, fills, TakenFrom(id));
        SumFirst(f, fills, Taken());
      } else {
        SumFirst(s[0].(qty := s[0].qty - exec), s[1..], OpenOf(id));
        SumOne(f, TakenFrom(id));
        SumOne(f, Taken());
      }
    } else {
      SumNone(TakenFrom(id));
      SumNone(Taken());
    }
  }

  /** The reports of a sequence of fills add up to the fills of each order. */
  lemma {:induction false} FillReports(o: NewOrder, nid: OrderId, ticker: TickerId, owners: map<OrderId, Owner>,
                                       fills: seq<Fill>, id: OrderId)
    requires forall f :: f in fills ==> f.passive.id in owners && f.exec <= f.passive.qty && f.passive.id != nid
    ensures var rs := FillResponses(o, nid, ticker, owners, fills);
      && Total(rs, Filled, ticker, id) == Sum(fills, TakenFrom(id)) + (if id == nid then Sum(fills, Taken()) else 0)
      && Total(rs, Accepted, ticker, id) == 0 && Total(rs, Canceled, ticker, id) == 0
    decreases |fills|
  {
    if fills != [] {
      var f, most := fills[|fills| - 1], fills[..|fills| - 1];
      FillReports(o, nid, ticker, owners, most, id);
      var rs, more := FillResponses(o, nid, ticker, owners, most), Reports(o, nid, ticker, owners[f.passive.id], f);
      assert fills == most + [f];
      SumAppend(most, [f], TakenFrom(id));
      SumAppend(most, [f], Taken());
      PairTotal(rs, more, Reported(Filled, ticker, id));
      PairTotal(rs, more, Reported(Accepted, ticker, id));
      PairTotal(rs, more, Reported(Canceled, ticker, id));
    }
  }

  /** The reports of a sequence of fills add up to the same on both sides, and so do the prints. */
  lemma {:induction false} FillSides(o: NewOrder, nid: OrderId, ticker: TickerId, owners: map<OrderId, Owner>,
      fills: seq<Fill>)
    requires forall f :: f in fills ==>
      f.passive.id in owners && f.exec <= f.passive.qty && f.passive.side == Opposite(o.side)
    requires o.side != NoSide
    ensures var rs := FillResponses(o, nid, ticker, owners, fills);
      && Sum(rs, FilledOn(o.side)) == Sum(fills, Taken()) && Sum(rs, FilledOn(Opposite(o.side))) == Sum(fills, Taken())
      && Sum(FillUpdates(o.side, ticker, fills), Printed()) == Sum(fills, Taken())
    decreases |fills|
  {
    if fills != [] {
      var f, most := fills[|fills| - 1], fills[..|fills| - 1];
      FillSides(o, nid, ticker, owners, most);
      var rs, us := FillResponses(o, nid, ticker, owners, most), FillUpdates(o.side, ticker, most);
      var more, prints := Reports(o, nid, ticker, owners[f.passive.id], f), Prints(o.side, ticker, f);
      assert fills == most + [f];
      SumAppend(most, [f], Taken());
      PairTotal(rs, more, FilledOn(o.side));
      PairTotal(rs, more, FilledOn(Opposite(o.side)));
      PairTotal(us, prints, Printed());
    }
  }

  /** The reports of a sequence of fills add up to the fills, on both sides and in the prints. */
  lemma FillTotals(o: NewOrder, nid: OrderId, ticker: TickerId, owners: map<OrderId, Owner>, fills: seq<Fill>,
      id: OrderId)
    requires forall f :: f in fills ==> f.passive.id in owners && f.exec <= f.passive.qty
    requires forall f :: f in fills ==> f.passive.id != nid && f.passive.side == Opposite(o.side)
    requires o.side != NoSide
    ensures var rs := FillResponses(o, nid, ticker, owners, fills);
      && Total(rs, Filled, ticker, id) == Sum(fills, TakenFrom(id)) + (if id == nid then Sum(fills, Taken()) else 0)
      && Total(rs, Accepted, ticker, id) == 0 && Total(rs, Canceled, ticker, id) == 0
      && Sum(rs, FilledOn(o.side)) == Sum(fills, Taken()) && Sum(rs, FilledOn(Opposite(o.side))) == Sum(fills, Taken())
      && Sum(FillUpdates(o.side, ticker, fills), Printed()) == Sum(fills, Taken())
  {
    FillReports(o, nid, ticker, owners, fills, id);
    FillSides(o, nid, ticker, owners, fills);
  }

  lemma PairTotal<T>(a: seq<T>, b: seq<T>, f: T -> nat)
    requires |b| == 2
    ensures Sum(a + b, f) == Sum(a, f) + f(b[0]) + f(b[1])
  {
    SumAppend(a, b, f);
    SumTwo(b[0], b[1], f);
    assert b == [b[0], b[1]];
  }

  // --- One request -------------------------------------------------------------------------------------------

  /**
   The books balance over a request: what it says came in, was traded or was cancelled is what the book gained or
   lost.
   */
  ghost predicate Balances(x: Exchange, e: Effect, ticker: TickerId, id: OrderId) {
    RestingQty(x.book, id) + Total(e.responses, Accepted, ticker, id)
      == RestingQty(e.state.book, id) + Total(e.responses, Filled, ticker, id)
        + Total(e.responses, Canceled, ticker, id)
  }

  ghost predicate TwoSided(e: Effect) {
    && Sum(e.responses, FilledOn(Buy)) == Sum(e.responses, FilledOn(Sell))
    && Sum(e.updates, Printed()) == Sum(e.responses, FilledOn(Buy))
  }

  lemma MatchTotals(x: Exchange, ticker: TickerId, o: NewOrder, id: OrderId)
    requires Good(x) && o.side != NoSide
    ensures var m, g := MatchEffect(x, ticker, o), Greedy(o.side, o.price, o.qty, x.book.Of(Opposite(o.side)));
      && RestingQty(x.book, id) + (if id == x.nextId then o.qty - g.leaves else 0)
           == RestingQty(m.state.book, id) + Total(m.responses, Filled, ticker, id)
      && Total(m.responses, Accepted, ticker, id) == 0 && Total(m.responses, Canceled, ticker, id) == 0
      && TwoSided(m)
      && g.leaves <= o.qty
  {
    var s := x.book.Of(Opposite(o.side));
    var g := Greedy(o.side, o.price, o.qty, s);
    GreedyConserves(o.side, o.price, o.qty, s, id);
    GreedyFills(o.side, o.price, o.qty, s);
    FilledOwners(x, Opposite(o.side), g.fills);
    forall f | f in g.fills ensures f.passive.id != x.nextId && f.passive.side == Opposite(o.side) {
      var i :| 0 <= i < |g.fills| && g.fills[i] == f;
      assert RestsIn(x.book, s[i].id);
    }
    FillTotals(o, x.nextId, ticker, x.owners, g.fills, id);
  }

  lemma AddBalances(x: Exchange, ticker: TickerId, o: NewOrder, id: OrderId)
    requires Good(x) && CanSubmit(x, o)
    ensures Balances(x, AddEffect(x, ticker, o), ticker, id) && TwoSided(AddEffect(x, ticker, o))
  {
    hide Greedy;
    hide WellFormed;
    hide MatchEffect;
    var e, m := AddEffect(x, ticker, o), MatchEffect(x, ticker, o);
    var g := Greedy(o.side, o.price, o.qty, x.book.Of(Opposite(o.side)));
    var accepted := [ClientResponse(Accepted, o.client, ticker, o.clientOrderId, x.nextId, o.side, o.price, 0, o.qty)];
    MatchTotals(x, ticker, o, id);
    TotalsAppend(accepted, m.responses, ticker, id);
    SumAppend(accepted, m.responses, FilledOn(Buy));
    SumAppend(accepted, m.responses, FilledOn(Sell));
    if g.leaves > 0 {
      var r := Resting(m.state.book, o, x.nextId, g.leaves);
      var s := m.state.book.Of(o.side);
      InsertOpens(s, InsertPos(o.side, s, o.price), r, id);
      SumAppend(m.updates, [MarketUpdate(Add, x.nextId, ticker, o.side, o.price, g.leaves, r.priority)], Printed());
    }
  }

  lemma RestingWithout(b: Book, e: Entry, id: OrderId)
    requires WellFormed(b) && InBook(b, e)
    ensures RestingQty(b, id)
      == RestingQty(b.With(e.side, Remove(b.Of(e.side), e.id)), id) + (if id == e.id then e.qty else 0)
  {
    hide WellFormed;
    var s := b.Of(e.side);
    InBookSide(b, e);
    SplitAt(s, IndexOf(s, e.id), id);
  }

  lemma OneReport(r: ClientResponse, ticker: TickerId, id: OrderId)
    requires r.kind != Filled
    ensures Total([r], Filled, ticker, id) == 0 && Sum([r], FilledOn(Buy)) == 0 && Sum([r], FilledOn(Sell)) == 0
    ensures Total([r], Accepted, ticker, id) == Reported(Accepted, ticker, id)(r)
    ensures Total([r], Canceled, ticker, id) == Reported(Canceled, ticker, id)(r)
  {
    SumOne(r, Reported(Canceled, ticker, id));
    SumOne(r, Reported(Accepted, ticker, id));
    SumOne(r, Reported(Filled, ticker, id));
    SumOne(r, FilledOn(Buy));
    SumOne(r, FilledOn(Sell));
  }

  lemma CancelBalances(x: Exchange, ticker: TickerId, client: ClientId, clientOrderId: OrderId, id: OrderId)
    requires Good(x)
    ensures Balances(x, CancelEffect(x, ticker, client, clientOrderId), ticker, id)
    ensures TwoSided(CancelEffect(x, ticker, client, clientOrderId))
  {
    hide WellFormed;
    hide RestingQty;
    hide Sum;
    hide Total;
    hide Remove;
    var c := CancelEffect(x, ticker, client, clientOrderId);
    OneReport(c.responses[0], ticker, id);
    SumNone(Printed());
    if i :| i in x.owners && x.owners[i] == Owner(client, clientOrderId) {
      assert RestsIn(x.book, i);
      var e := Lookup(x.book, i);
      RestingWithout(x.book, e, id);
      CancelFinds(x, ticker, client, clientOrderId, e);
      SumOne(c.updates[0], Printed());
    }
  }

  // --- Whole runs --------------------------------------------------------------------------------------------

  /** A request reports only on orders of its own book. */
  lemma {:induction false} ElsewhereSilent(rs: seq<ClientResponse>, kind: ResponseType, t: TickerId, ticker: TickerId,
      id: OrderId)
    requires t != ticker && forall r :: r in rs ==> r.ticker == ticker
    ensures Total(rs, kind, t, id) == 0
  {
    if rs != [] {
      assert rs[0] in rs;
      ElsewhereSilent(rs[1..], kind, t, ticker, id);
    }
  }

  lemma {:induction false} FillsOfTicker(o: NewOrder, nid: OrderId, ticker: TickerId, owners: map<OrderId, Owner>,
      fills: seq<Fill>)
    requires forall f :: f in fills ==> f.passive.id in owners && f.exec <= f.passive.qty
    ensures forall r :: r in FillResponses(o, nid, ticker, owners, fills) ==> r.ticker == ticker
  {
    if fills != [] {
      FillsOfTicker(o, nid, ticker, owners, fills[..|fills| - 1]);
    }
  }

  lemma HandleBalances(m: Market, r: ClientRequest, t: TickerId, id: OrderId)
    requires GoodMarket(m) && Legal(m, r) && t < |m|
    ensures TwoSided(Handle(m, r))
    ensures Balances(m[t], if t == r.ticker then Handle(m, r) else Handle(m, r).(state := m[t]), t, id)
  {
    var x := m[r.ticker];
    if r.kind == New {
      AddBalances(x, r.ticker, OrderOf(r), id);
      if t != r.ticker {
        GreedyFills(r.side, r.price, r.qty, x.book.Of(Opposite(r.side)));
        var fills := Greedy(r.side, r.price, r.qty, x.book.Of(Opposite(r.side))).fills;
        FilledOwners(x, Opposite(r.side), fills);
        FillsOfTicker(OrderOf(r), x.nextId, r.ticker, x.owners, fills);
        ElsewhereSilent(Handle(m, r).responses, Accepted, t, r.ticker, id);
        ElsewhereSilent(Handle(m, r).responses, Filled, t, r.ticker, id);
        ElsewhereSilent(Handle(m, r).responses, Canceled, t, r.ticker, id);
      }
    } else {
      CancelBalances(x, r.ticker, r.client, r.orderId, id);
      if t != r.ticker {
        ElsewhereSilent(Handle(m, r).responses, Accepted, t, r.ticker, id);
        ElsewhereSilent(Handle(m, r).responses, Filled, t, r.ticker, id);
        ElsewhereSilent(Handle(m, r).responses, Canceled, t, r.ticker, id);
      }
    }
  }

  /**
   Over every run and for every order: the quantity it was accepted with is what was reported filled, plus what was
   reported cancelled, plus what still rests in the book.
   */
  lemma {:induction false} QuantityConserved(rs: seq<ClientRequest>, t: TickerId, id: OrderId)
    requires LegalRun(rs) && t < ME_MAX_TICKERS
    ensures var s := Run(rs);
      Total(s.responses, Accepted, t, id)
        == Total(s.responses, Filled, t, id) + Total(s.responses, Canceled, t, id) + RestingQty(s.market[t].book, id)
    decreases |rs|
  {
    if rs != [] {
      var most, r := rs[..|rs| - 1], rs[|rs| - 1];
      QuantityConserved(most, t, id);
      var s := Run(most);
      HandleBalances(s.market, r, t, id);
      TotalsAppend(s.responses, Handle(s.market, r).responses, t, id);
    }
  }

  lemma HandleTwoSided(m: Market, r: ClientRequest)
    requires GoodMarket(m) && Legal(m, r)
    ensures TwoSided(Handle(m, r))
  {
    hide GoodMarket;
    HandleBalances(m, r, r.ticker, 0);
  }

  /**
   Over every run: what buyers were reported to have bought, sellers were reported to have sold, and the market saw
   trade.
   */
  lemma {:induction false} BothSidesTrade(rs: seq<ClientRequest>)
    requires LegalRun(rs)
    ensures var s := Run(rs);
      && Sum(s.responses, FilledOn(Buy)) == Sum(s.responses, FilledOn(Sell))
      && Sum(s.responses, FilledOn(Buy)) == Sum(s.updates, Printed())
    decreases |rs|
  {
    hide Handle;
    hide Legal;
    if rs != [] {
      var most, r := rs[..|rs| - 1], rs[|rs| - 1];
      BothSidesTrade(most);
      var s := Run(most);
      HandleTwoSided(s.market, r);
      SumAppend(s.responses, Handle(s.market, r).responses, FilledOn(Buy));
      SumAppend(s.responses, Handle(s.market, r).responses, FilledOn(Sell));
      SumAppend(s.updates, Handle(s.market, r).updates, Printed());
    }
  }
}
