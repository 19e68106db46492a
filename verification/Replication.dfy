/** The market updates of the exchange as edits of a book, and why replaying them rebuilds the exchange's book. */
module Replication {
  import opened Types
  import opened PriceTime
  import opened Matching
  import opened Runs

  function EntryIn(u: MarketUpdate): Entry {
    Entry(u.orderId, u.side, u.price, u.qty, u.priority)
  }

  /** What an update needs of the book it is applied to. */
  ghost predicate Accepts(b: Book, u: MarketUpdate) {
    match u.kind
    case Add => CanAdd(b, EntryIn(u))
    case Modify => RestsIn(b, u.orderId) && u.qty > 0
    case Cancel => RestsIn(b, u.orderId)
    case _ => true
  }

  /** An update about a resting order carries that order's own side and price. */
  ghost predicate Truthful(b: Book, u: MarketUpdate) {
    (u.kind == Modify || u.kind == Cancel) && RestsIn(b, u.orderId) ==>
      Lookup(b, u.orderId).side == u.side && Lookup(b, u.orderId).price == u.price
  }

  /** A book after one market update. */
  ghost function Apply(b: Book, u: MarketUpdate): Book
    requires Accepts(b, u)
  {
    match u.kind
    case Add => Added(b, EntryIn(u))
    case Modify => var side := Lookup(b, u.orderId).side; b.With(side, SetQty(b.Of(side), u.orderId, u.qty))
    case Cancel => var side := Lookup(b, u.orderId).side; b.With(side, Remove(b.Of(side), u.orderId))
    case Clear => EMPTY_BOOK
    case _ => b
  }

  /** These updates, one after the other, are each acceptable and truthful and turn b into c. */
  ghost predicate Replays(b: Book, us: seq<MarketUpdate>, c: Book)
    decreases |us|
  {
    if us == [] then b == c
    else Accepts(b, us[0]) && Truthful(b, us[0]) && Replays(Apply(b, us[0]), us[1..], c)
  }

  lemma {:induction false} ReplaysAppend(b: Book, us: seq<MarketUpdate>, c: Book, vs: seq<MarketUpdate>, d: Book)
    requires Replays(b, us, c) && Replays(c, vs, d)
    ensures Replays(b, us + vs, d)
    decreases |us|
  {
    if us == [] {
      assert us + vs == vs;
    } else {
      assert (us + vs)[1..] == us[1..] + vs;
      ReplaysAppend(Apply(b, us[0]), us[1..], c, vs, d);
    }
  }

  lemma LookupEntry(b: Book, e: Entry)
    requires WellFormed(b) && InBook(b, e)
    ensures RestsIn(b, e.id) && Lookup(b, e.id) == e
  {
    InBookSide(b, e);
    OneSide(b, e.id);
  }

  /** Every acceptable update keeps a book sorted and uncrossed. */
  lemma ApplyKeepsWellFormed(b: Book, u: MarketUpdate)
    requires WellFormed(b) && Accepts(b, u)
    ensures WellFormed(Apply(b, u))
  {
    if u.kind == Modify || u.kind == Cancel {
      var e := Lookup(b, u.orderId);
      InBookSide(b, e);
      var k := IndexOf(b.Of(e.side), u.orderId);
      if u.kind == Modify {
        SetQtyKeepsWellFormed(b, e.side, k, u.qty);
      } else {
        RemoveKeepsWellFormed(b, e.side, k);
      }
    }
  }

  // --- What the exchange publishes ---------------------------------------------------------------------------

  /** The two prints of one match replay it. */
  lemma PrintsReplay(b: Book, side: Side, ticker: TickerId, f: Fill)
    requires WellFormed(b) && side != NoSide && b.Of(Opposite(side)) != [] && f.passive == b.Of(Opposite(side))[0]
    requires f.exec <= f.passive.qty
    ensures var s := b.Of(Opposite(side));
      Replays(b, Prints(side, ticker, f),
              b.With(Opposite(side), if f.exec == s[0].qty then s[1..] else [s[0].(qty := s[0].qty - f.exec)] + s[1..]))
  {
    var opp := Opposite(side);
    var s, us := b.Of(opp), Prints(side, ticker, f);
    IndexOfAt(opp, s, 0);
    LookupEntry(b, s[0]);
    assert InBook(b, s[0]);
    var c := b.With(opp, if f.exec == s[0].qty then s[1..] else [s[0].(qty := s[0].qty - f.exec)] + s[1..]);
    assert Apply(b, us[1]) == c;
    assert us[1..][1..] == [] && Replays(c, [], c);
    assert Replays(b, us[1..], c);
  }

  lemma {:induction false} PrintsFirst(side: Side, ticker: TickerId, f: Fill, fills: seq<Fill>)
    requires f.exec <= f.passive.qty && forall g :: g in fills ==> g.exec <= g.passive.qty
    ensures FillUpdates(side, ticker, [f] + fills) == Prints(side, ticker, f) + FillUpdates(side, ticker, fills)
    decreases |fills|
  {
    var all := [f] + fills;
    var n := |all| - 1;
    assert all[n] in all;
    if fills == [] {
      assert all[..n] == [];
    } else {
      assert all[..n] == [f] + fills[..n - 1] && all[n] == fills[n - 1];
      PrintsFirst(side, ticker, f, fills[..n - 1]);
    }
  }

  lemma NoFillsReplay(b: Book, side: Side, ticker: TickerId)
    ensures FillUpdates(side, ticker, []) == [] && Replays(b, [], b)
  {
  }

  /** The updates of all the matches of an order replay the matching. */
  lemma {:induction false} FillsReplay(b: Book, side: Side, limit: Price, qty: Qty, ticker: TickerId)
    requires WellFormed(b) && side != NoSide
    ensures var g := Greedy(side, limit, qty, b.Of(Opposite(side)));
      && (forall f :: f in g.fills ==> f.exec <= f.passive.qty)
      && Replays(b, FillUpdates(side, ticker, g.fills), b.With(Opposite(side), g.rest))
    decreases |b.Of(Opposite(side))|
  {
    hide WellFormed;
    hide Prints;
    hide FillUpdates;
    hide Replays;
    var opp := Opposite(side);
    var s := b.Of(opp);
    var g := Greedy(side, limit, qty, s);
    NoFillsReplay(b, side, ticker);
    if qty > 0 && s != [] && Crosses(side, limit, s[0].price) {
      var exec := Min(qty, s[0].qty);
      var f := Fill(s[0], exec, qty - exec);
      PrintsReplay(b, side, ticker, f);
      if exec == s[0].qty {
        var c := b.With(opp, s[1..]);
        RemoveKeepsWellFormed(b, opp, 0);
        assert RemoveAt(s, 0) == s[1..];
        var h := Greedy(side, limit, qty - exec, s[1..]);
        FillsReplay(c, side, limit, qty - exec, ticker);
        PrintsFirst(side, ticker, f, h.fills);
        ReplaysAppend(b, Prints(side, ticker, f), c, FillUpdates(side, ticker, h.fills), b.With(opp, g.rest));
      } else {
        PrintsFirst(side, ticker, f, []);
        assert [f] + [] == [f];
        assert Prints(side, ticker, f) + [] == Prints(side, ticker, f);
      }
    }
  }

  lemma AddReplays(x: Exchange, ticker: TickerId, o: NewOrder)
    requires Good(x) && CanSubmit(x, o)
    ensures Replays(x.book, AddEffect(x, ticker, o).updates, AddEffect(x, ticker, o).state.book)
  {
    hide Greedy;
    hide CanAdd;
    hide Added;
    var g := Greedy(o.side, o.price, o.qty, x.book.Of(Opposite(o.side)));
    FillsReplay(x.book, o.side, o.price, o.qty, ticker);
    RemainderCanRest(x, o);
    if g.leaves > 0 {
      var b, e := Traded(x, o), Resting(Traded(x, o), o, x.nextId, g.leaves);
      var u := MarketUpdate(Add, x.nextId, ticker, o.side, o.price, g.leaves, e.priority);
      assert EntryIn(u) == e && [u][1..] == [] && Replays(Apply(b, u), [], Added(b, e));
      assert Replays(b, [u], Added(b, e));
      ReplaysAppend(x.book, FillUpdates(o.side, ticker, g.fills), b, [u], Added(b, e));
    }
  }

  lemma CancelReplays(x: Exchange, ticker: TickerId, client: ClientId, clientOrderId: OrderId)
    requires Good(x)
    ensures var c := CancelEffect(x, ticker, client, clientOrderId); Replays(x.book, c.updates, c.state.book)
  {
    hide WellFormed;
    if exists i :: i in x.owners && x.owners[i] == Owner(client, clientOrderId) {
      var i :| i in x.owners && x.owners[i] == Owner(client, clientOrderId);
      assert RestsIn(x.book, i);
      var e := Lookup(x.book, i);
      LookupEntry(x.book, e);
      CancelFinds(x, ticker, client, clientOrderId, e);
      var u := CancelEffect(x, ticker, client, clientOrderId).updates[0];
      assert [u][1..] == [] && Replays(Apply(x.book, u), [], Apply(x.book, u));
    }
  }

  /** After each request, its updates turn the old book into the new one: level by level, queue by queue. */
  lemma HandleReplays(m: Market, r: ClientRequest)
    requires GoodMarket(m) && Legal(m, r)
    ensures Replays(m[r.ticker].book, Handle(m, r).updates, Handle(m, r).state.book)
  {
    if r.kind == New {
      AddReplays(m[r.ticker], r.ticker, OrderOf(r));
    } else {
      CancelReplays(m[r.ticker], r.ticker, r.client, r.orderId);
    }
  }

  function OnTicker(us: seq<MarketUpdate>, t: TickerId): seq<MarketUpdate> {
    if us == [] then [] else (if us[0].ticker == t then [us[0]] else []) + OnTicker(us[1..], t)
  }

  lemma {:induction false} OnTickerAppend(us: seq<MarketUpdate>, vs: seq<MarketUpdate>, t: TickerId)
    ensures OnTicker(us + vs, t) == OnTicker(us, t) + OnTicker(vs, t)
  {
    if us == [] {
      assert us + vs == vs;
    } else {
      assert (us + vs)[1..] == us[1..] + vs;
      OnTickerAppend(us[1..], vs, t);
    }
  }

  lemma {:induction false} OnTickerAll(us: seq<MarketUpdate>, ticker: TickerId, t: TickerId)
    requires forall u :: u in us ==> u.ticker == ticker
    ensures OnTicker(us, t) == if t == ticker then us else []
  {
    if us != [] {
      assert us[0] in us;
      OnTickerAll(us[1..], ticker, t);
    }
  }

  lemma {:induction false} PrintsOfTicker(side: Side, ticker: TickerId, fills: seq<Fill>)
    requires forall f :: f in fills ==> f.exec <= f.passive.qty
    ensures forall u :: u in FillUpdates(side, ticker, fills) ==> u.ticker == ticker
  {
    if fills != [] {
      PrintsOfTicker(side, ticker, fills[..|fills| - 1]);
    }
  }

  lemma UpdatesOfTicker(m: Market, r: ClientRequest)
    requires GoodMarket(m) && Legal(m, r)
    ensures forall u :: u in Handle(m, r).updates ==> u.ticker == r.ticker
  {
    var x := m[r.ticker];
    if r.kind == New {
      FillsReplay(x.book, r.side, r.price, r.qty, r.ticker);
      PrintsOfTicker(r.side, r.ticker, Greedy(r.side, r.price, r.qty, x.book.Of(Opposite(r.side))).fills);
    }
  }

  /**
   Over every run: replaying all the updates of a ticker from an empty book gives the exchange's book of that ticker.
   */
  lemma {:induction false} RunReplays(rs: seq<ClientRequest>, t: TickerId)
    requires LegalRun(rs) && t < ME_MAX_TICKERS
    ensures Replays(EMPTY_BOOK, OnTicker(Run(rs).updates, t), Run(rs).market[t].book)
    decreases |rs|
  {
    if rs != [] {
      var most, r := rs[..|rs| - 1], rs[|rs| - 1];
      RunReplays(most, t);
      var s := Run(most);
      var e := Handle(s.market, r);
      UpdatesOfTicker(s.market, r);
      OnTickerAppend(s.updates, e.updates, t);
      OnTickerAll(e.updates, r.ticker, t);
      if t == r.ticker {
        HandleReplays(s.market, r);
        ReplaysAppend(EMPTY_BOOK, OnTicker(s.updates, t), s.market[t].book, e.updates, e.state.book);
      } else {
        assert OnTicker(s.updates, t) + [] == OnTicker(s.updates, t);
      }
    }
  }
}
