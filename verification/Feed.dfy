/** The incremental feed as a sequence of updates, and the books it describes. */
module Feed {
  import opened Types
  import opened PriceTime
  import opened Matching
  import opened Runs
  import opened Replication

  // One book per ticker.
  type Books = seq<Book>

  function EmptyBooks(): Books {
    [EMPTY_BOOK, EMPTY_BOOK, EMPTY_BOOK, EMPTY_BOOK, EMPTY_BOOK, EMPTY_BOOK, EMPTY_BOOK, EMPTY_BOOK]
  }

  /** An update the engine can send on top of these books. */
  ghost predicate Sendable(bs: Books, u: MarketUpdate) {
    && u.ticker < |bs| && u.kind in {Add, Modify, Cancel, Trade}
    && Accepts(bs[u.ticker], u) && Truthful(bs[u.ticker], u)
  }

  /** A feed whose every update can be sent on top of the books the updates before it describe. */
  ghost predicate Publishable(log: seq<MarketUpdate>)
    decreases |log|, 0
  {
    log == [] || (Publishable(log[..|log| - 1]) && Sendable(BooksAfter(log[..|log| - 1]), log[|log| - 1]))
  }

  /** The books after these updates. */
  ghost function BooksAfter(log: seq<MarketUpdate>): (bs: Books)
    requires Publishable(log)
    ensures |bs| == ME_MAX_TICKERS
    decreases |log|, 1
  {
    if log == [] then EmptyBooks()
    else
      var bs, u := BooksAfter(log[..|log| - 1]), log[|log| - 1];
      bs[u.ticker := Apply(bs[u.ticker], u)]
  }

  lemma {:induction false} PublishablePrefix(log: seq<MarketUpdate>, k: nat)
    requires Publishable(log) && k <= |log|
    ensures Publishable(log[..k])
    decreases |log|
  {
    if k == |log| {
      assert log[..k] == log;
    } else {
      PublishablePrefix(log[..|log| - 1], k);
      assert log[..|log| - 1][..k] == log[..k];
    }
  }

  /** The books of a feed stay sorted and uncrossed. */
  lemma {:induction false} BooksWellFormed(log: seq<MarketUpdate>, t: TickerId)
    requires Publishable(log) && t < ME_MAX_TICKERS
    ensures WellFormed(BooksAfter(log)[t])
    decreases |log|
  {
    if log != [] {
      var most, u := log[..|log| - 1], log[|log| - 1];
      BooksWellFormed(most, t);
      if u.ticker == t { ApplyKeepsWellFormed(BooksAfter(most)[t], u); }
    }
  }

  /** Every order of the feed has a place in the tables that have one for each order id. */
  ghost predicate IdsBelow(log: seq<MarketUpdate>) {
    forall i {:trigger log[i]} :: 0 <= i < |log| && log[i].kind == Add ==> log[i].orderId < ME_MAX_ORDER_IDS
  }

  /** What rests was once added. */
  lemma {:induction false} BooksIdsBelow(log: seq<MarketUpdate>, t: TickerId, id: OrderId)
    requires Publishable(log) && IdsBelow(log) && t < ME_MAX_TICKERS && RestsIn(BooksAfter(log)[t], id)
    ensures id < ME_MAX_ORDER_IDS
    decreases |log|
  {
    hide RestsIn;
    hide Accepts;
    hide Apply;
    if log == [] {
      NothingRests(id);
    } else {
      var most, u := log[..|log| - 1], log[|log| - 1];
      BooksWellFormed(most, t);
      if u.ticker == t { IdsAfter(BooksAfter(most)[t], u, id); }
      if RestsIn(BooksAfter(most)[t], id) { BooksIdsBelow(most, t, id); }
    }
  }

  lemma NothingRests(id: OrderId)
    ensures !RestsIn(EMPTY_BOOK, id)
  {
  }

  /** Which orders rest after an update. */
  lemma IdsAfter(b: Book, u: MarketUpdate, id: OrderId)
    requires WellFormed(b) && Accepts(b, u) && u.kind != Clear
    ensures RestsIn(Apply(b, u), id) <==>
      (RestsIn(b, id) && !(u.kind == Cancel && id == u.orderId)) || (u.kind == Add && id == u.orderId)
  {
    if u.kind == Add {
      AddedIds(b, EntryIn(u), id);
    } else if u.kind == Modify || u.kind == Cancel {
      var e := Lookup(b, u.orderId);
      InBookSide(b, e);
      var s := b.Of(e.side);
      if u.kind == Cancel {
        RemovedIds(b, e.side, u.orderId, id);
      } else {
        var k := IndexOf(s, u.orderId);
        var t := SetQty(s, u.orderId, u.qty);
        assert forall i :: 0 <= i < |s| ==> t[i].id == s[i].id;
      }
    }
  }

  lemma OneMore(log: seq<MarketUpdate>, u: MarketUpdate)
    requires Publishable(log) && Sendable(BooksAfter(log), u)
    ensures Publishable(log + [u])
    ensures BooksAfter(log + [u]) == BooksAfter(log)[u.ticker := Apply(BooksAfter(log)[u.ticker], u)]
  {
  }

  lemma LastOne(log: seq<MarketUpdate>, u: MarketUpdate)
    requires Publishable(log + [u])
    ensures Publishable(log) && Sendable(BooksAfter(log), u)
    ensures BooksAfter(log + [u]) == BooksAfter(log)[u.ticker := Apply(BooksAfter(log)[u.ticker], u)]
  {
  }

  /** Extending a feed by updates of one ticker that replay from its book. */
  lemma {:induction false} Extends(log: seq<MarketUpdate>, us: seq<MarketUpdate>, t: TickerId, c: Book)
    requires Publishable(log) && t < ME_MAX_TICKERS && Replays(BooksAfter(log)[t], us, c)
    requires forall u :: u in us ==> u.ticker == t && u.kind in {Add, Modify, Cancel, Trade}
    ensures Publishable(log + us) && BooksAfter(log + us) == BooksAfter(log)[t := c]
    decreases |us|
  {
    hide Publishable;
    hide BooksAfter;
    hide Accepts;
    hide Apply;
    var bs := BooksAfter(log);
    if us == [] {
      assert log + us == log;
      assert bs[t := c] == bs;
    } else {
      assert us[0] in us;
      OneMore(log, us[0]);
      var b := Apply(bs[t], us[0]);
      assert bs[t := b][t := c] == bs[t := c];
      Extends(log + [us[0]], us[1..], t, c);
      assert log + us == log + [us[0]] + us[1..];
    }
  }

  lemma {:induction false} PrintKinds(side: Side, ticker: TickerId, fills: seq<Fill>)
    requires forall f :: f in fills ==> f.exec <= f.passive.qty
    ensures forall u :: u in FillUpdates(side, ticker, fills) ==> u.kind in {Modify, Cancel, Trade}
  {
    if fills != [] {
      PrintKinds(side, ticker, fills[..|fills| - 1]);
    }
  }

  lemma HandleKinds(m: Market, r: ClientRequest)
    requires GoodMarket(m) && Legal(m, r)
    ensures forall u :: u in Handle(m, r).updates ==>
      u.kind in {Add, Modify, Cancel, Trade} && (u.kind == Add ==> r.kind == New && u.orderId == m[r.ticker].nextId)
  {
    var x := m[r.ticker];
    if r.kind == New {
      FillsReplay(x.book, r.side, r.price, r.qty, r.ticker);
      PrintKinds(r.side, r.ticker, Greedy(r.side, r.price, r.qty, x.book.Of(Opposite(r.side))).fills);
    }
  }

  /** Whatever requests the engine handles, what it sends is a publishable feed, and describes exactly its books. */
  lemma {:induction false} EngineFeed(rs: seq<ClientRequest>)
    requires LegalRun(rs)
    ensures var s := Run(rs);
      && Publishable(s.updates)
      && forall t {:trigger s.market[t]} :: 0 <= t < ME_MAX_TICKERS ==> BooksAfter(s.updates)[t] == s.market[t].book
    decreases |rs|
  {
    hide Replays;
    hide Handle;
    hide Good;
    hide Sendable;
    if rs != [] {
      var most, r := rs[..|rs| - 1], rs[|rs| - 1];
      var s := Run(most);
      EngineFeed(most);
      var e := Handle(s.market, r);
      assert s.market[r.ticker].book == BooksAfter(s.updates)[r.ticker];
      HandleReplays(s.market, r);
      UpdatesOfTicker(s.market, r);
      HandleKinds(s.market, r);
      Extends(s.updates, e.updates, r.ticker, e.state.book);
      forall t {:trigger Run(rs).market[t]} | 0 <= t < ME_MAX_TICKERS
        ensures BooksAfter(Run(rs).updates)[t] == Run(rs).market[t].book
      {
        assert t != r.ticker ==> BooksAfter(s.updates)[t] == s.market[t].book;
      }
    }
  }

  /** As long as no book has handed out more order ids than there are places, the feed stays within them. */
  lemma {:induction false} EngineIdsBelow(rs: seq<ClientRequest>)
    requires LegalRun(rs) && forall t {:trigger Run(rs).market[t]} :: 0 <= t < ME_MAX_TICKERS ==>
      Run(rs).market[t].nextId <= ME_MAX_ORDER_IDS
    ensures IdsBelow(Run(rs).updates)
    decreases |rs|
  {
    hide Handle;
    hide Good;
    if rs != [] {
      var most, r := rs[..|rs| - 1], rs[|rs| - 1];
      var s, n := Run(most), Run(rs);
      NextIdGrows(s.market, r);
      assert n.market[r.ticker].nextId <= ME_MAX_ORDER_IDS;
      forall t {:trigger s.market[t]} | 0 <= t < ME_MAX_TICKERS ensures s.market[t].nextId <= ME_MAX_ORDER_IDS {
        assert n.market[t].nextId <= ME_MAX_ORDER_IDS;
      }
      EngineIdsBelow(most);
      HandleKinds(s.market, r);
      var e := Handle(s.market, r);
      forall i {:trigger n.updates[i]} | 0 <= i < |n.updates| && n.updates[i].kind == Add
        ensures n.updates[i].orderId < ME_MAX_ORDER_IDS
      {
        if i >= |s.updates| { assert n.updates[i] == e.updates[i - |s.updates|] && n.updates[i] in e.updates; }
      }
    }
  }

  lemma NextIdGrows(m: Market, r: ClientRequest)
    requires GoodMarket(m) && Legal(m, r)
    ensures Handle(m, r).state.nextId == m[r.ticker].nextId + (if r.kind == New then 1 else 0)
  {
  }
}
