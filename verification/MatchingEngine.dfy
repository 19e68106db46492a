/** The matching engine itself: one linked book per ticker, and whole runs of it. */
module MatchingEngines {
  import opened Types
  import opened PriceTime
  import opened LinkedLevels
  import opened LinkedBooks
  import opened Matching
  import opened ExchangeBook
  import opened Runs

  /** The prices that rest in each book lie in a window of distinct index slots, one window for each ticker. */
  ghost predicate InWindow(m: Market, lo: TickerId -> int) {
    forall t {:trigger m[t]} :: 0 <= t < |m| ==> PricesFrom(m[t].book, lo(t))
  }

  /** A new order at a price of its ticker's window. */
  predicate Near(r: ClientRequest, lo: TickerId -> int) {
    r.kind == New ==> lo(r.ticker) <= r.price < lo(r.ticker) + ME_MAX_PRICE_LEVELS
  }

  /** A request the client order map of a book has room for. */
  predicate Fits(r: ClientRequest) {
    && (r.client < ME_MAX_NUM_CLIENTS ==> r.orderId < ME_MAX_ORDER_IDS)
    && (r.kind == New ==> r.client < ME_MAX_NUM_CLIENTS)
  }

  /** What is left of a new order finds its index slot free of other prices. */
  ghost predicate RoomFor(m: Market, r: ClientRequest)
    requires Legal(m, r)
  {
    r.kind == New ==> HasRoom(m[r.ticker], OrderOf(r))
  }

  /** A legal run each of whose new orders finds its slot free in its turn. */
  ghost predicate RoomyRun(rs: seq<ClientRequest>)
    decreases |rs|
  {
    && LegalRun(rs)
    && (rs == []
        || (RoomyRun(rs[..|rs| - 1]) && RoomFor(Runs.Run(rs[..|rs| - 1]).market, rs[|rs| - 1])))
  }

  // --- The window holds along a run ----------------------------------------------------------------------------

  lemma TradedPrices(x: Exchange, o: NewOrder, lo: int)
    requires Good(x) && o.side != NoSide && PricesFrom(x.book, lo)
    ensures PricesFrom(Traded(x, o), lo)
  {
    hide Greedy;
    var opp := Opposite(o.side);
    var s := x.book.Of(opp);
    var g := Greedy(o.side, o.price, o.qty, s);
    var k := GreedyRest(o.side, o.price, o.qty, s);
    SuffixAt(opp, s, k, g.rest);
    forall e {:trigger InBook(Traded(x, o), e)} | InBook(Traded(x, o), e)
      ensures lo <= e.price < lo + ME_MAX_PRICE_LEVELS {
      if e in g.rest {
        var i :| 0 <= i < |g.rest| && g.rest[i] == e;
        assert s[k + i].price == e.price && InBook(x.book, s[k + i]);
      } else {
        assert InBook(x.book, e);
      }
    }
  }

  lemma AddPrices(x: Exchange, ticker: TickerId, o: NewOrder, lo: int)
    requires Good(x) && CanSubmit(x, o) && PricesFrom(x.book, lo) && lo <= o.price < lo + ME_MAX_PRICE_LEVELS
    ensures PricesFrom(AddEffect(x, ticker, o).state.book, lo)
  {
    hide Greedy;
    TradedPrices(x, o, lo);
    MatchKeepsOwners(x, ticker, o);
    var c := AddEffect(x, ticker, o).state.book;
    var leaves := Greedy(o.side, o.price, o.qty, x.book.Of(Opposite(o.side))).leaves;
    if leaves > 0 {
      RemainderCanRest(x, o);
      var e := Resting(Traded(x, o), o, x.nextId, leaves);
      forall f {:trigger InBook(c, f)} | InBook(c, f) ensures lo <= f.price < lo + ME_MAX_PRICE_LEVELS {
        AddedEntry(Traded(x, o), e, f);
      }
    }
  }

  lemma CancelPrices(x: Exchange, ticker: TickerId, client: ClientId, clientOrderId: OrderId, lo: int)
    requires Good(x) && PricesFrom(x.book, lo)
    ensures PricesFrom(CancelEffect(x, ticker, client, clientOrderId).state.book, lo)
  {
    var c := CancelEffect(x, ticker, client, clientOrderId).state.book;
    if i :| i in x.owners && x.owners[i] == Owner(client, clientOrderId) {
      assert RestsIn(x.book, i);
      var e := Lookup(x.book, i);
      CancelFinds(x, ticker, client, clientOrderId, e);
      InBookSide(x.book, e);
      forall f {:trigger InBook(c, f)} | InBook(c, f) ensures lo <= f.price < lo + ME_MAX_PRICE_LEVELS {
        RemovedEntry(x.book, e.side, IndexOf(x.book.Of(e.side), e.id), f);
      }
    }
  }

  lemma HandlePrices(m: Market, r: ClientRequest, lo: TickerId -> int)
    requires GoodMarket(m) && Legal(m, r) && Near(r, lo) && PricesFrom(m[r.ticker].book, lo(r.ticker))
    ensures PricesFrom(Handle(m, r).state.book, lo(r.ticker)) && RoomFor(m, r)
  {
    hide PricesFrom;
    hide Good;
    hide Slots;
    hide HasRoom;
    if r.kind == New {
      AddPrices(m[r.ticker], r.ticker, OrderOf(r), lo(r.ticker));
      SlotsInWindow(m[r.ticker].book, r.price, lo(r.ticker));
      TradedSlots(m[r.ticker], OrderOf(r));
    } else {
      CancelPrices(m[r.ticker], r.ticker, r.client, r.orderId, lo(r.ticker));
    }
  }

  /**
   As long as the prices of each ticker stay in a window of its own, every order finds its slot free of other prices.
   */
  lemma {:induction false} RunInWindow(rs: seq<ClientRequest>, lo: TickerId -> int)
    requires LegalRun(rs) && forall i {:trigger rs[i]} :: 0 <= i < |rs| ==> Near(rs[i], lo)
    ensures RoomyRun(rs) && InWindow(Runs.Run(rs).market, lo)
    decreases |rs|
  {
    hide Handle;
    hide Good;
    if rs == [] {
    } else {
      hide PricesFrom;
      hide RoomFor;
      var most, r := rs[..|rs| - 1], rs[|rs| - 1];
      RunInWindow(most, lo);
      HandlePrices(Runs.Run(most).market, r, lo);
    }
  }

  lemma HandleNextId(m: Market, r: ClientRequest)
    requires GoodMarket(m) && Legal(m, r)
    ensures Handle(m, r).state.nextId <= m[r.ticker].nextId + 1
  {
  }

  /** No book hands out more ids than there were requests. */
  lemma {:induction false} RunIds(rs: seq<ClientRequest>)
    requires LegalRun(rs)
    ensures var m := Runs.Run(rs).market;
      |m| == ME_MAX_TICKERS && forall t {:trigger m[t]} :: 0 <= t < ME_MAX_TICKERS ==> m[t].nextId <= |rs| + 1
    decreases |rs|
  {
    hide Handle;
    hide Good;
    if rs != [] {
      RunIds(rs[..|rs| - 1]);
      HandleNextId(Runs.Run(rs[..|rs| - 1]).market, rs[|rs| - 1]);
    }
  }

  lemma {:induction false} RoomyPrefix(rs: seq<ClientRequest>, n: nat)
    requires RoomyRun(rs) && n <= |rs|
    ensures RoomyRun(rs[..n])
    decreases |rs|
  {
    hide RoomFor;
    hide Runs.Run;
    hide LegalRun;
    hide Legal;
    if n == |rs| {
      assert rs[..n] == rs;
    } else {
      RoomyPrefix(rs[..|rs| - 1], n);
      assert rs[..|rs| - 1][..n] == rs[..n];
    }
  }

  /** The next request of a run finds everything it needs. */
  lemma RunNext(rs: seq<ClientRequest>, n: nat)
    requires RoomyRun(rs) && n < |rs| < 0xFFFF_FFFF
    ensures LegalRun(rs[..n]) && LegalRun(rs[..n + 1])
    ensures var m := Runs.Run(rs[..n]).market;
      && GoodMarket(m) && Legal(m, rs[n]) && RoomFor(m, rs[n]) && m[rs[n].ticker].nextId < 0x1_0000_0000
      && var e := Handle(m, rs[n]);
         Runs.Run(rs[..n + 1]) == Session(m[rs[n].ticker := e.state], Runs.Run(rs[..n]).responses + e.responses,
                                          Runs.Run(rs[..n]).updates + e.updates)
  {
    hide Handle;
    hide GoodMarket;
    hide Legal;
    hide RoomFor;
    hide Runs.Run;
    RoomyPrefix(rs, n);
    RoomyPrefix(rs, n + 1);
    RunIds(rs[..n]);
    assert rs[..n + 1][..n] == rs[..n];
    RunStep(rs[..n + 1]);
  }

  lemma RunStep(rs: seq<ClientRequest>)
    requires LegalRun(rs) && rs != []
    ensures var most, r := rs[..|rs| - 1], rs[|rs| - 1];
      && LegalRun(most) && Legal(Run(most).market, r) && r.ticker < |Run(most).market| == ME_MAX_TICKERS
      && var s := Run(most);
         var e := Handle(s.market, r);
         Run(rs) == Session(s.market[r.ticker := e.state], s.responses + e.responses, s.updates + e.updates)
  {
    hide Handle;
    hide Good;
    hide CanSubmit;
  }

  // --- The engine ----------------------------------------------------------------------------------------------

  /** Everything that belongs to a book. */
  ghost function BookRepr(b: MEOrderBook): set<object>
    reads b.levels
  {
    {b} + b.Repr()
  }

  lemma OwnsLevels(b: MEOrderBook)
    ensures b.levels in BookRepr(b)
  {
  }

  /** The book of this ticker is sound, and stands for this value. */
  ghost predicate BookIs(b: MEOrderBook, t: TickerId, x: Exchange)
    reads b.levels, BookRepr(b)
  {
    b.ticker == t && b.Valid() && b.State() == x
  }

  ghost predicate Apart(a: MEOrderBook, b: MEOrderBook)
    reads a.levels, b.levels
  {
    BookRepr(a) !! BookRepr(b)
  }

  class MatchingEngine {
    const tickerOrderBook: seq<MEOrderBook>
    // The queues to the order server and the market data publisher.
    var clientResponses: seq<ClientResponse>
    var marketUpdates: seq<MarketUpdate>
    // The books as values.
    ghost var market: Market

    ghost function Structures(): set<LinkedBook> {
      set t {:trigger tickerOrderBook[t]} | 0 <= t < |tickerOrderBook| :: tickerOrderBook[t].levels
    }

    /** The objects the engine is made of, apart from the engine itself. */
    ghost function Repr(): set<object>
      reads Structures()
    {
      set t: TickerId, o | t < |tickerOrderBook| && o in BookRepr(tickerOrderBook[t]) :: o
    }

    /** One valid book per ticker, none sharing an object with another, and all together the market. */
    ghost predicate Valid()
      reads this`market, Structures(), Repr()
    {
      && |tickerOrderBook| == |market| == ME_MAX_TICKERS && this !in Repr()
      && (forall t {:trigger market[t]} :: 0 <= t < |market| ==> BookIs(tickerOrderBook[t], t, market[t]))
      && (forall s, t {:trigger tickerOrderBook[s], tickerOrderBook[t]} ::
            0 <= s < |market| && 0 <= t < |market| && s != t ==> Apart(tickerOrderBook[s], tickerOrderBook[t]))
    }

    constructor ()
      ensures Valid() && fresh(Repr()) && market == OpeningMarket() && clientResponses == [] && marketUpdates == []
    {
      hide BookIs;
      hide Apart;
      hide MEOrderBook.Repr;
      var books := OpenBooks();
      tickerOrderBook, market, clientResponses, marketUpdates := books, OpeningMarket(), [], [];
      new;
      forall t {:trigger tickerOrderBook[t]} | 0 <= t < |market| ensures this !in BookRepr(tickerOrderBook[t]) {
        NotPart(this, tickerOrderBook[t]);
      }
    }

    static method OpenBooks() returns (books: seq<MEOrderBook>)
      ensures |books| == ME_MAX_TICKERS
      ensures forall t {:trigger books[t]} :: 0 <= t < |books| ==>
        BookIs(books[t], t, NEW_EXCHANGE) && fresh(BookRepr(books[t]))
      ensures forall s, t {:trigger books[s], books[t]} :: 0 <= s < |books| && 0 <= t < |books| && s != t ==>
        Apart(books[s], books[t])
    {
      hide MEOrderBook.Valid;
      hide MEOrderBook.State;
      hide MEOrderBook.Repr;
      books := [];
      for i := 0 to ME_MAX_TICKERS
        invariant |books| == i
        invariant forall t {:trigger books[t]} :: 0 <= t < i ==>
          && BookIs(books[t], t, NEW_EXCHANGE) && fresh(BookRepr(books[t])) && books[t].levels in BookRepr(books[t])
          && allocated(BookRepr(books[t]))
        invariant forall s, t {:trigger books[s], books[t]} :: 0 <= s < i && 0 <= t < i && s != t ==>
          Apart(books[s], books[t])
      {
        var book := new MEOrderBook(i);
        OwnsLevels(book);
        books := books + [book];
      }
    }

    /** Have one book handle a request; what it reports goes to the queues. */
    method Dispatch(book: MEOrderBook, r: ClientRequest, ghost x: Exchange)
      requires BookIs(book, r.ticker, x) && Good(x) && Fits(r) && this !in BookRepr(book)
      requires r.kind == New ==> CanSubmit(x, OrderOf(r)) && x.nextId < 0x1_0000_0000
      modifies this`clientResponses, this`marketUpdates, BookRepr(book)
      ensures book.Valid() <==> (r.kind == New ==> HasRoom(x, OrderOf(r)))
      ensures book.Valid() ==> fresh(BookRepr(book) - old(BookRepr(book)))
      ensures var e := if r.kind == New then AddEffect(x, r.ticker, OrderOf(r))
                       else CancelEffect(x, r.ticker, r.client, r.orderId);
        && (book.Valid() ==> BookIs(book, r.ticker, e.state) && marketUpdates == old(marketUpdates) + e.updates)
        && clientResponses == old(clientResponses) + e.responses
    {
      hide MEOrderBook.Valid;
      hide OwnersOf;
      hide AddEffect;
      hide CancelEffect;
      hide Good;
      hide HasRoom;
      hide Ownable;
      var responses, updates := |book.clientResponses|, |book.marketUpdates|;
      if r.kind == New {
        SubmittedOwnable(x, OrderOf(r));
        book.Add(r.client, r.orderId, r.side, r.price, r.qty);
      } else {
        book.Cancel(r.client, r.orderId);
      }
      NotPart(this, book);
      clientResponses := clientResponses + book.clientResponses[responses..];
      marketUpdates := marketUpdates + book.marketUpdates[updates..];
    }

    /**
     Have the book of the request's ticker handle it.  The engine stays sound exactly if what is left of a new order
     finds its index slot free of other prices.
     */
    method ProcessClientRequest(r: ClientRequest)
      requires Valid() && GoodMarket(market) && Legal(market, r) && Fits(r)
      requires market[r.ticker].nextId < 0x1_0000_0000
      modifies this, Repr()
      ensures Valid() <==> RoomFor(old(market), r)
      ensures var e := Handle(old(market), r);
        && market == old(market)[r.ticker := e.state] && clientResponses == old(clientResponses) + e.responses
        && (Valid() ==> fresh(Repr() - old(Repr())) && marketUpdates == old(marketUpdates) + e.updates)
    {
      hide BookIs;
      hide AddEffect;
      hide CancelEffect;
      hide Good;
      hide HasRoom;
      hide CanSubmit;
      hide MEOrderBook.Repr;
      hide MEOrderBook.Valid;
      ghost var t, m := r.ticker, market;
      var book := tickerOrderBook[r.ticker];
      assert BookIs(book, t, m[t]);
      forall s {:trigger tickerOrderBook[s]} | 0 <= s < |m|
        ensures tickerOrderBook[s].levels in BookRepr(tickerOrderBook[s]) && allocated(BookRepr(tickerOrderBook[s]))
      {
        OwnsLevels(tickerOrderBook[s]);
      }
      Dispatch(book, r, m[t]);
      assert book.Valid() ==> fresh(BookRepr(book) - old(BookRepr(book)));
      NotPart(this, book);
      market := m[t := Handle(m, r).state];
      if book.Valid() {
        forall s {:trigger tickerOrderBook[s]} | 0 <= s < |market| && s != t
          ensures BookIs(tickerOrderBook[s], s, market[s]) && Apart(tickerOrderBook[s], book)
          ensures BookRepr(tickerOrderBook[s]) == old(BookRepr(tickerOrderBook[s]))
        {
          assert old(BookIs(tickerOrderBook[s], s, m[s]) && Apart(tickerOrderBook[s], book));
        }
        forall a, b {:trigger tickerOrderBook[a], tickerOrderBook[b]} |
          0 <= a < |market| && 0 <= b < |market| && a != b ensures Apart(tickerOrderBook[a], tickerOrderBook[b])
        {
          if a == t {
            assert Apart(tickerOrderBook[b], book);
          } else if b != t {
            assert old(Apart(tickerOrderBook[a], tickerOrderBook[b]));
          }
        }
        forall o | o in Repr() && o !in old(Repr()) ensures fresh(o) {
          var s: TickerId :| s < |tickerOrderBook| && o in BookRepr(tickerOrderBook[s]);
          assert s == t && o !in old(BookRepr(book));
        }
      } else {
        NotSound(book, t, market[t]);
      }
    }

    /**
     Handle requests one after the other.  As long as every new order finds its slot free and the ids fit the tables,
     the linked books go where the run on values goes, and so do the messages.
     */
    method Run(requests: seq<ClientRequest>, ghost before: seq<ClientRequest>)
      requires Valid() && LegalRun(before) && RoomyRun(before + requests) && |before + requests| < 0xFFFF_FFFF
      requires forall i {:trigger requests[i]} :: 0 <= i < |requests| ==> Fits(requests[i])
      requires var s := Runs.Run(before);
        market == s.market && clientResponses == s.responses && marketUpdates == s.updates
      modifies this, Repr()
      ensures Valid() && fresh(Repr() - old(Repr()))
      ensures var s := Runs.Run(before + requests);
        market == s.market && clientResponses == s.responses && marketUpdates == s.updates
    {
      hide Valid;
      hide Repr;
      hide Handle;
      hide GoodMarket;
      hide Legal;
      hide Fits;
      hide RoomFor;
      hide Runs.Run;
      hide LegalRun;
      hide RoomyRun;
      ghost var all := before + requests;
      assert all[..|before|] == before;
      for i := 0 to |requests|
        invariant Valid() && fresh(Repr() - old(Repr()))
        invariant LegalRun(all[..|before| + i])
        invariant var s := Runs.Run(all[..|before| + i]);
          market == s.market && clientResponses == s.responses && marketUpdates == s.updates
      {
        ghost var n := |before| + i;
        RunNext(all, n);
        assert all[n] == requests[i];
        ghost var was := Repr();
        label before_request:
        ProcessClientRequest(requests[i]);
        forall o | o in Repr() && o !in old(Repr()) ensures fresh(o) {
          if o in was {
            assert o in was - old(Repr());
          } else {
            assert o in Repr() - was && !old@before_request(allocated(o));
          }
        }
      }
      assert all[..|all|] == all;
    }
  }

  lemma NotSound(b: MEOrderBook, t: TickerId, x: Exchange)
    requires !b.Valid()
    ensures !BookIs(b, t, x)
  {
  }

  lemma NotPart(engine: MatchingEngine, b: MEOrderBook)
    ensures engine !in BookRepr(b)
  {
  }
}
