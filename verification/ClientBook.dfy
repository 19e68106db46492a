/**
 The trading client's copy of a book: the linked book with the client's insertion scan, an id map, and the best bid
 and offer.
 */
module ClientBook {
  import opened Types
  import opened PriceTime
  import opened Rings
  import opened LinkedLevels
  import opened LinkedBooks
  import opened Replication
  import opened Sums

  datatype BBO = BBO(bidPrice: Price, askPrice: Price, bidQty: Qty, askQty: Qty)

  const NO_BBO := BBO(PRICE_INVALID, PRICE_INVALID, QTY_INVALID, QTY_INVALID)

  /** The quantity that rests at this price. */
  function QtyAt(s: seq<Entry>, p: Price): Qty {
    if s == [] then 0
    else QtyAt(s[..|s| - 1], p) + (if s[|s| - 1].price == p then s[|s| - 1].qty else 0)
  }

  function BestPrice(s: seq<Entry>): Price {
    if s == [] then PRICE_INVALID else s[0].price
  }

  function BestQty(s: seq<Entry>): Qty {
    if s == [] then QTY_INVALID else QtyAt(s, s[0].price)
  }

  function BidsOf(bbo: BBO, b: Book): BBO {
    bbo.(bidPrice := BestPrice(b.bids), bidQty := BestQty(b.bids))
  }

  function AsksOf(bbo: BBO, b: Book): BBO {
    bbo.(askPrice := BestPrice(b.asks), askQty := BestQty(b.asks))
  }

  /**
   The best bid and offer are those of the book: best prices with all the quantity there, or no value for an empty
   side.
   */
  predicate Accurate(bbo: BBO, b: Book) {
    bbo == BBO(BestPrice(b.bids), BestPrice(b.asks), BestQty(b.bids), BestQty(b.asks))
  }

  lemma {:induction false} QtyAtIsSum(s: seq<Entry>, p: Price)
    ensures QtyAt(s, p) == Sum(s, (e: Entry) => if e.price == p then e.qty else 0)
    decreases |s|
  {
    var f := (e: Entry) => if e.price == p then e.qty else 0;
    if s != [] {
      var most, e := s[..|s| - 1], s[|s| - 1];
      assert s == most + [e];
      QtyAtIsSum(most, p);
      SumAppend(most, [e], f);
      SumOne(e, f);
    }
  }

  /**
   This price and quantity are those of the best offer of a side: no order there is better, and it is all at the price.
   */
  ghost predicate IsBest(side: Side, s: seq<Entry>, price: Price, qty: Qty) {
    if s == [] then price == PRICE_INVALID && qty == QTY_INVALID
    else
      && (exists e :: e in s && e.price == price)
      && (forall e :: e in s ==> if side == Buy then e.price <= price else e.price >= price)
      && qty == Sum(s, (e: Entry) => if e.price == price then e.qty else 0)
  }

  lemma BestIs(side: Side, s: seq<Entry>, price: Price, qty: Qty)
    requires side != NoSide && SideOk(side, s)
    ensures price == BestPrice(s) && qty == BestQty(s) <==> IsBest(side, s, price, qty)
  {
    if s != [] {
      QtyAtIsSum(s, price);
      assert s[0] in s;
      forall e | e in s ensures if side == Buy then e.price <= s[0].price else e.price >= s[0].price {
        var i :| 0 <= i < |s| && s[i] == e;
        assert i == 0 || Before(side, s[0], s[i]);
      }
    }
  }

  /**
   What an accurate best bid and offer says: the highest bid and the lowest ask, each with all the quantity at its
   price, and no value where there is no order.
   */
  lemma AccurateIs(bbo: BBO, b: Book)
    requires WellFormed(b)
    ensures Accurate(bbo, b) <==>
      IsBest(Buy, b.bids, bbo.bidPrice, bbo.bidQty) && IsBest(Sell, b.asks, bbo.askPrice, bbo.askQty)
  {
    hide IsBest;
    hide BestPrice;
    hide BestQty;
    BestIs(Buy, b.bids, bbo.bidPrice, bbo.bidQty);
    BestIs(Sell, b.asks, bbo.askPrice, bbo.askQty);
  }

  /** An update is taken to touch the top of a side if that side has one and the update is at least as aggressive. */
  predicate Touches(b: Book, side: Side, u: MarketUpdate) {
    b.Of(side) != [] && u.side == side && !Better(side, b.Of(side)[0].price, u.price)
  }

  /** The best bid and offer after an update, refreshed only on a side the update was taken to touch. */
  ghost function BBOAfter(bbo: BBO, b: Book, u: MarketUpdate): BBO
    requires Accepts(b, u)
  {
    if u.kind == Trade then bbo
    else
      var c := Apply(b, u);
      var x := if Touches(b, Buy, u) then BidsOf(bbo, c) else bbo;
      if Touches(b, Sell, u) then AsksOf(x, c) else x
  }

  lemma {:induction false} NoneAt(s: seq<Entry>, n: nat, p: Price)
    requires n <= |s| && forall i :: n <= i < |s| ==> s[i].price != p
    ensures QtyAt(s, p) == QtyAt(s[..n], p)
    decreases |s|
  {
    if n < |s| {
      var t := s[..|s| - 1];
      NoneAt(t, n, p);
      assert t[..n] == s[..n];
    } else {
      assert s[..n] == s;
    }
  }

  lemma QtyAtStep(s: seq<Entry>, m: nat, p: Price)
    requires m < |s| && s[m].price == p
    ensures QtyAt(s[..m + 1], p) == QtyAt(s[..m], p) + s[m].qty
  {
    assert s[..m + 1][..m] == s[..m];
  }

  lemma TopLevel(side: Side, s: seq<Entry>)
    requires SideOk(side, s) && s != []
    ensures QtyAt(s[..LevelEnd(s, 0) + 1], s[0].price) == QtyAt(s, s[0].price)
  {
    var e := LevelEnd(s, 0);
    forall i | e + 1 <= i < |s| ensures s[i].price != s[0].price {
      if s[i].price == s[0].price { SameLevel(side, s, 0, e + 1, i); }
    }
    NoneAt(s, e + 1, s[0].price);
  }

  // --- When the guarded refresh is enough ----------------------------------------------------------------------

  lemma {:induction false} QtyAtAppend(a: seq<Entry>, b: seq<Entry>, p: Price)
    ensures QtyAt(a + b, p) == QtyAt(a, p) + QtyAt(b, p)
    decreases |b|
  {
    if b == [] {
      assert a + b == a;
    } else {
      assert (a + b)[..|a + b| - 1] == a + b[..|b| - 1];
      QtyAtAppend(a, b[..|b| - 1], p);
    }
  }

  /** A side after something happened at position k below its best price: the top is as it was. */
  lemma TopUnmoved(s: seq<Entry>, k: nat, cut: nat, mid: seq<Entry>)
    requires 0 < k <= cut <= |s|
    requires (forall i :: k <= i < cut ==> s[i].price != s[0].price) && forall e :: e in mid ==> e.price != s[0].price
    ensures var t := s[..k] + mid + s[cut..]; t != [] && BestPrice(t) == BestPrice(s) && BestQty(t) == BestQty(s)
  {
    var p, out := s[0].price, s[k..cut];
    var t := s[..k] + mid + s[cut..];
    assert s == s[..k] + out + s[cut..];
    QtyAtAppend(s[..k] + mid, s[cut..], p);
    QtyAtAppend(s[..k], mid, p);
    QtyAtAppend(s[..k] + out, s[cut..], p);
    QtyAtAppend(s[..k], out, p);
    NoneAt(mid, 0, p);
    NoneAt(out, 0, p);
    assert t[0] == s[0];
  }

  /** An update below the top of its side leaves the top of both sides as it was. */
  lemma BelowTop(b: Book, u: MarketUpdate)
    requires WellFormed(b) && Accepts(b, u) && Truthful(b, u) && u.kind in {Add, Modify, Cancel}
    requires u.side != NoSide && b.Of(u.side) != [] && !Touches(b, u.side, u)
    ensures var c := Apply(b, u);
      && c.Of(u.side) != []
      && BestPrice(c.bids) == BestPrice(b.bids) && BestQty(c.bids) == BestQty(b.bids)
      && BestPrice(c.asks) == BestPrice(b.asks) && BestQty(c.asks) == BestQty(b.asks)
  {
    hide BestPrice;
    hide BestQty;
    var s := b.Of(u.side);
    if u.kind == Add {
      var k := InsertPos(u.side, s, u.price);
      TopUnmoved(s, k, k, [EntryIn(u)]);
    } else {
      var e := Lookup(b, u.orderId);
      InBookSide(b, e);
      var k := IndexOf(s, u.orderId);
      if u.kind == Modify {
        var f := e.(qty := u.qty);
        TopUnmoved(s, k, k + 1, [f]);
        assert s[k := f] == s[..k] + [f] + s[k + 1..];
      } else {
        TopUnmoved(s, k, k + 1, []);
        assert s[..k] + [] + s[k + 1..] == RemoveAt(s, k);
      }
    }
  }

  lemma SideOfUpdate(b: Book, u: MarketUpdate)
    requires WellFormed(b) && Accepts(b, u) && Truthful(b, u) && u.kind in {Add, Modify, Cancel}
    ensures u.side != NoSide && Apply(b, u).Of(Opposite(u.side)) == b.Of(Opposite(u.side))
    ensures u.kind != Add ==> b.Of(u.side) != []
  {
  }

  /**
   From an accurate best bid and offer, an update the exchange sends leaves it accurate exactly if it is not the first
   order of an empty side: the guard looks at the side as it was before the update.
   */
  lemma AccurateUnlessFirst(bbo: BBO, b: Book, u: MarketUpdate)
    requires WellFormed(b) && Accepts(b, u) && Truthful(b, u) && u.kind in {Add, Modify, Cancel, Trade}
    requires Accurate(bbo, b) && u.price != PRICE_INVALID
    ensures Accurate(BBOAfter(bbo, b, u), Apply(b, u)) <==> !(u.kind == Add && b.Of(u.side) == [])
  {
    if u.kind != Trade {
      SideOfUpdate(b, u);
      if b.Of(u.side) == [] {
        var t := Apply(b, u).Of(u.side);
        assert t[0] == EntryIn(u);
      } else if !Touches(b, u.side, u) {
        BelowTop(b, u);
      }
    }
  }

  /** CLEAR names no side, so it never refreshes: it leaves the best bid and offer accurate only on an empty book. */
  lemma AccurateAfterClear(bbo: BBO, b: Book, u: MarketUpdate)
    requires Accurate(bbo, b) && u.kind == Clear && u.side == NoSide
    requires forall e :: InBook(b, e) ==> e.price != PRICE_INVALID
    ensures Accurate(BBOAfter(bbo, b, u), Apply(b, u)) <==> b == EMPTY_BOOK
  {
  }

  // --- Whole streams -------------------------------------------------------------------------------------------

  /** The best bid, or the best offer, is that of the book. */
  predicate SideAccurate(bbo: BBO, b: Book, side: Side) {
    if side == Buy then bbo.bidPrice == BestPrice(b.bids) && bbo.bidQty == BestQty(b.bids)
    else bbo.askPrice == BestPrice(b.asks) && bbo.askQty == BestQty(b.asks)
  }

  /** This update is the first order of a side without any. */
  predicate Opens(b: Book, u: MarketUpdate, side: Side) {
    u.kind == Add && u.side == side && b.Of(side) == []
  }

  /** An update other than a trade is at the best price of this side, or better. */
  predicate Refreshes(b: Book, u: MarketUpdate, side: Side) {
    && u.kind != Trade && u.side == side
    && (if side == Buy then b.bids != [] && u.price >= b.bids[0].price else b.asks != [] && u.price <= b.asks[0].price)
  }

  /** An update a book in use survives. */
  predicate Survivable(b: Book, u: MarketUpdate) {
    && (u.kind == Clear ==> b == EMPTY_BOOK)
    && (u.kind == Add ==> u.price != PRICE_INVALID)
  }

  ghost predicate AllSurvivable(b: Book, us: seq<MarketUpdate>, target: Book)
    requires Replays(b, us, target)
    decreases |us|
  {
    us == [] || (Survivable(b, us[0]) && AllSurvivable(Apply(b, us[0]), us[1..], target))
  }

  /** The best bid and offer after a whole stream. */
  ghost function BBOOver(bbo: BBO, b: Book, us: seq<MarketUpdate>, target: Book): BBO
    requires Replays(b, us, target)
    decreases |us|
  {
    if us == [] then bbo else BBOOver(BBOAfter(bbo, b, us[0]), Apply(b, us[0]), us[1..], target)
  }

  /** No update of the stream touches the top of this side. */
  ghost predicate Untouched(b: Book, us: seq<MarketUpdate>, target: Book, side: Side)
    requires Replays(b, us, target)
    decreases |us|
  {
    us == [] || (!Refreshes(b, us[0], side) && Untouched(Apply(b, us[0]), us[1..], target, side))
  }

  /** The stream brings this side a first order, and nothing that touches its top from then on. */
  ghost predicate OpenedUnseen(b: Book, us: seq<MarketUpdate>, target: Book, side: Side)
    requires Replays(b, us, target)
    decreases |us|
  {
    us != [] &&
    var c := Apply(b, us[0]);
    (Opens(b, us[0], side) && Untouched(c, us[1..], target, side)) || OpenedUnseen(c, us[1..], target, side)
  }

  /** An update about the other side, or about no order, leaves a side as it was. */
  lemma SideKept(b: Book, u: MarketUpdate, side: Side)
    requires WellFormed(b) && Accepts(b, u) && Truthful(b, u) && Survivable(b, u) && side != NoSide
    requires u.side != side || u.kind !in {Add, Modify, Cancel}
    ensures Apply(b, u).Of(side) == b.Of(side)
  {
    hide WellFormed;
    if u.kind in {Add, Modify, Cancel} { SideOfUpdate(b, u); }
  }

  lemma FirstOrder(b: Book, u: MarketUpdate)
    requires WellFormed(b) && Accepts(b, u) && Truthful(b, u)
    requires u.kind in {Add, Modify, Cancel} && b.Of(u.side) == []
    ensures u.kind == Add && Apply(b, u).Of(u.side) != [] && BestPrice(Apply(b, u).Of(u.side)) == u.price
  {
    hide WellFormed;
    SideOfUpdate(b, u);
    assert Apply(b, u).Of(u.side)[0] == EntryIn(u);
  }

  /** What one update does to the best price and quantity of one side. */
  lemma SideStep(bbo: BBO, b: Book, u: MarketUpdate, side: Side)
    requires WellFormed(b) && Accepts(b, u) && Truthful(b, u) && Survivable(b, u) && side != NoSide
    requires SideAccurate(bbo, b, side) || b.Of(side) != []
    ensures var x, c := BBOAfter(bbo, b, u), Apply(b, u);
      && (SideAccurate(x, c, side)
          <==> Refreshes(b, u, side) || (SideAccurate(bbo, b, side) && !Opens(b, u, side)))
      && (SideAccurate(x, c, side) || c.Of(side) != [])
  {
    hide WellFormed;
    hide Accepts;
    hide Truthful;
    hide Apply;
    hide BestQty;
    if u.side != side || u.kind !in {Add, Modify, Cancel} {
      SideKept(b, u, side);
    } else if b.Of(side) == [] {
      FirstOrder(b, u);
    } else if !Touches(b, side, u) {
      BelowTop(b, u);
    }
  }

  /** The best price and quantity of one side after a stream, whatever they were before. */
  lemma {:induction false} SideOver(bbo: BBO, b: Book, us: seq<MarketUpdate>, target: Book, side: Side)
    requires WellFormed(b) && Replays(b, us, target) && AllSurvivable(b, us, target) && side != NoSide
    requires SideAccurate(bbo, b, side) || b.Of(side) != []
    ensures SideAccurate(BBOOver(bbo, b, us, target), target, side)
      <==> !OpenedUnseen(b, us, target, side) && (SideAccurate(bbo, b, side) || !Untouched(b, us, target, side))
    decreases |us|
  {
    hide WellFormed;
    hide Accepts;
    hide Apply;
    hide Truthful;
    hide SideAccurate;
    hide Better;
    hide BBOAfter;
    if us == [] {
    } else {
      SideStep(bbo, b, us[0], side);
      ApplyKeepsWellFormed(b, us[0]);
      SideOver(BBOAfter(bbo, b, us[0]), Apply(b, us[0]), us[1..], target, side);
    }
  }

  /**
   From an accurate best bid and offer, a whole stream leaves a side's accurate exactly unless the side got a first
   order and every update from then on lay below its top.
   */
  lemma AccurateOver(bbo: BBO, b: Book, us: seq<MarketUpdate>, target: Book)
    requires WellFormed(b) && Replays(b, us, target) && AllSurvivable(b, us, target) && Accurate(bbo, b)
    ensures var x := BBOOver(bbo, b, us, target);
      && (SideAccurate(x, target, Buy) <==> !OpenedUnseen(b, us, target, Buy))
      && (SideAccurate(x, target, Sell) <==> !OpenedUnseen(b, us, target, Sell))
      && (Accurate(x, target) <==> SideAccurate(x, target, Buy) && SideAccurate(x, target, Sell))
  {
    SideOver(bbo, b, us, target, Buy);
    SideOver(bbo, b, us, target, Sell);
  }

  // --- Streams that leave the structure sound --------------------------------------------------------------------

  /** An update that does not break the structure: no CLEAR of a book in use, no order whose slot another price has. */
  ghost predicate Harmless(b: Book, u: MarketUpdate) {
    && (u.kind == Clear ==> b == EMPTY_BOOK)
    && (u.kind == Add ==> u.orderId < ME_MAX_ORDER_IDS && Slots(b, u.price))
  }

  ghost predicate Followable(b: Book, us: seq<MarketUpdate>, target: Book)
    requires Replays(b, us, target)
    decreases |us|
  {
    us == [] || (Harmless(b, us[0]) && Followable(Apply(b, us[0]), us[1..], target))
  }

  /** A stream whose prices all lie in one window, with no CLEAR after its first update, leaves the structure sound. */
  lemma {:induction false} FollowableInWindow(b: Book, us: seq<MarketUpdate>, target: Book, lo: int)
    requires WellFormed(b) && Replays(b, us, target) && PricesFrom(b, lo)
    requires forall i {:trigger us[i]} :: 0 <= i < |us| && us[i].kind == Clear ==> i == 0 && b == EMPTY_BOOK
    requires forall i {:trigger us[i]} :: 0 <= i < |us| && us[i].kind == Add ==>
      lo <= us[i].price < lo + ME_MAX_PRICE_LEVELS && us[i].orderId < ME_MAX_ORDER_IDS
    ensures Followable(b, us, target)
    decreases |us|
  {
    hide WellFormed;
    hide Accepts;
    hide Apply;
    hide PricesFrom;
    hide Slots;
    if us == [] {
    } else {
      if us[0].kind == Add { SlotsInWindow(b, us[0].price, lo); }
      ApplyPrices(b, us[0], lo);
      ApplyKeepsWellFormed(b, us[0]);
      assert forall i {:trigger us[1..][i]} :: 0 <= i < |us| - 1 ==> us[1..][i] == us[i + 1];
      FollowableInWindow(Apply(b, us[0]), us[1..], target, lo);
    }
  }

  lemma ApplyPrices(b: Book, u: MarketUpdate, lo: int)
    requires WellFormed(b) && Accepts(b, u) && PricesFrom(b, lo)
    requires u.kind == Add ==> lo <= u.price < lo + ME_MAX_PRICE_LEVELS
    ensures PricesFrom(Apply(b, u), lo)
  {
    var c := Apply(b, u);
    forall f {:trigger InBook(c, f)} | InBook(c, f) ensures lo <= f.price < lo + ME_MAX_PRICE_LEVELS {
      if u.kind == Add {
        AddedEntry(b, EntryIn(u), f);
      } else if u.kind == Modify || u.kind == Cancel {
        var e := Lookup(b, u.orderId);
        InBookSide(b, e);
        var k := IndexOf(b.Of(e.side), e.id);
        if u.kind == Modify {
          SetQtyEntry(b, e.side, k, u.qty, f);
        } else {
          RemovedEntry(b, e.side, k, f);
        }
      }
    }
  }

  /** The id map finds exactly the live orders. */
  ghost predicate IdMapped(index: array<OrderNode?>, orders: map<OrderId, OrderNode>)
    reads index
  {
    && index.Length == ME_MAX_ORDER_IDS
    && (forall id {:trigger orders[id]} :: id in orders ==>
      id < index.Length && index[id] == orders[id] && orders[id].id == id)
    && (forall i {:trigger index[i]} :: 0 <= i < index.Length && index[i] != null ==>
      i in orders && orders[i] == index[i])
  }

  class MarketOrderBook {
    const ticker: TickerId
    const levels: LinkedBook
    const oidToOrder: array<OrderNode?>
    var bbo: BBO

    ghost function Repr(): set<object>
      reads levels
    {
      {levels, oidToOrder} + levels.Repr()
    }

    ghost predicate Valid()
      reads levels, Repr()
    {
      && this !in levels.Repr() && oidToOrder !in levels.Repr()
      && levels.Valid() && levels.scan == ClientScan
      && IdMapped(oidToOrder, levels.shape.orders)
    }

    ghost function Book(): Book
      reads levels
    {
      levels.shape.book
    }

    /** Nothing can be reached from the heads. */
    ghost predicate Cleared()
      reads levels
    {
      this !in levels.Repr() && Book() == EMPTY_BOOK && levels.bidHead == null && levels.askHead == null
    }

    constructor (ticker: TickerId)
      ensures Valid() && fresh(Repr()) && this.ticker == ticker
      ensures Book() == EMPTY_BOOK && Accurate(bbo, Book())
    {
      hide LinkedBook.Valid;
      this.ticker := ticker;
      levels := new LinkedBook(ClientScan);
      oidToOrder := new OrderNode?[ME_MAX_ORDER_IDS](_ => null);
      bbo := NO_BBO;
    }

    /** The order with this id, if it is live. */
    lemma Live(id: OrderId)
      requires Valid() && RestsIn(Book(), id)
      ensures id in levels.shape.orders && id < oidToOrder.Length && oidToOrder[id] == levels.shape.orders[id]
      ensures levels.shape.orders[id].id == id && InBook(Book(), EntryOf(levels.shape.orders[id]))
      ensures Lookup(Book(), id) == EntryOf(levels.shape.orders[id])
        && levels.shape.orders[id] in levels.shape.orderNodes
    {
      hide LinkedBook.Valid;
      levels.RestingLive(id);
      var order := levels.shape.orders[id];
      levels.OrderRests(order);
      levels.OrderLinked(order);
      levels.BookWellFormed();
      LookupEntry(Book(), EntryOf(order));
    }

    method AddOrder(order: OrderNode)
      requires Valid() && CanAdd(Book(), EntryOf(order)) && order !in levels.shape.orderNodes
      requires order.id < ME_MAX_ORDER_IDS
      modifies Repr(), {order}`next, {order}`prev
      ensures Valid() <==> Slots(old(Book()), order.price)
      ensures Valid() ==> fresh(Repr() - old(Repr()) - {order}) && Book() == Added(old(Book()), old(EntryOf(order)))
    {
      hide LinkedBook.Valid;
      hide CanAdd;
      hide Added;
      hide IdMapped;
      hide Slots;
      levels.NewId(EntryOf(order));
      levels.AddOrder(order);
      assert oidToOrder !in levels.Repr();
      SetSlot(order.id, order, old(levels.shape.orders));
      assert levels.Valid() ==> IdMapped(oidToOrder, levels.shape.orders);
    }

    method SetSlot(id: OrderId, order: OrderNode?, ghost orders: map<OrderId, OrderNode>)
      requires IdMapped(oidToOrder, orders) && id < ME_MAX_ORDER_IDS && (order == null || order.id == id)
      modifies oidToOrder
      ensures IdMapped(oidToOrder, if order == null then orders - {id} else orders[id := order])
    {
      oidToOrder[id] := order;
    }

    lemma IdFits(id: OrderId)
      requires Valid() && id in levels.shape.orders
      ensures id < ME_MAX_ORDER_IDS
    {
    }

    method RemoveOrder(order: OrderNode)
      requires Valid() && order.id in levels.shape.orders && levels.shape.orders[order.id] == order
      modifies Repr()
      ensures Valid() && Repr() == old(Repr())
      ensures order.side != NoSide
        && Book() == old(Book()).With(order.side, Remove(old(Book()).Of(order.side), order.id))
    {
      hide LinkedBook.Valid;
      hide IdMapped;
      IdFits(order.id);
      levels.RemoveOrder(order);
      SetSlot(order.id, null, old(levels.shape.orders));
      assert oidToOrder !in levels.Repr();
      assert levels.Valid() && IdMapped(oidToOrder, levels.shape.orders);
    }

    /** The quantity of the best level of a side, added up round its queue. */
    method LevelTotal(side: Side, level: LevelNode) returns (qty: Qty)
      requires Valid() && side != NoSide && Book().Of(side) != [] && level == levels.Head(side)
      ensures qty == BestQty(Book().Of(side))
    {
      hide LinkedBook.Valid;
      hide IdMapped;
      hide StartsLevel;
      hide EndsLevel;
      hide LevelEnd;
      ghost var s, m := Book().Of(side), 0;
      ghost var p, end := s[0].price, LevelEnd(s, 0);
      levels.Ordered(side);
      levels.HeadLeads(side);
      FirstStarts(s);
      levels.QueueStep(side, 0, 0);
      QtyAtStep(s, 0, p);
      qty := level.first.qty;
      var order := level.first.next;
      while order != level.first
        invariant m <= end && qty == QtyAt(s[..m + 1], p)
        invariant m == end <==> order == level.first
        invariant m < end ==> s[m + 1].id in levels.shape.orders && order == levels.shape.orders[s[m + 1].id]
        decreases end - m
      {
        m := m + 1;
        levels.QueueStep(side, 0, m);
        QueuePos(side, s, 0, m);
        QtyAtStep(s, m, p);
        qty := qty + order.qty;
        order := order.next;
      }
      TopLevel(side, s);
    }

    /** Read the best bid, or the best offer, or both off the book. */
    method UpdateBBO(updateBid: bool, updateAsk: bool)
      requires Valid() || Cleared()
      modifies this`bbo
      ensures Valid() == old(Valid()) && Book() == old(Book()) && Repr() == old(Repr())
      ensures var x := if updateBid then BidsOf(old(bbo), Book()) else old(bbo);
        bbo == if updateAsk then AsksOf(x, Book()) else x
    {
      hide LinkedBook.Valid;
      hide IdMapped;
      hide QtyAt;
      if Valid() {
        levels.HeadLeads(Buy);
        levels.HeadLeads(Sell);
      }
      if updateBid {
        if levels.Head(Buy) != null {
          var qty := LevelTotal(Buy, levels.Head(Buy));
          bbo := bbo.(bidPrice := levels.Head(Buy).price, bidQty := qty);
        } else {
          bbo := bbo.(bidPrice := PRICE_INVALID, bidQty := QTY_INVALID);
        }
      }
      if updateAsk {
        if levels.Head(Sell) != null {
          var qty := LevelTotal(Sell, levels.Head(Sell));
          bbo := bbo.(askPrice := levels.Head(Sell).price, askQty := qty);
        } else {
          bbo := bbo.(askPrice := PRICE_INVALID, askQty := QTY_INVALID);
        }
      }
    }

    lemma Heads()
      requires Valid()
      ensures var s := Book().bids; if s == [] then levels.Head(Buy) == null
        else levels.Head(Buy) != null && levels.Head(Buy).price == s[0].price
      ensures var s := Book().asks; if s == [] then levels.Head(Sell) == null
        else levels.Head(Sell) != null && levels.Head(Sell).price == s[0].price
    {
      levels.HeadLeads(Buy);
      levels.HeadLeads(Sell);
    }

    /**
     Forget every order.  The price index is not emptied, so the structure is sound afterwards only if no order was
     there.
     */
    method Clear()
      requires Valid()
      modifies Repr()
      ensures Valid() <==> old(Book()) == EMPTY_BOOK
      ensures Cleared() && Repr() <= old(Repr())
    {
      hide LinkedBook.Valid;
      forall i | 0 <= i < oidToOrder.Length {
        oidToOrder[i] := null;
      }
      levels.Clear();
    }

    /** Take one market update into the book. */
    method Absorb(u: MarketUpdate)
      requires Valid() && Accepts(Book(), u)
      requires u.kind == Add ==> u.orderId < ME_MAX_ORDER_IDS && Slots(Book(), u.price)
      modifies Repr()
      ensures Valid() <==> !(u.kind == UpdateType.Clear && old(Book()) != EMPTY_BOOK)
      ensures (Valid() || Cleared()) && fresh(Repr() - old(Repr()))
      ensures Book() == Apply(old(Book()), u)
    {
      hide CanAdd;
      hide Added;
      hide Remove;
      hide SetQty;
      hide Lookup;
      hide Slots;
      hide RestsIn;
      hide Valid;
      hide Book;
      match u.kind {
        case Add =>
          var order := new OrderNode(0, 0, u.orderId, u.side, u.price, u.qty, u.priority);
          AddOrder(order);
        case Modify =>
          Live(u.orderId);
          ModifyOrder(oidToOrder[u.orderId], u.qty);
        case Cancel =>
          Live(u.orderId);
          RemoveOrder(oidToOrder[u.orderId]);
        case Clear =>
          Clear();
        case _ =>
      }
    }

    /**
     Apply one market update to the book, and refresh the best bid and offer where the update may have changed them.
     Only a CLEAR of a book in use breaks the structure.
     */
    method OnMarketUpdate(u: MarketUpdate)
      requires Valid() && Accepts(Book(), u)
      requires u.kind == Add ==> u.orderId < ME_MAX_ORDER_IDS && Slots(Book(), u.price)
      modifies this`bbo, Repr()
      ensures Valid() <==> !(u.kind == UpdateType.Clear && old(Book()) != EMPTY_BOOK)
      ensures Book() == Apply(old(Book()), u) && fresh(Repr() - old(Repr()))
      ensures bbo == BBOAfter(old(bbo), old(Book()), u)
    {
      hide Accepts;
      hide Apply;
      hide BidsOf;
      hide AsksOf;
      hide Slots;
      hide Valid;
      hide Cleared;
      hide Book;
      Heads();
      var bidUpdated := levels.Head(Buy) != null && u.side == Buy && u.price >= levels.Head(Buy).price;
      var askUpdated := levels.Head(Sell) != null && u.side == Sell && u.price <= levels.Head(Sell).price;
      ghost var b := Book();
      Absorb(u);
      if u.kind == Trade {
        return;
      }
      UpdateBBO(bidUpdated, askUpdated);
    }

    /**
     Apply a whole stream of updates that leaves the structure sound: a client fed what the exchange sends ends with the
     exchange's book, and so does a fresh client fed a snapshot.
     */
    method Follow(us: seq<MarketUpdate>, ghost target: PriceTime.Book)
      requires Valid() && Replays(Book(), us, target) && Followable(Book(), us, target)
      modifies this`bbo, Repr()
      ensures Valid() && fresh(Repr() - old(Repr())) && Book() == target
      ensures bbo == BBOOver(old(bbo), old(Book()), us, target)
    {
      hide Valid;
      hide Book;
      hide Accepts;
      hide Apply;
      hide BBOAfter;
      hide Slots;
      hide Replays;
      hide Followable;
      hide BBOOver;
      assert us[0..] == us;
      for i := 0 to |us|
        invariant Valid() && fresh(Repr() - old(Repr()))
        invariant Replays(Book(), us[i..], target) && Followable(Book(), us[i..], target)
        invariant BBOOver(bbo, Book(), us[i..], target) == BBOOver(old(bbo), old(Book()), us, target)
      {
        ReplaysFirst(bbo, Book(), us, i, target);
        OnMarketUpdate(us[i]);
      }
      ReplayedAll(bbo, Book(), us, target);
    }

    method ModifyOrder(order: OrderNode, qty: Qty)
      requires Valid() && order.id in levels.shape.orders && levels.shape.orders[order.id] == order && qty > 0
      modifies levels`shape, {order}`qty
      ensures Valid() && Repr() == old(Repr())
      ensures order.side != NoSide
        && Book() == old(Book()).With(order.side, SetQty(old(Book()).Of(order.side), order.id, qty))
    {
      hide LinkedBook.Valid;
      levels.ChangeQty(order, qty);
    }
  }

  lemma ReplaysFirst(bbo: BBO, b: Book, us: seq<MarketUpdate>, i: nat, target: Book)
    requires i < |us| && Replays(b, us[i..], target)
    requires Followable(b, us[i..], target)
    ensures Accepts(b, us[i]) && Replays(Apply(b, us[i]), us[i + 1..], target)
    ensures Harmless(b, us[i]) && Followable(Apply(b, us[i]), us[i + 1..], target)
    ensures BBOOver(bbo, b, us[i..], target)
      == BBOOver(BBOAfter(bbo, b, us[i]), Apply(b, us[i]), us[i + 1..], target)
  {
    hide Accepts;
    hide Apply;
    assert us[i..][0] == us[i] && us[i..][1..] == us[i + 1..];
  }

  lemma ReplayedAll(bbo: BBO, b: Book, us: seq<MarketUpdate>, target: Book)
    requires Replays(b, us[|us|..], target)
    ensures b == target && BBOOver(bbo, b, us[|us|..], target) == bbo
  {
  }

  lemma FirstStarts(s: seq<Entry>)
    requires s != []
    ensures StartsLevel(s, 0)
  {
  }
}
