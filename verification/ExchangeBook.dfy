/** The exchange's order book: the linked book, the map from client order ids to orders, and the messages it sends. */
module ExchangeBook {
  import opened Types
  import opened PriceTime
  import opened LinkedLevels
  import opened LinkedBooks
  import opened Matching

  ghost function OwnersOf(orders: map<OrderId, OrderNode>): map<OrderId, Owner> {
    map id | id in orders :: Owner(orders[id].client, orders[id].clientOrderId)
  }

  /** No live order belongs to an owner that is not listed. */
  lemma FreshOwner(orders: map<OrderId, OrderNode>, owner: Owner)
    requires owner !in OwnersOf(orders).Values
    ensures forall id {:trigger orders[id]} :: id in orders ==>
      orders[id].client != owner.client || orders[id].clientOrderId != owner.clientOrderId
  {
    forall id {:trigger orders[id]} | id in orders
      ensures orders[id].client != owner.client || orders[id].clientOrderId != owner.clientOrderId
    {
      assert OwnersOf(orders)[id] in OwnersOf(orders).Values;
    }
  }

  lemma TakenOwner(orders: map<OrderId, OrderNode>, owner: Owner) returns (id: OrderId)
    requires owner in OwnersOf(orders).Values
    ensures id in orders && orders[id].client == owner.client && orders[id].clientOrderId == owner.clientOrderId
  {
    id :| id in OwnersOf(orders) && OwnersOf(orders)[id] == owner;
  }

  lemma OwnersAdd(orders: map<OrderId, OrderNode>, o: OrderNode)
    ensures OwnersOf(orders[o.id := o]) == OwnersOf(orders)[o.id := Owner(o.client, o.clientOrderId)]
  {
  }

  lemma OwnersRemove(orders: map<OrderId, OrderNode>, id: OrderId)
    ensures OwnersOf(orders - {id}) == OwnersOf(orders) - {id}
  {
  }

  /** The client order map finds exactly the live orders. */
  ghost predicate Mapped(index: array2<OrderNode?>, orders: map<OrderId, OrderNode>)
    reads index
  {
    && index.Length0 == ME_MAX_NUM_CLIENTS && index.Length1 == ME_MAX_ORDER_IDS
    && (forall id {:trigger orders[id]} :: id in orders ==>
          var o := orders[id];
          o.id == id && o.client < index.Length0 && o.clientOrderId < index.Length1
            && index[o.client, o.clientOrderId] == o)
    && (forall c, i {:trigger index[c, i]} ::
      0 <= c < index.Length0 && 0 <= i < index.Length1 && index[c, i] != null ==>
          var o := index[c, i];
          o.client == c && o.clientOrderId == i && o.id in orders && orders[o.id] == o)
  }

  /** What is left of a new order would rest at a price whose index slot no other price has by then. */
  ghost predicate HasRoom(x: Exchange, o: NewOrder)
    requires o.side != NoSide
  {
    Greedy(o.side, o.price, o.qty, x.book.Of(Opposite(o.side))).leaves > 0 ==> Slots(Traded(x, o), o.price)
  }

  /** The effect of a new order is that of matching, and of its remainder. */
  lemma AddedEffect(x: Exchange, ticker: TickerId, o: NewOrder)
    requires Good(x) && o.side != NoSide
    ensures var m, e := MatchEffect(x, ticker, o), AddEffect(x, ticker, o);
      var leaves := Greedy(o.side, o.price, o.qty, x.book.Of(Opposite(o.side))).leaves;
      var n := Resting(m.state.book, o, x.nextId, leaves);
      && e.responses
           == [ClientResponse(Accepted, o.client, ticker, o.clientOrderId, x.nextId, o.side, o.price, 0, o.qty)]
              + m.responses
      && e.updates == m.updates + (if leaves == 0 then [] else
                        [MarketUpdate(UpdateType.Add, x.nextId, ticker, o.side, o.price, leaves, n.priority)])
      && e.state == (if leaves == 0 then m.state.(nextId := x.nextId + 1) else
                       Exchange(Added(m.state.book, n), m.state.owners[x.nextId := Owner(o.client, o.clientOrderId)],
                                x.nextId + 1))
  {
    hide MatchEffect;
    hide Greedy;
  }

  lemma NothingLeft(x: Exchange, o: NewOrder)
    requires o.side != NoSide && Greedy(o.side, o.price, o.qty, x.book.Of(Opposite(o.side))).leaves == 0
    ensures HasRoom(x, o) && Ownable(x, o)
  {
  }

  /** Matching opens no level, so an order whose slot is free of other prices before has room after. */
  lemma TradedSlots(x: Exchange, o: NewOrder)
    requires Good(x) && o.side != NoSide && Slots(x.book, o.price)
    ensures Slots(Traded(x, o), o.price) && HasRoom(x, o)
  {
    hide Greedy;
    hide LiveOwners;
    var opp := Opposite(o.side);
    var s := x.book.Of(opp);
    var g := Greedy(o.side, o.price, o.qty, s);
    var k := GreedyRest(o.side, o.price, o.qty, s);
    SuffixAt(opp, s, k, g.rest);
    forall i | 0 <= i < |g.rest| ensures HasPrice(s, g.rest[i].price) {
      assert s[k + i].price == g.rest[i].price;
    }
    forall p {:trigger PricedIn(Traded(x, o), p)} | PricedIn(Traded(x, o), p) ensures PricedIn(x.book, p) {
    }
  }

  /** If something of an order is left, matching leaves nothing at its limit on the other side. */
  lemma LimitCleared(x: Exchange, o: NewOrder)
    requires Good(x) && o.side != NoSide
    requires Greedy(o.side, o.price, o.qty, x.book.Of(Opposite(o.side))).leaves > 0
    ensures !HasPrice(Traded(x, o).Of(Opposite(o.side)), o.price)
  {
    hide Greedy;
    hide LiveOwners;
    var opp := Opposite(o.side);
    var s := x.book.Of(opp);
    var g := Greedy(o.side, o.price, o.qty, s);
    var k := GreedyRest(o.side, o.price, o.qty, s);
    SuffixAt(opp, s, k, g.rest);
    forall i | 0 <= i < |g.rest| ensures g.rest[i].price != o.price {
      assert i == 0 || Before(opp, g.rest[0], g.rest[i]);
    }
  }

  /** This priority comes next after the last order of the level. */
  ghost predicate ComesNext(level: LevelNode, priority: Priority)
    reads level`first, if level.first == null then {} else {level.first as object}
  {
    level.first != null && level.first.prev != null && priority == level.first.prev.priority + 1
  }

  /** The book and the owners once this much of a resting order has been filled. */
  ghost function OrderFilled(x: Exchange, e: Entry, exec: Qty): Exchange
    requires e.side != NoSide && Has(x.book.Of(e.side), e.id) && exec <= e.qty
  {
    var s := x.book.Of(e.side);
    if exec == e.qty then Exchange(x.book.With(e.side, Remove(s, e.id)), x.owners - {e.id}, x.nextId)
    else x.(book := x.book.With(e.side, SetQty(s, e.id, e.qty - exec)))
  }

  /** What the market is shown of the resting order after a fill: gone, or what remains of it. */
  function OrderShown(ticker: TickerId, e: Entry, exec: Qty): MarketUpdate
    requires exec <= e.qty
  {
    if exec == e.qty then MarketUpdate(UpdateType.Cancel, e.id, ticker, e.side, e.price, e.qty, PRIORITY_INVALID)
    else MarketUpdate(Modify, e.id, ticker, e.side, e.price, e.qty - exec, e.priority)
  }

  class MEOrderBook {
    const ticker: TickerId
    const levels: LinkedBook
    const cidOidToOrder: array2<OrderNode?>
    var nextMarketOrderId: OrderId
    // The queues to the order server and the market data publisher.
    var clientResponses: seq<ClientResponse>
    var marketUpdates: seq<MarketUpdate>

    /** The objects the book is made of, apart from the book itself. */
    ghost function Repr(): set<object>
      reads levels
    {
      {levels, cidOidToOrder} + levels.Repr()
    }

    ghost predicate Valid()
      reads this`nextMarketOrderId, levels, Repr()
    {
      && this !in levels.Repr() && cidOidToOrder !in levels.Repr()
      && levels.Valid() && levels.scan == ExchangeScan
      && Mapped(cidOidToOrder, levels.shape.orders)
      && (forall id {:trigger levels.shape.orders[id]} :: id in levels.shape.orders ==> id < nextMarketOrderId)
    }

    /** The book as a value. */
    ghost function State(): Exchange
      reads this`nextMarketOrderId, levels
    {
      Exchange(levels.shape.book, OwnersOf(levels.shape.orders), nextMarketOrderId)
    }

    lemma StateGood()
      requires Valid()
      ensures Good(State())
    {
    }

    lemma InRepr(order: OrderNode)
      requires Valid() && order.id in levels.shape.orders && levels.shape.orders[order.id] == order
      ensures order in levels.shape.orderNodes
    {
      levels.OrderLinked(order);
    }

    constructor (ticker: TickerId)
      ensures Valid() && fresh(Repr()) && this.ticker == ticker
      ensures State() == NEW_EXCHANGE && clientResponses == [] && marketUpdates == []
    {
      hide LinkedBook.Valid;
      this.ticker := ticker;
      levels := new LinkedBook(ExchangeScan);
      cidOidToOrder := new OrderNode?[ME_MAX_NUM_CLIENTS, ME_MAX_ORDER_IDS]((_, _) => null);
      nextMarketOrderId, clientResponses, marketUpdates := 1, [], [];
    }

    method Unmap(order: OrderNode, ghost orders: map<OrderId, OrderNode>)
      requires Mapped(cidOidToOrder, orders) && order.id in orders && orders[order.id] == order
      modifies cidOidToOrder
      ensures Mapped(cidOidToOrder, orders - {order.id})
    {
      cidOidToOrder[order.client, order.clientOrderId] := null;
    }

    method Map(order: OrderNode, ghost orders: map<OrderId, OrderNode>)
      requires Mapped(cidOidToOrder, orders) && order.id !in orders
      requires order.client < ME_MAX_NUM_CLIENTS && order.clientOrderId < ME_MAX_ORDER_IDS
      modifies cidOidToOrder
      ensures Mapped(cidOidToOrder, orders[order.id := order])
        <==> Owner(order.client, order.clientOrderId) !in OwnersOf(orders).Values
    {
      ghost var owner := Owner(order.client, order.clientOrderId);
      cidOidToOrder[order.client, order.clientOrderId] := order;
      if owner !in OwnersOf(orders).Values {
        FreshOwner(orders, owner);
      } else {
        ghost var id := TakenOwner(orders, owner);
        assert orders[order.id := order][id] == orders[id];
      }
    }

    /** Take an order out of the rings and the client order map. */
    method RemoveOrder(order: OrderNode)
      requires Valid() && order.id in levels.shape.orders && levels.shape.orders[order.id] == order
      modifies Repr()
      ensures Valid() && Repr() == old(Repr())
      ensures order.side != NoSide && Has(old(State()).book.Of(order.side), order.id)
      ensures State() == old(Exchange(State().book.With(order.side, Remove(State().book.Of(order.side), order.id)),
                                      State().owners - {order.id}, State().nextId))
      ensures levels.shape.orders == old(levels.shape.orders) - {order.id}
    {
      hide LinkedBook.Valid;
      hide Mapped;
      hide OwnersOf;
      OwnersRemove(levels.shape.orders, order.id);
      levels.RemoveOrder(order);
      Unmap(order, old(levels.shape.orders));
      assert cidOidToOrder !in levels.Repr();
      assert levels.Valid() && Mapped(cidOidToOrder, levels.shape.orders);
    }

    /**
     Put a new order into the rings and the client order map.  That breaks the book exactly if another price shares its
     index slot or its client has a live order under the same id.
     */
    method AddOrder(order: OrderNode)
      requires Valid() && CanAdd(levels.shape.book, EntryOf(order)) && order !in levels.shape.orderNodes
      requires order.client < ME_MAX_NUM_CLIENTS && order.clientOrderId < ME_MAX_ORDER_IDS
      requires order.id < nextMarketOrderId
      modifies Repr(), {order}`next, {order}`prev
      ensures Valid() <==> Slots(old(State()).book, order.price)
                           && Owner(order.client, order.clientOrderId) !in old(State()).owners.Values
      ensures this !in Repr()
      ensures Valid() ==>
        && fresh(Repr() - old(Repr()) - {order})
        && State() == old(Exchange(Added(State().book, EntryOf(order)),
                                   State().owners[order.id := Owner(order.client, order.clientOrderId)],
                                   State().nextId))
    {
      hide LinkedBook.Valid;
      hide CanAdd;
      hide Added;
      hide Mapped;
      hide OwnersOf;
      hide Slots;
      OwnersAdd(levels.shape.orders, order);
      levels.NewId(EntryOf(order));
      levels.AddOrder(order);
      assert cidOidToOrder !in levels.Repr();
      Map(order, old(levels.shape.orders));
      assert levels.Valid() ==> levels.shape.orders == old(levels.shape.orders)[order.id := order];
    }

    /** Lower the quantity of a resting order that was partly filled. */
    method ReduceOrder(order: OrderNode, qty: Qty)
      requires Valid() && order.id in levels.shape.orders && levels.shape.orders[order.id] == order && qty > 0
      modifies levels`shape, {order}`qty
      ensures Valid() && Repr() == old(Repr()) && order.qty == qty
      ensures order.side != NoSide && Has(old(State()).book.Of(order.side), order.id)
      ensures State() == old(State()).(book := old(State()).book.With(order.side,
                                                 SetQty(old(State()).book.Of(order.side), order.id, qty)))
      ensures levels.shape.orders == old(levels.shape.orders)
    {
      hide LinkedBook.Valid;
      hide Mapped;
      hide OwnersOf;
      levels.ChangeQty(order, qty);
    }

    /** Report a fill to both owners and the trade to the market. */
    method ReportFill(o: NewOrder, newMarketOrderId: OrderId, order: OrderNode, fillQty: Qty, leaves: Qty)
      requires fillQty <= order.qty
      modifies this`clientResponses, this`marketUpdates
      ensures clientResponses == old(clientResponses) + Reports(o, newMarketOrderId, ticker,
                Owner(order.client, order.clientOrderId), Fill(EntryOf(order), fillQty, leaves))
      ensures marketUpdates == old(marketUpdates)
                + [MarketUpdate(Trade, ORDER_ID_INVALID, ticker, o.side, order.price, fillQty, PRIORITY_INVALID)]
    {
      clientResponses := clientResponses
        + [ClientResponse(Filled, o.client, ticker, o.clientOrderId, newMarketOrderId, o.side, order.price, fillQty,
          leaves),
           ClientResponse(Filled, order.client, ticker, order.clientOrderId, order.id, order.side, order.price, fillQty,
                          order.qty - fillQty)];
      marketUpdates := marketUpdates
        + [MarketUpdate(Trade, ORDER_ID_INVALID, ticker, o.side, order.price, fillQty, PRIORITY_INVALID)];
    }

    /** Take a fully filled order out and show that it is gone, or leave it with what remains and show that. */
    method Settle(order: OrderNode, fillQty: Qty)
      requires Valid() && order.id in levels.shape.orders && levels.shape.orders[order.id] == order
      requires fillQty <= order.qty && order.qty > 0
      modifies Repr(), this`marketUpdates
      ensures Valid() && Repr() == old(Repr())
      ensures order.side != NoSide && Has(old(State()).book.Of(order.side), order.id)
      ensures State() == OrderFilled(old(State()), old(EntryOf(order)), fillQty)
      ensures marketUpdates == old(marketUpdates) + [OrderShown(ticker, old(EntryOf(order)), fillQty)]
    {
      hide LinkedBook.Valid;
      hide Mapped;
      hide OwnersOf;
      hide Remove;
      hide SetQty;
      InRepr(order);
      var orderQty := order.qty;
      if orderQty == fillQty {
        marketUpdates := marketUpdates
          + [MarketUpdate(UpdateType.Cancel, order.id, ticker, order.side, order.price, orderQty, PRIORITY_INVALID)];
        RemoveOrder(order);
      } else {
        ReduceOrder(order, orderQty - fillQty);
        marketUpdates := marketUpdates
          + [MarketUpdate(Modify, order.id, ticker, order.side, order.price, order.qty, order.priority)];
      }
    }

    /**
     Match an aggressive order against one resting order: report the fill to both owners and the trade to the market,
     then take the resting order out, or leave it with what remains of it.
     */
    method Match(o: NewOrder, newMarketOrderId: OrderId, order: OrderNode, leavesQty: Qty) returns (leaves: Qty)
      requires Valid() && order.id in levels.shape.orders && levels.shape.orders[order.id] == order
      requires leavesQty > 0 && order.qty > 0
      modifies Repr(), this`clientResponses, this`marketUpdates
      ensures Valid() && Repr() == old(Repr()) && leaves == leavesQty - Min(leavesQty, old(order.qty))
      ensures order.side != NoSide && Has(old(State()).book.Of(order.side), order.id)
      ensures var f := Fill(old(EntryOf(order)), Min(leavesQty, old(order.qty)), leaves);
        && State() == OrderFilled(old(State()), f.passive, f.exec)
        && clientResponses == old(clientResponses)
             + Reports(o, newMarketOrderId, ticker, Owner(order.client, order.clientOrderId), f)
        && marketUpdates == old(marketUpdates) + Prints(o.side, ticker, f)
    {
      hide Valid;
      hide State;
      hide OrderFilled;
      hide Reports;
      var fillQty := Min(leavesQty, order.qty);
      leaves := leavesQty - fillQty;
      ReportFill(o, newMarketOrderId, order, fillQty, leaves);
      Settle(order, fillQty);
    }

    /** The best resting order of a side, as the head pointers give it. */
    lemma BestOrder(side: Side)
      requires Valid() && side != NoSide
      ensures var s := State().book.Of(side);
        if s == [] then levels.Head(side) == null
        else
          && levels.Head(side) != null && levels.Head(side).first != null
          && var order := levels.Head(side).first;
             && order.id in levels.shape.orders && levels.shape.orders[order.id] == order && EntryOf(order) == s[0]
             && order.id in State().owners && State().owners[order.id] == Owner(order.client, order.clientOrderId)
             && order.qty > 0 && order.side == side && Has(s, order.id) && IndexOf(s, order.id) == 0
    {
      levels.HeadLeads(side);
      if State().book.Of(side) != [] {
        levels.Navigate(side, 0);
        levels.Ordered(side);
        IndexOfAt(side, State().book.Of(side), 0);
      }
    }

    /** Match with the best order of a side. */
    method MatchBest(o: NewOrder, newMarketOrderId: OrderId, side: Side, order: OrderNode, leavesQty: Qty)
      returns (leaves: Qty)
      requires Valid() && side != NoSide && State().book.Of(side) != [] && leavesQty > 0
      requires levels.Head(side) != null && order == levels.Head(side).first
      modifies Repr(), this`clientResponses, this`marketUpdates
      ensures Valid() && Repr() == old(Repr())
      ensures State() == AfterMatch(old(State()), side, leavesQty)
      ensures var e := old(State()).book.Of(side)[0];
        var f := Fill(e, Min(leavesQty, e.qty), leaves);
        && leaves == leavesQty - f.exec && e.id in old(State()).owners
        && clientResponses == old(clientResponses) + Reports(o, newMarketOrderId, ticker, old(State()).owners[e.id], f)
        && marketUpdates == old(marketUpdates) + Prints(o.side, ticker, f)
    {
      hide Valid;
      hide State;
      BestOrder(side);
      leaves := Match(o, newMarketOrderId, order, leavesQty);
    }

    /**
     Match a new order against the other side while its price is met.  The step to the next level that follows a match
     whose level is left without a first order never applies: a linked level always has one.
     */
    method CheckForMatch(o: NewOrder, newMarketOrderId: OrderId) returns (leaves: Qty)
      requires Valid() && o.side != NoSide && newMarketOrderId == State().nextId && Good(State())
      modifies Repr(), this`clientResponses, this`marketUpdates
      ensures Valid() && Repr() == old(Repr()) && Good(State())
      ensures leaves == Greedy(o.side, o.price, o.qty, old(State()).book.Of(Opposite(o.side))).leaves
      ensures State() == MatchEffect(old(State()), ticker, o).state
      ensures clientResponses == old(clientResponses) + MatchEffect(old(State()), ticker, o).responses
      ensures marketUpdates == old(marketUpdates) + MatchEffect(old(State()), ticker, o).updates
    {
      hide Valid;
      hide State;
      hide Good;
      hide AfterMatch;
      hide Greedy;
      hide Underway;
      hide FillResponses;
      hide FillUpdates;
      hide Reports;
      hide Prints;
      hide Repr;
      hide Crosses;
      var opp := Opposite(o.side);
      ghost var x, done: seq<Fill> := State(), [];
      leaves := o.qty;
      StartUnderway(x, o, ticker);
      BestOrder(opp);
      while leaves > 0 && levels.Head(opp) != null
        invariant Valid() && Repr() == old(Repr())
        invariant levels.Head(opp) == null <==> State().book.Of(opp) == []
        invariant Underway(x, o, State(), done, leaves)
        invariant forall f :: f in done ==> f.passive.id in x.owners && f.exec <= f.passive.qty
        invariant clientResponses == old(clientResponses) + FillResponses(o, x.nextId, ticker, x.owners, done)
        invariant marketUpdates == old(marketUpdates) + FillUpdates(o.side, ticker, done)
        decreases leaves
      {
        BestOrder(opp);
        var order := levels.Head(opp).first;
        if !Crosses(o.side, o.price, order.price) {
          break;
        }
        ghost var f := FillStep(x, o, ticker, State(), done, leaves);
        leaves := MatchBest(o, newMarketOrderId, opp, order, leaves);
        done := done + [f];
        assert Underway(x, o, State(), done, leaves);
        BestOrder(opp);
        assert levels.Head(opp) == null || levels.Head(opp).first != null;
      }
      BestOrder(opp);
      StateGood();
      UnderwayEnds(x, o, State(), ticker, done, leaves);
    }

    /** The priority of the next order at a price: behind the last order of the level the index gives for that price. */
    method GetNextPriority(ghost side: Side, price: Price) returns (priority: Priority)
      requires Valid() && side != NoSide && !HasPrice(levels.shape.book.Of(Opposite(side)), price)
      ensures Slots(levels.shape.book, price) ==> priority == NextPriority(side, levels.shape.book.Of(side), price)
      ensures !Slots(levels.shape.book, price) ==> exists p {:trigger levels.shape.levels[p]} ::
        p in levels.shape.levels && p != price && ComesNext(levels.shape.levels[p], priority)
    {
      hide LinkedBook.Valid;
      hide Slots;
      levels.IndexHolds(price);
      levels.TailPriority(side, price);
      levels.LevelsPriced(price);
      var level := levels.GetOrdersAtPrice(price);
      if level == null {
        levels.EmptySlot(price);
        return 1;
      }
      levels.TailLinked(level);
      return level.first.prev.priority + 1;
    }

    /** What is left of a new order joins the book under its market order id. */
    method AddRemainder(o: NewOrder, newMarketOrderId: OrderId, leavesQty: Qty)
      requires Valid() && o.client < ME_MAX_NUM_CLIENTS && o.clientOrderId < ME_MAX_ORDER_IDS && o.side != NoSide
      requires newMarketOrderId < State().nextId && !HasPrice(State().book.Of(Opposite(o.side)), o.price)
      requires CanAdd(State().book, Resting(State().book, o, newMarketOrderId, leavesQty))
      modifies Repr(), this`marketUpdates
      ensures Valid() <==> Slots(old(State()).book, o.price)
                           && Owner(o.client, o.clientOrderId) !in old(State()).owners.Values
      ensures this !in Repr()
      ensures var x, e := old(State()), Resting(old(State()).book, o, newMarketOrderId, leavesQty);
        && (Valid() ==>
              && fresh(Repr() - old(Repr()))
              && State() == Exchange(Added(x.book, e), x.owners[newMarketOrderId := Owner(o.client, o.clientOrderId)],
                                     x.nextId))
        && |marketUpdates| == |old(marketUpdates)| + 1 && old(marketUpdates) <= marketUpdates
        && (Slots(x.book, o.price) ==>
              marketUpdates == old(marketUpdates)
                + [MarketUpdate(UpdateType.Add, newMarketOrderId, ticker, o.side, o.price, leavesQty, e.priority)])
    {
      hide Valid;
      hide CanAdd;
      hide Slots;
      var priority := GetNextPriority(o.side, o.price);
      if !Slots(State().book, o.price) {
        SharedSlot(o.price);
        AnyPriority(State().book, Resting(State().book, o, newMarketOrderId, leavesQty), priority);
      }
      var order := new OrderNode(o.client, o.clientOrderId, newMarketOrderId, o.side, o.price, leavesQty, priority);
      AddOrder(order);
      marketUpdates := marketUpdates
        + [MarketUpdate(UpdateType.Add, newMarketOrderId, ticker, o.side, o.price, leavesQty, priority)];
    }

    lemma SharedSlot(price: Price)
      requires Valid() && !Slots(State().book, price)
      ensures !PricedIn(State().book, price)
    {
      hide LinkedBook.Valid;
      hide Slots;
      hide PricedIn;
      levels.IndexHolds(price);
    }

    /**
     A new order: accept it, match what crosses, and let the rest join the book.  It has exactly the effect of adding
     it to the sorted book; the book stays sound exactly if what is left of the order finds its index slot free of
     other prices and its client order id not taken.
     */
    method Add(client: ClientId, clientOrderId: OrderId, side: Side, price: Price, qty: Qty)
      requires Valid() && client < ME_MAX_NUM_CLIENTS && clientOrderId < ME_MAX_ORDER_IDS && side != NoSide
      requires nextMarketOrderId < 0x1_0000_0000
      modifies this, Repr()
      ensures Good(old(State()))
      ensures var x, o := old(State()), NewOrder(client, clientOrderId, side, price, qty);
        var e := AddEffect(x, ticker, o);
        && (Valid() <==> HasRoom(x, o) && Ownable(x, o))
        && (Valid() ==> State() == e.state && fresh(Repr() - old(Repr())))
        && clientResponses == old(clientResponses) + e.responses
        && (HasRoom(x, o) ==> marketUpdates == old(marketUpdates) + e.updates)
        && |marketUpdates| == |old(marketUpdates)| + |e.updates|
        && old(marketUpdates) + MatchEffect(x, ticker, o).updates <= marketUpdates
    {
      hide LinkedBook.Valid;
      hide Good;
      var o := NewOrder(client, clientOrderId, side, price, qty);
      hide AddEffect;
      hide MatchEffect;
      hide CanAdd;
      hide Added;
      hide Slots;
      hide Traded;
      hide Ownable;
      hide Greedy;
      hide OwnersOf;
      StateGood();
      var newMarketOrderId := nextMarketOrderId;
      clientResponses := clientResponses
        + [ClientResponse(Accepted, client, ticker, clientOrderId, newMarketOrderId, side, price, 0, qty)];
      // The market order id passes through a 32-bit quantity on its way to the fill reports.
      var leavesQty := CheckForMatch(o, newMarketOrderId % 0x1_0000_0000);
      ghost var x, y := old(State()), State();
      nextMarketOrderId := newMarketOrderId + 1;
      MatchKeepsOwners(x, ticker, o);
      AddedEffect(x, ticker, o);
      if leavesQty != 0 {
        RemainderCanRest(x, o);
        LimitCleared(x, o);
        OwnableValues(x, ticker, o);
        AddRemainder(o, newMarketOrderId, leavesQty);
      } else {
        NothingLeft(x, o);
      }
    }

    /** The client order map finds an order exactly if its owner has one. */
    lemma Owned(client: ClientId, clientOrderId: OrderId)
      requires Valid() && client < ME_MAX_NUM_CLIENTS ==> clientOrderId < ME_MAX_ORDER_IDS
      requires Valid()
      ensures cidOidToOrder.Length0 == ME_MAX_NUM_CLIENTS && cidOidToOrder.Length1 == ME_MAX_ORDER_IDS
      ensures var owner := Owner(client, clientOrderId);
        if client < ME_MAX_NUM_CLIENTS && cidOidToOrder[client, clientOrderId] != null then
          var order := cidOidToOrder[client, clientOrderId];
          && order.id in levels.shape.orders && levels.shape.orders[order.id] == order
          && order.id in State().owners && State().owners[order.id] == owner && InBook(State().book, EntryOf(order))
        else forall id {:trigger State().owners[id]} :: id in State().owners ==> State().owners[id] != owner
    {
      hide LinkedBook.Valid;
      if client < ME_MAX_NUM_CLIENTS && cidOidToOrder[client, clientOrderId] != null {
        levels.OrderRests(cidOidToOrder[client, clientOrderId]);
      }
    }

    /** Cancel an order, or reject the request if the client has no such live order. */
    method Cancel(client: ClientId, clientOrderId: OrderId)
      requires Valid() && (client < ME_MAX_NUM_CLIENTS ==> clientOrderId < ME_MAX_ORDER_IDS)
      modifies this, Repr()
      ensures Valid() && Repr() == old(Repr())
      ensures Good(old(State()))
      ensures var e := CancelEffect(old(State()), ticker, client, clientOrderId);
        && State() == e.state
        && clientResponses == old(clientResponses) + e.responses
        && marketUpdates == old(marketUpdates) + e.updates
    {
      hide LinkedBook.Valid;
      hide Good;
      hide Mapped;
      hide OwnersOf;
      StateGood();
      Owned(client, clientOrderId);
      var order: OrderNode? := null;
      if client < cidOidToOrder.Length0 {
        order := cidOidToOrder[client, clientOrderId];
      }
      var clientResponse;
      if order == null {
        clientResponse := ClientResponse(CancelRejected, client, ticker, clientOrderId, ORDER_ID_INVALID, NoSide,
          PRICE_INVALID, QTY_INVALID, QTY_INVALID);
      } else {
        CancelFinds(State(), ticker, client, clientOrderId, EntryOf(order));
        clientResponse := ClientResponse(Canceled, client, ticker, clientOrderId, order.id, order.side, order.price,
                                         QTY_INVALID, order.qty);
        var marketUpdate := MarketUpdate(UpdateType.Cancel, order.id, ticker, order.side, order.price, 0,
          order.priority);
        RemoveOrder(order);
        marketUpdates := marketUpdates + [marketUpdate];
      }
      clientResponses := clientResponses + [clientResponse];
    }
  }
}
