/** Greedy matching is price-time priority: the one way to share a trade that passes nobody over. */
module PricePriority {
  import opened Types
  import opened PriceTime
  import opened Matching
  import opened Sums

  /** Everything that is given out. */
  function Total(alloc: seq<nat>): nat {
    Sum(alloc, (n: nat) => n)
  }

  /** A price the limit of a new order on this side allows. */
  predicate Acceptable(side: Side, limit: Price, price: Price) {
    (side == Buy && price <= limit) || (side == Sell && price >= limit)
  }

  /**
   A new order on this side has to take the first of these orders first: it is the better offer, or as good and older.
   */
  predicate ServedFirst(side: Side, e: Entry, f: Entry) {
    || (side == Buy && e.price < f.price)
    || (side == Sell && e.price > f.price)
    || (e.price == f.price && e.id < f.id)
  }

  /**
   A fair share-out of qty among resting orders: nobody gets more than they offered or trades beyond the limit, an
   order trades only when everything with precedence over it is exhausted, and nothing tradable is left out.
   */
  ghost predicate PriceTimeAllocation(side: Side, limit: Price, qty: Qty, s: seq<Entry>, alloc: seq<nat>) {
    && |alloc| == |s|
    && (forall i :: 0 <= i < |s| ==> alloc[i] <= s[i].qty)
    && (forall i :: 0 <= i < |s| && alloc[i] > 0 ==> Acceptable(side, limit, s[i].price))
    && (forall i, j {:trigger ServedFirst(side, s[j], s[i])} ::
          0 <= i < |s| && 0 <= j < |s| && ServedFirst(side, s[j], s[i]) && alloc[i] > 0 ==> alloc[j] == s[j].qty)
    && Total(alloc) <= qty
    && (Total(alloc) < qty ==> forall i :: 0 <= i < |s| && Acceptable(side, limit, s[i].price) ==> alloc[i] == s[i].qty)
  }

  /** What each resting order trades under greedy matching. */
  function GreedyAllocation(side: Side, limit: Price, qty: Qty, s: seq<Entry>): seq<nat> {
    var fills := Greedy(side, limit, qty, s).fills;
    seq(|s|, i requires 0 <= i < |s| => if i < |fills| then fills[i].exec else 0)
  }

  /** The side that is left after the share-out: exhausted orders go, the others keep their place. */
  function Remainder(s: seq<Entry>, alloc: seq<nat>): seq<Entry>
    requires |alloc| == |s| && forall i :: 0 <= i < |s| ==> alloc[i] <= s[i].qty
  {
    if s == [] then []
    else (if alloc[0] == s[0].qty then [] else [s[0].(qty := s[0].qty - alloc[0])]) + Remainder(s[1..], alloc[1..])
  }

  lemma {:induction false} SumZeros(alloc: seq<nat>)
    ensures (forall i :: 0 <= i < |alloc| ==> alloc[i] == 0) <==> Total(alloc) == 0
  {
    if alloc != [] {
      SumZeros(alloc[1..]);
      assert (forall i :: 0 <= i < |alloc| ==> alloc[i] == 0) <==>
             alloc[0] == 0 && (forall i :: 0 <= i < |alloc[1..]| ==> alloc[1..][i] == 0);
    }
  }

  lemma GreedyAllocationUnfolds(side: Side, limit: Price, qty: Qty, s: seq<Entry>)
    ensures var a := GreedyAllocation(side, limit, qty, s);
      && |a| == |s|
      && if qty == 0 || s == [] || !Crosses(side, limit, s[0].price) then a == seq(|s|, _ => 0)
      else if qty < s[0].qty then a == [qty] + seq(|s| - 1, _ => 0)
      else a == [s[0].qty] + GreedyAllocation(side, limit, qty - s[0].qty, s[1..])
  {
  }

  /** If the best price is not acceptable, none is. */
  lemma NoneAcceptable(side: Side, limit: Price, s: seq<Entry>, i: nat)
    requires side != NoSide && SideOk(Opposite(side), s) && i < |s| && !Acceptable(side, limit, s[0].price)
    ensures !Acceptable(side, limit, s[i].price)
  {
    assert i == 0 || Before(Opposite(side), s[0], s[i]);
  }

  lemma TotalFirst(alloc: seq<nat>)
    requires alloc != []
    ensures Total(alloc) == alloc[0] + Total(alloc[1..])
  {
  }

  lemma BestFirst(side: Side, s: seq<Entry>, i: nat)
    requires side != NoSide && SideOk(Opposite(side), s) && 0 < i < |s|
    ensures ServedFirst(side, s[0], s[i]) && !ServedFirst(side, s[i], s[0])
  {
    assert Before(Opposite(side), s[0], s[i]);
  }

  lemma NotServedBeforeBest(side: Side, s: seq<Entry>, j: nat)
    requires side != NoSide && SideOk(Opposite(side), s) && j < |s|
    ensures !ServedFirst(side, s[j], s[0])
  {
    if j > 0 { BestFirst(side, s, j); }
  }

  /** While the best order has something left nobody else trades. */
  lemma OnlyBestTrades(side: Side, limit: Price, qty: Qty, s: seq<Entry>, alloc: seq<nat>)
    requires side != NoSide && SideOk(Opposite(side), s) && s != [] && PriceTimeAllocation(side, limit, qty, s, alloc)
      && alloc[0] < s[0].qty
    ensures alloc == [alloc[0]] + seq(|s| - 1, _ => 0) && Total(alloc) == alloc[0]
  {
    hide SideOk;
    hide Total;
    hide ServedFirst;
    var rest := alloc[1..];
    forall i | 0 <= i < |rest| ensures rest[i] == 0 {
      BestFirst(side, s, i + 1);
      assert rest[i] == alloc[i + 1];
    }
    TotalFirst(alloc);
    SumZeros(rest);
    assert alloc == [alloc[0]] + rest;
  }

  /** The best order alone trades part of its quantity. */
  lemma PartOfBest(side: Side, limit: Price, qty: Qty, s: seq<Entry>)
    requires side != NoSide && SideOk(Opposite(side), s) && s != []
    requires Acceptable(side, limit, s[0].price) && 0 < qty < s[0].qty
    ensures PriceTimeAllocation(side, limit, qty, s, [qty] + seq(|s| - 1, _ => 0))
  {
    hide Total;
    hide SideOk;
    hide ServedFirst;
    var alloc := [qty] + seq(|s| - 1, _ => 0);
    TotalFirst(alloc);
    SumZeros(alloc[1..]);
    forall j | 0 <= j < |s| ensures !ServedFirst(side, s[j], s[0]) {
      NotServedBeforeBest(side, s, j);
    }
  }

  /** Once the best order is exhausted the others share what is left. */
  lemma TailShares(side: Side, limit: Price, qty: Qty, s: seq<Entry>, alloc: seq<nat>)
    requires s != [] && PriceTimeAllocation(side, limit, qty, s, alloc) && alloc[0] == s[0].qty
    ensures s[0].qty <= qty && PriceTimeAllocation(side, limit, qty - s[0].qty, s[1..], alloc[1..])
  {
    hide Total;
    hide ServedFirst;
    var t, rest := s[1..], alloc[1..];
    TotalFirst(alloc);
    forall i, j {:trigger ServedFirst(side, t[j], t[i])} |
      0 <= i < |t| && 0 <= j < |t| && ServedFirst(side, t[j], t[i]) && rest[i] > 0
      ensures rest[j] == t[j].qty
    {
      assert ServedFirst(side, s[j + 1], s[i + 1]);
    }
    forall i | 0 <= i < |t| && Acceptable(side, limit, t[i].price) && Total(rest) < qty - s[0].qty
      ensures rest[i] == t[i].qty {
      assert t[i] == s[i + 1];
    }
  }

  lemma SharesOn(side: Side, limit: Price, qty: Qty, s: seq<Entry>, alloc: seq<nat>)
    requires side != NoSide && SideOk(Opposite(side), s) && s != [] && |alloc| == |s|
    requires Acceptable(side, limit, s[0].price)
    requires alloc[0] == s[0].qty <= qty && PriceTimeAllocation(side, limit, qty - s[0].qty, s[1..], alloc[1..])
    ensures PriceTimeAllocation(side, limit, qty, s, alloc)
  {
    hide Total;
    hide SideOk;
    hide ServedFirst;
    var t, rest := s[1..], alloc[1..];
    TotalFirst(alloc);
    forall i | 0 < i < |s|
      ensures alloc[i] <= s[i].qty && (alloc[i] > 0 ==> Acceptable(side, limit, s[i].price))
        && (Total(alloc) < qty && Acceptable(side, limit, s[i].price) ==> alloc[i] == s[i].qty)
    {
      assert s[i] == t[i - 1] && alloc[i] == rest[i - 1];
    }
    forall i, j {:trigger ServedFirst(side, s[j], s[i])} |
      0 <= i < |s| && 0 <= j < |s| && ServedFirst(side, s[j], s[i]) && alloc[i] > 0
      ensures alloc[j] == s[j].qty
    {
      NotServedBeforeBest(side, s, j);
      if i > 0 && j > 0 { assert ServedFirst(side, t[j - 1], t[i - 1]); }
    }
  }

  lemma AllocationBounds(side: Side, limit: Price, qty: Qty, s: seq<Entry>, alloc: seq<nat>)
    requires s != [] && PriceTimeAllocation(side, limit, qty, s, alloc)
    ensures alloc[0] <= s[0].qty && Total(alloc) <= qty
    ensures Acceptable(side, limit, s[0].price) && Total(alloc) < qty ==> alloc[0] == s[0].qty
  {
  }

  /**
   A share-out that leaves something of the best order gives nothing to the others, and one that exhausts it goes on.
   */
  lemma AllocationUnfolds(side: Side, limit: Price, qty: Qty, s: seq<Entry>, alloc: seq<nat>)
    requires side != NoSide && SideOk(Opposite(side), s) && s != [] && |alloc| == |s|
    requires Acceptable(side, limit, s[0].price) && qty > 0
    ensures PriceTimeAllocation(side, limit, qty, s, alloc) <==>
      (if qty < s[0].qty then alloc == [qty] + seq(|s| - 1, _ => 0)
       else alloc[0] == s[0].qty && PriceTimeAllocation(side, limit, qty - s[0].qty, s[1..], alloc[1..]))
  {
    hide SideOk;
    if PriceTimeAllocation(side, limit, qty, s, alloc) {
      AllocationBounds(side, limit, qty, s, alloc);
      if alloc[0] < s[0].qty {
        OnlyBestTrades(side, limit, qty, s, alloc);
      } else {
        TailShares(side, limit, qty, s, alloc);
      }
    }
    hide PriceTimeAllocation;
    if qty < s[0].qty {
      PartOfBest(side, limit, qty, s);
    } else if alloc[0] == s[0].qty && PriceTimeAllocation(side, limit, qty - s[0].qty, s[1..], alloc[1..]) {
      SharesOn(side, limit, qty, s, alloc);
    }
  }

  /** Where nothing can trade the only share-out gives nobody anything. */
  lemma NobodyTrades(side: Side, limit: Price, qty: Qty, s: seq<Entry>, alloc: seq<nat>)
    requires side != NoSide && SideOk(Opposite(side), s)
    requires |alloc| != |s| || s == [] || qty == 0 || !Acceptable(side, limit, s[0].price)
    ensures s == [] || qty == 0 || !Acceptable(side, limit, s[0].price) ==>
      (PriceTimeAllocation(side, limit, qty, s, alloc) <==> alloc == seq(|s|, _ => 0))
    ensures |alloc| != |s| ==> !PriceTimeAllocation(side, limit, qty, s, alloc)
  {
    hide SideOk;
    hide ServedFirst;
    if |alloc| == |s| {
      SumZeros(alloc);
      forall i | 0 <= i < |s| && !Acceptable(side, limit, s[0].price) ensures !Acceptable(side, limit, s[i].price) {
        NoneAcceptable(side, limit, s, i);
      }
      assert (forall i :: 0 <= i < |alloc| ==> alloc[i] == 0) <==> alloc == seq(|s|, _ => 0);
    }
  }

  lemma CrossesIs(side: Side, limit: Price, price: Price)
    requires side != NoSide
    ensures Crosses(side, limit, price) <==> Acceptable(side, limit, price)
  {
  }

  /** Price-time priority leaves no choice: greedy matching is the share-out, and any share-out is greedy matching. */
  lemma {:induction false} GreedyIsPriceTime(side: Side, limit: Price, qty: Qty, s: seq<Entry>, alloc: seq<nat>)
    requires side != NoSide && SideOk(Opposite(side), s)
    ensures PriceTimeAllocation(side, limit, qty, s, alloc) <==> alloc == GreedyAllocation(side, limit, qty, s)
    decreases |s|
  {
    hide GreedyAllocation;
    hide PriceTimeAllocation;
    hide SideOk;
    GreedyAllocationUnfolds(side, limit, qty, s);
    if s != [] { CrossesIs(side, limit, s[0].price); }
    if |alloc| != |s| || s == [] || qty == 0 || !Acceptable(side, limit, s[0].price) {
      NobodyTrades(side, limit, qty, s, alloc);
    } else {
      AllocationUnfolds(side, limit, qty, s, alloc);
      if s[0].qty <= qty {
        TailOk(Opposite(side), s);
        GreedyIsPriceTime(side, limit, qty - s[0].qty, s[1..], alloc[1..]);
        assert alloc == [alloc[0]] + alloc[1..];
      }
    }
  }

  lemma GreedyRestUnfolds(side: Side, limit: Price, qty: Qty, s: seq<Entry>)
    ensures var g := Greedy(side, limit, qty, s);
      if qty == 0 || s == [] || !Crosses(side, limit, s[0].price) then g.rest == s && g.leaves == qty
      else if qty < s[0].qty then g.rest == [s[0].(qty := s[0].qty - qty)] + s[1..] && g.leaves == 0
      else
        var h := Greedy(side, limit, qty - s[0].qty, s[1..]);
        g.rest == h.rest && g.leaves == h.leaves
  {
  }

  /** The book side and the open quantity after matching are those the share-out leaves. */
  lemma {:induction false} GreedyLeavesRemainder(side: Side, limit: Price, qty: Qty, s: seq<Entry>)
    requires forall i :: 0 <= i < |s| ==> s[i].qty > 0
    ensures var g, a := Greedy(side, limit, qty, s), GreedyAllocation(side, limit, qty, s);
      && (forall i :: 0 <= i < |s| ==> a[i] <= s[i].qty)
      && g.rest == Remainder(s, a) && Total(a) + g.leaves == qty
    decreases |s|
  {
    hide Greedy;
    hide GreedyAllocation;
    var a := GreedyAllocation(side, limit, qty, s);
    GreedyAllocationUnfolds(side, limit, qty, s);
    GreedyRestUnfolds(side, limit, qty, s);
    if s == [] || qty == 0 || !Crosses(side, limit, s[0].price) {
      SumZeros(a);
      RemainderOfNothing(s, a);
    } else if qty < s[0].qty {
      assert a[1..] == seq(|s| - 1, _ => 0);
      SumZeros(a[1..]);
      RemainderOfNothing(s[1..], a[1..]);
    } else {
      GreedyLeavesRemainder(side, limit, qty - s[0].qty, s[1..]);
      assert a[1..] == GreedyAllocation(side, limit, qty - s[0].qty, s[1..]);
    }
  }

  lemma {:induction false} RemainderOfNothing(s: seq<Entry>, alloc: seq<nat>)
    requires |alloc| == |s| && forall i :: 0 <= i < |s| ==> s[i].qty > 0 && alloc[i] == 0
    ensures Remainder(s, alloc) == s
  {
    if s != [] {
      RemainderOfNothing(s[1..], alloc[1..]);
      assert s == [s[0]] + s[1..];
    }
  }

  /** A trade happened at the price of an order that rested on the other side, and within the limit of the new order. */
  ghost predicate AtPassivePrice(x: Exchange, o: NewOrder, price: Price) {
    && (o.side == Buy ==> price <= o.price) && (o.side == Sell ==> price >= o.price)
    && exists e :: e in (if o.side == Buy then x.book.asks else x.book.bids) && e.price == price
  }

  lemma {:induction false} GreedyCrosses(side: Side, limit: Price, qty: Qty, s: seq<Entry>, i: nat)
    requires i < |Greedy(side, limit, qty, s).fills|
    ensures i < |s| && Greedy(side, limit, qty, s).fills[i].passive == s[i] && Crosses(side, limit, s[i].price)
    ensures Greedy(side, limit, qty, s).fills[i].exec <= s[i].qty
    decreases |s|
  {
    if i > 0 {
      GreedyCrosses(side, limit, qty - Min(qty, s[0].qty), s[1..], i - 1);
    }
  }

  lemma {:induction false} ReportsAtPassivePrice(x: Exchange, ticker: TickerId, o: NewOrder, fills: seq<Fill>)
    requires forall f :: f in fills ==>
      f.passive.id in x.owners && f.exec <= f.passive.qty && AtPassivePrice(x, o, f.passive.price)
    ensures forall r :: r in FillResponses(o, x.nextId, ticker, x.owners, fills) ==> AtPassivePrice(x, o, r.price)
    ensures forall u :: u in FillUpdates(o.side, ticker, fills) && u.kind == Trade ==> AtPassivePrice(x, o, u.price)
  {
    if fills != [] {
      ReportsAtPassivePrice(x, ticker, o, fills[..|fills| - 1]);
      assert fills[|fills| - 1] in fills;
    }
  }

  /** Every fill reported and every trade shown is at a passive order's own price and within the new order's limit. */
  lemma TradesAtPassivePrice(x: Exchange, ticker: TickerId, o: NewOrder)
    requires Good(x) && o.side != NoSide
    ensures forall r :: r in AddEffect(x, ticker, o).responses && r.kind == Filled ==> AtPassivePrice(x, o, r.price)
    ensures forall u :: u in AddEffect(x, ticker, o).updates && u.kind == Trade ==> AtPassivePrice(x, o, u.price)
  {
    hide Greedy;
    hide Good;
    hide Resting;
    var s := x.book.Of(Opposite(o.side));
    var fills := Greedy(o.side, o.price, o.qty, s).fills;
    GreedyFills(o.side, o.price, o.qty, s);
    FilledOwners(x, Opposite(o.side), fills);
    forall f | f in fills ensures f.exec <= f.passive.qty && AtPassivePrice(x, o, f.passive.price) {
      var i :| 0 <= i < |fills| && fills[i] == f;
      GreedyCrosses(o.side, o.price, o.qty, s, i);
      assert s[i] in s;
    }
    ReportsAtPassivePrice(x, ticker, o, fills);
  }

  // --- What is reported ------------------------------------------------------------------------------------------

  lemma GreedyUnfolds(side: Side, limit: Price, qty: Qty, s: seq<Entry>)
    requires Greedy(side, limit, qty, s).fills != []
    ensures s != [] && qty > 0
    ensures var fs, exec := Greedy(side, limit, qty, s).fills, Min(qty, s[0].qty);
      && fs[0] == Fill(s[0], exec, qty - exec)
      && (if qty < s[0].qty then fs[1..] == [] else fs[1..] == Greedy(side, limit, qty - s[0].qty, s[1..]).fills)
  {
  }

  /**
   The i-th fill is what the i-th order of the side trades, and what is left after it the quantity not yet given out.
   */
  lemma {:induction false} FillsAreShares(side: Side, limit: Price, qty: Qty, s: seq<Entry>, i: nat)
    requires i < |Greedy(side, limit, qty, s).fills| && forall j :: 0 <= j < |s| ==> s[j].qty > 0
    ensures var f, a := Greedy(side, limit, qty, s).fills[i], GreedyAllocation(side, limit, qty, s);
      i < |s| == |a| && f.passive == s[i] && 0 < f.exec == a[i] <= s[i].qty && f.leaves == qty - Total(a[..i + 1])
    decreases |s|
  {
    hide Total;
    hide Greedy;
    GreedyFills(side, limit, qty, s);
    GreedyUnfolds(side, limit, qty, s);
    var a := GreedyAllocation(side, limit, qty, s);
    TotalFirst(a[..i + 1]);
    if i == 0 {
      SumZeros([]);
      assert a[..1][1..] == [];
    } else {
      var rest := GreedyAllocation(side, limit, qty - s[0].qty, s[1..]);
      FillsAreShares(side, limit, qty - s[0].qty, s[1..], i - 1);
      assert a[..i + 1][1..] == rest[..i];
    }
  }

  /** Two reports and two updates for each fill, in turn. */
  lemma {:induction false} MessagesAt(o: NewOrder, id: OrderId, ticker: TickerId, owners: map<OrderId, Owner>,
      fills: seq<Fill>, i: nat)
    requires i <= |fills| && forall f :: f in fills ==> f.passive.id in owners && f.exec <= f.passive.qty
    ensures var rs, us := FillResponses(o, id, ticker, owners, fills), FillUpdates(o.side, ticker, fills);
      && |rs| == |us| == 2 * |fills|
      && (i < |fills| ==>
            && rs[2 * i..2 * i + 2] == Reports(o, id, ticker, owners[fills[i].passive.id], fills[i])
            && us[2 * i..2 * i + 2] == Prints(o.side, ticker, fills[i]))
    decreases |fills|
  {
    hide Reports;
    hide Prints;
    if fills != [] {
      var n := |fills| - 1;
      var f := fills[n];
      assert f in fills;
      TwoEach(o, id, ticker, owners[f.passive.id], f);
      MessagesAt(o, id, ticker, owners, fills[..n], if i < n then i else n);
    }
  }

  lemma TwoEach(o: NewOrder, id: OrderId, ticker: TickerId, owner: Owner, f: Fill)
    requires f.exec <= f.passive.qty
    ensures |Reports(o, id, ticker, owner, f)| == 2 && |Prints(o.side, ticker, f)| == 2
  {
  }

  /**
   The trade with the i-th order of the other side is told: to the new order's client and to that order's, both at its
   price and with what is left of each, and to the market with what becomes of it.
   */
  ghost predicate Told(x: Exchange, ticker: TickerId, o: NewOrder, alloc: seq<nat>, i: nat, e: Effect) {
    var s, other := if o.side == Buy then x.book.asks else x.book.bids, if o.side == Buy then Sell else Buy;
    && i < |s| == |alloc| && 2 * i + 2 < |e.responses| && 2 * i + 1 < |e.updates|
    && s[i].id in x.owners && Total(alloc[..i + 1]) <= o.qty && alloc[i] <= s[i].qty
    && var owner := x.owners[s[i].id];
    && e.responses[2 * i + 1] == ClientResponse(Filled, o.client, ticker, o.clientOrderId, x.nextId, o.side, s[i].price,
                                                alloc[i], o.qty - Total(alloc[..i + 1]))
    && e.responses[2 * i + 2] == ClientResponse(Filled, owner.client, ticker, owner.clientOrderId, s[i].id, other,
                                                s[i].price, alloc[i], s[i].qty - alloc[i])
    && e.updates[2 * i]
         == MarketUpdate(Trade, ORDER_ID_INVALID, ticker, o.side, s[i].price, alloc[i], PRIORITY_INVALID)
    && e.updates[2 * i + 1] ==
         if alloc[i] == s[i].qty
         then MarketUpdate(Cancel, s[i].id, ticker, other, s[i].price, s[i].qty, PRIORITY_INVALID)
         else MarketUpdate(Modify, s[i].id, ticker, other, s[i].price, s[i].qty - alloc[i], s[i].priority)
  }

  lemma MessagesOfFills(x: Exchange, ticker: TickerId, o: NewOrder, i: nat)
    requires Good(x) && o.side != NoSide && i < |Greedy(o.side, o.price, o.qty, x.book.Of(Opposite(o.side))).fills|
    ensures var e, s := AddEffect(x, ticker, o), x.book.Of(Opposite(o.side));
      var f := Greedy(o.side, o.price, o.qty, s).fills[i];
      && 2 * i + 2 < |e.responses| && 2 * i + 1 < |e.updates| && f.passive.id in x.owners && f.exec <= f.passive.qty
      && var reports, prints := Reports(o, x.nextId, ticker, x.owners[f.passive.id], f), Prints(o.side, ticker, f);
         && e.responses[2 * i + 1] == reports[0] && e.responses[2 * i + 2] == reports[1]
         && e.updates[2 * i] == prints[0] && e.updates[2 * i + 1] == prints[1]
  {
    hide Greedy;
    hide Resting;
    hide Good;
    hide FillResponses;
    hide FillUpdates;
    hide Traded;
    hide Reports;
    hide Prints;
    var s := x.book.Of(Opposite(o.side));
    var fills := Greedy(o.side, o.price, o.qty, s).fills;
    GreedyFills(o.side, o.price, o.qty, s);
    FilledOwners(x, Opposite(o.side), fills);
    var f := fills[i];
    assert f in fills;
    MessagesAt(o, x.nextId, ticker, x.owners, fills, i);
    TwoEach(o, x.nextId, ticker, x.owners[f.passive.id], f);
    var rs, us := FillResponses(o, x.nextId, ticker, x.owners, fills), FillUpdates(o.side, ticker, fills);
    assert rs[2 * i] == rs[2 * i..2 * i + 2][0] && rs[2 * i + 1] == rs[2 * i..2 * i + 2][1];
    assert us[2 * i] == us[2 * i..2 * i + 2][0] && us[2 * i + 1] == us[2 * i..2 * i + 2][1];
  }

  lemma OneTold(x: Exchange, ticker: TickerId, o: NewOrder, i: nat)
    requires Good(x) && o.side != NoSide && i < |Greedy(o.side, o.price, o.qty, x.book.Of(Opposite(o.side))).fills|
    ensures Told(x, ticker, o, GreedyAllocation(o.side, o.price, o.qty, x.book.Of(Opposite(o.side))), i,
                 AddEffect(x, ticker, o))
  {
    hide Greedy;
    hide GreedyAllocation;
    hide Total;
    hide AddEffect;
    hide Good;
    SideGood(x, o.side);
    FillsAreShares(o.side, o.price, o.qty, x.book.Of(Opposite(o.side)), i);
    MessagesOfFills(x, ticker, o, i);
  }

  /** This priority is the one after the last order of the side at this price, or the first. */
  ghost predicate LastInLine(s: seq<Entry>, price: Price, priority: Priority) {
    && (forall e :: e in s && e.price == price ==> e.priority < priority)
    && (if exists e :: e in s && e.price == price
        then exists e :: e in s && e.price == price && priority == e.priority + 1 else priority == 1)
  }

  /**
   What a new order makes the book report, said of the fair share-out alone: it is accepted; then each trade is told,
   best order first; and last the market sees what rests of the new order.
   */
  lemma SharesReported(x: Exchange, ticker: TickerId, o: NewOrder, alloc: seq<nat>) returns (n: nat)
    requires Good(x) && o.side != NoSide
    requires PriceTimeAllocation(o.side, o.price, o.qty, if o.side == Buy then x.book.asks else x.book.bids, alloc)
    ensures n <= |alloc| && (forall i :: 0 <= i < |alloc| ==> (alloc[i] > 0 <==> i < n)) && Total(alloc) <= o.qty
    ensures var e := AddEffect(x, ticker, o);
      && |e.responses| == 2 * n + 1 && |e.updates| == 2 * n + (if Total(alloc) < o.qty then 1 else 0)
      && e.responses[0]
           == ClientResponse(Accepted, o.client, ticker, o.clientOrderId, x.nextId, o.side, o.price, 0, o.qty)
      && (forall i: nat {:trigger Told(x, ticker, o, alloc, i, e)} :: i < n ==> Told(x, ticker, o, alloc, i, e))
      && (Total(alloc) < o.qty ==>
            var u := e.updates[2 * n];
            && u == MarketUpdate(Add, x.nextId, ticker, o.side, o.price, o.qty - Total(alloc), u.priority)
            && LastInLine(if o.side == Buy then x.book.bids else x.book.asks, o.price, u.priority))
  {
    hide Greedy;
    hide PriceTimeAllocation;
    hide Total;
    hide Good;
    hide Told;
    hide LastInLine;
    hide NextPriority;
    hide FillResponses;
    hide FillUpdates;
    hide Traded;
    var s := x.book.Of(Opposite(o.side));
    var g := Greedy(o.side, o.price, o.qty, s);
    n := |g.fills|;
    SideGood(x, o.side);
    GreedyIsPriceTime(o.side, o.price, o.qty, s, alloc);
    GreedyLeavesRemainder(o.side, o.price, o.qty, s);
    GreedyFills(o.side, o.price, o.qty, s);
    FilledOwners(x, Opposite(o.side), g.fills);
    RestIsLast(x, o);
    MessagesAt(o, x.nextId, ticker, x.owners, g.fills, n);
    forall i: nat {:trigger Told(x, ticker, o, alloc, i, AddEffect(x, ticker, o))} | i < n
      ensures Told(x, ticker, o, alloc, i, AddEffect(x, ticker, o)) {
      OneTold(x, ticker, o, i);
    }
    forall i: nat | i < n ensures alloc[i] > 0 {
      FillsAreShares(o.side, o.price, o.qty, s, i);
    }
  }

  lemma RestIsLast(x: Exchange, o: NewOrder)
    requires Good(x) && o.side != NoSide
    ensures LastInLine(if o.side == Buy then x.book.bids else x.book.asks, o.price,
                       NextPriority(o.side, Traded(x, o).Of(o.side), o.price))
  {
    hide Greedy;
    hide NextPriority;
    NextPriorityIs(o.side, x.book.Of(o.side), o.price);
  }

  lemma SideGood(x: Exchange, side: Side)
    requires Good(x) && side != NoSide
    ensures SideOk(Opposite(side), x.book.Of(Opposite(side)))
    ensures forall i :: 0 <= i < |x.book.Of(Opposite(side))| ==> x.book.Of(Opposite(side))[i].qty > 0
  {
  }
}
