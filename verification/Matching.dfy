/**
 What the matching engine does to one book, on values: greedy matching against the best orders first, the responses
 and market updates it sends, and the book it leaves.
 */
module Matching {
  import opened Types
  import opened PriceTime

  datatype Owner = Owner(client: ClientId, clientOrderId: OrderId)

  // One order book of the exchange: the resting orders, who owns them, and the next market order id.
  datatype Exchange = Exchange(book: Book, owners: map<OrderId, Owner>, nextId: OrderId)

  datatype NewOrder = NewOrder(client: ClientId, clientOrderId: OrderId, side: Side, price: Price, qty: Qty)

  // One match: the passive order as it was, the quantity traded, and what the aggressor still wants.
  datatype Fill = Fill(passive: Entry, exec: Qty, leaves: Qty)

  datatype Outcome = Outcome(fills: seq<Fill>, leaves: Qty, rest: seq<Entry>)

  datatype Effect = Effect(state: Exchange, responses: seq<ClientResponse>, updates: seq<MarketUpdate>)

  /** The limit price of an order on this side accepts a trade at this price. */
  predicate Crosses(side: Side, limit: Price, price: Price) {
    if side == Buy then limit >= price else limit <= price
  }

  /** Trade with the first order while there is something left to trade and its price is acceptable. */
  function Greedy(side: Side, limit: Price, qty: Qty, s: seq<Entry>): Outcome {
    if qty == 0 || s == [] || !Crosses(side, limit, s[0].price) then Outcome([], qty, s)
    else
      var exec := Min(qty, s[0].qty);
      var fill := Fill(s[0], exec, qty - exec);
      if exec < s[0].qty then Outcome([fill], qty - exec, [s[0].(qty := s[0].qty - exec)] + s[1..])
      else
        var o := Greedy(side, limit, qty - exec, s[1..]);
        Outcome([fill] + o.fills, o.leaves, o.rest)
  }

  /** The two reports of one match: to the aggressor and to the owner of the passive order. */
  function Reports(o: NewOrder, id: OrderId, ticker: TickerId, owner: Owner, f: Fill): seq<ClientResponse>
    requires f.exec <= f.passive.qty
  {
    [ClientResponse(Filled, o.client, ticker, o.clientOrderId, id, o.side, f.passive.price, f.exec, f.leaves),
     ClientResponse(Filled, owner.client, ticker, owner.clientOrderId, f.passive.id, f.passive.side, f.passive.price,
       f.exec, f.passive.qty - f.exec)]
  }

  /** What the market sees of one match: the trade, and what becomes of the passive order. */
  function Prints(side: Side, ticker: TickerId, f: Fill): seq<MarketUpdate>
    requires f.exec <= f.passive.qty
  {
    var p := f.passive;
    [MarketUpdate(Trade, ORDER_ID_INVALID, ticker, side, p.price, f.exec, PRIORITY_INVALID),
     if f.exec == p.qty then MarketUpdate(Cancel, p.id, ticker, p.side, p.price, p.qty, PRIORITY_INVALID)
     else MarketUpdate(Modify, p.id, ticker, p.side, p.price, p.qty - f.exec, p.priority)]
  }

  function FillResponses(o: NewOrder, id: OrderId, ticker: TickerId, owners: map<OrderId, Owner>,
      fills: seq<Fill>): seq<ClientResponse>
    requires forall f :: f in fills ==> f.passive.id in owners && f.exec <= f.passive.qty
  {
    if fills == [] then []
    else
      var f := fills[|fills| - 1];
      assert f in fills;
      FillResponses(o, id, ticker, owners, fills[..|fills| - 1]) + Reports(o, id, ticker, owners[f.passive.id], f)
  }

  function FillUpdates(side: Side, ticker: TickerId, fills: seq<Fill>): seq<MarketUpdate>
    requires forall f :: f in fills ==> f.exec <= f.passive.qty
  {
    if fills == [] then []
    else
      var f := fills[|fills| - 1];
      assert f in fills;
      FillUpdates(side, ticker, fills[..|fills| - 1]) + Prints(side, ticker, f)
  }

  ghost predicate LiveOwners(b: Book, owners: map<OrderId, Owner>) {
    && (forall id {:trigger RestsIn(b, id)} :: id in owners <==> RestsIn(b, id))
    && (forall i, j {:trigger owners[i], owners[j]} :: i in owners && j in owners && owners[i] == owners[j] ==> i == j)
  }

  /** Every reachable state of a book: sorted, uncrossed, every order owned, no id handed out twice. */
  ghost predicate Good(x: Exchange) {
    && WellFormed(x.book) && LiveOwners(x.book, x.owners)
    && (forall id: OrderId {:trigger RestsIn(x.book, id)} :: RestsIn(x.book, id) ==> id < x.nextId)
  }

  const NEW_EXCHANGE := Exchange(EMPTY_BOOK, map[], 1)

  /** The entry a new order would rest as once it has traded what it can. */
  ghost function Resting(b: Book, o: NewOrder, id: OrderId, leaves: Qty): Entry {
    Entry(id, o.side, o.price, leaves, NextPriority(o.side, b.Of(o.side), o.price))
  }

  ghost predicate CanSubmit(x: Exchange, o: NewOrder) {
    o.side != NoSide && Owner(o.client, o.clientOrderId) !in x.owners.Values
  }

  /** The book after matching, before any rest of the aggressor is added. */
  ghost function Traded(x: Exchange, o: NewOrder): Book
    requires o.side != NoSide
  {
    x.book.With(Opposite(o.side), Greedy(o.side, o.price, o.qty, x.book.Of(Opposite(o.side))).rest)
  }

  /** The fills are of the first orders of the side, in turn, and of no more than each has. */
  lemma {:induction false} GreedyFills(side: Side, limit: Price, qty: Qty, s: seq<Entry>)
    ensures var g := Greedy(side, limit, qty, s);
      && |g.fills| <= |s|
      && (forall i :: 0 <= i < |g.fills| ==> g.fills[i].passive == s[i] && g.fills[i].exec <= s[i].qty)
    decreases |s|
  {
    if s != [] && qty > 0 && Crosses(side, limit, s[0].price) {
      GreedyFills(side, limit, qty - Min(qty, s[0].qty), s[1..]);
    }
  }

  /** Matching alone: the trades of a new order, before any rest of it is added. */
  ghost function MatchEffect(x: Exchange, ticker: TickerId, o: NewOrder): Effect
    requires Good(x) && o.side != NoSide
  {
    var g := Greedy(o.side, o.price, o.qty, x.book.Of(Opposite(o.side)));
    GreedyFills(o.side, o.price, o.qty, x.book.Of(Opposite(o.side)));
    FilledOwners(x, Opposite(o.side), g.fills);
    var owners := map i | i in x.owners && RestsIn(Traded(x, o), i) :: x.owners[i];
    Effect(Exchange(Traded(x, o), owners, x.nextId),
           FillResponses(o, x.nextId, ticker, x.owners, g.fills), FillUpdates(o.side, ticker, g.fills))
  }

  /** Matching gives nobody an order they did not have. */
  lemma MatchKeepsOwners(x: Exchange, ticker: TickerId, o: NewOrder)
    requires Good(x) && o.side != NoSide
    ensures MatchEffect(x, ticker, o).state.book == Traded(x, o) && MatchEffect(x, ticker, o).state.nextId == x.nextId
    ensures MatchEffect(x, ticker, o).state.owners.Values <= x.owners.Values
  {
  }

  ghost function AddEffect(x: Exchange, ticker: TickerId, o: NewOrder): Effect
    requires Good(x) && o.side != NoSide
  {
    var id, leaves := x.nextId, Greedy(o.side, o.price, o.qty, x.book.Of(Opposite(o.side))).leaves;
    var m := MatchEffect(x, ticker, o);
    var responses := [ClientResponse(Accepted, o.client, ticker, o.clientOrderId, id, o.side, o.price, 0, o.qty)]
      + m.responses;
    if leaves == 0 then Effect(m.state.(nextId := id + 1), responses, m.updates)
    else
      var e := Resting(m.state.book, o, id, leaves);
      Effect(Exchange(Added(m.state.book, e), m.state.owners[id := Owner(o.client, o.clientOrderId)], id + 1),
        responses, m.updates + [MarketUpdate(Add, id, ticker, o.side, o.price, leaves, e.priority)])
  }

  lemma FilledOwners(x: Exchange, side: Side, fills: seq<Fill>)
    requires Good(x) && side != NoSide && |fills| <= |x.book.Of(side)|
    requires forall i :: 0 <= i < |fills| ==> fills[i].passive == x.book.Of(side)[i]
    ensures forall f :: f in fills ==> f.passive.id in x.owners
  {
    forall f | f in fills ensures f.passive.id in x.owners {
      var i :| 0 <= i < |fills| && fills[i] == f;
      assert x.book.Of(side)[i].id == f.passive.id;
      assert RestsIn(x.book, f.passive.id);
    }
  }

  ghost function CancelEffect(x: Exchange, ticker: TickerId, client: ClientId, clientOrderId: OrderId): Effect
    requires Good(x)
  {
    if exists id :: id in x.owners && x.owners[id] == Owner(client, clientOrderId) then
      var id :| id in x.owners && x.owners[id] == Owner(client, clientOrderId);
      assert RestsIn(x.book, id);
      var e := Lookup(x.book, id);
      Effect(Exchange(x.book.With(e.side, Remove(x.book.Of(e.side), id)), x.owners - {id}, x.nextId),
             [ClientResponse(Canceled, client, ticker, clientOrderId, id, e.side, e.price, QTY_INVALID, e.qty)],
             [MarketUpdate(Cancel, id, ticker, e.side, e.price, 0, e.priority)])
    else
      Effect(x, [ClientResponse(CancelRejected, client, ticker, clientOrderId, ORDER_ID_INVALID, NoSide, PRICE_INVALID,
                                QTY_INVALID, QTY_INVALID)], [])
  }

  /** How far matching has come: done are the trades so far, s what is left of the side, leaves what is still wanted. */
  ghost predicate Underway(x: Exchange, o: NewOrder, y: Exchange, done: seq<Fill>, leaves: Qty)
    requires o.side != NoSide
  {
    var opp := Opposite(o.side);
    var s := y.book.Of(opp);
    && y.book == x.book.With(opp, s) && y.nextId == x.nextId
    && (forall i {:trigger y.owners[i]} :: i in y.owners ==> i in x.owners && x.owners[i] == y.owners[i])
    && (forall f :: f in done ==> f.passive.id in x.owners && f.exec <= f.passive.qty)
    && var g := Greedy(o.side, o.price, leaves, s);
       Greedy(o.side, o.price, o.qty, x.book.Of(opp)) == Outcome(done + g.fills, g.leaves, g.rest)
  }

  lemma StartUnderway(x: Exchange, o: NewOrder, ticker: TickerId)
    requires o.side != NoSide
    ensures Underway(x, o, x, [], o.qty)
    ensures FillResponses(o, x.nextId, ticker, x.owners, []) == [] && FillUpdates(o.side, ticker, []) == []
  {
  }

  lemma UnderwayDone(x: Exchange, o: NewOrder, y: Exchange, done: seq<Fill>, leaves: Qty)
    requires o.side != NoSide && Underway(x, o, y, done, leaves)
    ensures forall f :: f in done ==> f.passive.id in x.owners && f.exec <= f.passive.qty
    ensures forall i {:trigger y.owners[i]} :: i in y.owners ==> i in x.owners && x.owners[i] == y.owners[i]
  {
  }

  /** One more trade with the best order. */
  ghost function AfterMatch(y: Exchange, side: Side, leaves: Qty): Exchange
    requires y.book.Of(side) != []
  {
    var s := y.book.Of(side);
    var exec := Min(leaves, s[0].qty);
    if exec == s[0].qty then Exchange(y.book.With(side, s[1..]), y.owners - {s[0].id}, y.nextId)
    else y.(book := y.book.With(side, [s[0].(qty := s[0].qty - exec)] + s[1..]))
  }

  lemma FillKeepsUnderway(x: Exchange, o: NewOrder, y: Exchange, done: seq<Fill>, leaves: Qty)
    requires o.side != NoSide && Underway(x, o, y, done, leaves)
    requires leaves > 0 && y.book.Of(Opposite(o.side)) != []
    requires Crosses(o.side, o.price, y.book.Of(Opposite(o.side))[0].price)
    requires y.book.Of(Opposite(o.side))[0].id in y.owners
    ensures var s := y.book.Of(Opposite(o.side)); var exec := Min(leaves, s[0].qty);
      Underway(x, o, AfterMatch(y, Opposite(o.side), leaves), done + [Fill(s[0], exec, leaves - exec)], leaves - exec)
  {
  }

  lemma UnderwayEnds(x: Exchange, o: NewOrder, y: Exchange, ticker: TickerId, done: seq<Fill>, leaves: Qty)
    requires o.side != NoSide && Good(x) && Good(y) && Underway(x, o, y, done, leaves)
    requires var s := y.book.Of(Opposite(o.side)); leaves == 0 || s == [] || !Crosses(o.side, o.price, s[0].price)
    ensures y == MatchEffect(x, ticker, o).state
    ensures Greedy(o.side, o.price, o.qty, x.book.Of(Opposite(o.side))) == Outcome(done, leaves,
      y.book.Of(Opposite(o.side)))
    ensures MatchEffect(x, ticker, o).responses == FillResponses(o, x.nextId, ticker, x.owners, done)
    ensures MatchEffect(x, ticker, o).updates == FillUpdates(o.side, ticker, done)
  {
    assert done + [] == done;
    var owners := map i | i in x.owners && RestsIn(y.book, i) :: x.owners[i];
    forall i: OrderId ensures i in owners <==> i in y.owners {
      assert RestsIn(y.book, i) <==> i in y.owners;
      assert i in y.owners ==> y.owners[i] == x.owners[i];
    }
  }

  lemma FillMessagesAppend(o: NewOrder, id: OrderId, ticker: TickerId, owners: map<OrderId, Owner>, done: seq<Fill>,
      f: Fill)
    requires forall g :: g in done + [f] ==> g.passive.id in owners && g.exec <= g.passive.qty
    ensures FillResponses(o, id, ticker, owners, done + [f])
      == FillResponses(o, id, ticker, owners, done) + Reports(o, id, ticker, owners[f.passive.id], f)
    ensures FillUpdates(o.side, ticker, done + [f]) == FillUpdates(o.side, ticker, done) + Prints(o.side, ticker, f)
  {
    var more := done + [f];
    assert more[..|more| - 1] == done && f in more;
    forall g | g in done ensures g in more {
    }
  }

  /**
   One more match with the best order: matching is one trade further, and the messages so far grow by its messages.
   */
  lemma FillStep(x: Exchange, o: NewOrder, ticker: TickerId, y: Exchange, done: seq<Fill>, leaves: Qty)
    returns (f: Fill)
    requires o.side != NoSide && Underway(x, o, y, done, leaves)
    requires leaves > 0 && y.book.Of(Opposite(o.side)) != []
    requires Crosses(o.side, o.price, y.book.Of(Opposite(o.side))[0].price)
    requires y.book.Of(Opposite(o.side))[0].id in y.owners
    ensures var e := y.book.Of(Opposite(o.side))[0];
      && f == Fill(e, Min(leaves, e.qty), leaves - Min(leaves, e.qty))
      && Underway(x, o, AfterMatch(y, Opposite(o.side), leaves), done + [f], f.leaves)
      && (forall g :: g in done + [f] ==> g.passive.id in x.owners && g.exec <= g.passive.qty)
      && FillResponses(o, x.nextId, ticker, x.owners, done + [f])
           == FillResponses(o, x.nextId, ticker, x.owners, done) + Reports(o, x.nextId, ticker, y.owners[e.id], f)
      && FillUpdates(o.side, ticker, done + [f]) == FillUpdates(o.side, ticker, done) + Prints(o.side, ticker, f)
  {
    hide Underway;
    hide AfterMatch;
    var e := y.book.Of(Opposite(o.side))[0];
    f := Fill(e, Min(leaves, e.qty), leaves - Min(leaves, e.qty));
    FillKeepsUnderway(x, o, y, done, leaves);
    UnderwayDone(x, o, y, done, leaves);
    UnderwayDone(x, o, AfterMatch(y, Opposite(o.side), leaves), done + [f], f.leaves);
    assert y.owners[e.id] == x.owners[e.id];
    FillMessagesAppend(o, x.nextId, ticker, x.owners, done, f);
  }

  // --- The book is kept well formed and uncrossed -------------------------------------------------------------

  /** Matching removes a prefix of the side and may shrink the order after it; what is left does not cross. */
  lemma GreedyRest(side: Side, limit: Price, qty: Qty, s: seq<Entry>) returns (k: nat)
    requires forall i :: 0 <= i < |s| ==> s[i].qty > 0
    ensures var g := Greedy(side, limit, qty, s);
      && k <= |s|
      && (g.rest == s[k..]
          || (k < |s| && g.leaves == 0 && g.rest != [] && 0 < g.rest[0].qty < s[k].qty
            && g.rest == [s[k].(qty := g.rest[0].qty)] + s[k + 1..]))
      && (g.leaves > 0 && g.rest != [] ==> !Crosses(side, limit, g.rest[0].price))
  {
    if qty == 0 || s == [] || !Crosses(side, limit, s[0].price) {
      k := 0;
    } else {
      var exec := Min(qty, s[0].qty);
      if exec < s[0].qty {
        k := 0;
      } else {
        var m := GreedyRest(side, limit, qty - exec, s[1..]);
        k := m + 1;
        assert s[1..][m..] == s[k..];
        assert m < |s[1..]| ==> s[1..][m] == s[k] && s[1..][m + 1..] == s[k + 1..];
      }
    }
  }

  ghost predicate SuffixOf(s: seq<Entry>, k: nat, rest: seq<Entry>) {
    && k <= |s|
    && (rest == s[k..]
        || (k < |s| && rest != [] && rest[0].qty > 0 && rest == [s[k].(qty := rest[0].qty)] + s[k + 1..]))
  }

  lemma SuffixAt(side: Side, s: seq<Entry>, k: nat, rest: seq<Entry>)
    requires SideOk(side, s) && SuffixOf(s, k, rest)
    ensures SideOk(side, rest) && k + |rest| == |s|
    ensures forall i :: 0 <= i < |rest| ==> rest[i].id == s[k + i].id && rest[i].price == s[k + i].price
  {
    forall i, j | 0 <= i < j < |rest| ensures Before(side, rest[i], rest[j]) {
      assert Before(side, s[k + i], s[k + j]);
    }
  }

  /** A suffix of a side, perhaps with its first order shrunk, is still a well-formed side of the book. */
  lemma SuffixKeepsWellFormed(b: Book, side: Side, k: nat, rest: seq<Entry>)
    requires WellFormed(b) && side != NoSide && SuffixOf(b.Of(side), k, rest)
    ensures WellFormed(b.With(side, rest))
  {
    var c := b.With(side, rest);
    SuffixAt(side, b.Of(side), k, rest);
    forall i, j {:trigger Distinct(c.bids[i], c.asks[j])} | 0 <= i < |c.bids| && 0 <= j < |c.asks|
      ensures Distinct(c.bids[i], c.asks[j])
    {
      assert Distinct(b.bids[if side == Buy then k + i else i], b.asks[if side == Sell then k + j else j]);
    }
    if c.bids != [] && c.asks != [] {
      PricesDisjoint(b, if side == Buy then k else 0, if side == Sell then k else 0);
    }
  }

  lemma TradedWellFormed(x: Exchange, o: NewOrder)
    requires Good(x) && o.side != NoSide
    ensures WellFormed(Traded(x, o))
    ensures forall id: OrderId :: RestsIn(Traded(x, o), id) ==> RestsIn(x.book, id)
    ensures var g := Greedy(o.side, o.price, o.qty, x.book.Of(Opposite(o.side)));
      g.leaves > 0 && g.rest != [] ==> !Crosses(o.side, o.price, g.rest[0].price)
  {
    var opp := Opposite(o.side);
    var s := x.book.Of(opp);
    var k := GreedyRest(o.side, o.price, o.qty, s);
    var rest := Greedy(o.side, o.price, o.qty, s).rest;
    SuffixKeepsWellFormed(x.book, opp, k, rest);
    SuffixAt(opp, s, k, rest);
    forall id: OrderId | RestsIn(Traded(x, o), id) ensures RestsIn(x.book, id) {
      if Has(rest, id) {
        var i := IndexOf(rest, id);
        assert s[k + i].id == id;
      }
    }
  }

  /** What is left of an aggressor can rest: it is last at its price and no order crosses it. */
  lemma RemainderCanRest(x: Exchange, o: NewOrder)
    requires Good(x) && o.side != NoSide
    ensures var g := Greedy(o.side, o.price, o.qty, x.book.Of(Opposite(o.side)));
      g.leaves > 0 ==> CanAdd(Traded(x, o), Resting(Traded(x, o), o, x.nextId, g.leaves))
  {
    var g := Greedy(o.side, o.price, o.qty, x.book.Of(Opposite(o.side)));
    var b := Traded(x, o);
    TradedWellFormed(x, o);
    if g.leaves > 0 {
      var e := Resting(b, o, x.nextId, g.leaves);
      AddableLast(b, e, x.nextId);
    }
  }

  lemma AddableLast(b: Book, e: Entry, nextId: OrderId)
    requires WellFormed(b) && e.side != NoSide && e.qty > 0 && e.id == nextId
    requires forall id: OrderId :: RestsIn(b, id) ==> id < nextId
    requires e.priority == NextPriority(e.side, b.Of(e.side), e.price)
    requires var u := b.Of(Opposite(e.side)); u != [] ==> !Crosses(e.side, e.price, u[0].price)
    ensures CanAdd(b, e)
  {
    var side, s, u, c := e.side, b.Of(e.side), b.Of(Opposite(e.side)), Added(b, e);
    var k := InsertPos(side, s, e.price);
    forall i | 0 <= i < |s|
      ensures Distinct(s[i], e) && (s[i].price == e.price ==> s[i].id < e.id && s[i].priority < e.priority) {
      assert RestsIn(b, s[i].id);
      if s[i].price == e.price { LastPriority(side, s, e.price, i); }
    }
    InsertKeepsOrder(side, s, e);
    var t := c.Of(side);
    forall i, j {:trigger Distinct(c.bids[i], c.asks[j])} | 0 <= i < |c.bids| && 0 <= j < |c.asks|
      ensures Distinct(c.bids[i], c.asks[j])
    {
      var m, w := if side == Buy then i else j, if side == Buy then j else i;
      assert RestsIn(b, u[w].id);
      if m != k {
        var q := if m < k then m else m - 1;
        assert t[m] == s[q];
        assert if side == Buy then Distinct(b.bids[q], b.asks[w]) else Distinct(b.bids[w], b.asks[q]);
      }
    }
    if k == 0 {
      assert t[0] == e;
    } else {
      assert t[0] == s[0];
    }
  }

  /** Nothing that is left of a new order would rest under a client order id its client still has an order under. */
  ghost predicate Ownable(x: Exchange, o: NewOrder)
    requires o.side != NoSide
  {
    Greedy(o.side, o.price, o.qty, x.book.Of(Opposite(o.side))).leaves > 0 ==>
      forall i {:trigger x.owners[i]} :: i in x.owners && RestsIn(Traded(x, o), i) ==>
        x.owners[i] != Owner(o.client, o.clientOrderId)
  }

  lemma SubmittedOwnable(x: Exchange, o: NewOrder)
    requires CanSubmit(x, o)
    ensures Ownable(x, o)
  {
    hide Greedy;
    hide RestsIn;
    forall i {:trigger x.owners[i]} | i in x.owners ensures x.owners[i] != Owner(o.client, o.clientOrderId) {
      assert x.owners[i] in x.owners.Values;
    }
  }

  /** The owners matching leaves say whether that is so. */
  lemma OwnableValues(x: Exchange, ticker: TickerId, o: NewOrder)
    requires Good(x) && o.side != NoSide
    requires Greedy(o.side, o.price, o.qty, x.book.Of(Opposite(o.side))).leaves > 0
    ensures Ownable(x, o) <==> Owner(o.client, o.clientOrderId) !in MatchEffect(x, ticker, o).state.owners.Values
  {
    hide Greedy;
    hide RestsIn;
    hide Good;
    var owners := MatchEffect(x, ticker, o).state.owners;
    forall i {:trigger x.owners[i]} | i in x.owners && RestsIn(Traded(x, o), i) ensures x.owners[i] in owners.Values {
      assert i in owners && owners[i] == x.owners[i];
    }
  }

  /**
   A new order always leaves the book sorted and uncrossed, and consistently owned exactly if what is left of it does
   not rest under a client order id that is taken.
   */
  lemma AddKeepsGood(x: Exchange, ticker: TickerId, o: NewOrder)
    requires Good(x) && o.side != NoSide
    ensures WellFormed(AddEffect(x, ticker, o).state.book)
    ensures Good(AddEffect(x, ticker, o).state) <==> Ownable(x, o)
  {
    hide Greedy;
    hide Added;
    hide RestsIn;
    hide NextPriority;
    hide WellFormed;
    var y := AddEffect(x, ticker, o).state;
    var g := Greedy(o.side, o.price, o.qty, x.book.Of(Opposite(o.side)));
    var b := Traded(x, o);
    TradedWellFormed(x, o);
    RemainderCanRest(x, o);
    var kept := map i | i in x.owners && RestsIn(b, i) :: x.owners[i];
    forall id: OrderId ensures id in kept <==> RestsIn(b, id) {
      assert RestsIn(b, id) ==> RestsIn(x.book, id);
    }
    if g.leaves > 0 {
      var e := Resting(b, o, x.nextId, g.leaves);
      forall id: OrderId ensures RestsIn(y.book, id) <==> RestsIn(b, id) || id == e.id {
        AddedIds(b, e, id);
      }
      assert y.owners[e.id] == Owner(o.client, o.clientOrderId);
    }
  }

  lemma AddedIds(b: Book, e: Entry, id: OrderId)
    requires e.side != NoSide
    ensures RestsIn(Added(b, e), id) <==> RestsIn(b, id) || id == e.id
  {
    var s := b.Of(e.side);
    var k := InsertPos(e.side, s, e.price);
    var t := Insert(s, e);
    assert t[k] == e;
    if Has(s, id) {
      var i := IndexOf(s, id);
      assert t[if i < k then i else i + 1] == s[i];
    }
    if Has(t, id) {
      var i := IndexOf(t, id);
      assert i != k ==> t[i] == s[if i < k then i else i - 1];
    }
  }

  /** A cancel takes out the one order this client owns under this id. */
  lemma CancelFinds(x: Exchange, ticker: TickerId, client: ClientId, clientOrderId: OrderId, e: Entry)
    requires Good(x) && InBook(x.book, e) && e.id in x.owners && x.owners[e.id] == Owner(client, clientOrderId)
    ensures CancelEffect(x, ticker, client, clientOrderId)
      == Effect(Exchange(x.book.With(e.side, Remove(x.book.Of(e.side), e.id)), x.owners - {e.id}, x.nextId),
                [ClientResponse(Canceled, client, ticker, clientOrderId, e.id, e.side, e.price, QTY_INVALID, e.qty)],
                [MarketUpdate(Cancel, e.id, ticker, e.side, e.price, 0, e.priority)])
  {
    var f := Lookup(x.book, e.id);
    InBookSide(x.book, e);
    InBookSide(x.book, f);
    OneSide(x.book, e.id);
  }

  /** A cancel of an order its client does not have is rejected and changes nothing. */
  lemma CancelMisses(x: Exchange, ticker: TickerId, client: ClientId, clientOrderId: OrderId)
    requires Good(x) && Owner(client, clientOrderId) !in x.owners.Values
    ensures CancelEffect(x, ticker, client, clientOrderId)
      == Effect(x, [ClientResponse(CancelRejected, client, ticker, clientOrderId, ORDER_ID_INVALID, NoSide,
                                   PRICE_INVALID, QTY_INVALID, QTY_INVALID)], [])
  {
    forall id {:trigger x.owners[id]} | id in x.owners ensures x.owners[id] != Owner(client, clientOrderId) {
      assert x.owners[id] in x.owners.Values;
    }
  }

  /** A cancel leaves the book sorted, uncrossed and consistently owned. */
  lemma CancelKeepsGood(x: Exchange, ticker: TickerId, client: ClientId, clientOrderId: OrderId)
    requires Good(x)
    ensures Good(CancelEffect(x, ticker, client, clientOrderId).state)
  {
    if exists id :: id in x.owners && x.owners[id] == Owner(client, clientOrderId) {
      var id :| id in x.owners && x.owners[id] == Owner(client, clientOrderId);
      assert RestsIn(x.book, id);
      var e := Lookup(x.book, id);
      var s := x.book.Of(e.side);
      InBookSide(x.book, e);
      RemoveKeepsWellFormed(x.book, e.side, IndexOf(s, id));
      var c := x.book.With(e.side, Remove(s, id));
      forall i: OrderId ensures RestsIn(c, i) <==> RestsIn(x.book, i) && i != id {
        RemovedIds(x.book, e.side, id, i);
      }
    }
  }
}
