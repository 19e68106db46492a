/**
 The matching engine keeps the contract the client's order protocol relies on: whatever any client asks of it, what it
 tells one client is that client's request served, or fills of orders that client has open.
 */
module EngineContract {
  import opened Types
  import opened PriceTime
  import opened Matching
  import opened Runs
  import opened Conservation
  import P = OrderProtocol

  /** The responses for one client. */
  function For(rs: seq<ClientResponse>, c: ClientId): seq<ClientResponse> {
    if rs == [] then [] else (if rs[0].client == c then [rs[0]] else []) + For(rs[1..], c)
  }

  /** These reports are fills, one after the other, of orders that are open, and lead from open to left. */
  ghost predicate FillsLead(c: ClientId, open: P.OpenOrders, rs: seq<ClientResponse>, left: P.OpenOrders)
    decreases |rs|
  {
    if rs == [] then open == left
    else
      var r := rs[0];
      var k := P.Key(r.ticker, r.clientOrderId);
      && k in open && 0 < r.execQty <= open[k].qty
      && r == P.FillReport(c, k, open[k], r.execQty, r.price, r.marketOrderId)
      && FillsLead(c, P.OpenAfter(open, k, r.execQty), rs[1..], left)
  }

  lemma {:induction false} FillsLeadOn(c: ClientId, a: P.OpenOrders, rs: seq<ClientResponse>, b: P.OpenOrders,
                                       more: seq<ClientResponse>, d: P.OpenOrders)
    requires FillsLead(c, a, rs, b) && FillsLead(c, b, more, d)
    ensures FillsLead(c, a, rs + more, d)
    decreases |rs|
  {
    if rs == [] {
      assert rs + more == more;
    } else {
      assert (rs + more)[0] == rs[0] && (rs + more)[1..] == rs[1..] + more;
      var k := P.Key(rs[0].ticker, rs[0].clientOrderId);
      FillsLeadOn(c, P.OpenAfter(a, k, rs[0].execQty), rs[1..], b, more, d);
    }
  }

  lemma {:induction false} ForAppend(a: seq<ClientResponse>, b: seq<ClientResponse>, c: ClientId)
    ensures For(a + b, c) == For(a, c) + For(b, c)
  {
    if a == [] {
      assert a + b == b;
    } else {
      assert (a + b)[0] == a[0] && (a + b)[1..] == a[1..] + b;
      ForAppend(a[1..], b, c);
    }
  }

  // --- What a client has open, read off the book -------------------------------------------------------------

  /** A resting order has an owner, and if that is client c, c has it open with the quantity that rests. */
  ghost predicate Shown(b: Book, owners: map<OrderId, Owner>, t: TickerId, c: ClientId, open: P.OpenOrders, e: Entry)
  {
    e.id in owners
    && (owners[e.id].client == c ==> OpenAs(open, P.Key(t, owners[e.id].clientOrderId), P.Open(e.side, e.price, e.qty)))
  }

  predicate OpenAs(open: P.OpenOrders, k: P.Key, o: P.Open) {
    k in open && open[k] == o
  }

  /** An order that c has open under this key rests in the book. */
  ghost predicate Rests(b: Book, owners: map<OrderId, Owner>, c: ClientId, k: P.Key) {
    exists e :: InBook(b, e) && e.id in owners && owners[e.id] == Owner(c, k.orderId)
  }

  /** Open is what client c has resting in this book, apart from one order on its way in. */
  ghost predicate Reflects(b: Book, owners: map<OrderId, Owner>, t: TickerId, c: ClientId, open: P.OpenOrders,
                           incoming: Option<P.Key>) {
    && (forall e {:trigger InBook(b, e)} :: InBook(b, e) ==> Shown(b, owners, t, c, open, e))
    && (forall k {:trigger k in open} :: k in open && k.ticker == t && Some(k) != incoming ==> Rests(b, owners, c, k))
  }

  ghost predicate Injective(owners: map<OrderId, Owner>) {
    forall i, j {:trigger owners[i], owners[j]} :: i in owners && j in owners && owners[i] == owners[j] ==> i == j
  }

  predicate SameAt(a: P.OpenOrders, b: P.OpenOrders, k: P.Key) {
    (k in a <==> k in b) && (k in a ==> a[k] == b[k])
  }

  /** The book after its best order on one side traded this much. */
  function AfterBest(b: Book, side: Side, exec: Qty): Book
    requires b.Of(side) != [] && exec <= b.Of(side)[0].qty
  {
    var s := b.Of(side);
    b.With(side, if exec == s[0].qty then s[1..] else [s[0].(qty := s[0].qty - exec)] + s[1..])
  }

  /** One passive order is filled: if it is this client's, the client is told exactly that. */
  lemma PassiveFilled(b: Book, side: Side, owners: map<OrderId, Owner>, t: TickerId, c: ClientId, open: P.OpenOrders,
                      incoming: Option<P.Key>, exec: Qty, r: ClientResponse) returns (left: P.OpenOrders)
    requires WellFormed(b) && side != NoSide && b.Of(side) != [] && Reflects(b, owners, t, c, open, incoming)
      && Injective(owners)
    requires var p := b.Of(side)[0];
      && 0 < exec <= p.qty && p.id in owners
      && r == ClientResponse(Filled, owners[p.id].client, t, owners[p.id].clientOrderId, p.id, p.side, p.price, exec,
        p.qty - exec)
    ensures FillsLead(c, open, if r.client == c then [r] else [], left)
    ensures Reflects(AfterBest(b, side, exec), owners, t, c, left, incoming)
    ensures incoming.Some? && !(r.client == c && incoming.value == P.Key(t, r.clientOrderId)) ==>
      SameAt(open, left, incoming.value)
  {
    var s, p := b.Of(side), b.Of(side)[0];
    var k := P.Key(t, owners[p.id].clientOrderId);
    assert InBook(b, p);
    var d := AfterBest(b, side, exec);
    left := if r.client == c then P.OpenAfter(open, k, exec) else open;
    if r.client == c {
      assert [r][1..] == [];
      assert FillsLead(c, left, [], left);
    }
    forall e {:trigger InBook(d, e)} | InBook(d, e) ensures Shown(d, owners, t, c, left, e) {
      FilledEntry(b, side, exec, e);
    }
    forall j {:trigger j in left} | j in left && j.ticker == t && Some(j) != incoming ensures Rests(d, owners, c, j) {
      assert j in open;
      assert Rests(b, owners, c, j);
      var e :| InBook(b, e) && e.id in owners && owners[e.id] == Owner(c, j.orderId);
      KeptUnlessFilled(b, side, exec, e);
    }
  }

  /** What a side holds after its best order was filled: the others as they were, and what is left of it. */
  lemma FilledEntry(b: Book, side: Side, exec: Qty, e: Entry)
    requires WellFormed(b) && side != NoSide && b.Of(side) != [] && 0 < exec <= b.Of(side)[0].qty
    requires InBook(AfterBest(b, side, exec), e)
    ensures var p := b.Of(side)[0];
      (exec < p.qty && e == p.(qty := p.qty - exec)) || (InBook(b, e) && e.id != p.id)
  {
    var s := b.Of(side);
    if exec == s[0].qty {
      assert RemoveAt(s, 0) == s[1..];
      RemovedEntry(b, side, 0, e);
    } else {
      assert s[0 := s[0].(qty := s[0].qty - exec)] == [s[0].(qty := s[0].qty - exec)] + s[1..];
      SetQtyEntry(b, side, 0, s[0].qty - exec, e);
    }
  }

  lemma KeptUnlessFilled(b: Book, side: Side, exec: Qty, e: Entry)
    requires WellFormed(b) && side != NoSide && b.Of(side) != [] && 0 < exec <= b.Of(side)[0].qty && InBook(b, e)
    ensures var s, d := b.Of(side), AfterBest(b, side, exec);
      if e == s[0] then exec < s[0].qty ==> InBook(d, e.(qty := e.qty - exec)) else InBook(d, e)
  {
  }

  // --- A whole match -----------------------------------------------------------------------------------------

  function IncomingKey(o: NewOrder, t: TickerId, c: ClientId): Option<P.Key> {
    if o.client == c then Some(P.Key(t, o.clientOrderId)) else None
  }

  /** The client's own order on its way in is open with what it still wants. */
  ghost predicate Incoming(open: P.OpenOrders, o: NewOrder, t: TickerId, c: ClientId, leaves: Qty) {
    o.client == c ==>
      var k := P.Key(t, o.clientOrderId);
      if leaves > 0 then k in open && open[k] == P.Open(o.side, o.price, leaves) else k !in open
  }

  lemma AggressorFilled(b: Book, owners: map<OrderId, Owner>, t: TickerId, c: ClientId, open: P.OpenOrders, o: NewOrder,
                        leaves: Qty, exec: Qty, r: ClientResponse) returns (left: P.OpenOrders)
    requires Reflects(b, owners, t, c, open, IncomingKey(o, t, c)) && Owner(o.client, o.clientOrderId) !in owners.Values
    requires Incoming(open, o, t, c, leaves) && 0 < exec <= leaves
    requires r == ClientResponse(Filled, o.client, t, o.clientOrderId, r.marketOrderId, o.side, r.price, exec,
      leaves - exec)
    ensures FillsLead(c, open, if r.client == c then [r] else [], left)
    ensures Reflects(b, owners, t, c, left, IncomingKey(o, t, c)) && Incoming(left, o, t, c, leaves - exec)
  {
    var k := P.Key(t, o.clientOrderId);
    left := if r.client == c then P.OpenAfter(open, k, exec) else open;
    if r.client == c {
      assert [r][1..] == [];
      assert FillsLead(c, left, [], left);
    }
    forall e {:trigger InBook(b, e)} | InBook(b, e) ensures Shown(b, owners, t, c, left, e) {
      assert Shown(b, owners, t, c, open, e);
      assert owners[e.id] in owners.Values;
    }
    forall j {:trigger j in left} | j in left && j.ticker == t && Some(j) != IncomingKey(o, t, c)
      ensures Rests(b, owners, c, j) {
      assert j in open;
    }
  }

  lemma {:induction false} ReportsFirst(o: NewOrder, nid: OrderId, t: TickerId, owners: map<OrderId, Owner>, f: Fill,
      fills: seq<Fill>)
    requires f.passive.id in owners && f.exec <= f.passive.qty
    requires forall g :: g in fills ==> g.passive.id in owners && g.exec <= g.passive.qty
    ensures FillResponses(o, nid, t, owners, [f] + fills)
      == Reports(o, nid, t, owners[f.passive.id], f) + FillResponses(o, nid, t, owners, fills)
    decreases |fills|
  {
    var all := [f] + fills;
    var n := |all| - 1;
    assert all[n] in all;
    if fills == [] {
      assert all[..n] == [];
    } else {
      assert all[..n] == [f] + fills[..n - 1] && all[n] == fills[n - 1];
      ReportsFirst(o, nid, t, owners, f, fills[..n - 1]);
    }
  }

  lemma PairFor(a: ClientResponse, b: ClientResponse, c: ClientId)
    ensures For([a, b], c) == (if a.client == c then [a] else []) + (if b.client == c then [b] else [])
  {
    assert [a, b] == [a] + [b] && [a][1..] == [] && [b][1..] == [];
    ForAppend([a], [b], c);
  }

  /** One match, seen by client c: its own fills, if it has any part in it. */
  lemma MatchSeen(b: Book, owners: map<OrderId, Owner>, t: TickerId, c: ClientId, open: P.OpenOrders, o: NewOrder,
      nid: OrderId, leaves: Qty) returns (left: P.OpenOrders)
    requires WellFormed(b) && o.side != NoSide && Injective(owners)
      && Owner(o.client, o.clientOrderId) !in owners.Values
    requires Reflects(b, owners, t, c, open, IncomingKey(o, t, c)) && Incoming(open, o, t, c, leaves)
    requires leaves > 0 && b.Of(Opposite(o.side)) != []
    ensures b.Of(Opposite(o.side))[0].id in owners
    ensures var opp, p := Opposite(o.side), b.Of(Opposite(o.side))[0];
      var exec := Min(leaves, p.qty);
      && FillsLead(c, open, For(Reports(o, nid, t, owners[p.id], Fill(p, exec, leaves - exec)), c), left)
      && Reflects(AfterBest(b, opp, exec), owners, t, c, left, IncomingKey(o, t, c))
      && Incoming(left, o, t, c, leaves - exec)
  {
    hide WellFormed;
    hide FillsLead;
    hide AfterBest;
    hide Reflects;
    var opp, p := Opposite(o.side), b.Of(Opposite(o.side))[0];
    var exec := Min(leaves, p.qty);
    BestShown(b, opp, owners, t, c, open, IncomingKey(o, t, c));
    var rs := Reports(o, nid, t, owners[p.id], Fill(p, exec, leaves - exec));
    PairFor(rs[0], rs[1], c);
    var mid := AggressorFilled(b, owners, t, c, open, o, leaves, exec, rs[0]);
    left := PassiveFilled(b, opp, owners, t, c, mid, IncomingKey(o, t, c), exec, rs[1]);
    assert owners[p.id] in owners.Values;
    FillsLeadOn(c, open, if rs[0].client == c then [rs[0]] else [], mid,
                if rs[1].client == c then [rs[1]] else [], left);
  }

  lemma BestShown(b: Book, side: Side, owners: map<OrderId, Owner>, t: TickerId, c: ClientId, open: P.OpenOrders,
      incoming: Option<P.Key>)
    requires WellFormed(b) && side != NoSide && b.Of(side) != [] && Reflects(b, owners, t, c, open, incoming)
    ensures b.Of(side)[0].id in owners && b.Of(side)[0].qty > 0
  {
    assert InBook(b, b.Of(side)[0]);
    assert Shown(b, owners, t, c, open, b.Of(side)[0]);
  }

  /** All the matches of an order, seen by client c. */
  lemma {:induction false} MatchingSeen(b: Book, owners: map<OrderId, Owner>, t: TickerId, c: ClientId,
      open: P.OpenOrders, o: NewOrder, nid: OrderId, leaves: Qty) returns (left: P.OpenOrders)
    requires WellFormed(b) && o.side != NoSide && Injective(owners)
      && Owner(o.client, o.clientOrderId) !in owners.Values
    requires Reflects(b, owners, t, c, open, IncomingKey(o, t, c)) && Incoming(open, o, t, c, leaves)
    ensures var g := Greedy(o.side, o.price, leaves, b.Of(Opposite(o.side)));
      && (forall f :: f in g.fills ==> f.passive.id in owners && f.exec <= f.passive.qty)
      && FillsLead(c, open, For(FillResponses(o, nid, t, owners, g.fills), c), left)
      && Reflects(b.With(Opposite(o.side), g.rest), owners, t, c, left, IncomingKey(o, t, c))
      && Incoming(left, o, t, c, g.leaves)
    decreases |b.Of(Opposite(o.side))|
  {
    hide WellFormed;
    hide Reflects;
    hide Incoming;
    hide Reports;
    hide For;
    hide FillResponses;
    hide FillsLead;
    hide Injective;
    hide IncomingKey;
    var opp := Opposite(o.side);
    var s := b.Of(opp);
    NoneSeen(b, opp, o, nid, t, owners, c, open);
    left := open;
    if leaves > 0 && s != [] && Crosses(o.side, o.price, s[0].price) {
      var exec := Min(leaves, s[0].qty);
      var f := Fill(s[0], exec, leaves - exec);
      left := MatchSeen(b, owners, t, c, open, o, nid, leaves);
      if exec == s[0].qty {
        var d := b.With(opp, s[1..]);
        RemoveKeepsWellFormed(b, opp, 0);
        assert RemoveAt(s, 0) == s[1..];
        var h := Greedy(o.side, o.price, leaves - exec, s[1..]);
        var mid := left;
        left := MatchingSeen(d, owners, t, c, mid, o, nid, leaves - exec);
        ReportsFirst(o, nid, t, owners, f, h.fills);
        ForAppend(Reports(o, nid, t, owners[f.passive.id], f), FillResponses(o, nid, t, owners, h.fills), c);
        FillsLeadOn(c, open, For(Reports(o, nid, t, owners[f.passive.id], f), c), mid,
                    For(FillResponses(o, nid, t, owners, h.fills), c), left);
      } else {
        ReportsFirst(o, nid, t, owners, f, []);
        NoneSeen(b, opp, o, nid, t, owners, c, open);
        assert [f] + [] == [f];
        assert Reports(o, nid, t, owners[f.passive.id], f) + [] == Reports(o, nid, t, owners[f.passive.id], f);
      }
    }
  }

  lemma NoneSeen(b: Book, side: Side, o: NewOrder, nid: OrderId, t: TickerId, owners: map<OrderId, Owner>, c: ClientId,
      open: P.OpenOrders)
    ensures FillResponses(o, nid, t, owners, []) == [] && For([], c) == [] && FillsLead(c, open, [], open)
    ensures b.With(side, b.Of(side)) == b
  {
  }

  // --- One request -------------------------------------------------------------------------------------------

  /** Open is what client c has at the exchange. */
  ghost predicate HasOpen(m: Market, c: ClientId, open: P.OpenOrders) {
    && (forall t {:trigger m[t]} :: 0 <= t < |m| ==> Reflects(m[t].book, m[t].owners, t, c, open, None))
    && (forall k {:trigger k in open} :: k in open ==> k.ticker < |m|)
  }

  lemma {:induction false} OtherTickersKept(c: ClientId, open: P.OpenOrders, rs: seq<ClientResponse>,
      left: P.OpenOrders, t: TickerId, k: P.Key)
    requires FillsLead(c, open, rs, left) && (forall r :: r in rs ==> r.ticker == t) && k.ticker != t
    ensures SameAt(open, left, k)
    decreases |rs|
  {
    if rs != [] {
      assert rs[0] in rs;
      OtherTickersKept(c, P.OpenAfter(open, P.Key(rs[0].ticker, rs[0].clientOrderId), rs[0].execQty), rs[1..], left, t,
        k);
    }
  }

  lemma {:induction false} ForOf(rs: seq<ClientResponse>, c: ClientId)
    ensures forall r :: r in For(rs, c) ==> r in rs && r.client == c
  {
    if rs != [] { ForOf(rs[1..], c); }
  }

  lemma ReflectsElsewhere(b: Book, owners: map<OrderId, Owner>, t: TickerId, c: ClientId, open: P.OpenOrders,
      left: P.OpenOrders)
    requires Reflects(b, owners, t, c, open, None)
    requires forall k: P.Key {:trigger SameAt(open, left, k)} :: k.ticker == t ==> SameAt(open, left, k)
    ensures Reflects(b, owners, t, c, left, None)
  {
    forall e {:trigger InBook(b, e)} | InBook(b, e) ensures Shown(b, owners, t, c, left, e) {
      assert Shown(b, owners, t, c, open, e);
      if owners[e.id].client == c { assert SameAt(open, left, P.Key(t, owners[e.id].clientOrderId)); }
    }
    forall k {:trigger k in left} | k in left && k.ticker == t ensures Rests(b, owners, c, k) {
      assert SameAt(open, left, k);
      assert k in open;
    }
  }

  /** Matching is over: what is left of the order rests under its own id. */
  lemma Settled(x: Exchange, t: TickerId, c: ClientId, o: NewOrder, left: P.OpenOrders)
    requires Good(x) && CanSubmit(x, o)
    requires var g := Greedy(o.side, o.price, o.qty, x.book.Of(Opposite(o.side)));
      && Reflects(Traded(x, o), x.owners, t, c, left, IncomingKey(o, t, c)) && Incoming(left, o, t, c, g.leaves)
    ensures var y := AddEffect(x, t, o).state; Reflects(y.book, y.owners, t, c, left, None)
  {
    hide Greedy;
    hide WellFormed;
    var g := Greedy(o.side, o.price, o.qty, x.book.Of(Opposite(o.side)));
    var y, b := AddEffect(x, t, o).state, Traded(x, o);
    var n := Resting(b, o, x.nextId, g.leaves);
    MatchKeepsOwners(x, t, o);
    TradedWellFormed(x, o);
    RemainderCanRest(x, o);
    forall e | InBook(b, e) ensures e.id in y.owners && y.owners[e.id] == x.owners[e.id] && InBook(y.book, e) {
      assert Shown(b, x.owners, t, c, left, e);
      LookupOf(b, e);
      if g.leaves > 0 { AddedHolds(b, n, e); }
    }
    if g.leaves > 0 { AddedHolds(b, n, n); }
    forall e {:trigger InBook(y.book, e)} | InBook(y.book, e) ensures Shown(y.book, y.owners, t, c, left, e) {
      if g.leaves > 0 { AddedEntry(b, n, e); }
      if InBook(b, e) { assert Shown(b, x.owners, t, c, left, e); }
    }
    forall k {:trigger k in left} | k in left && k.ticker == t ensures Rests(y.book, y.owners, c, k) {
      if Some(k) == IncomingKey(o, t, c) {
        assert InBook(y.book, n) && y.owners[n.id] == Owner(c, k.orderId);
      } else {
        assert Rests(b, x.owners, c, k);
      }
    }
  }

  lemma LookupOf(b: Book, e: Entry)
    requires InBook(b, e)
    ensures RestsIn(b, e.id)
  {
  }

  lemma ReflectsBeforeMatch(b: Book, owners: map<OrderId, Owner>, t: TickerId, c: ClientId, open: P.OpenOrders,
      o: NewOrder)
    requires Reflects(b, owners, t, c, open, None) && Owner(o.client, o.clientOrderId) !in owners.Values
      && o.client == c
    ensures P.Key(t, o.clientOrderId) !in open
    ensures Reflects(b, owners, t, c, open[P.Key(t, o.clientOrderId) := P.Open(o.side, o.price, o.qty)],
      IncomingKey(o, t, c))
  {
  }

  /** A new order, as its sender and everyone else sees it. */
  lemma AddSeen(x: Exchange, t: TickerId, o: NewOrder, c: ClientId, open: P.OpenOrders)
    returns (left: P.OpenOrders, fills: seq<ClientResponse>)
    requires Good(x) && CanSubmit(x, o) && (o.client == c ==> o.qty > 0) && Reflects(x.book, x.owners, t, c, open, None)
    ensures var e, r := AddEffect(x, t, o), ClientRequest(New, o.client, t, o.clientOrderId, o.side, o.price, o.qty);
      && Reflects(e.state.book, e.state.owners, t, c, left, None)
      && (forall p: ClientResponse :: p in fills ==> p.ticker == t)
      && if o.client == c then
           && P.Key(t, o.clientOrderId) !in open
           && For(e.responses, c) == [P.ServeReport(c, open, r, x.nextId)] + fills
           && FillsLead(c, P.AfterServe(open, r), fills, left)
         else For(e.responses, c) == fills && FillsLead(c, open, fills, left)
  {
    hide Greedy;
    hide WellFormed;
    hide FillsLead;
    hide FillResponses;
    hide Reflects;
    var g := Greedy(o.side, o.price, o.qty, x.book.Of(Opposite(o.side)));
    var start := if o.client == c then open[P.Key(t, o.clientOrderId) := P.Open(o.side, o.price, o.qty)] else open;
    if o.client == c {
      ReflectsBeforeMatch(x.book, x.owners, t, c, open, o);
    }
    left := MatchingSeen(x.book, x.owners, t, c, start, o, x.nextId, o.qty);
    Settled(x, t, c, o, left);
    GreedyFills(o.side, o.price, o.qty, x.book.Of(Opposite(o.side)));
    FilledOwners(x, Opposite(o.side), g.fills);
    var rs := FillResponses(o, x.nextId, t, x.owners, g.fills);
    var accepted := ClientResponse(Accepted, o.client, t, o.clientOrderId, x.nextId, o.side, o.price, 0, o.qty);
    fills := For(rs, c);
    FillsOfTicker(o, x.nextId, t, x.owners, g.fills);
    ForOf(rs, c);
    ForAppend([accepted], rs, c);
    assert [accepted][1..] == [];
    assert [] + fills == fills;
  }

  /** A cancelled order leaves the book, and nobody else's order with it. */
  lemma CancelLeaves(x: Exchange, t: TickerId, c: ClientId, open: P.OpenOrders, e: Entry)
    requires Good(x) && Reflects(x.book, x.owners, t, c, open, None) && InBook(x.book, e)
    ensures e.id in x.owners
    ensures var w, y := x.owners[e.id], x.book.With(e.side, Remove(x.book.Of(e.side), e.id));
      && (w.client == c ==> OpenAs(open, P.Key(t, w.clientOrderId), P.Open(e.side, e.price, e.qty)))
      && Reflects(y, x.owners - {e.id}, t, c, if w.client == c then open - {P.Key(t, w.clientOrderId)} else open, None)
  {
    hide WellFormed;
    assert Shown(x.book, x.owners, t, c, open, e);
    var w, y := x.owners[e.id], x.book.With(e.side, Remove(x.book.Of(e.side), e.id));
    var left := if w.client == c then open - {P.Key(t, w.clientOrderId)} else open;
    InBookSide(x.book, e);
    var k := IndexOf(x.book.Of(e.side), e.id);
    forall f {:trigger InBook(y, f)} | InBook(y, f) ensures Shown(y, x.owners - {e.id}, t, c, left, f) {
      RemovedEntry(x.book, e.side, k, f);
      assert Shown(x.book, x.owners, t, c, open, f);
      assert x.owners[f.id] != x.owners[e.id];
    }
    forall j {:trigger j in left} | j in left && j.ticker == t ensures Rests(y, x.owners - {e.id}, c, j) {
      assert j in open;
      assert Rests(x.book, x.owners, c, j);
      var f :| InBook(x.book, f) && f.id in x.owners && x.owners[f.id] == Owner(c, j.orderId);
      StaysIn(x.book, e.side, k, f);
    }
  }

  lemma StaysIn(b: Book, side: Side, k: nat, f: Entry)
    requires side != NoSide && k < |b.Of(side)| && InBook(b, f) && f != b.Of(side)[k]
    ensures InBook(b.With(side, RemoveAt(b.Of(side), k)), f)
  {
  }

  /** A cancel, as its sender and everyone else sees it. */
  lemma CancelSeen(x: Exchange, t: TickerId, client: ClientId, orderId: OrderId, c: ClientId, open: P.OpenOrders)
    returns (left: P.OpenOrders, id: OrderId)
    requires Good(x) && Reflects(x.book, x.owners, t, c, open, None)
    ensures var e := CancelEffect(x, t, client, orderId);
      && Reflects(e.state.book, e.state.owners, t, c, left, None)
      && (if client == c then
            && left == open - {P.Key(t, orderId)}
            && forall r: ClientRequest :: r.kind != New && r.ticker == t && r.orderId == orderId ==>
                 For(e.responses, c) == [P.ServeReport(c, open, r, id)]
          else For(e.responses, c) == [] && left == open)
  {
    hide WellFormed;
    hide Reflects;
    var k, e := P.Key(t, orderId), CancelEffect(x, t, client, orderId);
    OneFor(e.responses[0], c);
    if exists i :: i in x.owners && x.owners[i] == Owner(client, orderId) {
      var i :| i in x.owners && x.owners[i] == Owner(client, orderId);
      assert RestsIn(x.book, i);
      var f := Lookup(x.book, i);
      CancelFinds(x, t, client, orderId, f);
      CancelLeaves(x, t, c, open, f);
      left, id := if client == c then open - {k} else open, i;
    } else {
      left, id := open, 0;
      if client == c {
        UnownedNotOpen(x.book, x.owners, t, c, open, orderId);
        assert open - {k} == open;
      }
    }
  }

  lemma UnownedNotOpen(b: Book, owners: map<OrderId, Owner>, t: TickerId, c: ClientId, open: P.OpenOrders,
      orderId: OrderId)
    requires Reflects(b, owners, t, c, open, None) && !exists i :: i in owners && owners[i] == Owner(c, orderId)
    ensures P.Key(t, orderId) !in open
  {
  }

  lemma OneFor(r: ClientResponse, c: ClientId)
    ensures For([r], c) == if r.client == c then [r] else []
  {
  }

  /**
   The contract.  Whoever a request comes from, the engine tells client c only this: if the request is its own, that it
   was served; and fills of orders it has open, one after the other.  Afterwards it has open exactly what is left.
   */
  lemma EngineServes(m: Market, r: ClientRequest, c: ClientId, open: P.OpenOrders)
    returns (left: P.OpenOrders, fills: seq<ClientResponse>, id: OrderId)
    requires GoodMarket(m) && Legal(m, r) && HasOpen(m, c, open) && (r.kind == New && r.client == c ==> r.qty > 0)
    ensures var e := Handle(m, r);
      && HasOpen(m[r.ticker := e.state], c, left)
      && (r.kind != New ==> fills == [])
      && if r.client == c then
           && For(e.responses, c) == [P.ServeReport(c, open, r, id)] + fills
           && FillsLead(c, P.AfterServe(open, r), fills, left)
           && (r.kind == New ==> P.Key(r.ticker, r.orderId) !in open)
         else For(e.responses, c) == fills && FillsLead(c, open, fills, left)
  {
    hide Good;
    hide Reflects;
    hide AddEffect;
    hide CancelEffect;
    var x, t, e := m[r.ticker], r.ticker, Handle(m, r);
    assert Reflects(x.book, x.owners, t, c, open, None);
    id := x.nextId;
    if r.kind == New {
      left, fills := AddSeen(x, t, OrderOf(r), c, open);
      assert r == ClientRequest(New, r.client, t, r.orderId, r.side, r.price, r.qty);
    } else {
      left, id := CancelSeen(x, t, r.client, r.orderId, c, open);
      fills := [];
      assert FillsLead(c, left, [], left);
    }
    var start := if r.client == c then P.AfterServe(open, r) else open;
    forall k: P.Key | k.ticker != t ensures SameAt(open, left, k) {
      OtherTickersKept(c, start, fills, left, t, k);
    }
    OthersReflected(m, r, c, open, start, fills, left);
  }

  lemma OthersReflected(m: Market, r: ClientRequest, c: ClientId, open: P.OpenOrders, start: P.OpenOrders,
                        fills: seq<ClientResponse>, left: P.OpenOrders)
    requires GoodMarket(m) && Legal(m, r) && HasOpen(m, c, open)
    requires forall k: P.Key {:trigger SameAt(open, left, k)} :: k.ticker != r.ticker ==> SameAt(open, left, k)
    requires Reflects(Handle(m, r).state.book, Handle(m, r).state.owners, r.ticker, c, left, None)
    ensures HasOpen(m[r.ticker := Handle(m, r).state], c, left)
  {
    hide Reflects;
    hide Handle;
    hide GoodMarket;
    var n := m[r.ticker := Handle(m, r).state];
    forall t {:trigger n[t]} | 0 <= t < |n| ensures Reflects(n[t].book, n[t].owners, t, c, left, None) {
      if t != r.ticker {
        assert n[t] == m[t];
        ReflectsElsewhere(m[t].book, m[t].owners, t, c, open, left);
      }
    }
    forall k {:trigger k in left} | k in left ensures k.ticker < |n| {
      if k.ticker != r.ticker { assert SameAt(open, left, k); }
    }
  }
}
