/**
 The pointer structure both books are made of: a circular doubly linked ring of price levels per side, a circular
 FIFO ring of orders per level, and one price index shared by the two sides.
 */
module LinkedLevels {
  import opened Types
  import opened PriceTime
  import opened Rings

  class OrderNode {
    const client: ClientId
    const clientOrderId: OrderId
    const id: OrderId
    const side: Side
    const price: Price
    var qty: Qty
    const priority: Priority
    var prev: OrderNode?
    var next: OrderNode?

    constructor (client: ClientId, clientOrderId: OrderId, id: OrderId, side: Side, price: Price, qty: Qty,
        priority: Priority)
      ensures this.client == client && this.clientOrderId == clientOrderId && this.id == id && this.side == side
      ensures this.price == price && this.qty == qty && this.priority == priority
      ensures prev == null && next == null
    {
      this.client, this.clientOrderId, this.id, this.side := client, clientOrderId, id, side;
      this.price, this.qty, this.priority := price, qty, priority;
      prev, next := null, null;
    }
  }

  class LevelNode {
    const side: Side
    const price: Price
    var first: OrderNode?
    var prevEntry: LevelNode?
    var nextEntry: LevelNode?

    constructor (side: Side, price: Price, first: OrderNode)
      ensures this.side == side && this.price == price && this.first == first
      ensures prevEntry == null && nextEntry == null
    {
      this.side, this.price, this.first := side, price, first;
      prevEntry, nextEntry := null, null;
    }
  }

  /** The index slot of a price. */
  function PriceToIndex(price: Price): (r: nat)
    ensures r < ME_MAX_PRICE_LEVELS
  {
    price % ME_MAX_PRICE_LEVELS
  }

  /** It is the remainder of the unsigned 64-bit number a price is converted to, for negative prices too. */
  lemma IndexUnsigned(price: Price)
    requires -0x8000_0000_0000_0000 <= price < 0x8000_0000_0000_0000
    ensures PriceToIndex(price)
      == (if price < 0 then price + 0x1_0000_0000_0000_0000 else price) % ME_MAX_PRICE_LEVELS
  {
  }

  /** The order node of this id points to its neighbours in its level's ring. */
  ghost predicate OrderInRing(orders: map<OrderId, OrderNode>, r: Links, nodes: set<OrderNode>, id: OrderId)
    requires id in orders
    reads nodes`next, nodes`prev
  {
    && id in r.next && id in r.prev && r.next[id] in orders && r.prev[id] in orders
    && orders[id] in nodes && orders[id].id == id
    && orders[id].next == orders[r.next[id]] && orders[id].prev == orders[r.prev[id]]
  }

  ghost predicate OrdersMirrored(orders: map<OrderId, OrderNode>, r: Links, nodes: set<OrderNode>)
    reads nodes`next, nodes`prev
  {
    forall id {:trigger OrderInRing(orders, r, nodes, id)} :: id in orders ==> OrderInRing(orders, r, nodes, id)
  }

  ghost predicate StartsWith(levels: map<Price, LevelNode>, orders: map<OrderId, OrderNode>, r: Links,
      nodes: set<LevelNode>, p: Price)
    requires p in levels
    reads nodes`first
  {
    && levels[p] in nodes && levels[p].price == p && p in r.first && r.first[p] in orders
    && levels[p].first == orders[r.first[p]]
  }

  ghost predicate FirstsMirrored(levels: map<Price, LevelNode>, orders: map<OrderId, OrderNode>, r: Links,
      nodes: set<LevelNode>)
    reads nodes`first
  {
    forall p {:trigger StartsWith(levels, orders, r, nodes, p)} :: p in levels ==>
      StartsWith(levels, orders, r, nodes, p)
  }

  ghost predicate HasQty(orders: map<OrderId, OrderNode>, e: Entry)
    requires e.id in orders
    reads {orders[e.id]}`qty
  {
    orders[e.id].qty == e.qty
  }

  ghost predicate QtysMirrored(orders: map<OrderId, OrderNode>, b: Book, nodes: set<OrderNode>)
    reads nodes`qty
  {
    forall e {:trigger InBook(b, e)} :: InBook(b, e) ==> e.id in orders && orders[e.id] in nodes && HasQty(orders, e)
  }

  /** The level node at p points to its neighbours in the level ring. */
  ghost predicate InRing(levels: map<Price, LevelNode>, r: Links, nodes: set<LevelNode>, p: Price)
    requires p in levels
    reads nodes`nextEntry, nodes`prevEntry
  {
    && p in r.nextLevel && p in r.prevLevel && r.nextLevel[p] in levels && r.prevLevel[p] in levels
    && levels[p] in nodes && levels[p].price == p
    && levels[p].nextEntry == levels[r.nextLevel[p]] && levels[p].prevEntry == levels[r.prevLevel[p]]
  }

  ghost predicate LevelsMirrored(levels: map<Price, LevelNode>, r: Links, nodes: set<LevelNode>)
    reads nodes`nextEntry, nodes`prevEntry
  {
    forall p {:trigger InRing(levels, r, nodes, p)} :: p in levels ==> InRing(levels, r, nodes, p)
  }

  /** The price index holds exactly these levels. */
  ghost predicate Indexed(index: array<LevelNode?>, levels: map<Price, LevelNode>)
    reads index
  {
    && index.Length == ME_MAX_PRICE_LEVELS
    && (forall p :: p in levels ==> levels[p].price == p && index[PriceToIndex(p)] == levels[p])
    && (forall r :: 0 <= r < index.Length && index[r] != null ==>
          var p := index[r].price; p in levels && levels[p] == index[r] && PriceToIndex(p) == r)
  }

  /** The level of a side's best order. */
  ghost function TopOf(levels: map<Price, LevelNode>, s: seq<Entry>): LevelNode? {
    if s != [] && s[0].price in levels then levels[s[0].price] else null
  }

  // A book, the links its rings should have, and the heap nodes of its live orders and levels.
  datatype Shape = Shape(
    book: Book,
    links: Links,
    orders: map<OrderId, OrderNode>,
    levels: map<Price, LevelNode>,
    orderNodes: set<OrderNode>,
    levelNodes: set<LevelNode>) {

    /** The node of this entry's id was made for this entry and lies in a level of its side. */
    ghost predicate Backs(e: Entry) {
      && e.id in orders && e.price in levels && levels[e.price].side == e.side
      && var o := orders[e.id];
         o.side == e.side && o.price == e.price && o.priority == e.priority
    }

    /** The part of the invariant that no pointer write can break. */
    ghost predicate Consistent() {
      && WellFormed(book) && Describes(links, book)
      && orders.Keys == links.next.Keys && levels.Keys == links.first.Keys
      && (forall id :: id in orders ==> orders[id].id == id)
      && (forall p :: p in levels ==> levels[p].price == p)
      && Closed(links)
      && (forall e {:trigger Backs(e)} :: InBook(book, e) ==> Backs(e))
    }

    ghost function Top(side: Side): LevelNode?
    {
      TopOf(levels, book.Of(side))
    }

    ghost function WithoutLevel(side: Side, k: nat): Shape
      requires side != NoSide && k < |book.Of(side)| && LevelClosed(links, book.Of(side)[k].price)
    {
      var e := book.Of(side)[k];
      Shape(book.With(side, RemoveAt(book.Of(side), k)), DropLevel(links, e.price), orders - {e.id}, levels - {e.price},
            orderNodes, levelNodes)
    }

    ghost function WithoutOrder(side: Side, k: nat): Shape
      requires side != NoSide && k < |book.Of(side)|
      requires OrderClosed(links, book.Of(side)[k].id) && book.Of(side)[k].price in links.first
    {
      var e := book.Of(side)[k];
      Shape(book.With(side, RemoveAt(book.Of(side), k)), DropOrder(links, e.price, e.id), orders - {e.id}, levels,
            orderNodes, levelNodes)
    }

    ghost function WithLevel(e: Entry, o: OrderNode, l: LevelNode): Shape {
      var s := book.Of(e.side);
      var k := InsertPos(e.side, s, e.price);
      Shape(Added(book, e), AddLevel(links, e.price, e.id, LevelBefore(s, k, e.price), LevelAfter(s, k, e.price)),
            orders[e.id := o], levels[e.price := l], orderNodes + {o}, levelNodes + {l})
    }

    ghost function WithOrder(e: Entry, o: OrderNode): Shape
      requires LevelClosed(links, e.price) && OrderClosed(links, links.first[e.price])
    {
      Shape(Added(book, e), AppendOrder(links, e.price, e.id), orders[e.id := o], levels, orderNodes + {o}, levelNodes)
    }
  }

  function EntryOf(o: OrderNode): Entry
    reads o`qty
  {
    Entry(o.id, o.side, o.price, o.qty, o.priority)
  }

  /** The position of a live order within its side. */
  lemma Locate(h: Shape, id: OrderId) returns (k: nat)
    requires h.Consistent() && id in h.orders
    ensures var o := h.orders[id];
      o.side != NoSide && k < |h.book.Of(o.side)| && h.book.Of(o.side)[k].id == id && h.Backs(h.book.Of(o.side)[k])
  {
    assert RestsIn(h.book, id);
    if Has(h.book.bids, id) {
      k := IndexOf(h.book.bids, id);
      assert h.Backs(h.book.bids[k]);
    } else {
      k := IndexOf(h.book.asks, id);
      assert h.Backs(h.book.asks[k]);
    }
  }

  lemma WithoutLevelConsistent(h: Shape, side: Side, k: nat)
    requires h.Consistent() && side != NoSide && AloneAt(h.book.Of(side), k)
    ensures LevelClosed(h.links, h.book.Of(side)[k].price)
    ensures h.WithoutLevel(side, k).Consistent()
  {
    DropLevelDescribes(h.book, side, k, h.links);
    RemoveKeepsWellFormed(h.book, side, k);
    var g := h.WithoutLevel(side, k);
    LinksAt(side, h.book.Of(side), k, h.links);
    BookClosed(g.links, g.book);
    forall e {:trigger g.Backs(e)} | InBook(g.book, e) ensures g.Backs(e) {
      WithoutEntry(h.book, side, k, e);
      assert h.Backs(e);
    }
  }

  /** What is left in the book was there before, under another id, and at another price if k was alone at its. */
  lemma WithoutEntry(b: Book, side: Side, k: nat, e: Entry)
    requires WellFormed(b) && side != NoSide && k < |b.Of(side)|
    requires InBook(b.With(side, RemoveAt(b.Of(side), k)), e)
    ensures InBook(b, e) && e.id != b.Of(side)[k].id
    ensures AloneAt(b.Of(side), k) ==> e.price != b.Of(side)[k].price
  {
    var s, u := b.Of(side), b.Of(Opposite(side));
    var t := RemoveAt(s, k);
    RemovedEntry(b, side, k, e);
    if e in t {
      var j :| 0 <= j < |t| && t[j] == e;
      var i := if j < k then j else j + 1;
      if AloneAt(s, k) { AlonePrice(side, s, k, i); }
    } else {
      var j :| 0 <= j < |u| && u[j] == e;
      OtherSide(b, side, k, j);
    }
  }

  lemma WithoutLevelOrders(h: Shape, side: Side, k: nat)
    requires h.Consistent() && side != NoSide && AloneAt(h.book.Of(side), k)
    requires OrdersMirrored(h.orders, h.links, h.orderNodes)
      && FirstsMirrored(h.levels, h.orders, h.links, h.levelNodes)
    requires QtysMirrored(h.orders, h.book, h.orderNodes)
    requires LevelClosed(h.links, h.book.Of(side)[k].price) && h.WithoutLevel(side, k).Consistent()
    ensures var g := h.WithoutLevel(side, k);
      OrdersMirrored(g.orders, g.links, g.orderNodes) && FirstsMirrored(g.levels, g.orders, g.links, g.levelNodes)
        && QtysMirrored(g.orders, g.book, g.orderNodes)
  {
    var g := h.WithoutLevel(side, k);
    forall id {:trigger OrderInRing(g.orders, g.links, g.orderNodes, id)} | id in g.orders
      ensures OrderInRing(g.orders, g.links, g.orderNodes, id)
    {
      assert OrderInRing(h.orders, h.links, h.orderNodes, id);
      assert OrderClosed(g.links, id);
    }
    forall p {:trigger StartsWith(g.levels, g.orders, g.links, g.levelNodes, p)} | p in g.levels
      ensures StartsWith(g.levels, g.orders, g.links, g.levelNodes, p)
    {
      assert StartsWith(h.levels, h.orders, h.links, h.levelNodes, p);
      assert LevelClosed(g.links, p);
    }
    forall e {:trigger InBook(g.book, e)} | InBook(g.book, e)
      ensures e.id in g.orders && g.orders[e.id] in g.orderNodes && HasQty(g.orders, e)
    {
      assert g.Backs(e);
      WithoutEntry(h.book, side, k, e);
      assert InBook(h.book, e);
    }
  }

  /** The ring survives without the level at this price: dropping it leaves no link to it. */
  ghost predicate Droppable(levels: map<Price, LevelNode>, r: Links, price: Price) {
    && price in levels && levels.Keys == r.first.Keys && LevelClosed(r, price)
    && r.nextLevel[price] in r.prevLevel && r.prevLevel[r.nextLevel[price]] == price
    && price !in DropLevel(r, price).first
    && forall p {:trigger LevelClosed(DropLevel(r, price), p)} :: p in levels && p != price ==>
         LevelClosed(DropLevel(r, price), p)
  }

  lemma LoneLevelGone(levels: map<Price, LevelNode>, r: Links, price: Price, nodes: set<LevelNode>)
    requires LevelsMirrored(levels, r, nodes) && Droppable(levels, r, price) && r.nextLevel[price] == price
    ensures LevelsMirrored(levels - {price}, DropLevel(r, price), nodes)
  {
    var rest, q := levels - {price}, DropLevel(r, price);
    forall p {:trigger InRing(rest, q, nodes, p)} | p in rest ensures InRing(rest, q, nodes, p) {
      assert InRing(levels, r, nodes, p);
      assert LevelClosed(q, p);
    }
  }

  lemma DroppableAt(h: Shape, side: Side, k: nat)
    requires h.Consistent() && side != NoSide && AloneAt(h.book.Of(side), k)
    ensures Droppable(h.levels, h.links, h.book.Of(side)[k].price)
  {
    var s := h.book.Of(side);
    WithoutLevelConsistent(h, side, k);
    assert h.Backs(s[k]);
    assert LevelLinkAt(h.links, s, k);
    var g := h.WithoutLevel(side, k);
    forall p {:trigger LevelClosed(g.links, p)} | p in h.levels && p != s[k].price ensures LevelClosed(g.links, p) {
      assert p in g.levels;
    }
  }

  lemma FirstAfterRemove(side: Side, s: seq<Entry>, k: nat)
    requires SideOk(side, s) && AloneAt(s, k)
    ensures RemoveAt(s, k) == [] <==> |s| == 1
    ensures |s| > 1 ==> RemoveAt(s, k)[0] == (if k == 0 then s[1] else s[0])
    ensures |s| > 1 ==> s[Succ(k, |s|)].price != s[k].price
    ensures k != 0 ==> s[0].price != s[k].price
  {
    if |s| > 1 { AlonePrice(side, s, k, Succ(k, |s|)); }
    if k != 0 { AlonePrice(side, s, k, 0); }
  }

  /** The heads once the lone level at position k is gone. */
  lemma TopWithoutLevel(h: Shape, side: Side, k: nat)
    requires h.Consistent() && side != NoSide && AloneAt(h.book.Of(side), k)
    requires LevelClosed(h.links, h.book.Of(side)[k].price)
    ensures var g, p := h.WithoutLevel(side, k), h.book.Of(side)[k].price;
      && p in h.levels && h.links.nextLevel[p] in h.levels
      && g.Top(side) == (if h.links.nextLevel[p] == p then null
                         else if h.Top(side) == h.levels[p] then h.levels[h.links.nextLevel[p]] else h.Top(side))
  {
    var s := h.book.Of(side);
    LinksAt(side, s, k, h.links);
    LinksAt(side, s, 0, h.links);
    LinksAt(side, s, Succ(k, |s|), h.links);
    TopDrop(h.levels, side, s, k);
  }

  lemma TopDrop(levels: map<Price, LevelNode>, side: Side, s: seq<Entry>, k: nat)
    requires SideOk(side, s) && AloneAt(s, k)
    requires s[0].price in levels && s[k].price in levels && s[Succ(k, |s|)].price in levels
    requires levels[s[0].price].price == s[0].price && levels[s[k].price].price == s[k].price
    ensures TopOf(levels - {s[k].price}, RemoveAt(s, k)) ==
      (if s[Succ(k, |s|)].price == s[k].price then null
       else if TopOf(levels, s) == levels[s[k].price] then levels[s[Succ(k, |s|)].price] else TopOf(levels, s))
  {
    FirstAfterRemove(side, s, k);
  }

  lemma TopElsewhere(h: Shape, side: Side, k: nat)
    requires h.Consistent() && side != NoSide && k < |h.book.Of(side)|
    requires LevelClosed(h.links, h.book.Of(side)[k].price)
    ensures h.WithoutLevel(side, k).Top(Opposite(side)) == h.Top(Opposite(side))
  {
    var u := h.book.Of(Opposite(side));
    if u != [] {
      OtherSide(h.book, side, k, 0);
    }
  }

  lemma TopWithoutOrder(h: Shape, side: Side, k: nat)
    requires h.Consistent() && side != NoSide && k < |h.book.Of(side)| && !AloneAt(h.book.Of(side), k)
    requires OrderClosed(h.links, h.book.Of(side)[k].id) && h.book.Of(side)[k].price in h.links.first
    ensures forall d :: h.WithoutOrder(side, k).Top(d) == h.Top(d)
  {
  }

  /** An order is its own predecessor exactly when it is alone in its level. */
  lemma AloneIffSelf(h: Shape, side: Side, k: nat)
    requires h.Consistent() && OrdersMirrored(h.orders, h.links, h.orderNodes) && side != NoSide
      && k < |h.book.Of(side)|
    ensures h.book.Of(side)[k].id in h.orders
    ensures h.orders[h.book.Of(side)[k].id].prev == h.orders[h.book.Of(side)[k].id] <==> AloneAt(h.book.Of(side), k)
  {
    var s := h.book.Of(side);
    LinksAt(side, s, k, h.links);
    assert h.Backs(s[k]);
    assert OrderInRing(h.orders, h.links, h.orderNodes, s[k].id);
    var j := PrevPos(s, k);
    if j != k {
      DistinctIds(side, s, j, k);
    }
    NextPrevPos(side, s, k, k);
  }

  /** The ring of this order survives without it. */
  ghost predicate Unlinkable(levels: map<Price, LevelNode>, orders: map<OrderId, OrderNode>, r: Links, price: Price,
      id: OrderId)
  {
    && id in orders && price in levels && OrderClosed(r, id) && price in r.first
    && orders.Keys == r.next.Keys && levels.Keys == r.first.Keys
    && var q := DropOrder(r, price, id);
       && q.next.Keys == orders.Keys - {id}
       && (forall x {:trigger OrderClosed(q, x)} :: x in orders && x != id ==> OrderClosed(q, x))
       && (forall p {:trigger LevelClosed(q, p)} :: p in levels ==> LevelClosed(q, p))
  }

  lemma UnlinkableAt(h: Shape, side: Side, k: nat)
    requires h.Consistent() && side != NoSide && k < |h.book.Of(side)| && !AloneAt(h.book.Of(side), k)
    ensures var e := h.book.Of(side)[k]; Unlinkable(h.levels, h.orders, h.links, e.price, e.id)
  {
    WithoutOrderConsistent(h, side, k);
    var e, g := h.book.Of(side)[k], h.WithoutOrder(side, k);
    assert h.Backs(e);
    forall x {:trigger OrderClosed(g.links, x)} | x in h.orders && x != e.id ensures OrderClosed(g.links, x) {
      assert x in g.orders;
    }
  }

  lemma WithoutOrderRest(h: Shape, side: Side, k: nat)
    requires h.Consistent() && side != NoSide && k < |h.book.Of(side)| && !AloneAt(h.book.Of(side), k)
    requires OrderClosed(h.links, h.book.Of(side)[k].id) && h.book.Of(side)[k].price in h.links.first
    requires QtysMirrored(h.orders, h.book, h.orderNodes) && LevelsMirrored(h.levels, h.links, h.levelNodes)
    ensures var g := h.WithoutOrder(side, k);
      QtysMirrored(g.orders, g.book, g.orderNodes) && LevelsMirrored(g.levels, g.links, g.levelNodes)
  {
    var g := h.WithoutOrder(side, k);
    forall p {:trigger InRing(g.levels, g.links, g.levelNodes, p)} | p in g.levels
      ensures InRing(g.levels, g.links, g.levelNodes, p)
    {
      assert InRing(h.levels, h.links, h.levelNodes, p);
    }
    forall e {:trigger InBook(g.book, e)} | InBook(g.book, e)
      ensures e.id in g.orders && g.orders[e.id] in g.orderNodes && HasQty(g.orders, e)
    {
      WithoutEntry(h.book, side, k, e);
      assert InBook(h.book, e);
    }
  }

  lemma WithoutOrderConsistent(h: Shape, side: Side, k: nat)
    requires h.Consistent() && side != NoSide && k < |h.book.Of(side)| && !AloneAt(h.book.Of(side), k)
    ensures OrderClosed(h.links, h.book.Of(side)[k].id) && LevelClosed(h.links, h.book.Of(side)[k].price)
    ensures h.WithoutOrder(side, k).Consistent()
  {
    DropOrderDescribes(h.book, side, k, h.links);
    RemoveKeepsWellFormed(h.book, side, k);
    var g := h.WithoutOrder(side, k);
    BookClosed(g.links, g.book);
    forall e | InBook(g.book, e) ensures InBook(h.book, e) && g.Backs(e) {
      WithoutEntry(h.book, side, k, e);
      assert h.Backs(e);
    }
  }

  /** The rings of s can be walked from its best level. */
  ghost predicate Walkable(side: Side, s: seq<Entry>, levels: map<Price, LevelNode>, r: Links, nodes: set<LevelNode>)
    reads nodes`nextEntry, nodes`prevEntry
  {
    && SideOk(side, s) && Spells(r, s) && LevelsMirrored(levels, r, nodes)
    && forall k :: 0 <= k < |s| ==> s[k].price in levels
  }

  /** The level that follows the one starting at position i starts again at the front exactly after the last level. */
  lemma LevelStep(side: Side, s: seq<Entry>, r: Links, i: nat)
    requires SideOk(side, s) && Spells(r, s) && i < |s| && StartsLevel(s, i)
    ensures var j := Succ(LevelEnd(s, i), |s|);
      && j < |s| && StartsLevel(s, j) && (j == 0 <==> s[j].price == s[0].price) && (j != 0 ==> i < j)
      && s[i].price in r.nextLevel && s[i].price in r.prevLevel
      && r.nextLevel[s[i].price] == s[j].price && r.prevLevel[s[i].price] == s[Pred(i, |s|)].price
  {
    hide Spells;
    LinksAt(side, s, i, r);
    var e := LevelEnd(s, i);
    EndUnique(side, s, i, e);
    hide SideOk;
    if e + 1 < |s| && s[0].price == s[e + 1].price {
      SameLevel(side, s, 0, e, e + 1);
    }
  }

  /** One step along the level ring, from the level that starts at position i. */
  lemma NextLevel(side: Side, s: seq<Entry>, levels: map<Price, LevelNode>, r: Links, nodes: set<LevelNode>, i: nat)
    requires Walkable(side, s, levels, r, nodes) && i < |s| && StartsLevel(s, i)
    ensures var j := Succ(LevelEnd(s, i), |s|); var l := levels[s[i].price];
      && j < |s| && StartsLevel(s, j) && (j == 0 <==> l.nextEntry == levels[s[0].price]) && (j != 0 ==> i < j)
      && l.price == s[i].price && l.nextEntry == levels[s[j].price] && l.prevEntry == levels[s[Pred(i, |s|)].price]
  {
    LevelStep(side, s, r, i);
    hide SideOk;
    hide Spells;
    assert InRing(levels, r, nodes, s[i].price);
    assert InRing(levels, r, nodes, s[Succ(LevelEnd(s, i), |s|)].price) && InRing(levels, r, nodes, s[0].price);
  }

  /** The levels a new level at its insert position k goes between, as the links and nodes have them. */
  lemma InsertNeighbours(side: Side, s: seq<Entry>, levels: map<Price, LevelNode>, r: Links, nodes: set<LevelNode>,
      k: nat, price: Price)
    requires Walkable(side, s, levels, r, nodes) && s != [] && JoinsAt(side, s, price, k)
    requires k < |s| ==> StartsLevel(s, k)
    ensures TopOf(levels, s) == levels[s[0].price] && levels[s[0].price].price == s[0].price
    ensures Better(side, price, s[0].price) <==> k == 0
    ensures var q := s[if k < |s| then k else |s| - 1].price;
      && q in levels && levels[q].price == q && q in r.prevLevel && q in r.nextLevel
      && levels[q] in nodes && r.nextLevel[q] in r.prevLevel && r.prevLevel[r.nextLevel[q]] == q
      && (if k < |s| then r.prevLevel[q] == LevelBefore(s, k, price) && q == LevelAfter(s, k, price)
          else q == LevelBefore(s, k, price) && r.nextLevel[q] == LevelAfter(s, k, price))
  {
    assert InRing(levels, r, nodes, s[0].price);
    assert InRing(levels, r, nodes, s[if k < |s| then k else |s| - 1].price);
    assert LevelLinkAt(r, s, LevelEnd(s, if k < |s| then k else |s| - 1));
    if k < |s| {
      LevelStep(side, s, r, k);
    } else {
      LinksAt(side, s, |s| - 1, r);
    }
  }

  /** The first n orders are all at least as good as this price. */
  ghost predicate Passed(side: Side, s: seq<Entry>, price: Price, n: nat)
    requires n <= |s|
  {
    forall m :: 0 <= m < n ==> !Better(side, price, s[m].price)
  }

  lemma NonePassed(side: Side, s: seq<Entry>, price: Price)
    ensures Passed(side, s, price, 0)
  {
  }

  /** A new level goes before the first level it is better than. */
  lemma PassedFrom(side: Side, s: seq<Entry>, price: Price, k: nat)
    requires k <= |s| && Passed(side, s, price, k) && (k < |s| ==> Better(side, price, s[k].price))
    ensures InsertPos(side, s, price) == k
  {
    InsertPosUnique(side, s, price, k);
  }

  lemma LevelPassed(side: Side, s: seq<Entry>, i: nat, price: Price)
    requires SideOk(side, s) && i < |s| && StartsLevel(s, i) && Passed(side, s, price, i)
      && !Better(side, price, s[i].price)
    ensures Passed(side, s, price, LevelEnd(s, i) + 1)
  {
  }

  /** One step of a scan: a level at least as good as the price is passed, and the next one is looked at. */
  lemma PassLevel(side: Side, s: seq<Entry>, levels: map<Price, LevelNode>, r: Links, nodes: set<LevelNode>, i: nat,
      price: Price)
    requires Walkable(side, s, levels, r, nodes) && i < |s| && StartsLevel(s, i)
    requires Passed(side, s, price, i) && !Better(side, price, s[i].price)
    ensures var j := Succ(LevelEnd(s, i), |s|);
      && j < |s| && StartsLevel(s, j) && (j != 0 ==> i < j)
      && levels[s[i].price].nextEntry == levels[s[j].price] && levels[s[j].price].price == s[j].price
      && (j == 0 <==> levels[s[j].price] == levels[s[0].price])
      && Passed(side, s, price, if j == 0 then |s| else j)
  {
    hide Passed;
    hide StartsLevel;
    NextLevel(side, s, levels, r, nodes, i);
    NextLevel(side, s, levels, r, nodes, Succ(LevelEnd(s, i), |s|));
    LevelPassed(side, s, i, price);
  }

  lemma InsertBehind(side: Side, s: seq<Entry>, price: Price, k: nat, j: nat)
    requires SideOk(side, s) && JoinsAt(side, s, price, k) && j < |s| && s[j].price == price
    ensures j < k && s[k - 1].price == price && EndsLevel(s, k - 1)
  {
    assert k < j < |s| ==> Before(side, s[k], s[j]);
    assert j < k - 1 ==> Before(side, s[j], s[k - 1]);
  }

  /** Where an order goes that can be added: it is there in the new side, and nothing on its side has its id. */
  lemma FreshAt(b: Book, e: Entry)
    requires WellFormed(b) && CanAdd(b, e)
    ensures var s, t := b.Of(e.side), Added(b, e).Of(e.side); var k := InsertPos(e.side, s, e.price);
      && SideOk(e.side, s) && SideOk(e.side, t) && t == InsertAt(s, k, e)
      && forall i {:trigger s[i]} :: 0 <= i < |s| ==> Distinct(s[i], e)
  {
    hide WellFormed;
    var side, s, t := e.side, b.Of(e.side), Added(b, e).Of(e.side);
    var k := InsertPos(side, s, e.price);
    Sides(b, side);
    Sides(Added(b, e), side);
    forall i {:trigger s[i]} | 0 <= i < |s| ensures Distinct(s[i], e) {
      assert t[if i < k then i else i + 1] == s[i];
      DistinctIds(side, t, k, if i < k then i else i + 1);
    }
  }

  lemma PriceOnOwnSide(b: Book, e: Entry)
    requires WellFormed(b) && CanAdd(b, e) && PricedIn(b, e.price)
    ensures HasPrice(b.Of(e.side), e.price)
  {
    hide WellFormed;
    FreshAt(b, e);
    var u := b.Of(Opposite(e.side));
    if HasPrice(u, e.price) {
      var i :| 0 <= i < |u| && u[i].price == e.price;
      OtherSide(Added(b, e), e.side, InsertPos(e.side, b.Of(e.side), e.price), i);
    }
  }

  /** An order that can be added either joins the end of a level of its own side or opens a level of its own. */
  lemma JoinsOrOpens(b: Book, e: Entry)
    requires WellFormed(b) && CanAdd(b, e)
    ensures var s := b.Of(e.side); var k := InsertPos(e.side, s, e.price);
      if PricedIn(b, e.price) then JoinsLevel(e.side, s, k, e) else OpensLevel(e.side, s, k, e)
  {
    hide WellFormed;
    hide CanAdd;
    FreshAt(b, e);
    var side, s, t := e.side, b.Of(e.side), Added(b, e).Of(e.side);
    var k := InsertPos(side, s, e.price);
    if PricedIn(b, e.price) {
      PriceOnOwnSide(b, e);
      var j :| 0 <= j < |s| && s[j].price == e.price;
      InsertBehind(side, s, e.price, k, j);
    } else {
      assert forall i :: 0 <= i < |s| ==> HasPrice(s, s[i].price);
      if 0 < k < |s| {
        assert Before(side, t[k - 1], t[k]) && Before(side, t[k], t[k + 1]);
      }
    }
  }

  lemma WithLevelBacks(h: Shape, e: Entry, o: OrderNode, l: LevelNode, f: Entry)
    requires e.side != NoSide && !RestsIn(h.book, e.id) && e.price !in h.levels
    requires forall x {:trigger h.Backs(x)} :: InBook(h.book, x) ==> h.Backs(x)
    requires o.side == e.side && o.price == e.price && o.priority == e.priority && l.side == e.side
    requires InBook(Added(h.book, e), f)
    ensures h.WithLevel(e, o, l).Backs(f)
  {
    AddedEntry(h.book, e, f);
    assert f != e ==> h.Backs(f);
  }

  lemma LevelAddedLinks(b: Book, e: Entry, r: Links)
    requires WellFormed(b) && Describes(r, b) && CanAdd(b, e) && !PricedIn(b, e.price)
    ensures var s := b.Of(e.side); var k := InsertPos(e.side, s, e.price);
      var q := AddLevel(r, e.price, e.id, LevelBefore(s, k, e.price), LevelAfter(s, k, e.price));
      && Describes(q, Added(b, e)) && Closed(q)
      && q.next.Keys == r.next.Keys + {e.id} && q.first.Keys == r.first.Keys + {e.price}
  {
    var s := b.Of(e.side);
    var k := InsertPos(e.side, s, e.price);
    JoinsOrOpens(b, e);
    AddLevelDescribes(b, k, e, r);
    AddLevelKeys(b, k, e, r);
    BookClosed(AddLevel(r, e.price, e.id, LevelBefore(s, k, e.price), LevelAfter(s, k, e.price)), Added(b, e));
  }

  lemma SideLinks(h: Shape, side: Side)
    requires h.Consistent() && side != NoSide
    ensures SideOk(side, h.book.Of(side)) && Spells(h.links, h.book.Of(side))
  {
  }

  /** The node of the order at position k of a side was made for it. */
  lemma BackedAt(h: Shape, side: Side, k: nat)
    requires h.Consistent() && side != NoSide && k < |h.book.Of(side)|
    ensures var e := h.book.Of(side)[k]; h.Backs(e) && InBook(h.book, e) && h.orders[e.id].id == e.id
  {
    hide WellFormed;
    hide Describes;
    hide Closed;
    assert InBook(h.book, h.book.Of(side)[k]);
  }

  /** What the links say at position k of a side. */
  lemma LinksFrom(h: Shape, side: Side, k: nat)
    requires h.Consistent() && side != NoSide && k < |h.book.Of(side)|
    ensures var s, r := h.book.Of(side), h.links;
      && s[k].id in r.next && r.next[s[k].id] == s[NextPos(s, k)].id
      && s[k].id in r.prev && r.prev[s[k].id] == s[PrevPos(s, k)].id
      && s[k].price in r.first && r.first[s[k].price] == s[LevelStart(s, k)].id
      && s[k].price in r.nextLevel && r.nextLevel[s[k].price] == s[Succ(LevelEnd(s, k), |s|)].price
      && s[k].price in r.prevLevel && r.prevLevel[s[k].price] == s[Pred(LevelStart(s, k), |s|)].price
  {
    hide Shape.Consistent;
    hide SideOk;
    hide Spells;
    hide LevelStart;
    hide LevelEnd;
    SideLinks(h, side);
    LinksAt(side, h.book.Of(side), k, h.links);
  }

  /** Levels and prices with resting orders are the same thing. */
  lemma PricedLevels(h: Shape, p: Price)
    requires h.Consistent()
    ensures WellFormed(h.book) && (p in h.levels <==> PricedIn(h.book, p))
  {
  }

  lemma WithLevelConsistent(h: Shape, e: Entry, o: OrderNode, l: LevelNode)
    requires h.Consistent() && CanAdd(h.book, e) && e.price !in h.levels
    requires o.id == e.id && o.side == e.side && o.price == e.price && o.priority == e.priority
    requires l.price == e.price && l.side == e.side
    ensures h.WithLevel(e, o, l).Consistent()
  {
    hide WellFormed;
    hide Describes;
    hide Closed;
    hide AddLevel;
    hide PricedIn;
    hide Added;
    hide LevelBefore;
    hide LevelAfter;
    var g := h.WithLevel(e, o, l);
    PricedLevels(h, e.price);
    LevelAddedLinks(h.book, e, h.links);
    forall f {:trigger g.Backs(f)} | InBook(g.book, f) ensures g.Backs(f) {
      WithLevelBacks(h, e, o, l, f);
    }
  }

  lemma WithOrderConsistent(h: Shape, e: Entry, o: OrderNode)
    requires h.Consistent() && CanAdd(h.book, e) && e.price in h.levels
    requires o.id == e.id && o.side == e.side && o.price == e.price && o.priority == e.priority
    ensures LevelClosed(h.links, e.price) && OrderClosed(h.links, h.links.first[e.price])
    ensures h.WithOrder(e, o).Consistent()
  {
    var k := InsertPos(e.side, h.book.Of(e.side), e.price);
    assert PricedIn(h.book, e.price);
    JoinsOrOpens(h.book, e);
    AppendOrderDescribes(h.book, k, e, h.links);
    var g := h.WithOrder(e, o);
    BookClosed(g.links, g.book);
    assert h.Backs(h.book.Of(e.side)[k - 1]);
    hide WellFormed;
    hide Describes;
    hide JoinsLevel;
    forall f {:trigger g.Backs(f)} | InBook(g.book, f) ensures g.Backs(f) {
      AddedEntry(h.book, e, f);
      assert f != e ==> h.Backs(f);
    }
  }

  /** What the heap must still show after a new level is linked in, apart from the level ring. */
  lemma WithLevelRest(h: Shape, e: Entry, o: OrderNode, l: LevelNode)
    requires h.Consistent() && CanAdd(h.book, e) && e.price !in h.levels && h.WithLevel(e, o, l).Consistent()
    requires OrdersMirrored(h.orders, h.links, h.orderNodes)
      && FirstsMirrored(h.levels, h.orders, h.links, h.levelNodes)
    requires QtysMirrored(h.orders, h.book, h.orderNodes)
    requires e == EntryOf(o) && o.next == o && o.prev == o && l.price == e.price && l.first == o
    ensures var g := h.WithLevel(e, o, l);
      && OrdersMirrored(g.orders, g.links, g.orderNodes) && FirstsMirrored(g.levels, g.orders, g.links, g.levelNodes)
      && QtysMirrored(g.orders, g.book, g.orderNodes)
  {
    var g := h.WithLevel(e, o, l);
    assert !RestsIn(h.book, e.id);
    forall id {:trigger OrderInRing(g.orders, g.links, g.orderNodes, id)} | id in g.orders
      ensures OrderInRing(g.orders, g.links, g.orderNodes, id)
    {
      assert id != e.id ==> OrderInRing(h.orders, h.links, h.orderNodes, id);
      assert OrderClosed(g.links, id);
    }
    forall p {:trigger StartsWith(g.levels, g.orders, g.links, g.levelNodes, p)} | p in g.levels
      ensures StartsWith(g.levels, g.orders, g.links, g.levelNodes, p)
    {
      assert p != e.price ==> StartsWith(h.levels, h.orders, h.links, h.levelNodes, p);
    }
    forall f {:trigger InBook(g.book, f)} | InBook(g.book, f)
      ensures f.id in g.orders && g.orders[f.id] in g.orderNodes && HasQty(g.orders, f)
    {
      AddedEntry(h.book, e, f);
    }
  }

  /** The heads of the two sides after an addition. */
  lemma TopAdded(h: Shape, e: Entry, levels: map<Price, LevelNode>)
    requires h.Consistent() && CanAdd(h.book, e)
    requires forall p :: p in h.levels && p != e.price ==> p in levels && levels[p] == h.levels[p]
    requires e.price in levels && (e.price in h.levels ==> levels[e.price] == h.levels[e.price])
    ensures var k := InsertPos(e.side, h.book.Of(e.side), e.price);
      TopOf(levels, Added(h.book, e).Of(e.side)) == (if k == 0 then levels[e.price] else h.Top(e.side))
    ensures TopOf(levels, Added(h.book, e).Of(Opposite(e.side))) == h.Top(Opposite(e.side))
  {
    var s, u := h.book.Of(e.side), h.book.Of(Opposite(e.side));
    assert s != [] ==> h.Backs(s[0]);
    assert u != [] ==> h.Backs(u[0]);
  }

  lemma WithOrderRest(h: Shape, e: Entry, o: OrderNode)
    requires h.Consistent() && CanAdd(h.book, e) && e == EntryOf(o)
    requires LevelClosed(h.links, e.price) && OrderClosed(h.links, h.links.first[e.price])
    requires h.WithOrder(e, o).Consistent()
    requires FirstsMirrored(h.levels, h.orders, h.links, h.levelNodes)
    requires QtysMirrored(h.orders, h.book, h.orderNodes) && LevelsMirrored(h.levels, h.links, h.levelNodes)
    ensures var g := h.WithOrder(e, o);
      && FirstsMirrored(g.levels, g.orders, g.links, g.levelNodes)
      && QtysMirrored(g.orders, g.book, g.orderNodes) && LevelsMirrored(g.levels, g.links, g.levelNodes)
  {
    var g := h.WithOrder(e, o);
    assert !RestsIn(h.book, e.id);
    forall p {:trigger InRing(g.levels, g.links, g.levelNodes, p)} | p in g.levels
      ensures InRing(g.levels, g.links, g.levelNodes, p)
    {
      assert InRing(h.levels, h.links, h.levelNodes, p);
    }
    forall p {:trigger StartsWith(g.levels, g.orders, g.links, g.levelNodes, p)} | p in g.levels
      ensures StartsWith(g.levels, g.orders, g.links, g.levelNodes, p)
    {
      assert StartsWith(h.levels, h.orders, h.links, h.levelNodes, p);
    }
    forall f {:trigger InBook(g.book, f)} | InBook(g.book, f)
      ensures f.id in g.orders && g.orders[f.id] in g.orderNodes && HasQty(g.orders, f)
    {
      AddedEntry(h.book, e, f);
    }
  }

  /** The rings of a book do not depend on the quantities in it. */
  lemma SetQtyDescribes(r: Links, b: Book, side: Side, k: nat, qty: Qty)
    requires Describes(r, b) && side != NoSide && k < |b.Of(side)|
    ensures Describes(r, b.With(side, b.Of(side)[k := b.Of(side)[k].(qty := qty)]))
  {
    hide OrderLinkAt;
    hide LevelLinkAt;
    var s := b.Of(side);
    var t := s[k := s[k].(qty := qty)];
    var c := b.With(side, t);
    forall j | 0 <= j < |t| ensures OrderLinkAt(r, t, j) && LevelLinkAt(r, t, j) {
      assert OrderLinkAt(r, s, j) && LevelLinkAt(r, s, j);
      SetQtyLinksAt(r, s, k, qty, j);
    }
    forall id: OrderId ensures RestsIn(c, id) <==> RestsIn(b, id) {
      assert forall j :: 0 <= j < |s| ==> s[j].id == t[j].id;
    }
    forall p: Price ensures PricedIn(c, p) <==> PricedIn(b, p) {
      assert forall j :: 0 <= j < |s| ==> s[j].price == t[j].price;
    }
  }

  lemma SetQtyLinksAt(r: Links, s: seq<Entry>, k: nat, qty: Qty, j: nat)
    requires k < |s| && j < |s| && OrderLinkAt(r, s, j) && LevelLinkAt(r, s, j)
    ensures var t := s[k := s[k].(qty := qty)]; OrderLinkAt(r, t, j) && LevelLinkAt(r, t, j)
  {
  }

  /** A changed quantity leaves the structure consistent and the best levels where they were. */
  lemma SetQtyConsistent(h: Shape, side: Side, k: nat, qty: Qty)
    requires h.Consistent() && side != NoSide && k < |h.book.Of(side)| && qty > 0
    ensures var s := h.book.Of(side);
      var t := s[k := s[k].(qty := qty)];
      && h.(book := h.book.With(side, t)).Consistent()
      && h.(book := h.book.With(side, t)).Top(Buy) == h.Top(Buy)
      && h.(book := h.book.With(side, t)).Top(Sell) == h.Top(Sell)
  {
    hide WellFormed;
    hide Describes;
    hide Closed;
    var s := h.book.Of(side);
    var g := h.(book := h.book.With(side, s[k := s[k].(qty := qty)]));
    SetQtyKeepsWellFormed(h.book, side, k, qty);
    SetQtyDescribes(h.links, h.book, side, k, qty);
    forall f {:trigger g.Backs(f)} | InBook(g.book, f) ensures g.Backs(f) {
      SetQtyEntry(h.book, side, k, qty, f);
      assert h.Backs(if f.id == s[k].id then s[k] else f);
    }
  }

  lemma QueuePos(side: Side, s: seq<Entry>, k: nat, m: nat)
    requires SideOk(side, s) && k < |s| && StartsLevel(s, k) && k <= m <= LevelEnd(s, k)
    ensures s[m].price == s[k].price && LevelStart(s, m) == k
    ensures NextPos(s, m) == if m == LevelEnd(s, k) then k else m + 1
  {
  }

  /** The index slot of this price holds no level of another price. */
  ghost predicate Slots(b: Book, price: Price)
  {
    forall p {:trigger PricedIn(b, p)} :: PricedIn(b, p) && PriceToIndex(p) == PriceToIndex(price) ==>
      p == price
  }

  // --- A window of prices the index can tell apart -------------------------------------------------------------

  ghost predicate PricesFrom(b: Book, lo: int) {
    forall e {:trigger InBook(b, e)} :: InBook(b, e) ==> lo <= e.price < lo + ME_MAX_PRICE_LEVELS
  }

  lemma SlotsInWindow(b: Book, price: Price, lo: int)
    requires PricesFrom(b, lo) && lo <= price < lo + ME_MAX_PRICE_LEVELS
    ensures Slots(b, price)
  {
    forall p {:trigger PricedIn(b, p)} | PricedIn(b, p) && PriceToIndex(p) == PriceToIndex(price)
      ensures p == price
    {
      var e :| InBook(b, e) && e.price == p;
      SameSlot(p, price, lo);
    }
  }

  lemma SameSlot(p: Price, q: Price, lo: int)
    requires lo <= p < lo + ME_MAX_PRICE_LEVELS && lo <= q < lo + ME_MAX_PRICE_LEVELS
      && PriceToIndex(p) == PriceToIndex(q)
    ensures p == q
  {
  }
}
