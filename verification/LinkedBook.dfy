/**
 The linked book: two circular rings of price levels, a circular queue of orders per level and one price index, changed
 in place.  The exchange and the trading client keep their books in this structure and differ only in the scan that
 finds where a new level goes.
 */
module LinkedBooks {
  import opened Types
  import opened PriceTime
  import opened Rings
  import opened LinkedLevels

  // Which of the two level-insertion scans a book uses: the exchange's or the trading client's.
  datatype Scan = ExchangeScan | ClientScan

  class LinkedBook {
    const scan: Scan
    const priceIndex: array<LevelNode?>
    var bidHead: LevelNode?
    var askHead: LevelNode?
    ghost var shape: Shape

    ghost function Repr(): set<object>
      reads this
    {
      {this, priceIndex} + shape.orderNodes + shape.levelNodes
    }

    /** The heap is laid out as this shape says. */
    ghost predicate LaidOut(h: Shape)
      reads this`bidHead, this`askHead, priceIndex, h.orderNodes, h.levelNodes
    {
      && h.Consistent()
      && OrdersMirrored(h.orders, h.links, h.orderNodes)
      && FirstsMirrored(h.levels, h.orders, h.links, h.levelNodes)
      && QtysMirrored(h.orders, h.book, h.orderNodes)
      && LevelsMirrored(h.levels, h.links, h.levelNodes)
      && Indexed(priceIndex, h.levels)
      && bidHead == h.Top(Buy) && askHead == h.Top(Sell)
    }

    ghost predicate Valid()
      reads this, Repr()
    {
      LaidOut(shape)
    }

    constructor (scan: Scan)
      ensures Valid() && fresh(Repr())
      ensures shape.book == EMPTY_BOOK && shape.orders == map[] && shape.levels == map[] && this.scan == scan
    {
      this.scan := scan;
      priceIndex := new LevelNode?[ME_MAX_PRICE_LEVELS](_ => null);
      bidHead, askHead := null, null;
      shape := Shape(EMPTY_BOOK, NO_LINKS, map[], map[], {}, {});
      new;
      assert forall e :: !InBook(EMPTY_BOOK, e);
    }

    /** The level indexed for this price. */
    function GetOrdersAtPrice(price: Price): LevelNode?
      requires priceIndex.Length == ME_MAX_PRICE_LEVELS
      reads this, priceIndex
    {
      priceIndex[PriceToIndex(price)]
    }

    function Head(side: Side): LevelNode?
      reads this
    {
      if side == Buy then bidHead else askHead
    }

    method SetHead(side: Side, head: LevelNode?)
      modifies this`bidHead, this`askHead
      ensures bidHead == (if side == Buy then head else old(bidHead))
      ensures askHead == (if side == Buy then old(askHead) else head)
    {
      if side == Buy {
        bidHead := head;
      } else {
        askHead := head;
      }
    }

    /** Take a level out of its ring: its neighbours now point past it. */
    static method Detach(level: LevelNode, ghost levels: map<Price, LevelNode>, ghost r: Links,
        ghost nodes: set<LevelNode>)
      requires LevelsMirrored(levels, r, nodes) && Droppable(levels, r, level.price) && levels[level.price] == level
      modifies nodes`prevEntry, nodes`nextEntry
      ensures LevelsMirrored(levels - {level.price}, DropLevel(r, level.price), nodes)
    {
      ghost var rest, q := levels - {level.price}, DropLevel(r, level.price);
      assert InRing(levels, r, nodes, level.price);
      assert InRing(levels, r, nodes, r.nextLevel[level.price]) && InRing(levels, r, nodes, r.prevLevel[level.price]);
      level.prevEntry.nextEntry := level.nextEntry;
      level.nextEntry.prevEntry := level.prevEntry;
      level.prevEntry, level.nextEntry := null, null;
      forall p {:trigger InRing(rest, q, nodes, p)} | p in rest ensures InRing(rest, q, nodes, p) {
        assert old(InRing(levels, r, nodes, p));
        assert LevelClosed(q, p);
      }
    }

    /** Unlink the level at this price from its ring, its head and the index. */
    method RemoveOrdersAtPrice(side: Side, price: Price, ghost levels: map<Price, LevelNode>, ghost r: Links,
        ghost nodes: set<LevelNode>)
      requires LevelsMirrored(levels, r, nodes) && Droppable(levels, r, price) && Indexed(priceIndex, levels)
      modifies this`bidHead, this`askHead, priceIndex, nodes`prevEntry, nodes`nextEntry
      ensures LevelsMirrored(levels - {price}, DropLevel(r, price), nodes) && Indexed(priceIndex, levels - {price})
      ensures Head(side) == (if r.nextLevel[price] == price then null
                             else if old(Head(side)) == levels[price] then levels[r.nextLevel[price]]
                               else old(Head(side)))
      ensures side == Buy ==> askHead == old(askHead)
      ensures side != Buy ==> bidHead == old(bidHead)
    {
      var best := Head(side);
      var level := GetOrdersAtPrice(price);
      assert InRing(levels, r, nodes, price);
      if level.nextEntry == level {
        LoneLevelGone(levels, r, price, nodes);
        SetHead(side, null);
      } else {
        var next := level.nextEntry;
        Detach(level, levels, r, nodes);
        if level == best {
          SetHead(side, next);
        }
      }
      priceIndex[PriceToIndex(price)] := null;
    }

    /** Take an order out of a queue it shares: its neighbours now point past it. */
    static method Bypass(order: OrderNode, ghost levels: map<Price, LevelNode>, ghost orders: map<OrderId, OrderNode>,
        ghost r: Links, ghost nodes: set<OrderNode>)
      returns (orderAfter: OrderNode?)
      requires OrdersMirrored(orders, r, nodes) && order.prev != order
      requires Unlinkable(levels, orders, r, order.price, order.id) && orders[order.id] == order
      modifies nodes`prev, nodes`next
      ensures OrdersMirrored(orders - {order.id}, DropOrder(r, order.price, order.id), nodes)
      ensures r.next[order.id] in orders && orderAfter == orders[r.next[order.id]]
    {
      hide LevelClosed;
      ghost var rest, q := orders - {order.id}, DropOrder(r, order.price, order.id);
      assert OrderInRing(orders, r, nodes, order.id);
      assert OrderInRing(orders, r, nodes, r.next[order.id]) && OrderInRing(orders, r, nodes, r.prev[order.id]);
      var orderBefore := order.prev;
      orderAfter := order.next;
      orderBefore.next := orderAfter;
      orderAfter.prev := orderBefore;
      order.prev, order.next := null, null;
      forall id {:trigger OrderInRing(rest, q, nodes, id)} | id in rest ensures OrderInRing(rest, q, nodes, id) {
        assert old(OrderInRing(orders, r, nodes, id));
        assert OrderClosed(q, id);
      }
    }

    /** Take an order out of a ring it shares: its neighbours, and the level if it came first, now point past it. */
    static method Unlink(order: OrderNode, level: LevelNode, ghost levels: map<Price, LevelNode>,
        ghost orders: map<OrderId, OrderNode>, ghost r: Links, ghost nodes: set<OrderNode>,
          ghost levelNodes: set<LevelNode>)
      requires OrdersMirrored(orders, r, nodes) && FirstsMirrored(levels, orders, r, levelNodes) && order.prev != order
      requires Unlinkable(levels, orders, r, order.price, order.id)
      requires orders[order.id] == order && levels[order.price] == level
      modifies nodes`prev, nodes`next, {level}`first
      ensures OrdersMirrored(orders - {order.id}, DropOrder(r, order.price, order.id), nodes)
      ensures FirstsMirrored(levels, orders - {order.id}, DropOrder(r, order.price, order.id), levelNodes)
    {
      ghost var rest, q := orders - {order.id}, DropOrder(r, order.price, order.id);
      assert StartsWith(levels, orders, r, levelNodes, order.price)
        && OrderInRing(orders, r, nodes, r.first[order.price]);
      var orderAfter := Bypass(order, levels, orders, r, nodes);
      if level.first == order {
        level.first := orderAfter;
      }
      forall p {:trigger StartsWith(levels, rest, q, levelNodes, p)} | p in levels
        ensures StartsWith(levels, rest, q, levelNodes, p)
      {
        assert old(StartsWith(levels, orders, r, levelNodes, p));
        assert LevelClosed(q, p);
      }
    }

    lemma LastOrderGoes(side: Side, k: nat)
      requires Valid() && side != NoSide && AloneAt(shape.book.Of(side), k)
      ensures var h, p := shape, shape.book.Of(side)[k].price;
        && Droppable(h.levels, h.links, p)
        && var g := h.WithoutLevel(side, k);
           && g.Consistent() && g.links == DropLevel(h.links, p) && g.levels == h.levels - {p}
           && OrdersMirrored(g.orders, g.links, g.orderNodes)
           && FirstsMirrored(g.levels, g.orders, g.links, g.levelNodes) && QtysMirrored(g.orders, g.book, g.orderNodes)
           && g.Top(side) == (if h.links.nextLevel[p] == p then null
                              else if h.Top(side) == h.levels[p] then h.levels[h.links.nextLevel[p]] else h.Top(side))
           && g.Top(Opposite(side)) == h.Top(Opposite(side))
    {
      DroppableAt(shape, side, k);
      WithoutLevelConsistent(shape, side, k);
      WithoutLevelOrders(shape, side, k);
      TopWithoutLevel(shape, side, k);
      TopElsewhere(shape, side, k);
    }

    lemma SharedOrderGoes(side: Side, k: nat)
      requires Valid() && side != NoSide && k < |shape.book.Of(side)| && !AloneAt(shape.book.Of(side), k)
      ensures var h, e := shape, shape.book.Of(side)[k];
        && Unlinkable(h.levels, h.orders, h.links, e.price, e.id)
        && var g := h.WithoutOrder(side, k);
           && g.Consistent() && g.links == DropOrder(h.links, e.price, e.id) && g.orders == h.orders - {e.id}
           && QtysMirrored(g.orders, g.book, g.orderNodes) && LevelsMirrored(g.levels, g.links, g.levelNodes)
           && g.Top(Buy) == h.Top(Buy) && g.Top(Sell) == h.Top(Sell)
    {
      UnlinkableAt(shape, side, k);
      WithoutOrderConsistent(shape, side, k);
      WithoutOrderRest(shape, side, k);
      TopWithoutOrder(shape, side, k);
    }

    /** Where a live order rests, and whether it is alone there. */
    lemma Find(order: OrderNode) returns (k: nat)
      requires Valid() && order.id in shape.orders && shape.orders[order.id] == order
      ensures var s := shape.book.Of(order.side);
        && order.side != NoSide && k < |s| && s[k].id == order.id && s[k].price == order.price
        && Has(s, order.id) && IndexOf(s, order.id) == k
        && (order.prev == order <==> AloneAt(s, k))
        && order.price in shape.levels
        && order in shape.orderNodes && shape.levels[order.price] in shape.levelNodes
        && priceIndex.Length == ME_MAX_PRICE_LEVELS && GetOrdersAtPrice(order.price) == shape.levels[order.price]
    {
      k := Locate(shape, order.id);
      IndexOfAt(order.side, shape.book.Of(order.side), k);
      AloneIffSelf(shape, order.side, k);
      assert shape.Backs(shape.book.Of(order.side)[k]);
      assert InRing(shape.levels, shape.links, shape.levelNodes, order.price);
      assert OrderInRing(shape.orders, shape.links, shape.orderNodes, order.id);
    }

    /** The branch of RemoveOrder for an order alone at its price: its level goes with it. */
    method RemoveWithLevel(order: OrderNode, ghost k: nat)
      requires Valid() && order.side != NoSide && AloneAt(shape.book.Of(order.side), k)
      requires order.price == shape.book.Of(order.side)[k].price
      modifies Repr()
      ensures Valid() && LevelClosed(old(shape).links, order.price)
      ensures shape == old(shape).WithoutLevel(order.side, k)
    {
      hide OrdersMirrored;
      hide FirstsMirrored;
      hide QtysMirrored;
      hide LevelsMirrored;
      hide Indexed;
      hide Shape.Consistent;
      hide LevelClosed;
      hide Droppable;
      hide DropLevel;
      ghost var was := shape;
      LastOrderGoes(order.side, k);
      RemoveOrdersAtPrice(order.side, order.price, was.levels, was.links, was.levelNodes);
      shape := was.WithoutLevel(order.side, k);
    }

    /** The branch of RemoveOrder for an order that shares its level. */
    method RemoveFromLevel(order: OrderNode, ghost k: nat)
      requires Valid() && order.id in shape.orders && shape.orders[order.id] == order && order.side != NoSide
      requires k < |shape.book.Of(order.side)| && !AloneAt(shape.book.Of(order.side), k)
      requires shape.book.Of(order.side)[k].id == order.id && shape.book.Of(order.side)[k].price == order.price
      requires order.prev != order && order.price in shape.levels
      requires order in shape.orderNodes && shape.levels[order.price] in shape.levelNodes
      requires priceIndex.Length == ME_MAX_PRICE_LEVELS && GetOrdersAtPrice(order.price) == shape.levels[order.price]
      modifies Repr()
      ensures Valid() && OrderClosed(old(shape).links, order.id) && order.price in old(shape).links.first
      ensures shape == old(shape).WithoutOrder(order.side, k)
    {
      hide OrdersMirrored;
      hide FirstsMirrored;
      hide QtysMirrored;
      hide LevelsMirrored;
      hide Indexed;
      hide Shape.Consistent;
      hide LevelClosed;
      hide DropOrder;
      ghost var was := shape;
      var level := GetOrdersAtPrice(order.price);
      SharedOrderGoes(order.side, k);
      Unlink(order, level, was.levels, was.orders, was.links, was.orderNodes, was.levelNodes);
      shape := was.WithoutOrder(order.side, k);
      assert OrdersMirrored(shape.orders, shape.links, shape.orderNodes);
      assert FirstsMirrored(shape.levels, shape.orders, shape.links, shape.levelNodes);
      assert QtysMirrored(shape.orders, shape.book, shape.orderNodes);
      assert LevelsMirrored(shape.levels, shape.links, shape.levelNodes) && Indexed(priceIndex, shape.levels);
      assert bidHead == shape.Top(Buy) && askHead == shape.Top(Sell);
    }

    /** Remove a live order, and with it its level when it was the last one there. */
    method RemoveOrder(order: OrderNode)
      requires Valid() && order.id in shape.orders && shape.orders[order.id] == order
      modifies Repr()
      ensures Valid()
      ensures order.side != NoSide && Has(old(shape).book.Of(order.side), order.id)
      ensures shape.book == old(shape).book.With(order.side, Remove(old(shape).book.Of(order.side), order.id))
      ensures shape.orders == old(shape).orders - {order.id}
      ensures shape.orderNodes == old(shape).orderNodes && shape.levelNodes == old(shape).levelNodes
    {
      ghost var k := Find(order);
      hide Valid;
      if order.prev == order {
        RemoveWithLevel(order, k);
      } else {
        RemoveFromLevel(order, k);
      }
    }

    /** Link a new level in just before the one at price q. */
    static method SpliceBefore(level: LevelNode, target: LevelNode, ghost levels: map<Price, LevelNode>, ghost r: Links,
        ghost nodes: set<LevelNode>, ghost id: OrderId)
      requires LevelsMirrored(levels, r, nodes) && level !in nodes && level.price !in levels
      requires target.price in levels && target.price in r.nextLevel && levels[target.price] == target
        && target.price in r.prevLevel
      requires r.nextLevel[target.price] in r.prevLevel && r.prevLevel[r.nextLevel[target.price]] == target.price
      modifies {level}`nextEntry, {level}`prevEntry, nodes`nextEntry, nodes`prevEntry
      ensures var q := AddLevel(r, level.price, id, r.prevLevel[target.price], target.price);
        LevelsMirrored(levels[level.price := level], q, nodes + {level})
      ensures target.nextEntry != target
    {
      ghost var q := AddLevel(r, level.price, id, r.prevLevel[target.price], target.price);
      ghost var more, all := levels[level.price := level], nodes + {level};
      assert InRing(levels, r, nodes, target.price) && InRing(levels, r, nodes, r.prevLevel[target.price]);
      assert InRing(levels, r, nodes, r.nextLevel[target.price]);
      level.prevEntry, level.nextEntry := target.prevEntry, target;
      target.prevEntry.nextEntry := level;
      target.prevEntry := level;
      forall p {:trigger InRing(more, q, all, p)} | p in more ensures InRing(more, q, all, p) {
        assert p != level.price ==> old(InRing(levels, r, nodes, p));
      }
    }

    /** Link a new level in just after the one at price q. */
    static method SpliceAfter(level: LevelNode, target: LevelNode, ghost levels: map<Price, LevelNode>, ghost r: Links,
        ghost nodes: set<LevelNode>, ghost id: OrderId)
      requires LevelsMirrored(levels, r, nodes) && level !in nodes && level.price !in levels
      requires target.price in levels && levels[target.price] == target && target.price in r.nextLevel
      modifies {level}`nextEntry, {level}`prevEntry, nodes`nextEntry, nodes`prevEntry
      ensures var q := AddLevel(r, level.price, id, target.price, r.nextLevel[target.price]);
        LevelsMirrored(levels[level.price := level], q, nodes + {level})
    {
      ghost var q := AddLevel(r, level.price, id, target.price, r.nextLevel[target.price]);
      ghost var more, all := levels[level.price := level], nodes + {level};
      assert InRing(levels, r, nodes, target.price) && InRing(levels, r, nodes, r.nextLevel[target.price]);
      level.prevEntry, level.nextEntry := target, target.nextEntry;
      target.nextEntry.prevEntry := level;
      target.nextEntry := level;
      forall p {:trigger InRing(more, q, all, p)} | p in more ensures InRing(more, q, all, p) {
        assert p != level.price ==> old(InRing(levels, r, nodes, p));
      }
    }

    /** The exchange's scan: walk on while the levels are at least as aggressive as the new price. */
    static method ScanExchange(side: Side, price: Price, best: LevelNode, ghost s: seq<Entry>,
        ghost levels: map<Price, LevelNode>, ghost r: Links, ghost nodes: set<LevelNode>)
      returns (target: LevelNode, before: bool)
      requires Walkable(side, s, levels, r, nodes) && s != [] && best == levels[s[0].price]
      ensures var k := InsertPos(side, s, price);
        if before then k < |s| && StartsLevel(s, k) && target == levels[s[k].price]
        else k == |s| && target == levels[s[|s| - 1].price]
    {
      hide LevelsMirrored;
      hide Spells;
      hide SideOk;
      hide LevelEnd;
      hide Passed;
      target := best;
      ghost var i := 0;
      NextLevel(side, s, levels, r, nodes, i);
      NonePassed(side, s, price);
      while !Better(side, price, target.price) && target.nextEntry != best
        invariant i < |s| && StartsLevel(s, i) && target == levels[s[i].price] && target.price == s[i].price
        invariant Passed(side, s, price, i)
        decreases |s| - i
      {
        PassLevel(side, s, levels, r, nodes, i, price);
        target := target.nextEntry;
        i := Succ(LevelEnd(s, i), |s|);
      }
      before := Better(side, price, target.price);
      if before {
        PassedFrom(side, s, price, i);
      } else {
        PassLevel(side, s, levels, r, nodes, i, price);
        NextLevel(side, s, levels, r, nodes, i);
        PassedFrom(side, s, price, |s|);
      }
    }

    /** The trading client's scan, which tests each level twice and may come back to the best one. */
    static method ScanClient(side: Side, price: Price, best: LevelNode, ghost s: seq<Entry>,
        ghost levels: map<Price, LevelNode>, ghost r: Links, ghost nodes: set<LevelNode>)
      returns (target: LevelNode, before: bool)
      requires Walkable(side, s, levels, r, nodes) && s != [] && best == levels[s[0].price] && price !in levels
      ensures var k := InsertPos(side, s, price);
        if before then k < |s| && StartsLevel(s, k) && target == levels[s[k].price]
        else k == |s| && target == levels[s[|s| - 1].price]
    {
      hide LevelsMirrored;
      hide Spells;
      hide SideOk;
      hide LevelEnd;
      hide Passed;
      target := best;
      ghost var i := 0;
      NextLevel(side, s, levels, r, nodes, 0);
      NonePassed(side, s, price);
      var addAfter := Better(side, target.price, price);
      if addAfter {
        PassLevel(side, s, levels, r, nodes, 0, price);
        target := target.nextEntry;
        i := Succ(LevelEnd(s, 0), |s|);
        addAfter := Better(side, target.price, price);
      }
      ghost var moved := Better(side, s[0].price, price);
      while addAfter && target != best
        invariant i < |s| && StartsLevel(s, i) && target == levels[s[i].price] && target.price == s[i].price
        invariant Passed(side, s, price, if moved && i == 0 then |s| else i)
        invariant !addAfter ==> Better(side, price, s[i].price)
        invariant addAfter ==> moved
        invariant i == 0 <==> target == best
        decreases if i == 0 then 0 else |s| - i, addAfter
      {
        addAfter := Better(side, target.price, price);
        if addAfter {
          PassLevel(side, s, levels, r, nodes, i, price);
          target := target.nextEntry;
          i := Succ(LevelEnd(s, i), |s|);
        }
      }
      before := !addAfter;
      if addAfter {
        if target == best {
          NextLevel(side, s, levels, r, nodes, 0);
          target := best.prevEntry;
        }
        PassedFrom(side, s, price, |s|);
      } else {
        PassedFrom(side, s, price, i);
      }
    }

    /**
     Make a level the head of its side.  After the splice the client's write to the old best level changes nothing.
     */
    method NewBest(level: LevelNode, target: LevelNode, best: LevelNode)
      requires target.nextEntry != best
      modifies this`bidHead, this`askHead, {target}`nextEntry
      ensures bidHead == (if level.side == Buy then level else old(bidHead))
      ensures askHead == (if level.side == Buy then old(askHead) else level)
      ensures target.nextEntry == old(target.nextEntry)
    {
      if scan.ClientScan? {
        target.nextEntry := if target.nextEntry == best then level else target.nextEntry;
      }
      SetHead(level.side, level);
    }

    /** Link a new level into a ring that has levels, and make it the head when it is the most aggressive. */
    method InsertLevel(level: LevelNode, best: LevelNode, ghost s: seq<Entry>, ghost levels: map<Price, LevelNode>,
        ghost r: Links, ghost nodes: set<LevelNode>, ghost id: OrderId)
      requires Walkable(level.side, s, levels, r, nodes) && s != [] && best == TopOf(levels, s)
      requires level !in nodes && level.price !in levels
      modifies this`bidHead, this`askHead, {level}`nextEntry, {level}`prevEntry, nodes`nextEntry, nodes`prevEntry
      ensures var k := InsertPos(level.side, s, level.price);
        && LevelsMirrored(levels[level.price := level],
                          AddLevel(r, level.price, id, LevelBefore(s, k, level.price), LevelAfter(s, k, level.price)),
                          nodes + {level})
        && Head(level.side) == (if k == 0 then level else old(Head(level.side)))
      ensures if level.side == Buy then askHead == old(askHead) else bidHead == old(bidHead)
    {
      hide AddLevel;
      ghost var k := InsertPos(level.side, s, level.price);
      var target, before;
      if scan.ExchangeScan? {
        target, before := ScanExchange(level.side, level.price, best, s, levels, r, nodes);
      } else {
        target, before := ScanClient(level.side, level.price, best, s, levels, r, nodes);
      }
      InsertNeighbours(level.side, s, levels, r, nodes, k, level.price);
      hide LevelsMirrored;
      hide SideOk;
      hide Spells;
      hide StartsLevel;
      hide JoinsAt;
      if before {
        SpliceBefore(level, target, levels, r, nodes, id);
        if Better(level.side, level.price, best.price) {
          NewBest(level, target, best);
        }
      } else {
        SpliceAfter(level, target, levels, r, nodes, id);
      }
    }

    /** Put a new level into the index and into the ring of its side. */
    method AddOrdersAtPrice(level: LevelNode, ghost s: seq<Entry>, ghost levels: map<Price, LevelNode>,
        ghost r: Links, ghost nodes: set<LevelNode>, ghost id: OrderId)
      requires Walkable(level.side, s, levels, r, nodes) && Head(level.side) == TopOf(levels, s)
      requires level !in nodes && level.price !in levels && Indexed(priceIndex, levels)
      requires forall p :: p in levels ==> PriceToIndex(p) != PriceToIndex(level.price)
      modifies this`bidHead, this`askHead, priceIndex, {level}`nextEntry, {level}`prevEntry, nodes`nextEntry,
        nodes`prevEntry
      ensures Indexed(priceIndex, levels[level.price := level])
      ensures var k := InsertPos(level.side, s, level.price);
        && LevelsMirrored(levels[level.price := level],
                          AddLevel(r, level.price, id, LevelBefore(s, k, level.price), LevelAfter(s, k, level.price)),
                          nodes + {level})
        && Head(level.side) == (if k == 0 then level else old(Head(level.side)))
      ensures if level.side == Buy then askHead == old(askHead) else bidHead == old(bidHead)
    {
      priceIndex[PriceToIndex(level.price)] := level;
      assert Indexed(priceIndex, levels[level.price := level]);
      hide Indexed;
      hide AddLevel;
      var best := Head(level.side);
      if best == null {
        SetHead(level.side, level);
        level.prevEntry, level.nextEntry := level, level;
        FirstLevelLinked(level, levels, r, nodes, id);
      } else {
        InsertLevel(level, best, s, levels, r, nodes, id);
      }
    }

    static lemma FirstLevelLinked(level: LevelNode, levels: map<Price, LevelNode>, r: Links, nodes: set<LevelNode>,
        id: OrderId)
      requires LevelsMirrored(levels, r, nodes) && level !in nodes && level.price !in levels
      requires level.prevEntry == level && level.nextEntry == level
      ensures LevelsMirrored(levels[level.price := level], AddLevel(r, level.price, id, level.price, level.price),
        nodes + {level})
    {
      var q := AddLevel(r, level.price, id, level.price, level.price);
      var more, all := levels[level.price := level], nodes + {level};
      forall p {:trigger InRing(more, q, all, p)} | p in more ensures InRing(more, q, all, p) {
        assert p != level.price ==> InRing(levels, r, nodes, p);
      }
    }

    lemma CanOpenLevel(e: Entry, o: OrderNode, l: LevelNode)
      requires Valid() && CanAdd(shape.book, e) && e.price !in shape.levels && e == EntryOf(o)
      requires o.next == o && o.prev == o && l.price == e.price && l.side == e.side && l.first == o
      ensures var h, g, s := shape, shape.WithLevel(e, o, l), shape.book.Of(e.side);
        && g.Consistent() && g.levels == h.levels[e.price := l] && g.levelNodes == h.levelNodes + {l}
        && (var k := InsertPos(e.side, s, e.price);
           && g.links == AddLevel(h.links, e.price, e.id, LevelBefore(s, k, e.price), LevelAfter(s, k, e.price))
           && g.Top(e.side) == (if k == 0 then l else h.Top(e.side))
           && g.Top(Opposite(e.side)) == h.Top(Opposite(e.side)))
        && Walkable(e.side, s, h.levels, h.links, h.levelNodes) && e.side != NoSide
        && OrdersMirrored(g.orders, g.links, g.orderNodes) && FirstsMirrored(g.levels, g.orders, g.links, g.levelNodes)
        && QtysMirrored(g.orders, g.book, g.orderNodes)
    {
      WithLevelConsistent(shape, e, o, l);
      TopAdded(shape, e, shape.levels[e.price := l]);
      Sides(shape.book, e.side);
      WithLevelRest(shape, e, o, l);
      forall k | 0 <= k < |shape.book.Of(e.side)| ensures shape.book.Of(e.side)[k].price in shape.levels {
        assert shape.Backs(shape.book.Of(e.side)[k]);
      }
    }

    /** The branch of AddOrder for a price nothing rests at: the order starts a level of its own. */
    method OpenLevel(order: OrderNode, level: LevelNode)
      requires Valid() && CanAdd(shape.book, EntryOf(order)) && order !in shape.orderNodes && level !in shape.levelNodes
      requires order.next == order && order.prev == order && level.first == order
      requires level.price == order.price && level.side == order.side
      requires order.price !in shape.levels
      requires forall p :: p in shape.levels ==> PriceToIndex(p) != PriceToIndex(order.price)
      modifies Repr(), level
      ensures Valid() && shape == old(shape).WithLevel(EntryOf(order), order, level)
    {
      hide OrdersMirrored;
      hide FirstsMirrored;
      hide QtysMirrored;
      hide LevelsMirrored;
      hide Indexed;
      hide Walkable;
      hide Shape.Consistent;
      hide CanAdd;
      hide AddLevel;
      ghost var was, e, s := shape, EntryOf(order), shape.book.Of(order.side);
      CanOpenLevel(e, order, level);
      AddOrdersAtPrice(level, s, was.levels, was.links, was.levelNodes, order.id);
      shape := was.WithLevel(e, order, level);
    }

    /** The order is the last of this level's queue. */
    static ghost predicate QueuedBehind(level: LevelNode, order: OrderNode)
      reads level`first, order`next, if level.first == null then {} else {level.first as object}
    {
      level.first != null && level.first.prev == order && order.next == level.first
    }

    /** Link an order in behind the last one of a level. */
    static method LinkLast(order: OrderNode, level: LevelNode, ghost levels: map<Price, LevelNode>,
        ghost orders: map<OrderId, OrderNode>, ghost r: Links, ghost nodes: set<OrderNode>,
        ghost levelNodes: set<LevelNode>)
      requires OrdersMirrored(orders, r, nodes) && FirstsMirrored(levels, orders, r, levelNodes)
      requires order !in nodes && order.id !in orders
      requires level.price in levels && levels[level.price] == level
      requires LevelClosed(r, level.price) && OrderClosed(r, r.first[level.price])
      modifies nodes`next, nodes`prev, {order}`next, {order}`prev
      ensures OrdersMirrored(orders[order.id := order], AppendOrder(r, level.price, order.id), nodes + {order})
      ensures QueuedBehind(level, order)
    {
      ghost var p := level.price;
      ghost var more, q, all := orders[order.id := order], AppendOrder(r, p, order.id), nodes + {order};
      assert StartsWith(levels, orders, r, levelNodes, p);
      assert OrderInRing(orders, r, nodes, r.first[p]);
      assert OrderInRing(orders, r, nodes, r.prev[r.first[p]]);
      var first := level.first;
      first.prev.next := order;
      order.prev, order.next := first.prev, first;
      first.prev := order;
      forall id {:trigger OrderInRing(more, q, all, id)} | id in more ensures OrderInRing(more, q, all, id) {
        assert id != order.id ==> old(OrderInRing(orders, r, nodes, id));
      }
    }

    lemma LevelKnown(p: Price)
      requires Valid() && p in shape.levels
      ensures LevelClosed(shape.links, p) && OrderClosed(shape.links, shape.links.first[p])
      ensures shape.levels[p].price == p
    {
    }

    /** However the heap is laid out, the last order of an indexed level is of that level's price. */
    lemma TailPriced(h: Shape, level: LevelNode)
      requires LaidOut(h) && priceIndex[PriceToIndex(level.price)] == level
      ensures level.first != null && level.first.prev != null && level.first.prev.price == level.price
    {
      hide WellFormed;
      hide SideOk;
      hide Spells;
      hide Describes;
      hide QtysMirrored;
      hide LevelsMirrored;
      var p := level.price;
      PricedLevels(h, p);
      var side := if HasPrice(h.book.bids, p) then Buy else Sell;
      var s := h.book.Of(side);
      var j :| 0 <= j < |s| && s[j].price == p;
      SideLinks(h, side);
      var k := LevelStart(s, j);
      LinksAt(side, s, k, h.links);
      assert StartsWith(h.levels, h.orders, h.links, h.levelNodes, p);
      assert OrderInRing(h.orders, h.links, h.orderNodes, s[k].id);
      assert InBook(h.book, s[LevelEnd(s, k)]) && h.Backs(s[LevelEnd(s, k)]);
    }

    /** An order in the queue of an indexed level of another price: the heap is laid out as no shape says. */
    lemma Misfiled(order: OrderNode, level: LevelNode)
      requires priceIndex.Length == ME_MAX_PRICE_LEVELS && GetOrdersAtPrice(level.price) == level
      requires QueuedBehind(level, order) && level.price != order.price
      ensures forall h: Shape :: !LaidOut(h)
    {
      hide LaidOut;
      forall h: Shape ensures !LaidOut(h) {
        if LaidOut(h) { TailPriced(h, level); }
      }
    }

    /** Levels in the index that no head leads to: the heap is laid out as no shape says. */
    lemma Headless(i: nat)
      requires bidHead == null && askHead == null && i < priceIndex.Length && priceIndex[i] != null
      ensures forall h: Shape :: !LaidOut(h)
    {
      hide LaidOut;
      forall h: Shape ensures !LaidOut(h) {
        if LaidOut(h) { HeadlessEmpty(h); }
      }
    }

    lemma HeadlessEmpty(h: Shape)
      requires LaidOut(h) && bidHead == null && askHead == null
      ensures forall i :: 0 <= i < priceIndex.Length ==> priceIndex[i] == null
    {
      hide WellFormed;
      hide Describes;
      forall p ensures p !in h.levels {
        PricedLevels(h, p);
        if h.book.bids != [] { PricedLevels(h, h.book.bids[0].price); }
        if h.book.asks != [] { PricedLevels(h, h.book.asks[0].price); }
      }
    }

    lemma TailLinked(level: LevelNode)
      requires Valid() && level.price in shape.levels && shape.levels[level.price] == level
      ensures level.first != null && level.first.prev in shape.orderNodes
    {
      assert StartsWith(shape.levels, shape.orders, shape.links, shape.levelNodes, level.price);
      assert OrderInRing(shape.orders, shape.links, shape.orderNodes, shape.links.first[level.price]);
      var id := shape.links.prev[shape.links.first[level.price]];
      assert OrderInRing(shape.orders, shape.links, shape.orderNodes, id);
    }

    lemma CanJoinLevel(e: Entry, o: OrderNode)
      requires Valid() && CanAdd(shape.book, e) && e.price in shape.levels && e == EntryOf(o)
      ensures e.id !in shape.orders && LevelClosed(shape.links, e.price)
        && OrderClosed(shape.links, shape.links.first[e.price])
      ensures var h, g := shape, shape.WithOrder(e, o);
        && g.Consistent() && g.links == AppendOrder(h.links, e.price, e.id)
        && FirstsMirrored(g.levels, g.orders, g.links, g.levelNodes)
        && QtysMirrored(g.orders, g.book, g.orderNodes) && LevelsMirrored(g.levels, g.links, g.levelNodes)
        && g.Top(Buy) == h.Top(Buy) && g.Top(Sell) == h.Top(Sell)
    {
      assert !RestsIn(shape.book, e.id);
      WithOrderConsistent(shape, e, o);
      WithOrderRest(shape, e, o);
      TopAdded(shape, e, shape.levels);
      JoinsOrOpens(shape.book, e);
      assert PricedIn(shape.book, e.price);
    }

    static lemma InSlot(index: array<LevelNode?>, levels: map<Price, LevelNode>, level: LevelNode)
      requires Indexed(index, levels) && level.price in levels && levels[level.price] == level
      ensures index.Length == ME_MAX_PRICE_LEVELS && index[PriceToIndex(level.price)] == level
    {
    }

    /** Link an order in behind the last one of a level of this book, and leave everything else as it was. */
    method LinkBehind(order: OrderNode, level: LevelNode)
      requires Valid() && CanAdd(shape.book, EntryOf(order)) && order !in shape.orderNodes
      requires level.price in shape.levels && level == shape.levels[level.price]
      modifies shape.orderNodes`next, shape.orderNodes`prev, {order}`next, {order}`prev
      ensures QueuedBehind(level, order)
      ensures LevelClosed(shape.links, level.price) && OrderClosed(shape.links, shape.links.first[level.price])
      ensures Indexed(priceIndex, shape.levels) && bidHead == shape.Top(Buy) && askHead == shape.Top(Sell)
      ensures level.price == order.price ==>
        var g := shape.WithOrder(EntryOf(order), order);
        && g.Consistent() && OrdersMirrored(g.orders, g.links, g.orderNodes)
        && FirstsMirrored(g.levels, g.orders, g.links, g.levelNodes)
        && QtysMirrored(g.orders, g.book, g.orderNodes) && LevelsMirrored(g.levels, g.links, g.levelNodes)
        && g.Top(Buy) == shape.Top(Buy) && g.Top(Sell) == shape.Top(Sell)
    {
      hide OrdersMirrored;
      hide FirstsMirrored;
      hide QtysMirrored;
      hide LevelsMirrored;
      hide Indexed;
      hide Shape.Consistent;
      hide CanAdd;
      hide AppendOrder;
      hide LevelClosed;
      hide OrderClosed;
      hide Added;
      hide QueuedBehind;
      LevelKnown(level.price);
      NewId(EntryOf(order));
      if level.price == order.price { CanJoinLevel(EntryOf(order), order); }
      LinkLast(order, level, shape.levels, shape.orders, shape.links, shape.orderNodes, shape.levelNodes);
    }

    /**
     The branch of AddOrder for an index slot that holds a level: the order joins the end of that level's queue, whether
     or not the level is of its price.
     */
    method JoinLevel(order: OrderNode, level: LevelNode)
      requires Valid() && CanAdd(shape.book, EntryOf(order)) && order !in shape.orderNodes
      requires level.price in shape.levels && level == shape.levels[level.price]
      modifies Repr(), {order}`next, {order}`prev
      ensures LevelClosed(old(shape).links, level.price)
      ensures OrderClosed(old(shape).links, old(shape).links.first[level.price])
      ensures level.price == order.price ==> Valid() && shape == old(shape).WithOrder(EntryOf(order), order)
      ensures level.price != order.price ==>
        !Valid() && (forall h: Shape :: !LaidOut(h)) && shape == old(shape) && QueuedBehind(level, order)
    {
      hide OrdersMirrored;
      hide FirstsMirrored;
      hide QtysMirrored;
      hide LevelsMirrored;
      hide Indexed;
      hide Shape.Consistent;
      hide Shape.Top;
      hide CanAdd;
      hide AppendOrder;
      hide LevelClosed;
      hide OrderClosed;
      hide Added;
      hide QueuedBehind;
      ghost var was := shape;
      LinkBehind(order, level);
      if level.price != order.price {
        InSlot(priceIndex, shape.levels, level);
        Misfiled(order, level);
      } else {
        shape := was.WithOrder(EntryOf(order), order);
      }
    }

    /** An order on its own closes its ring on itself, in a new level that is not linked yet. */
    static method StartLevel(order: OrderNode) returns (level: LevelNode)
      modifies {order}`next, {order}`prev
      ensures order.next == order && order.prev == order && fresh(level)
      ensures level.first == order && level.price == order.price && level.side == order.side
    {
      order.next, order.prev := order, order;
      level := new LevelNode(order.side, order.price, order);
    }

    /** Which level the index gives for a price: its own, or one whose price shares its slot, or none. */
    lemma IndexHolds(price: Price)
      requires Valid()
      ensures priceIndex.Length == ME_MAX_PRICE_LEVELS
      ensures var level := GetOrdersAtPrice(price);
        && (level == null <==> forall p :: p in shape.levels ==> PriceToIndex(p) != PriceToIndex(price))
        && (level != null ==> level.price in shape.levels && shape.levels[level.price] == level
                              && (level.price == price <==> Slots(shape.book, price))
                              && (level.price != price ==> !PricedIn(shape.book, price)))
        && (level == null ==> Slots(shape.book, price))
    {
      forall p: Price ensures p in shape.levels <==> PricedIn(shape.book, p) {
        LevelsPriced(p);
      }
    }

    lemma EmptySlot(price: Price)
      requires Valid() && GetOrdersAtPrice(price) == null
      ensures price !in shape.levels
    {
    }

    /**
     Add an order at the end of the queue of its price.  If another price with resting orders shares its index slot, the
     order ends up at the end of that price's queue instead, and the structure is broken: no shape describes it.
     */
    method AddOrder(order: OrderNode)
      requires Valid() && CanAdd(shape.book, EntryOf(order)) && order !in shape.orderNodes
      modifies Repr(), {order}`next, {order}`prev
      ensures Valid() <==> Slots(old(shape).book, order.price)
      ensures Valid() ==>
        && shape.book == Added(old(shape).book, EntryOf(order))
        && shape.orders == old(shape).orders[order.id := order]
        && shape.orderNodes == old(shape).orderNodes + {order}
        && fresh(shape.levelNodes - old(shape).levelNodes)
        && shape.levels.Keys == old(shape).levels.Keys + {order.price}
      ensures !Valid() ==> (forall h: Shape :: !LaidOut(h)) && shape == old(shape)
      ensures !Valid() ==> exists p {:trigger old(shape).levels[p]} ::
        p in old(shape).levels && p != order.price && QueuedBehind(old(shape).levels[p], order)
    {
      hide Valid;
      hide CanAdd;
      hide Added;
      hide Slots;
      IndexHolds(order.price);
      var level := GetOrdersAtPrice(order.price);
      if level == null {
        var newLevel := StartLevel(order);
        OpenLevel(order, newLevel);
      } else {
        JoinLevel(order, level);
      }
    }

    lemma NewId(e: Entry)
      requires Valid() && CanAdd(shape.book, e)
      ensures e.id !in shape.orders
    {
      assert e.id in shape.links.next <==> RestsIn(shape.book, e.id);
    }

    /** What is in the book after a quantity changed is as the order nodes have it, but for that one quantity. */
    lemma QtyGoes(order: OrderNode, k: nat, qty: Qty)
      requires Valid() && order.id in shape.orders && shape.orders[order.id] == order && qty > 0
      requires order.side != NoSide && k < |shape.book.Of(order.side)| && shape.book.Of(order.side)[k].id == order.id
      ensures var now := shape.(book := shape.book.With(order.side,
        shape.book.Of(order.side)[k := shape.book.Of(order.side)[k].(qty := qty)]));
        && now.Consistent() && now.Top(Buy) == shape.Top(Buy) && now.Top(Sell) == shape.Top(Sell)
        && forall f {:trigger InBook(now.book, f)} :: InBook(now.book, f) ==>
             && f.id in now.orders && now.orders[f.id] in now.orderNodes
             && if now.orders[f.id] == order then f.qty == qty else HasQty(now.orders, f)
    {
      hide OrdersMirrored;
      hide FirstsMirrored;
      hide LevelsMirrored;
      hide Indexed;
      var s := shape.book.Of(order.side);
      var now := shape.(book := shape.book.With(order.side, s[k := s[k].(qty := qty)]));
      SetQtyConsistent(shape, order.side, k, qty);
      assert InBook(shape.book, s[k]);
      forall f {:trigger InBook(now.book, f)} | InBook(now.book, f)
        ensures f.id in now.orders && now.orders[f.id] in now.orderNodes
        ensures if now.orders[f.id] == order then f.qty == qty else HasQty(now.orders, f)
      {
        SetQtyEntry(shape.book, order.side, k, qty, f);
      }
    }

    /** A live order's quantity changes in place. */
    method ChangeQty(order: OrderNode, qty: Qty)
      requires Valid() && order.id in shape.orders && shape.orders[order.id] == order && qty > 0
      modifies this`shape, {order}`qty
      ensures Valid()
      ensures order.side != NoSide && Has(old(shape).book.Of(order.side), order.id)
      ensures order.qty == qty
      ensures shape == old(shape).(book := old(shape).book.With(order.side,
        SetQty(old(shape).book.Of(order.side), order.id, qty)))
    {
      hide OrdersMirrored;
      hide FirstsMirrored;
      hide LevelsMirrored;
      hide Indexed;
      hide Shape.Consistent;
      ghost var was, s := shape, shape.book.Of(order.side);
      ghost var k := Find(order);
      QtyGoes(order, k, qty);
      order.qty := qty;
      shape := was.(book := was.book.With(order.side, s[k := s[k].(qty := qty)]));
    }

    /** A live order is in the book with its present quantity. */
    lemma OrderRests(order: OrderNode)
      requires Valid() && order.id in shape.orders && shape.orders[order.id] == order
      ensures InBook(shape.book, EntryOf(order))
    {
      hide Valid;
      var k := Find(order);
      Navigate(order.side, k);
    }

    /** The index answers for a price correctly exactly if no other price with resting orders shares its slot. */
    lemma IndexExact(price: Price)
      requires Valid() && priceIndex.Length == ME_MAX_PRICE_LEVELS
      ensures GetOrdersAtPrice(price) == (if price in shape.levels then shape.levels[price] else null)
        <==> Slots(shape.book, price)
    {
      hide Valid;
      hide Slots;
      hide PricedIn;
      IndexHolds(price);
      LevelsPriced(price);
    }

    /**
     Forget both rings, as a client does on CLEAR.  The price index keeps its levels, so what is left is an empty book
     exactly if there was nothing to forget, and described by no shape otherwise.
     */
    method Clear()
      requires Valid()
      modifies this
      ensures Valid() <==> old(shape).book == EMPTY_BOOK
      ensures !Valid() ==> forall h: Shape :: !LaidOut(h)
      ensures bidHead == null && askHead == null && shape.book == EMPTY_BOOK && shape.orders == map[]
      ensures Repr() <= old(Repr())
    {
      EmptyLevels();
      ghost var was := shape;
      bidHead, askHead := null, null;
      shape := Shape(EMPTY_BOOK, NO_LINKS, map[], map[], {}, {});
      assert forall e :: !InBook(EMPTY_BOOK, e);
      if was.levels != map[] {
        ghost var i :| 0 <= i < priceIndex.Length && priceIndex[i] != null;
        Headless(i);
      }
    }

    lemma EmptyLevels()
      requires Valid()
      ensures shape.levels == map[] <==> shape.book == EMPTY_BOOK
      ensures shape.levels == map[] || exists i :: 0 <= i < priceIndex.Length && priceIndex[i] != null
    {
      hide Valid;
      var b := shape.book;
      if b != EMPTY_BOOK {
        var p := if b.bids != [] then b.bids[0].price else b.asks[0].price;
        assert PricedIn(b, p);
        LevelsPriced(p);
        SlotTaken(p);
      } else {
        forall p ensures p !in shape.levels {
          LevelsPriced(p);
        }
      }
    }

    lemma SlotTaken(p: Price)
      requires Valid() && p in shape.levels
      ensures PriceToIndex(p) < priceIndex.Length && priceIndex[PriceToIndex(p)] != null
    {
    }

    lemma OrderLinked(order: OrderNode)
      requires Valid() && order.id in shape.orders && shape.orders[order.id] == order
      ensures order in shape.orderNodes
    {
      assert OrderInRing(shape.orders, shape.links, shape.orderNodes, order.id);
    }

    lemma RestingLive(id: OrderId)
      requires Valid()
      ensures RestsIn(shape.book, id) <==> id in shape.orders
    {
      assert id in shape.links.next <==> RestsIn(shape.book, id);
    }

    lemma BookWellFormed()
      requires Valid()
      ensures WellFormed(shape.book)
    {
    }

    /** Where the pointers at position k of a side lead. */
    lemma Navigate(side: Side, k: nat)
      requires Valid() && side != NoSide && k < |shape.book.Of(side)|
      ensures var s := shape.book.Of(side);
        && s[k].id in shape.orders && s[NextPos(s, k)].id in shape.orders && s[PrevPos(s, k)].id in shape.orders
        && s[LevelStart(s, k)].id in shape.orders
        && (var o := shape.orders[s[k].id];
            && o in shape.orderNodes && EntryOf(o) == s[k]
            && o.next == shape.orders[s[NextPos(s, k)].id] && o.prev == shape.orders[s[PrevPos(s, k)].id])
        && s[k].price in shape.levels && s[Succ(LevelEnd(s, k), |s|)].price in shape.levels
        && s[Pred(LevelStart(s, k), |s|)].price in shape.levels
        && (var l := shape.levels[s[k].price];
            && l in shape.levelNodes && l.price == s[k].price && l.first == shape.orders[s[LevelStart(s, k)].id]
            && l.nextEntry == shape.levels[s[Succ(LevelEnd(s, k), |s|)].price]
            && l.prevEntry == shape.levels[s[Pred(LevelStart(s, k), |s|)].price])
    {
      hide Shape.Consistent;
      hide NextPos;
      hide PrevPos;
      hide LevelStart;
      hide LevelEnd;
      hide InBook;
      hide Indexed;
      var s := shape.book.Of(side);
      BackedAt(shape, side, k);
      LinksFrom(shape, side, k);
      assert OrderInRing(shape.orders, shape.links, shape.orderNodes, s[k].id);
      assert InRing(shape.levels, shape.links, shape.levelNodes, s[k].price);
      assert StartsWith(shape.levels, shape.orders, shape.links, shape.levelNodes, s[k].price);
    }

    /** The last order of a level is the one before its first, round the queue. */
    lemma QueueTail(side: Side, k: nat)
      requires Valid() && side != NoSide && k < |shape.book.Of(side)| && EndsLevel(shape.book.Of(side), k)
      ensures var s := shape.book.Of(side);
        && s[k].price in shape.levels && shape.levels[s[k].price].first != null
        && shape.levels[s[k].price].first.prev != null && EntryOf(shape.levels[s[k].price].first.prev) == s[k]
    {
      hide Valid;
      var s := shape.book.Of(side);
      Ordered(side);
      Navigate(side, k);
      var i := LevelStart(s, k);
      Navigate(side, i);
      EndUnique(side, s, i, k);
    }

    /** The priority for the next order at a price, if no order of the other side rests there. */
    lemma TailPriority(side: Side, price: Price)
      requires Valid() && side != NoSide && !HasPrice(shape.book.Of(Opposite(side)), price)
      ensures if price in shape.levels then
          && shape.levels[price].first != null && shape.levels[price].first.prev != null
          && shape.levels[price].first.prev.priority + 1 == NextPriority(side, shape.book.Of(side), price)
        else NextPriority(side, shape.book.Of(side), price) == 1
    {
      hide Valid;
      var s := shape.book.Of(side);
      Ordered(side);
      LevelsPriced(price);
      if price in shape.levels {
        var j :| 0 <= j < |s| && s[j].price == price;
        var k := InsertPos(side, s, price);
        InsertBehind(side, s, price, k, j);
        QueueTail(side, k - 1);
      } else {
        assert forall i :: 0 <= i < |s| ==> HasPrice(s, s[i].price);
      }
    }

    lemma LevelsPriced(price: Price)
      requires Valid()
      ensures price in shape.levels <==> PricedIn(shape.book, price)
    {
      PricedLevels(shape, price);
    }

    /** The head leads to the best order. */
    lemma HeadLeads(side: Side)
      requires Valid() && side != NoSide
      ensures var s := shape.book.Of(side);
        if s == [] then Head(side) == null
        else
          && s[0].price in shape.levels && Head(side) == shape.levels[s[0].price] && Head(side).price == s[0].price
          && s[0].id in shape.orders && Head(side).first == shape.orders[s[0].id]
    {
      if shape.book.Of(side) != [] {
        Navigate(side, 0);
      }
    }

    /** One step along the level ring: the head comes round again exactly after the last level. */
    lemma RingStep(side: Side, k: nat)
      requires Valid() && side != NoSide && k < |shape.book.Of(side)| && StartsLevel(shape.book.Of(side), k)
      ensures var s := shape.book.Of(side); var j := LevelEnd(s, k) + 1;
        && k < j <= |s| && s[k].price in shape.levels
        && (shape.levels[s[k].price].nextEntry == Head(side) <==> j == |s|)
        && (j < |s| ==> StartsLevel(s, j) && s[j].price in shape.levels
                        && shape.levels[s[k].price].nextEntry == shape.levels[s[j].price])
    {
      hide Valid;
      hide SideOk;
      var s := shape.book.Of(side);
      Ordered(side);
      HeadLeads(side);
      Navigate(side, k);
      var j := LevelEnd(s, k) + 1;
      if j < |s| {
        Navigate(side, j);
        if s[j].price == s[0].price { SameLevel(side, s, 0, j - 1, j); }
      }
    }

    lemma Ordered(side: Side)
      requires Valid() && side != NoSide
      ensures SideOk(side, shape.book.Of(side))
    {
    }

    /** Where the queue leads from position k. */
    lemma QueueLeads(side: Side, k: nat)
      requires Valid() && side != NoSide && k < |shape.book.Of(side)|
      ensures var s := shape.book.Of(side);
        && s[k].id in shape.orders && s[NextPos(s, k)].id in shape.orders && s[LevelStart(s, k)].id in shape.orders
        && EntryOf(shape.orders[s[k].id]) == s[k]
        && shape.orders[s[k].id].next == shape.orders[s[NextPos(s, k)].id]
        && s[k].price in shape.levels && shape.levels[s[k].price].first == shape.orders[s[LevelStart(s, k)].id]
    {
      hide Valid;
      hide LevelStart;
      hide LevelEnd;
      hide NextPos;
      hide PrevPos;
      Navigate(side, k);
    }

    /** One step along the queue of the level that starts at k: its first order comes round again after its last. */
    lemma QueueStep(side: Side, k: nat, m: nat)
      requires Valid() && side != NoSide && k < |shape.book.Of(side)| && StartsLevel(shape.book.Of(side), k)
      requires k <= m <= LevelEnd(shape.book.Of(side), k)
      ensures var s := shape.book.Of(side);
        && m < |s| && s[k].price in shape.levels && s[m].id in shape.orders && s[k].id in shape.orders
        && shape.levels[s[k].price].first == shape.orders[s[k].id]
        && EntryOf(shape.orders[s[m].id]) == s[m]
        && (m == LevelEnd(s, k) <==> shape.orders[s[m].id].next == shape.levels[s[k].price].first)
        && (m < LevelEnd(s, k) ==>
              s[m + 1].id in shape.orders && shape.orders[s[m].id].next == shape.orders[s[m + 1].id])
    {
      hide Valid;
      hide SideOk;
      hide StartsLevel;
      hide EndsLevel;
      hide LevelStart;
      hide LevelEnd;
      hide NextPos;
      var s := shape.book.Of(side);
      Ordered(side);
      QueuePos(side, s, k, m);
      QueuePos(side, s, k, k);
      QueueLeads(side, m);
      QueueLeads(side, k);
      if m < LevelEnd(s, k) {
        QueueLeads(side, m + 1);
        DistinctIds(side, s, m + 1, k);
      }
    }

    /** Walk the orders of one level along its ring, from its first order until that order comes round again. */
    method WalkLevel(level: LevelNode, ghost side: Side, ghost k: nat) returns (out: seq<Entry>)
      requires Valid() && side != NoSide && k < |shape.book.Of(side)| && StartsLevel(shape.book.Of(side), k)
      requires shape.book.Of(side)[k].price in shape.levels && level == shape.levels[shape.book.Of(side)[k].price]
      ensures Valid() && out == shape.book.Of(side)[k..LevelEnd(shape.book.Of(side), k) + 1]
    {
      hide Valid;
      hide StartsLevel;
      hide EndsLevel;
      ghost var s, m := shape.book.Of(side), k;
      ghost var end := LevelEnd(s, k);
      QueueStep(side, k, k);
      var order := level.first;
      out := [EntryOf(order)];
      while order.next != level.first
        invariant k <= m <= end && s[m].id in shape.orders && order == shape.orders[s[m].id]
        invariant out == s[k..m + 1]
        invariant Valid() && (m == end <==> order.next == level.first)
        invariant m < end ==> s[m + 1].id in shape.orders && order.next == shape.orders[s[m + 1].id]
        decreases end - m
      {
        order := order.next;
        m := m + 1;
        QueueStep(side, k, m);
        out := out + [EntryOf(order)];
      }
    }

    /** Walk both rings of a side from its head, as the printout of a book does: every order is reached, in order. */
    method Walk(side: Side) returns (out: seq<Entry>)
      requires Valid() && side != NoSide
      ensures out == shape.book.Of(side)
    {
      hide Valid;
      hide EndsLevel;
      hide LevelEnd;
      ghost var h, s, k := shape, shape.book.Of(side), 0;
      out := [];
      var level := Head(side);
      HeadLeads(side);
      while level != null
        invariant Valid() && shape == h && k <= |s|
        invariant out == s[..k]
        invariant level == null <==> k == |s|
        invariant k < |s| ==> StartsLevel(s, k) && s[k].price in shape.levels && level == shape.levels[s[k].price]
        decreases |s| - k
      {
        RingStep(side, k);
        var next := if level.nextEntry == Head(side) then null else level.nextEntry;
        var queue := WalkLevel(level, side, k);
        assert s[..k] + s[k..LevelEnd(s, k) + 1] == s[..LevelEnd(s, k) + 1];
        out := out + queue;
        k := LevelEnd(s, k) + 1;
        level := next;
      }
    }
  }
}
