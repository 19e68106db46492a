/** A snapshot put together from three cycles that is none of them, and right. */
module ReorderedSnapshots {
  import opened Types
  import opened PriceTime
  import opened Replication
  import opened Feed
  import opened Snapshots
  import opened Consumers
  import opened Recovery
  import opened SnapshotGuard
  import opened MixedSnapshots

  const BOTH_ORDERS := Book([SECOND_ORDER, FIRST_ORDER], [])

  /** Two orders come, and the first one goes. */
  function ShiftingFeed(): (us: seq<MarketUpdate>)
    ensures |us| == 3
  {
    [AddMessage(0, FIRST_ORDER), AddMessage(0, SECOND_ORDER), MarketUpdate(Cancel, 1, 0, Buy, 10, 0, 1)]
  }

  lemma SecondJoins()
    ensures var b, u := Book([FIRST_ORDER], []), ShiftingFeed()[1];
      Accepts(b, u) && Truthful(b, u) && Apply(b, u) == BOTH_ORDERS
  {
    var s := [FIRST_ORDER];
    InsertPosUnique(Buy, s, SECOND_ORDER.price, 0);
    assert Insert(s, SECOND_ORDER) == [SECOND_ORDER, FIRST_ORDER];
  }

  lemma FirstLeaves()
    ensures var u := ShiftingFeed()[2];
      Accepts(BOTH_ORDERS, u) && Truthful(BOTH_ORDERS, u) && Apply(BOTH_ORDERS, u) == Book([SECOND_ORDER], [])
  {
    var s := BOTH_ORDERS.bids;
    assert s[1].id == 1;
    assert Has(s, 1) && IndexOf(s, 1) == 1 && Lookup(BOTH_ORDERS, 1) == FIRST_ORDER;
    assert Remove(s, 1) == [SECOND_ORDER];
  }

  lemma FirstBookStep(log: seq<MarketUpdate>, u: MarketUpdate, b: Book, c: Book)
    requires Publishable(log) && BooksAfter(log) == EmptyBooks()[0 := b] && u.ticker == 0
    requires u.kind in {Add, Modify, Cancel, Trade} && Accepts(b, u) && Truthful(b, u) && Apply(b, u) == c
    ensures Publishable(log + [u]) && BooksAfter(log + [u]) == EmptyBooks()[0 := c]
  {
    hide Publishable;
    hide BooksAfter;
    hide Accepts;
    hide Apply;
    hide Truthful;
    OneMore(log, u);
  }

  lemma FirstJoins()
    ensures var u := ShiftingFeed()[0];
      Accepts(EMPTY_BOOK, u) && Truthful(EMPTY_BOOK, u) && Apply(EMPTY_BOOK, u) == Book([FIRST_ORDER], [])
  {
    hide CanAdd;
    hide Added;
    AddedToEmpty(FIRST_ORDER);
    assert EntryIn(ShiftingFeed()[0]) == FIRST_ORDER;
  }

  lemma NothingYet()
    ensures Publishable([]) && BooksAfter([]) == EmptyBooks()[0 := EMPTY_BOOK]
  {
  }

  lemma ShiftingBooks()
    ensures Publishable(ShiftingFeed()[..0]) && BooksAfter(ShiftingFeed()[..0]) == EmptyBooks()[0 := EMPTY_BOOK]
    ensures Publishable(ShiftingFeed()[..2]) && BooksAfter(ShiftingFeed()[..2]) == EmptyBooks()[0 := BOTH_ORDERS]
    ensures Publishable(ShiftingFeed())
    ensures Publishable(ShiftingFeed()[..3])
      && BooksAfter(ShiftingFeed()[..3]) == EmptyBooks()[0 := Book([SECOND_ORDER], [])]
  {
    hide Publishable;
    hide BooksAfter;
    hide Accepts;
    hide Apply;
    hide Truthful;
    hide EmptyBooks;
    var log := ShiftingFeed();
    assert log[..0] == [] && log[..0] + [log[0]] == log[..1] && log[..1] + [log[1]] == log[..2]
      && log[..2] + [log[2]] == log[..3] == log;
    NothingYet();
    FirstJoins();
    FirstBookStep(log[..0], log[0], EMPTY_BOOK, Book([FIRST_ORDER], []));
    SecondJoins();
    FirstBookStep(log[..1], log[1], Book([FIRST_ORDER], []), BOTH_ORDERS);
    FirstLeaves();
    FirstBookStep(log[..2], log[2], BOTH_ORDERS, Book([SECOND_ORDER], []));
  }

  lemma {:induction false} AscendingTwo(u: MarketUpdate, v: MarketUpdate, n: nat)
    requires n >= 3
    ensures Ascending(map[1 := u, 2 := v], n) == [u, v]
  {
    var r := map[1 := u, 2 := v];
    if n == 3 {
      assert Ascending(r, 1) == [];
      assert Ascending(r, 2) == [u];
    } else {
      AscendingTwo(u, v, n - 1);
    }
  }

  lemma MirrorsBoth(r: Orders)
    requires Mirrors(r, BOTH_ORDERS, 0)
    ensures r == map[1 := AddMessage(0, FIRST_ORDER), 2 := AddMessage(0, SECOND_ORDER)]
  {
    var b := BOTH_ORDERS;
    assert InBook(b, FIRST_ORDER) && InBook(b, SECOND_ORDER) && b.bids[0] == SECOND_ORDER && b.bids[1] == FIRST_ORDER;
    forall id: OrderId ensures id in r <==> id in {1, 2} {
      assert id in r <==> RestsIn(b, id);
    }
  }

  /** The three snapshots: of nothing, of both orders, and of the second order. */
  lemma ShiftingParts()
    requires Publishable(ShiftingFeed()[..0]) && Publishable(ShiftingFeed()[..2]) && Publishable(ShiftingFeed()[..3])
    ensures PartsAt(ShiftingFeed(), 0) == [Cleared(0)] + OtherClears()
    ensures PartsAt(ShiftingFeed(), 2)
      == [Cleared(0), AddMessage(0, FIRST_ORDER), AddMessage(0, SECOND_ORDER)] + OtherClears()
    ensures PartsAt(ShiftingFeed(), 3) == OneOrder(AddMessage(0, SECOND_ORDER))
  {
    hide Publishable;
    hide BooksAfter;
    hide ReplicaAfter;
    hide Parts;
    hide Ascending;
    hide Mirrors;
    hide ShiftingFeed;
    hide OtherClears;
    hide OneOrder;
    var log := ShiftingFeed();
    ShiftingBooks();
    PartsOfFirst(log[..0], EMPTY_BOOK);
    MirrorsNone(ReplicaAfter(log[..0])[0], 0);
    AscendingNone(ME_MAX_ORDER_IDS);
    PartsOfFirst(log[..2], BOTH_ORDERS);
    MirrorsBoth(ReplicaAfter(log[..2])[0]);
    AscendingTwo(AddMessage(0, FIRST_ORDER), AddMessage(0, SECOND_ORDER), ME_MAX_ORDER_IDS);
    PartsOfOne(log[..3], SECOND_ORDER);
  }

  const SHIFTING_CYCLES: seq<nat> := [0, 2, 3]

  lemma ShiftingBroadcast()
    ensures Broadcast(ShiftingFeed(), SHIFTING_CYCLES)
  {
    hide Publishable;
    hide BooksAfter;
    hide IdsBelow;
    hide ShiftingFeed;
    ShiftingBooks();
    ShiftingIds();
    BroadcastOf(ShiftingFeed(), SHIFTING_CYCLES);
  }

  lemma ShiftingIds()
    ensures IdsBelow(ShiftingFeed()[..0]) && IdsBelow(ShiftingFeed()[..2]) && IdsBelow(ShiftingFeed()[..3])
  {
  }

  /** Start, the first two CLEARs, the order, and the rest: from the first, the second and the third cycle. */
  function ShiftingPackets(): seq<Packet> {
    seq(11, i requires 0 <= i => Packet(if i < 3 then 0 else if i == 3 then 1 else 2, i))
  }

  function LaterClears(): seq<MarketUpdate> {
    [Cleared(2), Cleared(3), Cleared(4), Cleared(5), Cleared(6), Cleared(7)]
  }

  function ShiftingBody(): seq<MarketUpdate> {
    [Cleared(0), Cleared(1), AddMessage(0, SECOND_ORDER)] + LaterClears()
  }

  function ShiftingQueue(): seq<MarketUpdate> {
    [Marker(SnapshotStart, 0, TICKER_ID_INVALID)] + ShiftingBody() + [Marker(SnapshotEnd, 3, TICKER_ID_INVALID)]
  }

  /** The place a message has in its own cycle. */
  lemma CycleUpdate(log: seq<MarketUpdate>, k: nat, i: nat)
    requires k <= |log| && Publishable(log[..k]) && i < |PartsAt(log, k)| + 2
    ensures i < |CycleAt(log, k)|
    ensures CycleAt(log, k)[i].update
      == (if i == 0 then Marker(SnapshotStart, k, TICKER_ID_INVALID)
          else if i <= |PartsAt(log, k)| then PartsAt(log, k)[i - 1] else Marker(SnapshotEnd, k, TICKER_ID_INVALID))
  {
    hide Publishable;
    hide ReplicaAfter;
    hide Parts;
    hide CycleAt;
    CycleShape(log, k);
    UpdatesAt(CycleAt(log, k), i);
  }

  lemma ShiftingMessage(i: nat)
    requires i < 11 && Broadcast(ShiftingFeed(), SHIFTING_CYCLES)
    ensures var p := ShiftingPackets()[i];
      && Genuine(ShiftingFeed(), SHIFTING_CYCLES, p)
      && MessageOf(ShiftingFeed(), SHIFTING_CYCLES, p).update == ShiftingQueue()[i]
  {
    hide Publishable;
    hide PartsAt;
    hide CycleAt;
    hide IdsBelow;
    hide ShiftingFeed;
    hide AddMessage;
    hide Cleared;
    ShiftingBooks();
    ShiftingParts();
    CycleUpdate(ShiftingFeed(), if i < 3 then 0 else if i == 3 then 2 else 3, i);
  }

  lemma Swapped(u: MarketUpdate, v: MarketUpdate, w: MarketUpdate, us: seq<MarketUpdate>)
    ensures multiset([u, v, w] + us) == multiset([u, w, v] + us)
  {
    assert multiset([u, v, w]) == multiset([u, w, v]);
  }

  /** The body has the messages of the third snapshot, but not in its order. */
  lemma ShiftingBodyIs()
    ensures var us := OneOrder(AddMessage(0, SECOND_ORDER));
      multiset(ShiftingBody()) == multiset(us) && ShiftingBody() != us
  {
    hide Cleared;
    hide LaterClears;
    hide OneOrder;
    hide AddMessage;
    var u := AddMessage(0, SECOND_ORDER);
    OneOrderStarts(u);
    Swapped(Cleared(0), u, Cleared(1), LaterClears());
    NotCleared(SECOND_ORDER, 1);
    assert OneOrder(u)[1] == u && ShiftingBody()[1] == Cleared(1);
  }

  lemma OneOrderStarts(u: MarketUpdate)
    ensures OneOrder(u) == [Cleared(0), u, Cleared(1)] + LaterClears()
  {
    hide Cleared;
  }

  lemma NotCleared(e: Entry, t: TickerId)
    ensures AddMessage(0, e) != Cleared(t)
  {
  }

  lemma ShiftingTicker(i: nat)
    requires i < 9
    ensures |ShiftingBody()| == 9 && ShiftingBody()[i].ticker == (if i < 2 then i else if i == 2 then 0 else i - 1)
    ensures i == 2 ==> ShiftingBody()[0].kind == Clear && ShiftingBody()[i].kind == Add
  {
  }

  lemma ShiftingOrderly()
    ensures Orderly(ShiftingBody())
  {
    hide ShiftingBody;
    var us := ShiftingBody();
    ShiftingTicker(2);
    forall i, j {:trigger us[i], us[j]} | 0 <= i < j < |us| ensures MayFollow(us[i], us[j]) {
      ShiftingTicker(i);
      ShiftingTicker(j);
    }
  }

  /** The queue these messages make: each is in its place in the cycle it is from, and the cycles come in turn. */
  lemma ShiftingAssembled(q: Queue)
    requires Broadcast(ShiftingFeed(), SHIFTING_CYCLES)
    requires |ShiftingQueue()| == 11 && q == map i: nat | i < 11 :: ShiftingQueue()[i]
    ensures |q| == 11 && Contiguous(q) && Assembled(ShiftingFeed(), SHIFTING_CYCLES, q, ShiftingPackets())
  {
    hide Broadcast;
    hide Genuine;
    hide MessageOf;
    hide ShiftingFeed;
    hide ShiftingQueue;
    var log, cycles, tags := ShiftingFeed(), SHIFTING_CYCLES, ShiftingPackets();
    ContiguousUpTo(q, 11);
    forall i {:trigger tags[i]} | 0 <= i < 11
      ensures Genuine(log, cycles, tags[i]) && q[i] == MessageOf(log, cycles, tags[i]).update
    {
      ShiftingMessage(i);
    }
  }

  /** It is taken as complete, and what is passed on of it is the body. */
  lemma ShiftingAccepted(q: Queue)
    requires Broadcast(ShiftingFeed(), SHIFTING_CYCLES)
    requires |ShiftingQueue()| == 11 && q == map i: nat | i < 11 :: ShiftingQueue()[i]
    ensures MixedSnapshots.Accepted(ShiftingFeed(), SHIFTING_CYCLES, q, ShiftingPackets())
    ensures |q| == 11 && q[10] == Marker(SnapshotEnd, 3, TICKER_ID_INVALID) && Body(q) == ShiftingBody()
  {
    hide Broadcast;
    hide Assembled;
    hide Contiguous;
    hide Unmarked;
    hide Listed;
    hide ShiftingFeed;
    hide ShiftingBody;
    var us := ShiftingQueue();
    ShiftingAssembled(q);
    ShiftingPlain(0);
    assert Listed(q, 0, 11) == us;
    forall u | u in ShiftingBody() ensures !IsMarker(u) {
      var i :| 0 <= i < 9 && ShiftingBody()[i] == u;
      ShiftingPlain(i);
    }
    MarkersMark(0);
    MarkersMark(3);
    UnmarkedCycle(us[0], ShiftingBody(), us[10]);
  }

  lemma ShiftingLength()
    ensures |ShiftingQueue()| == 11
  {
  }

  lemma ShiftingPlain(i: nat)
    requires i < 9
    ensures |ShiftingBody()| == 9 && !IsMarker(ShiftingBody()[i])
  {
  }

  /**
   A snapshot taken as complete need not be the cycle it ends with to be right: one of messages of three cycles, that
   the exchange sent in this order, restores every book although its messages are in an order no cycle has them in.
   */
  lemma ReorderedButRight() returns (q: Queue, tags: seq<Packet>)
    ensures var log, cycles := ShiftingFeed(), SHIFTING_CYCLES;
      && Broadcast(log, cycles) && Publishable(log[..3]) && InOrder(tags)
      && MixedSnapshots.Accepted(log, cycles, q, tags)
      && q[|q| - 1].orderId == 3 && Restores(log, 3, Body(q)) && Body(q) != PartsAt(log, 3)
  {
    hide Publishable;
    hide PartsAt;
    hide Broadcast;
    hide MixedSnapshots.Accepted;
    hide Restores;
    hide Orderly;
    hide Body;
    hide ShiftingBody;
    hide ShiftingQueue;
    hide ShiftingFeed;
    hide OneOrder;
    var log, cycles := ShiftingFeed(), SHIFTING_CYCLES;
    ShiftingBroadcast();
    ShiftingBooks();
    ShiftingParts();
    ShiftingLength();
    q, tags := (map i: nat | i < 11 :: ShiftingQueue()[i]), ShiftingPackets();
    ShiftingAccepted(q);
    ShiftingBodyIs();
    ShiftingOrderly();
    AcceptedRestoresIff(log, cycles, q, tags);
  }
}
