/** What one unbroken snapshot cycle achieves, and what goes wrong when two cycles are taken for one. */
module SnapshotGuard {
  import opened Types
  import opened PriceTime
  import opened Replication
  import opened Feed
  import opened Snapshots
  import opened Consumers
  import opened Recovery

  /** Messages numbered from 0, a start marker first and an end marker last and nowhere else. */
  ghost predicate CycleLike(ms: seq<Sequenced>) {
    && |ms| >= 2
    && (forall i {:trigger ms[i]} :: 0 <= i < |ms| ==>
          ms[i].seqNum == i && (i == 0 ==> ms[i].update.kind == SnapshotStart)
          && (ms[i].update.kind == SnapshotEnd <==> i == |ms| - 1))
  }

  function FirstOf(ms: seq<Sequenced>, n: nat): Queue
    requires n <= |ms|
  {
    map i: nat | i < n :: ms[i].update
  }

  lemma FirstContiguous(ms: seq<Sequenced>, n: nat)
    requires n <= |ms|
    ensures |FirstOf(ms, n)| == n && Contiguous(FirstOf(ms, n))
  {
    ContiguousUpTo(FirstOf(ms, n), n);
  }

  /** The start marker replaces whatever was left of an earlier cycle. */
  lemma StartsAfresh(c: Consumer, m: Sequenced)
    requires Assembling(c) && m.seqNum == 0
    ensures Enqueue(c, true, m).snapshotQueue == map[0 := m.update]
  {
    var none: Queue := map[];
    assert none[0 := m.update] == map[0 := m.update];
    if c.snapshotQueue != map[] {
      var k :| k in c.snapshotQueue;
      assert k < |c.snapshotQueue|;
      assert 0 in c.snapshotQueue;
    }
  }

  /** A recovering consumer takes the messages of a cycle one by one until the last. */
  lemma {:induction false} Assembles(c: Consumer, ms: seq<Sequenced>, n: nat)
    requires CycleLike(ms) && c.inRecovery && Assembling(c) && 0 < n < |ms|
    ensures TakeAll(c, true, ms[..n]) == c.(snapshotQueue := FirstOf(ms, n))
    decreases n
  {
    hide CheckSnapshotSync;
    hide Assembling;
    hide Contiguous;
    Unfinished(c, ms, n);
    if n == 1 {
      StartsAfresh(c, ms[0]);
      assert FirstOf(ms, 1) == map[0 := ms[0].update];
      assert ms[..1][..0] == [];
    } else {
      Assembles(c, ms, n - 1);
      OneMoreTaken(c, ms, n);
      assert ms[..n][..n - 1] == ms[..n - 1];
    }
  }

  lemma OneMoreTaken(c: Consumer, ms: seq<Sequenced>, n: nat)
    requires CycleLike(ms) && 0 < n <= |ms|
    ensures Enqueue(c.(snapshotQueue := FirstOf(ms, n - 1)), true, ms[n - 1]) == c.(snapshotQueue := FirstOf(ms, n))
  {
    assert FirstOf(ms, n) == FirstOf(ms, n - 1)[n - 1 := ms[n - 1].update];
  }

  lemma Unfinished(c: Consumer, ms: seq<Sequenced>, n: nat)
    requires CycleLike(ms) && 0 < n < |ms|
    ensures var d := c.(snapshotQueue := FirstOf(ms, n)); CheckSnapshotSync(d) == d
  {
    var q := FirstOf(ms, n);
    FirstContiguous(ms, n);
    assert 0 in q;
    assert Least(q.Keys) == 0;
  }

  /** All the messages of a cycle in one read: the consumer checks once for all of them. */
  lemma AssemblesAll(c: Consumer, ms: seq<Sequenced>)
    requires CycleLike(ms) && c.inRecovery && Assembling(c)
    ensures TakeAll(c, true, ms) == CheckSnapshotSync(c.(snapshotQueue := FirstOf(ms, |ms|)))
    ensures Complete(c.(snapshotQueue := FirstOf(ms, |ms|)))
    ensures |FirstOf(ms, |ms|)| == |ms|
  {
    hide CheckSnapshotSync;
    var n := |ms|;
    Assembles(c, ms, n - 1);
    OneMoreTaken(c, ms, n);
    FirstContiguous(ms, n);
    assert 0 in FirstOf(ms, n);
  }

  lemma CycleIsCycleLike(log: seq<MarketUpdate>, k: nat)
    requires k <= |log| && Publishable(log[..k])
    ensures CycleLike(CycleAt(log, k))
  {
    hide Publishable;
    var c := CycleAt(log, k);
    CycleShape(log, k);
    forall i {:trigger c[i]} | 0 <= i < |c|
      ensures c[i].seqNum == i && (i == 0 ==> c[i].update.kind == SnapshotStart)
        && (c[i].update.kind == SnapshotEnd <==> i == |c| - 1)
    {
      CycleMarkers(log, k, i);
    }
  }

  /** The queued increments go on after this point of the feed without a gap. */
  ghost predicate GoesOn(q: Queue, k: nat) {
    forall i :: i in q ==> i <= RunEnd(q, k + 1)
  }

  /**
   An unbroken cycle, whatever is left of an earlier one, ends recovery exactly if the increments queued so far continue
   it without a gap.
   */
  lemma UnbrokenCycleRecovers(log: seq<MarketUpdate>, k: nat, c: Consumer)
    requires k <= |log| && Publishable(log[..k]) && c.inRecovery && Assembling(c)
    ensures var d := TakeAll(c, true, CycleAt(log, k));
      && d.nextExpIncSeqNum == RunEnd(c.incrementalQueue, k + 1)
      && (!d.inRecovery <==> GoesOn(c.incrementalQueue, k))
      && d.snapshotQueue == map[] && d.incrementalQueue == if d.inRecovery then c.incrementalQueue else map[]
  {
    hide CycleAt;
    hide Publishable;
    hide CheckSnapshotSync;
    hide TakeAll;
    hide Complete;
    hide RunEnd;
    hide Contiguous;
    hide Assembling;
    var ms := CycleAt(log, k);
    CycleIsCycleLike(log, k);
    AssemblesAll(c, ms);
    CycleMarkers(log, k, |ms| - 1);
    LeavesRecovery(c.(snapshotQueue := FirstOf(ms, |ms|)));
    CompleteEmptied(c.(snapshotQueue := FirstOf(ms, |ms|)));
  }

  lemma CompleteEmptied(c: Consumer)
    requires Complete(c) && c.inRecovery
    ensures var d := CheckSnapshotSync(c);
      d.snapshotQueue == map[] && d.incrementalQueue == if d.inRecovery then c.incrementalQueue else map[]
  {
    hide RunEnd;
    CheckedContiguous(c);
  }

  lemma {:induction false} TakeAllAppend(c: Consumer, isSnapshot: bool, a: seq<Sequenced>, b: seq<Sequenced>)
    ensures TakeAll(c, isSnapshot, a + b) == TakeAll(TakeAll(c, isSnapshot, a), isSnapshot, b)
    decreases |b|
  {
    hide Take;
    if b == [] {
      assert a + b == a;
    } else {
      assert (a + b)[..|a + b| - 1] == a + b[..|b| - 1];
      TakeAllAppend(c, isSnapshot, a, b[..|b| - 1]);
    }
  }

  /** A message out of turn sends the consumer into recovery with all queues empty, whichever stream it is from. */
  lemma {:induction false} OutOfTurn(c: Consumer, isSnapshot: bool, ms: seq<Sequenced>)
    requires !c.inRecovery && ms != [] && ms[0].seqNum != c.nextExpIncSeqNum
    ensures TakeAll(c, isSnapshot, ms) == TakeAll(Recovering(c), isSnapshot, ms)
    decreases |ms|
  {
    hide QueueMessage;
    if |ms| == 1 {
      assert ms[..0] == [];
    } else {
      hide Take;
      OutOfTurn(c, isSnapshot, ms[..|ms| - 1]);
    }
  }

  lemma QueuesOne(c: Consumer, m: Sequenced)
    requires c.inRecovery && c.snapshotQueue == map[]
    ensures Take(c, false, m) == c.(incrementalQueue := c.incrementalQueue[m.seqNum := m.update])
  {
  }

  /**
   A consumer that recovers and has nothing of a snapshot yet queues every increment, the later one under a number.
   */
  lemma {:induction false} QueuesAll(c: Consumer, ms: seq<Sequenced>)
    requires c.inRecovery && c.snapshotQueue == map[]
    ensures var d := TakeAll(c, false, ms);
      && d == c.(incrementalQueue := d.incrementalQueue)
      && (forall i {:trigger i in d.incrementalQueue} :: i in d.incrementalQueue <==>
            i in c.incrementalQueue || exists j :: 0 <= j < |ms| && ms[j].seqNum == i)
      && (forall i {:trigger d.incrementalQueue[i]} :: i in d.incrementalQueue ==>
            || (i in c.incrementalQueue && d.incrementalQueue[i] == c.incrementalQueue[i])
            || exists j :: 0 <= j < |ms| && ms[j] == Sequenced(i, d.incrementalQueue[i]))
    decreases |ms|
  {
    hide Take;
    if ms != [] {
      var most, last := ms[..|ms| - 1], ms[|ms| - 1];
      QueuesAll(c, most);
      QueuesOne(TakeAll(c, false, most), last);
      var q, r := TakeAll(c, false, most).incrementalQueue, TakeAll(c, false, ms).incrementalQueue;
      hide TakeAll;
      assert r == q[last.seqNum := last.update];
      forall i ensures i in r <==> i in c.incrementalQueue || exists j :: 0 <= j < |ms| && ms[j].seqNum == i {
        if j :| 0 <= j < |ms| && ms[j].seqNum == i {
          assert j < |most| ==> most[j] == ms[j];
        }
      }
    }
  }

  /**
   A read whose increments come in turn up to a point and then one that does not: those before it are passed on, and the
   consumer recovers from there with exactly the others queued.
   */
  lemma GapStartsRecovery(c: Consumer, ms: seq<Sequenced>, n: nat)
    requires !c.inRecovery && n < |ms| && NumberedFrom(ms[..n], c.nextExpIncSeqNum)
      && ms[n].seqNum != c.nextExpIncSeqNum + n
    ensures var d := Receive(c, false, ms);
      && d.inRecovery && d.nextExpIncSeqNum == c.nextExpIncSeqNum + n
      && d.forwarded == c.forwarded + Updates(ms[..n]) && d.snapshotQueue == map[]
      && (forall i {:trigger i in d.incrementalQueue} :: i in d.incrementalQueue <==>
            exists j :: n <= j < |ms| && ms[j].seqNum == i)
      && (forall i {:trigger d.incrementalQueue[i]} :: i in d.incrementalQueue ==>
            exists j :: n <= j < |ms| && ms[j] == Sequenced(i, d.incrementalQueue[i]))
  {
    hide TakeAll;
    hide Updates;
    var rest := ms[n..];
    assert ms == ms[..n] + rest;
    TakeAllAppend(c, false, ms[..n], rest);
    TakesInOrder(c, ms[..n]);
    OutOfTurn(TakeAll(c, false, ms[..n]), false, rest);
    QueuesAll(Recovering(TakeAll(c, false, ms[..n])), rest);
    assert forall j {:trigger ms[j]} :: n <= j < |ms| ==> rest[j - n] == ms[j];
  }

  /** The beginning of a cycle leaves a recovering consumer recovering. */
  lemma StillRecovering(log: seq<MarketUpdate>, j: nat, c: Consumer, n: nat)
    requires j <= |log| && Publishable(log[..j]) && c.inRecovery && Assembling(c) && 0 < n < |CycleAt(log, j)|
    ensures TakeAll(c, true, CycleAt(log, j)[..n]).inRecovery
  {
    hide CycleAt;
    hide Publishable;
    hide TakeAll;
    hide Assembling;
    CycleIsCycleLike(log, j);
    Assembles(c, CycleAt(log, j), n);
  }

  /**
   A read that goes on after a whole cycle with the first messages of the next one: the consumer ends it out of recovery
   exactly if it stops right there and the increments continue the first cycle, or has all of the next one too and they
   continue either.  In between, the next start marker throws away what the first cycle achieved.
   */
  lemma ReadGoesOn(log: seq<MarketUpdate>, k: nat, j: nat, c: Consumer, n: nat)
    requires k <= |log| && Publishable(log[..k]) && j <= |log| && Publishable(log[..j])
    requires c.inRecovery && Assembling(c) && n <= |CycleAt(log, j)|
    ensures var d, q := TakeAll(c, true, CycleAt(log, k) + CycleAt(log, j)[..n]), c.incrementalQueue;
      && (!d.inRecovery <==> (n == 0 && GoesOn(q, k)) || (n == |CycleAt(log, j)| && (GoesOn(q, k) || GoesOn(q, j))))
      && (n == |CycleAt(log, j)| ==> d.nextExpIncSeqNum == if GoesOn(q, k) then j + 1 else RunEnd(q, j + 1))
  {
    hide CycleAt;
    hide Publishable;
    hide TakeAll;
    hide RunEnd;
    hide GoesOn;
    var first, ms := TakeAll(c, true, CycleAt(log, k)), CycleAt(log, j);
    CycleIsCycleLike(log, j);
    UnbrokenCycleRecovers(log, k, c);
    TakeAllAppend(c, true, CycleAt(log, k), ms[..n]);
    if n == 0 {
      NoneTaken(first);
      assert ms[..n] == [];
    } else {
      if !first.inRecovery { OutOfTurn(first, true, ms[..n]); }
      var d := Recovering(first);
      if n < |ms| {
        StillRecovering(log, j, d, n);
      } else {
        assert ms[..n] == ms;
        UnbrokenCycleRecovers(log, j, d);
        NothingQueued(j);
      }
    }
  }

  lemma NoneTaken(c: Consumer)
    ensures TakeAll(c, true, []) == c
  {
  }

  lemma NothingQueued(k: nat)
    ensures GoesOn(map[], k) && RunEnd(map[], k + 1) == k + 1
  {
  }

  // --- Two cycles taken for one --------------------------------------------------------------------------------

  const FIRST_ORDER := Entry(1, Buy, 10, 5, 1)
  const SECOND_ORDER := Entry(2, Buy, 11, 7, 1)

  /** An order comes, goes, and another one comes. */
  function ShortFeed(): seq<MarketUpdate> {
    [AddMessage(0, FIRST_ORDER), MarketUpdate(Cancel, 1, 0, Buy, 10, 0, 1), AddMessage(0, SECOND_ORDER)]
  }

  lemma AddedToEmpty(e: Entry)
    requires e.side == Buy && e.qty > 0
    ensures CanAdd(EMPTY_BOOK, e) && Added(EMPTY_BOOK, e) == Book([e], [])
  {
    assert Insert([], e) == [e];
  }

  lemma ShortFeedBooks()
    ensures Publishable(ShortFeed()[..1]) && BooksAfter(ShortFeed()[..1]) == EmptyBooks()[0 := Book([FIRST_ORDER], [])]
    ensures Publishable(ShortFeed()) && BooksAfter(ShortFeed()) == EmptyBooks()[0 := Book([SECOND_ORDER], [])]
  {
    hide CanAdd;
    hide Added;
    var a, x, b := ShortFeed()[0], ShortFeed()[1], ShortFeed()[2];
    AddedToEmpty(FIRST_ORDER);
    AddedToEmpty(SECOND_ORDER);
    assert EntryIn(a) == FIRST_ORDER && EntryIn(b) == SECOND_ORDER;
    OneMore([], a);
    assert [] + [a] == ShortFeed()[..1];
    CancelOnly();
    OneMore([a], x);
    assert EmptyBooks()[0 := EMPTY_BOOK] == EmptyBooks();
    OneMore([a] + [x], b);
    assert [a] + [x] + [b] == ShortFeed();
  }

  lemma CancelOnly()
    ensures var b, u := Book([FIRST_ORDER], []), ShortFeed()[1];
      Accepts(b, u) && Truthful(b, u) && Apply(b, u) == EMPTY_BOOK
  {
    var b := Book([FIRST_ORDER], []);
    assert b.bids[0].id == 1;
    assert Has(b.bids, 1) && Lookup(b, 1) == FIRST_ORDER;
    assert Remove(b.bids, 1) == [];
  }

  lemma {:induction false} AscendingNone(n: nat)
    ensures Ascending(map[], n) == []
  {
    if n > 0 { AscendingNone(n - 1); }
  }

  lemma {:induction false} AscendingOne(id: OrderId, u: MarketUpdate, n: nat)
    ensures Ascending(map[id := u], n) == if id < n then [u] else []
  {
    if n > 0 { AscendingOne(id, u, n - 1); }
  }

  function Cleared(t: TickerId): MarketUpdate {
    Marker(Clear, ORDER_ID_INVALID, t)
  }

  function OneOrder(u: MarketUpdate): seq<MarketUpdate> {
    [Cleared(0), u, Cleared(1), Cleared(2), Cleared(3), Cleared(4), Cleared(5), Cleared(6), Cleared(7)]
  }

  function OtherClears(): seq<MarketUpdate> {
    [Cleared(1), Cleared(2), Cleared(3), Cleared(4), Cleared(5), Cleared(6), Cleared(7)]
  }

  /** The snapshot of a single order of the first ticker. */
  lemma PartsOfOne(log: seq<MarketUpdate>, e: Entry)
    requires Publishable(log) && BooksAfter(log) == EmptyBooks()[0 := Book([e], [])] && e.id < ME_MAX_ORDER_IDS
    ensures Parts(ReplicaAfter(log), ME_MAX_TICKERS) == OneOrder(AddMessage(0, e))
  {
    hide Publishable;
    hide BooksAfter;
    hide ReplicaAfter;
    hide Ascending;
    hide Parts;
    PartsOfFirst(log, Book([e], []));
    MirrorsOne(ReplicaAfter(log)[0], e);
    AscendingOne(e.id, AddMessage(0, e), ME_MAX_ORDER_IDS);
  }

  /** The snapshot of the first ticker's orders and nothing else. */
  lemma PartsOfFirst(log: seq<MarketUpdate>, b: Book)
    requires Publishable(log) && BooksAfter(log) == EmptyBooks()[0 := b]
    ensures var rs := ReplicaAfter(log);
      Mirrors(rs[0], b, 0) && Parts(rs, ME_MAX_TICKERS) == TickerPart(rs[0], 0) + OtherClears()
  {
    hide Publishable;
    hide BooksAfter;
    hide Mirrors;
    var rs := ReplicaAfter(log);
    assert Mirrors(rs[0], b, 0);
    forall t | 0 < t < ME_MAX_TICKERS ensures rs[t] == map[] {
      assert Mirrors(rs[t], EMPTY_BOOK, t);
      MirrorsNone(rs[t], t);
    }
    PartsOfReplica(rs);
  }

  lemma PartsOfReplica(rs: seq<Orders>)
    requires |rs| == ME_MAX_TICKERS && forall t :: 0 < t < ME_MAX_TICKERS ==> rs[t] == map[]
    ensures Parts(rs, ME_MAX_TICKERS) == TickerPart(rs[0], 0) + OtherClears()
  {
    hide Ascending;
    AscendingNone(ME_MAX_ORDER_IDS);
    assert Parts(rs, 1) == TickerPart(rs[0], 0);
    assert Parts(rs, 2) == Parts(rs, 1) + [Cleared(1)];
    assert Parts(rs, 3) == Parts(rs, 2) + [Cleared(2)];
    assert Parts(rs, 4) == Parts(rs, 3) + [Cleared(3)];
    assert Parts(rs, 5) == Parts(rs, 4) + [Cleared(4)];
    assert Parts(rs, 6) == Parts(rs, 5) + [Cleared(5)];
    assert Parts(rs, 7) == Parts(rs, 6) + [Cleared(6)];
    assert Parts(rs, 8) == Parts(rs, 7) + [Cleared(7)];
  }

  lemma MirrorsOne(r: Orders, e: Entry)
    requires Mirrors(r, Book([e], []), 0)
    ensures r == map[e.id := AddMessage(0, e)]
  {
    var b := Book([e], []);
    assert InBook(b, e) && b.bids[0] == e;
    forall id: OrderId ensures id in r <==> id == e.id {
      assert id in r <==> RestsIn(b, id);
    }
  }

  lemma MirrorsNone(r: Orders, t: TickerId)
    requires Mirrors(r, EMPTY_BOOK, t)
    ensures r == map[]
  {
    forall id: OrderId ensures id !in r {
      assert id in r <==> RestsIn(EMPTY_BOOK, id);
    }
  }

  lemma {:induction false} ReplaysOneWay(b: Book, us: seq<MarketUpdate>, c: Book, d: Book)
    requires Replays(b, us, c) && Replays(b, us, d)
    ensures c == d
    decreases |us|
  {
    if us != [] { ReplaysOneWay(Apply(b, us[0]), us[1..], c, d); }
  }

  /** The first n messages of the cycle at 1, then the rest of the cycle at 3. */
  function MixedPackets(n: nat): seq<Packet> {
    seq(11, i requires 0 <= i => Packet(if i < n then 0 else 1, i))
  }

  ghost function MixedDeliveries(n: nat): seq<Delivery> {
    [Increments([2]), SnapshotPackets(MixedPackets(n))]
  }

  /** The order in such a mixture: the third message of the one cycle or of the other. */
  function MixedOrder(n: nat): MarketUpdate {
    AddMessage(0, if n < 3 then SECOND_ORDER else FIRST_ORDER)
  }

  lemma MixedBroadcast()
    ensures Broadcast(ShortFeed(), [1, 3])
    ensures Updates(CycleAt(ShortFeed(), 1))
      == [Marker(SnapshotStart, 1, TICKER_ID_INVALID)] + OneOrder(AddMessage(0, FIRST_ORDER))
        + [Marker(SnapshotEnd, 1, TICKER_ID_INVALID)]
    ensures Updates(CycleAt(ShortFeed(), 3))
      == [Marker(SnapshotStart, 3, TICKER_ID_INVALID)] + OneOrder(AddMessage(0, SECOND_ORDER))
        + [Marker(SnapshotEnd, 3, TICKER_ID_INVALID)]
  {
    hide Publishable;
    hide BooksAfter;
    hide Parts;
    hide OneOrder;
    hide CycleAt;
    var log := ShortFeed();
    ShortFeedBooks();
    ShortIdsBelow();
    BroadcastOf(log, [1, 3]);
    assert log[..3] == log;
    CycleShape(log, 1);
    CycleShape(log, 3);
    PartsOfOne(log[..1], FIRST_ORDER);
    PartsOfOne(log, SECOND_ORDER);
  }

  lemma MixedSetting(n: nat)
    ensures Broadcast(ShortFeed(), [1, 3])
    ensures forall d :: d in MixedDeliveries(n) ==> Deliverable(ShortFeed(), [1, 3], d)
    ensures InOrder(MixedPackets(n))
  {
    hide Publishable;
    hide CycleAt;
    MixedBroadcast();
    UpdatesAt(CycleAt(ShortFeed(), 1), 0);
    UpdatesAt(CycleAt(ShortFeed(), 3), 0);
  }

  lemma MixedMessages(n: nat)
    requires 0 < n <= 10
    requires Broadcast(ShortFeed(), [1, 3]) && Deliverable(ShortFeed(), [1, 3], SnapshotPackets(MixedPackets(n)))
    ensures var ms := Messages(ShortFeed(), [1, 3], SnapshotPackets(MixedPackets(n)));
      && CycleLike(ms)
      && Updates(ms) == [Marker(SnapshotStart, 1, TICKER_ID_INVALID)] + OneOrder(MixedOrder(n))
                        + [Marker(SnapshotEnd, 3, TICKER_ID_INVALID)]
  {
    hide Publishable;
    hide CycleAt;
    hide Genuine;
    MixedBroadcast();
    var log, cycles, ps := ShortFeed(), [1, 3], MixedPackets(n);
    var ms := Messages(log, cycles, SnapshotPackets(ps));
    var c, d := CycleAt(log, 1), CycleAt(log, 3);
    var want := [Marker(SnapshotStart, 1, TICKER_ID_INVALID)] + OneOrder(MixedOrder(n))
      + [Marker(SnapshotEnd, 3, TICKER_ID_INVALID)];
    forall i {:trigger ms[i]} | 0 <= i < |ms| ensures ms[i].seqNum == i && ms[i].update == want[i] {
      assert ms[i] == MessageOf(log, cycles, ps[i]);
      assert if i < n then ms[i].update == Updates(c)[i] else ms[i].update == Updates(d)[i];
    }
    assert Updates(ms) == want;
  }

  /** What a complete cycle is accepted as. */
  lemma {:induction false} AcceptedAs(c: Consumer, ms: seq<Sequenced>)
    requires CycleLike(ms) && c.inRecovery && Assembling(c)
    requires var end := RunEnd(c.incrementalQueue, ms[|ms| - 1].update.orderId + 1);
      forall k :: k in c.incrementalQueue ==> k <= end
    ensures var from := ms[|ms| - 1].update.orderId + 1;
      var end := RunEnd(c.incrementalQueue, from);
      TakeAll(c, true, ms) == Consumer(end, false, map[], map[],
        c.forwarded + Unmarked(Updates(ms)) + Unmarked(Listed(c.incrementalQueue, from, end)))
  {
    hide TakeAll;
    hide RunEnd;
    hide Unmarked;
    AssemblesAll(c, ms);
    var d := c.(snapshotQueue := FirstOf(ms, |ms|));
    var q := d.snapshotQueue;
    assert 0 in q;
    assert Least(q.Keys) == 0;
    assert Listed(q, 0, |q|) == Updates(ms);
  }

  /**
   One unbroken cycle and the increments after it, as far as they have arrived, bring a recovering client up to date: it
   leaves recovery and has passed on the snapshot and exactly those increments.
   */
  lemma CatchesUp(log: seq<MarketUpdate>, cycles: seq<nat>, c: Consumer, was: nat, k: nat, n: nat)
    requires Broadcast(log, cycles) && was <= |log| && k <= n <= |log| && IdsBelow(log[..k])
    requires c.inRecovery && Assembling(c) && UpTo(log, c.forwarded, was) && Queued(log, c.incrementalQueue)
    requires forall i {:trigger i in c.incrementalQueue} ::
      (k < i <= n ==> i in c.incrementalQueue) && (i in c.incrementalQueue ==> i <= n)
    ensures Publishable(log[..k])
    ensures var d := TakeAll(c, true, CycleAt(log, k));
      && !d.inRecovery && d.nextExpIncSeqNum == n + 1 && UpTo(log, d.forwarded, n)
      && d.forwarded == c.forwarded + Parts(ReplicaAfter(log[..k]), ME_MAX_TICKERS) + log[k..n]
  {
    hide Broadcast;
    hide UpTo;
    hide Publishable;
    hide TakeAll;
    hide RunEnd;
    hide Listed;
    hide Unmarked;
    hide Updates;
    hide ReplicaAfter;
    hide Parts;
    hide CycleAt;
    hide Assembling;
    hide CycleLike;
    hide IdsBelow;
    PrefixPublished(log, cycles, k);
    var ms, ps := CycleAt(log, k), Parts(ReplicaAfter(log[..k]), ME_MAX_TICKERS);
    RunEndIs(c.incrementalQueue, k + 1, n + 1);
    CycleIsCycleLike(log, k);
    CycleShape(log, k);
    LastFramed(ms, Marker(SnapshotStart, k, TICKER_ID_INVALID), ps, Marker(SnapshotEnd, k, TICKER_ID_INVALID));
    AcceptedAs(c, ms);
    MarkersMark(k);
    UnmarkedCycle(Marker(SnapshotStart, k, TICKER_ID_INVALID), ps, Marker(SnapshotEnd, k, TICKER_ID_INVALID));
    QueuedRun(log, cycles, c.incrementalQueue, k, n + 1);
    Spliced(log, cycles, c.forwarded, was, k, n);
  }

  lemma PrefixPublished(log: seq<MarketUpdate>, cycles: seq<nat>, k: nat)
    requires Broadcast(log, cycles) && k <= |log|
    ensures Publishable(log[..k])
  {
  }

  lemma FirstGap(m: Sequenced)
    requires m.seqNum != 1
    ensures Receive(NEW_CONSUMER, false, [m]) == Consumer(1, true, map[], map[m.seqNum := m.update], [])
  {
    var ms := [m];
    assert ms[..|ms| - 1] == [];
    assert TakeAll(NEW_CONSUMER, false, []) == NEW_CONSUMER;
    var q: Queue := map[];
    assert q[m.seqNum := m.update] == map[m.seqNum := m.update];
    assert TakeAll(NEW_CONSUMER, false, ms) == Take(NEW_CONSUMER, false, m);
  }

  lemma OneOrderReplays(e: Entry)
    requires e.side == Buy && e.qty > 0
    ensures Replays(EMPTY_BOOK, OnTicker(OneOrder(AddMessage(0, e)), 0), Book([e], []))
  {
    hide CanAdd;
    hide Added;
    hide OnTicker;
    var u := AddMessage(0, e);
    var us := OneOrder(u);
    var rest := [Cleared(1), Cleared(2), Cleared(3), Cleared(4), Cleared(5), Cleared(6), Cleared(7)];
    assert us == [Cleared(0), u] + rest;
    OnTickerAppend([Cleared(0), u], rest, 0);
    NoneOnFirst(rest);
    OnTickerAll([Cleared(0), u], 0, 0);
    AddedToEmpty(e);
    assert EntryIn(u) == e && [Cleared(0), u][1..] == [u] && [u][1..] == [];
    assert Replays(Book([e], []), [], Book([e], []));
    assert Replays(EMPTY_BOOK, [u], Book([e], []));
  }

  lemma {:induction false} NoneOnFirst(us: seq<MarketUpdate>)
    requires forall u :: u in us ==> u.ticker != 0
    ensures OnTicker(us, 0) == []
  {
    if us != [] {
      assert us[0] in us;
      NoneOnFirst(us[1..]);
    }
  }

  lemma StaleOrder(forwarded: seq<MarketUpdate>)
    requires forwarded == OneOrder(AddMessage(0, FIRST_ORDER)) && Publishable(ShortFeed()[..3])
    ensures !UpTo(ShortFeed(), forwarded, 3)
  {
    hide Replays;
    hide BooksAfter;
    hide Publishable;
    hide OnTicker;
    var log := ShortFeed();
    assert log[..3] == log;
    ShortFeedBooks();
    OneOrderReplays(FIRST_ORDER);
    if UpTo(log, forwarded, 3) {
      assert Replays(EMPTY_BOOK, OnTicker(forwarded, 0), BooksAfter(log[..3])[0]);
      ReplaysOneWay(EMPTY_BOOK, OnTicker(forwarded, 0), Book([FIRST_ORDER], []), Book([SECOND_ORDER], []));
    }
  }

  lemma FreshOrder(forwarded: seq<MarketUpdate>)
    requires forwarded == OneOrder(AddMessage(0, SECOND_ORDER)) && Publishable(ShortFeed()[..3])
    ensures UpTo(ShortFeed(), forwarded, 3)
  {
    hide BooksAfter;
    hide Publishable;
    hide UpTo;
    hide OneOrder;
    hide Parts;
    hide Broadcast;
    hide IdsBelow;
    var log := ShortFeed();
    assert log[..3] == log && log[3..3] == [];
    ShortFeedBooks();
    MixedBroadcast();
    PartsOfOne(log, SECOND_ORDER);
    StartsSound(log, [1, 3]);
    ShortIdsBelow();
    Spliced(log, [1, 3], [], 0, 3, 3);
    assert [] + forwarded + [] == forwarded;
  }

  lemma ShortIdsBelow()
    ensures IdsBelow(ShortFeed()[..1]) && IdsBelow(ShortFeed()[..3])
  {
  }

  lemma LastFramed(ms: seq<Sequenced>, first: MarketUpdate, body: seq<MarketUpdate>, last: MarketUpdate)
    requires Updates(ms) == [first] + body + [last]
    ensures ms != [] && ms[|ms| - 1].update == last
  {
    assert Updates(ms)[|ms| - 1] == last;
  }

  lemma AllOfTwo(places: seq<nat>, packets: seq<Packet>)
    ensures AllPackets([Increments(places), SnapshotPackets(packets)]) == packets
  {
    var ds := [Increments(places), SnapshotPackets(packets)];
    assert ds[..1][..0] == [] && AllPackets(ds[..1]) == [];
  }

  lemma PlainOrder(u: MarketUpdate)
    requires u.kind == Add
    ensures forall v :: v in OneOrder(u) ==> !IsMarker(v)
  {
  }

  /** The mixture is accepted, and its order passed on with the CLEARs. */
  lemma MixtureTaken(n: nat, c: Consumer, ms: seq<Sequenced>)
    requires c.inRecovery && c.snapshotQueue == map[] && c.incrementalQueue == map[3 := ShortFeed()[2]]
      && c.forwarded == []
    requires CycleLike(ms) && Updates(ms) == [Marker(SnapshotStart, 1, TICKER_ID_INVALID)] + OneOrder(MixedOrder(n))
                                             + [Marker(SnapshotEnd, 3, TICKER_ID_INVALID)]
    ensures TakeAll(c, true, ms) == Consumer(4, false, map[], map[], OneOrder(MixedOrder(n)))
  {
    hide TakeAll;
    hide OneOrder;
    hide Updates;
    hide CycleLike;
    hide RunEnd;
    hide Unmarked;
    hide Listed;
    var body := OneOrder(MixedOrder(n));
    LastFramed(ms, Marker(SnapshotStart, 1, TICKER_ID_INVALID), body, Marker(SnapshotEnd, 3, TICKER_ID_INVALID));
    RunEndIs(c.incrementalQueue, 4, 4);
    AcceptedAs(c, ms);
    PlainOrder(MixedOrder(n));
    UnmarkedCycle(Marker(SnapshotStart, 1, TICKER_ID_INVALID), body, Marker(SnapshotEnd, 3, TICKER_ID_INVALID));
    ListedNone(c.incrementalQueue, 4);
    assert [] + body + [] == body;
  }

  /**
   Without the guard the promise fails: messages that arrive in order from two different cycles are accepted as one
   snapshot, and the client ends recovery with an order that is long gone, missing the one that is there.  It takes more
   than a wrong start marker: the client is misled exactly if the order itself is from the older cycle.
   */
  lemma MixedCyclesMislead(n: nat)
    requires 0 < n <= 10
    ensures var log, cycles, ds := ShortFeed(), [1, 3], MixedDeliveries(n);
      && Broadcast(log, cycles) && (forall d :: d in ds ==> Deliverable(log, cycles, d)) && InOrder(AllPackets(ds))
      && var c := Receive(Receive(NEW_CONSUMER, false, Messages(log, cycles, ds[0])), true,
        Messages(log, cycles, ds[1]));
      && !c.inRecovery && c.nextExpIncSeqNum == 4 && (UpTo(log, c.forwarded, 3) <==> n < 3)
  {
    hide Publishable;
    hide BooksAfter;
    hide CycleAt;
    hide Take;
    hide TakeAll;
    hide UpTo;
    hide Genuine;
    hide Updates;
    hide MixedPackets;
    hide OneOrder;
    hide CycleLike;
    var log, cycles, ds := ShortFeed(), [1, 3], MixedDeliveries(n);
    MixedSetting(n);
    MixedMessages(n);
    AllOfTwo(ds[0].places, MixedPackets(n));
    assert Messages(log, cycles, ds[0]) == [Sequenced(3, log[2])];
    FirstGap(Sequenced(3, log[2]));
    MixtureTaken(n, Consumer(1, true, map[], map[3 := log[2]], []), Messages(log, cycles, ds[1]));
    if n < 3 {
      FreshOrder(OneOrder(MixedOrder(n)));
    } else {
      StaleOrder(OneOrder(MixedOrder(n)));
    }
  }
}
