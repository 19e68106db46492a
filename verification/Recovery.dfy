/**
 Recovery over a lossy network: increments are dropped, duplicated and reordered at will, snapshot messages are dropped,
 and yet what the consumer passes on always replays to books the exchange had.
 */
module Recovery {
  import opened Types
  import opened PriceTime
  import opened Replication
  import opened Feed
  import opened Snapshots
  import opened Consumers
  import Runs

  // The place of a message in the snapshot stream: which cycle, and where in it.
  datatype Packet = Packet(cycle: nat, pos: nat)

  // One read: increments by their place in the feed, or messages of the snapshot stream.
  datatype Delivery = Increments(places: seq<nat>) | SnapshotPackets(packets: seq<Packet>)

  /**
   A feed, and the snapshot cycles made on the way: each reflects a prefix of the feed that the synthesizer has places
   for, none an earlier one than before.
   */
  ghost predicate Broadcast(log: seq<MarketUpdate>, cycles: seq<nat>) {
    && Publishable(log) && (forall k {:trigger log[..k]} :: 0 <= k <= |log| ==> Publishable(log[..k]))
    && (forall i {:trigger cycles[i]} :: 0 <= i < |cycles| ==> cycles[i] <= |log| && IdsBelow(log[..cycles[i]]))
    && (forall i, j {:trigger cycles[i], cycles[j]} :: 0 <= i <= j < |cycles| ==> cycles[i] <= cycles[j])
  }

  /** Every cycle of a publishable feed is a broadcast. */
  lemma BroadcastOf(log: seq<MarketUpdate>, cycles: seq<nat>)
    requires Publishable(log)
    requires forall i {:trigger cycles[i]} :: 0 <= i < |cycles| ==> cycles[i] <= |log| && IdsBelow(log[..cycles[i]])
    requires forall i, j {:trigger cycles[i], cycles[j]} :: 0 <= i <= j < |cycles| ==> cycles[i] <= cycles[j]
    ensures Broadcast(log, cycles)
  {
    forall k {:trigger log[..k]} | 0 <= k <= |log| ensures Publishable(log[..k]) {
      PublishablePrefix(log, k);
    }
  }

  /** The snapshot cycle that reflects the first k updates. */
  ghost function CycleAt(log: seq<MarketUpdate>, k: nat): seq<Sequenced>
    requires k <= |log| && Publishable(log[..k])
  {
    Cycle(ReplicaAfter(log[..k]), k)
  }

  ghost predicate Genuine(log: seq<MarketUpdate>, cycles: seq<nat>, p: Packet)
    requires Broadcast(log, cycles)
  {
    p.cycle < |cycles| && p.pos < |CycleAt(log, cycles[p.cycle])|
  }

  ghost function MessageOf(log: seq<MarketUpdate>, cycles: seq<nat>, p: Packet): (m: Sequenced)
    requires Broadcast(log, cycles) && Genuine(log, cycles, p)
    ensures m.seqNum == p.pos
  {
    CycleAt(log, cycles[p.cycle])[p.pos]
  }

  predicate Later(p: Packet, q: Packet) {
    p.cycle < q.cycle || (p.cycle == q.cycle && p.pos < q.pos)
  }

  // --- What the messages carry -------------------------------------------------------------------------------

  lemma OrdersAreAdds(rs: seq<Orders>, log: seq<MarketUpdate>, t: TickerId, id: OrderId)
    requires Publishable(log) && Follows(rs, log) && t < |rs| && id in rs[t]
    ensures rs[t][id].kind == Add && rs[t][id].ticker == t
  {
    var b := BooksAfter(log)[t];
    assert Mirrors(rs[t], b, t);
    assert RestsIn(b, id);
    assert InBook(b, Lookup(b, id));
  }

  lemma {:induction false} AscendingKinds(rs: seq<Orders>, log: seq<MarketUpdate>, t: TickerId, n: nat)
    requires Publishable(log) && Follows(rs, log) && t < |rs|
    ensures forall u :: u in Ascending(rs[t], n) ==> u.kind == Add && u.ticker == t
  {
    hide Publishable;
    hide Follows;
    hide BooksAfter;
    if n > 0 {
      AscendingKinds(rs, log, t, n - 1);
      if n - 1 in rs[t] { OrdersAreAdds(rs, log, t, n - 1); }
    }
  }

  lemma PartKinds(rs: seq<Orders>, log: seq<MarketUpdate>, t: TickerId)
    requires Publishable(log) && Follows(rs, log) && t < |rs|
    ensures forall u :: u in TickerPart(rs[t], t) ==> !IsMarker(u) && u.ticker == t
  {
    AscendingKinds(rs, log, t, ME_MAX_ORDER_IDS);
  }

  /** The part of a snapshot about one ticker, and no markers in between. */
  lemma {:induction false} PartsOn(rs: seq<Orders>, log: seq<MarketUpdate>, n: nat, t: TickerId)
    requires Publishable(log) && Follows(rs, log) && n <= |rs| && t < |rs|
    ensures OnTicker(Parts(rs, n), t) == if t < n then TickerPart(rs[t], t) else []
    ensures forall u :: u in Parts(rs, n) ==> !IsMarker(u)
  {
    hide Publishable;
    hide Follows;
    hide BooksAfter;
    hide TickerPart;
    hide OnTicker;
    NothingOn(t);
    if n > 0 {
      PartsOn(rs, log, n - 1, t);
      PartKinds(rs, log, n - 1);
      OnTickerAppend(Parts(rs, n - 1), TickerPart(rs[n - 1], n - 1), t);
      OnTickerAll(TickerPart(rs[n - 1], n - 1), n - 1, t);
    }
  }

  lemma NothingOn(t: TickerId)
    ensures OnTicker([], t) == []
  {
  }

  lemma {:induction false} UnmarkedPlain(us: seq<MarketUpdate>)
    requires forall u :: u in us ==> !IsMarker(u)
    ensures Unmarked(us) == us
    decreases |us|
  {
    if us != [] {
      UnmarkedPlain(us[..|us| - 1]);
      assert us[|us| - 1] in us && us == us[..|us| - 1] + [us[|us| - 1]];
    }
  }

  lemma UnmarkedCycle(start: MarketUpdate, us: seq<MarketUpdate>, end: MarketUpdate)
    requires IsMarker(start) && IsMarker(end) && forall u :: u in us ==> !IsMarker(u)
    ensures Unmarked([start] + us + [end]) == us
  {
    var all := [start] + us + [end];
    assert all[..|all| - 1] == [start] + us;
    UnmarkedAfter(start, us);
  }

  lemma {:induction false} UnmarkedAfter(start: MarketUpdate, us: seq<MarketUpdate>)
    requires IsMarker(start) && forall u :: u in us ==> !IsMarker(u)
    ensures Unmarked([start] + us) == us
    decreases |us|
  {
    var all := [start] + us;
    if us == [] {
      assert all[..0] == [];
    } else {
      assert all[..|all| - 1] == [start] + us[..|us| - 1];
      UnmarkedAfter(start, us[..|us| - 1]);
      assert us[|us| - 1] in us && us == us[..|us| - 1] + [us[|us| - 1]];
    }
  }

  lemma NoReplay(b: Book)
    ensures Replays(b, [], b)
  {
  }

  /** One increment leads from the books before it to the books after it. */
  lemma FeedStep(log: seq<MarketUpdate>, cycles: seq<nat>, j: nat, t: TickerId)
    requires Broadcast(log, cycles) && 0 < j <= |log| && t < ME_MAX_TICKERS
    ensures Publishable(log[..j - 1]) && Publishable(log[..j]) && !IsMarker(log[j - 1])
    ensures Replays(BooksAfter(log[..j - 1])[t], OnTicker([log[j - 1]], t), BooksAfter(log[..j])[t])
  {
    hide Accepts;
    hide Apply;
    hide Truthful;
    hide OnTicker;
    hide BooksAfter;
    hide Publishable;
    var u, most := log[j - 1], log[..j - 1];
    assert log[..j] == most + [u];
    LastOne(most, u);
    OnTickerAll([u], u.ticker, t);
    assert [u][1..] == [];
  }

  /** The increments between two points of the feed lead from the books of the one to the books of the other. */
  lemma {:induction false} FeedReplays(log: seq<MarketUpdate>, cycles: seq<nat>, i: nat, j: nat, t: TickerId)
    requires Broadcast(log, cycles) && i <= j <= |log| && t < ME_MAX_TICKERS
    ensures Publishable(log[..i]) && Publishable(log[..j])
    ensures forall u :: u in log[i..j] ==> !IsMarker(u)
    ensures Replays(BooksAfter(log[..i])[t], OnTicker(log[i..j], t), BooksAfter(log[..j])[t])
    decreases j
  {
    hide Publishable;
    hide Replays;
    hide OnTicker;
    hide BooksAfter;
    if i == j {
      NothingOn(t);
      assert log[i..j] == [];
      NoReplay(BooksAfter(log[..i])[t]);
    } else {
      FeedReplays(log, cycles, i, j - 1, t);
      FeedStep(log, cycles, j, t);
      assert log[i..j] == log[i..j - 1] + [log[j - 1]];
      OnTickerAppend(log[i..j - 1], [log[j - 1]], t);
      ReplaysAppend(BooksAfter(log[..i])[t], OnTicker(log[i..j - 1], t), BooksAfter(log[..j - 1])[t],
                    OnTicker([log[j - 1]], t), BooksAfter(log[..j])[t]);
    }
  }

  // --- The invariant -----------------------------------------------------------------------------------------

  /** What was passed on replays, ticker by ticker, to the books after the first k updates of the feed. */
  ghost predicate UpTo(log: seq<MarketUpdate>, forwarded: seq<MarketUpdate>, k: nat)
    requires k <= |log| && Publishable(log[..k])
  {
    forall t {:trigger BooksAfter(log[..k])[t]} :: 0 <= t < ME_MAX_TICKERS ==>
      Replays(EMPTY_BOOK, OnTicker(forwarded, t), BooksAfter(log[..k])[t])
  }

  /** Queued increments are updates of the feed under their own numbers. */
  ghost predicate Queued(log: seq<MarketUpdate>, q: Queue) {
    forall i {:trigger i in q} :: i in q ==> 1 <= i <= |log| && q[i] == log[i - 1]
  }

  /** The snapshot queue is made of these messages, taken from the snapshot stream in order. */
  ghost predicate Assembled(log: seq<MarketUpdate>, cycles: seq<nat>, q: Queue, tags: seq<Packet>)
    requires Broadcast(log, cycles)
  {
    && (forall i: nat {:trigger i in q} :: i in q <==> i < |tags|)
    && (forall i {:trigger tags[i]} :: 0 <= i < |tags| ==>
          tags[i].pos == i && Genuine(log, cycles, tags[i]) && q[i] == MessageOf(log, cycles, tags[i]).update)
    && (forall i, j {:trigger tags[i], tags[j]} :: 0 <= i <= j < |tags| ==> tags[i].cycle <= tags[j].cycle)
  }

  ghost predicate Sound(log: seq<MarketUpdate>, cycles: seq<nat>, c: Consumer, k: nat, tags: seq<Packet>)
    requires Broadcast(log, cycles)
  {
    && k <= |log| && UpTo(log, c.forwarded, k)
    && (!c.inRecovery ==> c.nextExpIncSeqNum == k + 1)
    && Queued(log, c.incrementalQueue) && Assembled(log, cycles, c.snapshotQueue, tags)
  }

  // --- Accepting a snapshot ----------------------------------------------------------------------------------

  lemma UpdatesAt(ms: seq<Sequenced>, i: nat)
    ensures |Updates(ms)| == |ms| && (i < |ms| ==> Updates(ms)[i] == ms[i].update)
  {
  }

  lemma MarkersMark(k: nat)
    ensures IsMarker(Marker(SnapshotStart, k, TICKER_ID_INVALID)) && IsMarker(Marker(SnapshotEnd, k, TICKER_ID_INVALID))
  {
  }

  lemma CycleShape(log: seq<MarketUpdate>, k: nat)
    requires k <= |log| && Publishable(log[..k])
    ensures var c, ps := CycleAt(log, k), Parts(ReplicaAfter(log[..k]), ME_MAX_TICKERS);
      && |c| == |ps| + 2
      && Updates(c) == [Marker(SnapshotStart, k, TICKER_ID_INVALID)] + ps + [Marker(SnapshotEnd, k, TICKER_ID_INVALID)]
      && (forall u :: u in ps ==> !IsMarker(u))
  {
    hide Publishable;
    hide ReplicaAfter;
    hide Parts;
    var rs := ReplicaAfter(log[..k]);
    PartsOn(rs, log[..k], ME_MAX_TICKERS, 0);
  }

  lemma FramedMarkers(c: seq<Sequenced>, ps: seq<MarketUpdate>, k: nat, i: nat)
    requires |c| == |ps| + 2 && i < |c| && forall u :: u in ps ==> !IsMarker(u)
    requires Updates(c) == [Marker(SnapshotStart, k, TICKER_ID_INVALID)] + ps
      + [Marker(SnapshotEnd, k, TICKER_ID_INVALID)]
    ensures (c[i].update.kind == SnapshotStart <==> i == 0) && (c[i].update.kind == SnapshotEnd <==> i == |c| - 1)
    ensures IsMarker(c[i].update) ==> c[i].update.orderId == k
  {
    assert c[i].update == Updates(c)[i];
    if 0 < i < |c| - 1 { assert Updates(c)[i] == ps[i - 1] && ps[i - 1] in ps; }
  }

  /** Only the first message of a cycle is a start marker and only the last an end marker, and both name its point. */
  lemma CycleMarkers(log: seq<MarketUpdate>, k: nat, i: nat)
    requires k <= |log| && Publishable(log[..k]) && i < |CycleAt(log, k)|
    ensures var c := CycleAt(log, k);
      && (c[i].update.kind == SnapshotStart <==> i == 0) && (c[i].update.kind == SnapshotEnd <==> i == |c| - 1)
      && (IsMarker(c[i].update) ==> c[i].update.orderId == k)
  {
    hide CycleAt;
    hide Publishable;
    hide ReplicaAfter;
    hide Parts;
    hide Updates;
    CycleShape(log, k);
    FramedMarkers(CycleAt(log, k), Parts(ReplicaAfter(log[..k]), ME_MAX_TICKERS), k, i);
  }

  lemma TaggedMessage(log: seq<MarketUpdate>, cycles: seq<nat>, q: Queue, tags: seq<Packet>, i: nat)
    requires Broadcast(log, cycles) && Assembled(log, cycles, q, tags) && i < |tags|
    ensures i in q && tags[i].cycle < |cycles| && cycles[tags[i].cycle] <= |log|
    ensures Publishable(log[..cycles[tags[i].cycle]]) && IdsBelow(log[..cycles[tags[i].cycle]])
    ensures var c := CycleAt(log, cycles[tags[i].cycle]); i < |c| && q[i] == c[i].update
    ensures cycles[tags[0].cycle] <= cycles[tags[i].cycle] <= cycles[tags[|tags| - 1].cycle]
  {
    hide CycleAt;
    hide Publishable;
    hide IdsBelow;
    assert tags[0].cycle <= tags[i].cycle <= tags[|tags| - 1].cycle;
    assert Genuine(log, cycles, tags[0]) && Genuine(log, cycles, tags[|tags| - 1]);
  }

  /** The markers of a complete snapshot name the points its first and its last message are from. */
  lemma CompleteEnds(log: seq<MarketUpdate>, cycles: seq<nat>, q: Queue, tags: seq<Packet>)
    requires Broadcast(log, cycles) && Assembled(log, cycles, q, tags) && q != map[] && Contiguous(q)
    requires q[0].kind == SnapshotStart && q[|q| - 1].kind == SnapshotEnd
    ensures |tags| == |q| > 0 && tags[0].cycle < |cycles| && tags[|q| - 1].cycle < |cycles|
    ensures q[0].orderId == cycles[tags[0].cycle]
    ensures var k := q[|q| - 1].orderId;
      && k == cycles[tags[|q| - 1].cycle] && k <= |log| && Publishable(log[..k]) && IdsBelow(log[..k])
      && |CycleAt(log, k)| == |q|
  {
    hide Assembled;
    hide Broadcast;
    hide Publishable;
    hide IdsBelow;
    hide CycleAt;
    var n := Tagged(log, cycles, q, tags);
    TaggedMessage(log, cycles, q, tags, 0);
    TaggedMessage(log, cycles, q, tags, n - 1);
    CycleMarkers(log, cycles[tags[0].cycle], 0);
    CycleMarkers(log, cycles[tags[n - 1].cycle], n - 1);
  }

  /** The first and the last message name the same point of the feed, so every message between them reflects it too. */
  lemma AcceptedSnapshot(log: seq<MarketUpdate>, cycles: seq<nat>, q: Queue, tags: seq<Packet>)
    requires Broadcast(log, cycles) && Assembled(log, cycles, q, tags) && q != map[] && Contiguous(q)
    requires q[0].kind == SnapshotStart && q[|q| - 1].kind == SnapshotEnd && q[0].orderId == q[|q| - 1].orderId
    ensures var k := q[|q| - 1].orderId;
      && k <= |log| && IdsBelow(log[..k])
      && Unmarked(Listed(q, 0, |q|)) == Parts(ReplicaAfter(log[..k]), ME_MAX_TICKERS)
  {
    hide Assembled;
    hide Broadcast;
    hide Publishable;
    hide IdsBelow;
    hide Unmarked;
    hide CycleAt;
    hide Updates;
    hide ReplicaAfter;
    hide Parts;
    hide IsMarker;
    CompleteEnds(log, cycles, q, tags);
    var n, k := |q|, q[|q| - 1].orderId;
    CycleShape(log, k);
    var c, ps := CycleAt(log, k), Parts(ReplicaAfter(log[..k]), ME_MAX_TICKERS);
    var us := Listed(q, 0, n);
    forall i | 0 <= i < n ensures us[i] == Updates(c)[i] {
      SameCycle(log, cycles, q, tags, i);
      UpdatesAt(c, i);
    }
    assert us == Updates(c);
    MarkersMark(k);
    UnmarkedCycle(us[0], ps, us[n - 1]);
  }

  lemma SameCycle(log: seq<MarketUpdate>, cycles: seq<nat>, q: Queue, tags: seq<Packet>, i: nat)
    requires Broadcast(log, cycles) && Assembled(log, cycles, q, tags) && i < |tags|
    requires tags[0].cycle < |cycles| && tags[|tags| - 1].cycle < |cycles|
    requires cycles[tags[0].cycle] == cycles[tags[|tags| - 1].cycle] <= |log|
    ensures Publishable(log[..cycles[tags[0].cycle]])
    ensures var c := CycleAt(log, cycles[tags[0].cycle]); i in q && i < |c| && q[i] == c[i].update
  {
    hide CycleAt;
    hide Assembled;
    hide Broadcast;
    hide Publishable;
    hide IdsBelow;
    TaggedMessage(log, cycles, q, tags, i);
  }

  lemma Tagged(log: seq<MarketUpdate>, cycles: seq<nat>, q: Queue, tags: seq<Packet>) returns (n: nat)
    requires Broadcast(log, cycles) && Assembled(log, cycles, q, tags)
    ensures n == |tags| == |q| && Contiguous(q)
  {
    ContiguousUpTo(q, |tags|);
    n := |q|;
  }

  lemma PlainStretch(log: seq<MarketUpdate>, cycles: seq<nat>, i: nat, j: nat)
    requires Broadcast(log, cycles) && i <= j <= |log|
    ensures forall u :: u in log[i..j] ==> !IsMarker(u)
  {
    hide Publishable;
    hide Replays;
    hide OnTicker;
    hide BooksAfter;
    hide IsMarker;
    FeedReplays(log, cycles, i, j, 0);
  }

  lemma ListedStretch(log: seq<MarketUpdate>, q: Queue, k: nat, end: nat)
    requires Queued(log, q) && k <= |log| && k + 1 <= end && forall i {:trigger i in q} :: k + 1 <= i < end ==> i in q
    ensures end - 1 <= |log| && Listed(q, k + 1, end) == log[k..end - 1]
  {
    hide Listed;
    if k + 1 < end { assert end - 1 in q; }
    var us := Listed(q, k + 1, end);
    forall i | 0 <= i < |us| ensures us[i] == log[k + i] {
      assert k + 1 + i in q && us[i] == q[k + 1 + i];
    }
    assert us == log[k..end - 1];
  }

  /** The queued run of increments is a stretch of the feed. */
  lemma QueuedRun(log: seq<MarketUpdate>, cycles: seq<nat>, q: Queue, k: nat, end: nat)
    requires Broadcast(log, cycles) && Queued(log, q) && k <= |log| && end == RunEnd(q, k + 1)
    ensures end - 1 <= |log| && Unmarked(Listed(q, k + 1, end)) == log[k..end - 1]
  {
    hide RunEnd;
    hide Listed;
    hide Broadcast;
    hide Unmarked;
    hide IsMarker;
    ListedStretch(log, q, k, end);
    PlainStretch(log, cycles, k, end - 1);
    UnmarkedPlain(log[k..end - 1]);
  }

  /** A snapshot and the increments after it bring any stream that was once right up to date. */
  lemma Spliced(log: seq<MarketUpdate>, cycles: seq<nat>, forwarded: seq<MarketUpdate>, was: nat, k: nat, now: nat)
    requires Broadcast(log, cycles) && was <= |log| && k <= now <= |log| && UpTo(log, forwarded, was)
      && IdsBelow(log[..k])
    ensures UpTo(log, forwarded + Parts(ReplicaAfter(log[..k]), ME_MAX_TICKERS) + log[k..now], now)
  {
    var rs := ReplicaAfter(log[..k]);
    var ps := Parts(rs, ME_MAX_TICKERS);
    forall t {:trigger BooksAfter(log[..now])[t]} | 0 <= t < ME_MAX_TICKERS
      ensures Replays(EMPTY_BOOK, OnTicker(forwarded + ps + log[k..now], t), BooksAfter(log[..now])[t])
    {
      SplicedOn(log, cycles, forwarded, was, k, now, t);
    }
  }

  lemma SplicedOn(log: seq<MarketUpdate>, cycles: seq<nat>, forwarded: seq<MarketUpdate>, was: nat, k: nat, now: nat,
      t: TickerId)
    requires Broadcast(log, cycles) && was <= |log| && k <= now <= |log| && UpTo(log, forwarded, was)
      && t < ME_MAX_TICKERS
    requires IdsBelow(log[..k])
    ensures Replays(EMPTY_BOOK, OnTicker(forwarded + Parts(ReplicaAfter(log[..k]), ME_MAX_TICKERS) + log[k..now], t),
                    BooksAfter(log[..now])[t])
  {
    hide Publishable;
    hide BooksAfter;
    hide Replays;
    hide WellFormed;
    hide Mirrors;
    hide ReplicaAfter;
    hide OnTicker;
    hide Parts;
    hide TickerPart;
    var rs := ReplicaAfter(log[..k]);
    var ps, before := Parts(rs, ME_MAX_TICKERS), BooksAfter(log[..was])[t];
    var b := BooksAfter(log[..k])[t];
    PartsOn(rs, log[..k], ME_MAX_TICKERS, t);
    BooksWellFormed(log[..k], t);
    forall id: OrderId | RestsIn(b, id) ensures id < ME_MAX_ORDER_IDS {
      BooksIdsBelow(log[..k], t, id);
    }
    assert Mirrors(rs[t], b, t);
    SnapshotRebuilds(rs[t], b, t, before);
    OnTickerAppend(forwarded, ps, t);
    ReplaysAppend(EMPTY_BOOK, OnTicker(forwarded, t), before, OnTicker(ps, t), b);
    FeedReplays(log, cycles, k, now, t);
    OnTickerAppend(forwarded + ps, log[k..now], t);
    ReplaysAppend(EMPTY_BOOK, OnTicker(forwarded + ps, t), b, OnTicker(log[k..now], t), BooksAfter(log[..now])[t]);
  }

  /** The check takes the snapshot in: it is complete, and the queued increments continue it without a gap. */
  ghost predicate TakesIn(c: Consumer) {
    var q := c.snapshotQueue;
    Complete(c) && !exists i :: i in c.incrementalQueue && RunEnd(c.incrementalQueue, q[|q| - 1].orderId + 1) < i
  }

  /**
   The guard the consumer itself lacks: the start and the end of a snapshot it takes in name the same point of the feed.
   */
  ghost predicate Matched(c: Consumer) {
    var q := c.snapshotQueue;
    TakesIn(c) ==> q[0].orderId == q[|q| - 1].orderId
  }

  /** The check ends recovery exactly if it takes the snapshot in. */
  lemma TakingInEndsRecovery(c: Consumer)
    requires c.inRecovery
    ensures TakesIn(c) <==> !CheckSnapshotSync(c).inRecovery
  {
    hide CheckSnapshotSync;
    hide RunEnd;
    LeavesRecovery(c);
  }

  lemma NotContiguousCleared(c: Consumer)
    requires c.snapshotQueue != map[] && !Contiguous(c.snapshotQueue)
    ensures CheckSnapshotSync(c) == c.(snapshotQueue := map[])
  {
  }

  lemma EmptyAssembled(log: seq<MarketUpdate>, cycles: seq<nat>)
    requires Broadcast(log, cycles)
    ensures Assembled(log, cycles, map[], [])
  {
  }

  /** What checking does once the snapshot queue has no gap. */
  lemma CheckedContiguous(c: Consumer)
    requires c.snapshotQueue != map[] && Contiguous(c.snapshotQueue)
    ensures var q := c.snapshotQueue;
      && 0 in q && |q| - 1 in q
      && var from := q[|q| - 1].orderId + 1;
         var end := RunEnd(c.incrementalQueue, from);
         CheckSnapshotSync(c) ==
           if q[0].kind != SnapshotStart then c.(snapshotQueue := map[])
           else if q[|q| - 1].kind != SnapshotEnd then c
           else if exists k :: k in c.incrementalQueue && end < k
             then c.(snapshotQueue := map[], nextExpIncSeqNum := end)
           else Consumer(end, false, map[], map[],
                         c.forwarded + Unmarked(Listed(q, 0, |q|)) + Unmarked(Listed(c.incrementalQueue, from, end)))
  {
    hide RunEnd;
    hide Listed;
    hide Unmarked;
    var q := c.snapshotQueue;
    assert 0 in q && Least(q.Keys) == 0;
  }

  /** An accepted snapshot with the increments that continue it brings the client up to the last of them. */
  lemma AcceptingIsSound(log: seq<MarketUpdate>, cycles: seq<nat>, c: Consumer, k: nat, tags: seq<Packet>)
    requires Broadcast(log, cycles) && Sound(log, cycles, c, k, tags) && TakesIn(c) && Matched(c)
    ensures var q := c.snapshotQueue;
      var from := q[|q| - 1].orderId + 1;
      var end := RunEnd(c.incrementalQueue, from);
      && end - 1 <= |log|
      && UpTo(log, c.forwarded + Unmarked(Listed(q, 0, |q|)) + Unmarked(Listed(c.incrementalQueue, from, end)), end - 1)
  {
    hide Broadcast;
    hide UpTo;
    hide Listed;
    hide Unmarked;
    hide RunEnd;
    hide Queued;
    hide Assembled;
    hide Publishable;
    hide ReplicaAfter;
    hide Parts;
    var q := c.snapshotQueue;
    AcceptedSnapshot(log, cycles, q, tags);
    var at := q[|q| - 1].orderId;
    var end := RunEnd(c.incrementalQueue, at + 1);
    QueuedRun(log, cycles, c.incrementalQueue, at, end);
    Spliced(log, cycles, c.forwarded, k, at, end - 1);
  }

  lemma GapFree(log: seq<MarketUpdate>, cycles: seq<nat>, q: Queue, tags: seq<Packet>)
    requires Broadcast(log, cycles) && Assembled(log, cycles, q, tags)
    ensures Contiguous(q) && Queued(log, map[])
  {
    ContiguousUpTo(q, |tags|);
  }

  /** Whatever checking for a complete snapshot does, it leaves a sound state. */
  lemma CheckKeepsSound(log: seq<MarketUpdate>, cycles: seq<nat>, c: Consumer, k: nat, tags: seq<Packet>)
    returns (now: nat, left: seq<Packet>)
    requires Broadcast(log, cycles) && Sound(log, cycles, c, k, tags) && c.inRecovery && Matched(c)
    ensures Sound(log, cycles, CheckSnapshotSync(c), now, left) && left in {tags, []}
  {
    hide Broadcast;
    hide UpTo;
    hide Listed;
    hide Unmarked;
    hide RunEnd;
    hide Queued;
    hide Assembled;
    hide Contiguous;
    EmptyAssembled(log, cycles);
    GapFree(log, cycles, c.snapshotQueue, tags);
    now, left := k, tags;
    var q := c.snapshotQueue;
    if q != map[] {
      CheckedContiguous(c);
      hide CheckSnapshotSync;
      if q[0].kind != SnapshotStart {
        left := [];
      } else if q[|q| - 1].kind == SnapshotEnd {
        left := [];
        if !exists i :: i in c.incrementalQueue && RunEnd(c.incrementalQueue, q[|q| - 1].orderId + 1) < i {
          AcceptingIsSound(log, cycles, c, k, tags);
          now := RunEnd(c.incrementalQueue, q[|q| - 1].orderId + 1) - 1;
        }
      }
    }
  }

  // --- One message -------------------------------------------------------------------------------------------

  ghost predicate Behind(tags: seq<Packet>, p: Packet) {
    forall i {:trigger tags[i]} :: 0 <= i < |tags| ==> Later(tags[i], p)
  }

  /** A consumer that is about to queue a message. */
  function Recovering(c: Consumer): Consumer {
    if c.inRecovery then c else StartSnapshotSync(c).(inRecovery := true)
  }

  lemma RecoveringSound(log: seq<MarketUpdate>, cycles: seq<nat>, c: Consumer, k: nat, tags: seq<Packet>)
    returns (left: seq<Packet>)
    requires Broadcast(log, cycles) && Sound(log, cycles, c, k, tags)
    ensures Sound(log, cycles, Recovering(c), k, left) && left in {tags, []}
  {
    EmptyAssembled(log, cycles);
    left := if c.inRecovery then tags else [];
  }

  /** Queueing a snapshot message keeps the queue a stretch of the stream, or makes it one with a gap. */
  lemma EnqueueSnapshot(log: seq<MarketUpdate>, cycles: seq<nat>, q: Queue, tags: seq<Packet>, p: Packet)
    returns (now: seq<Packet>)
    requires Broadcast(log, cycles) && Assembled(log, cycles, q, tags) && Genuine(log, cycles, p) && Behind(tags, p)
    ensures var m := MessageOf(log, cycles, p);
      var r := (if m.seqNum in q then map[] else q)[m.seqNum := m.update];
      && r != map[]
      && (Contiguous(r) ==> Assembled(log, cycles, r, now) && forall i {:trigger now[i]} :: 0 <= i < |now| ==>
        now[i] == p || now[i] in tags)
  {
    hide Genuine;
    hide MessageOf;
    hide Publishable;
    var m := MessageOf(log, cycles, p);
    var base := if p.pos in q then [] else tags;
    var r := (if m.seqNum in q then map[] else q)[m.seqNum := m.update];
    assert p.pos in r;
    now := base + [p];
    if Contiguous(r) {
      ContiguousUpTo(if p.pos in q then map[] else q, |base|);
      assert |r| == |base| + 1;
      assert p.pos == |base| by {
        assert |base| in r;
      }
    }
  }

  /** One snapshot message keeps the state sound, if the guard holds for the snapshot it may complete. */
  lemma TakeSnapshot(log: seq<MarketUpdate>, cycles: seq<nat>, c: Consumer, k: nat, tags: seq<Packet>, p: Packet)
    returns (now: nat, left: seq<Packet>)
    requires Broadcast(log, cycles) && Sound(log, cycles, c, k, tags) && Genuine(log, cycles, p) && Behind(tags, p)
    requires Matched(Enqueue(Recovering(c), true, MessageOf(log, cycles, p)))
    ensures Sound(log, cycles, Take(c, true, MessageOf(log, cycles, p)), now, left)
    ensures forall q :: Later(p, q) ==> Behind(left, q)
  {
    hide Broadcast;
    hide UpTo;
    hide Queued;
    hide Assembled;
    hide CheckSnapshotSync;
    hide Contiguous;
    var m := MessageOf(log, cycles, p);
    now, left := k, tags;
    if c.inRecovery || m.seqNum != c.nextExpIncSeqNum {
      var ready := RecoveringSound(log, cycles, c, k, tags);
      var d := Enqueue(Recovering(c), true, m);
      left := EnqueueSnapshot(log, cycles, Recovering(c).snapshotQueue, ready, p);
      if Contiguous(d.snapshotQueue) {
        now, left := CheckKeepsSound(log, cycles, d, k, left);
      } else {
        NotContiguousCleared(d);
        EmptyAssembled(log, cycles);
        left := [];
      }
    }
  }

  /** One increment, whichever it is, keeps the state sound. */
  lemma TakeIncrement(log: seq<MarketUpdate>, cycles: seq<nat>, c: Consumer, k: nat, tags: seq<Packet>, i: nat)
    returns (now: nat, left: seq<Packet>)
    requires Broadcast(log, cycles) && Sound(log, cycles, c, k, tags) && i < |log|
    requires Matched(Enqueue(Recovering(c), false, Sequenced(i + 1, log[i])))
    ensures Sound(log, cycles, Take(c, false, Sequenced(i + 1, log[i])), now, left) && left in {tags, []}
  {
    hide Broadcast;
    hide Assembled;
    hide CheckSnapshotSync;
    hide UpTo;
    hide Publishable;
    hide Contiguous;
    var m := Sequenced(i + 1, log[i]);
    now, left := k, tags;
    if c.inRecovery || m.seqNum != c.nextExpIncSeqNum {
      left := RecoveringSound(log, cycles, c, k, tags);
      var d := Enqueue(Recovering(c), false, m);
      now, left := CheckKeepsSound(log, cycles, d, k, left);
    } else {
      now := k + 1;
      ForwardOne(log, cycles, c.forwarded, k);
    }
  }

  lemma ForwardOne(log: seq<MarketUpdate>, cycles: seq<nat>, forwarded: seq<MarketUpdate>, k: nat)
    requires Broadcast(log, cycles) && k < |log| && UpTo(log, forwarded, k)
    ensures Publishable(log[..k + 1]) && UpTo(log, forwarded + [log[k]], k + 1)
  {
    hide Publishable;
    hide Replays;
    hide BooksAfter;
    hide OnTicker;
    assert log[k..k + 1] == [log[k]];
    forall t {:trigger BooksAfter(log[..k + 1])[t]} | 0 <= t < ME_MAX_TICKERS
      ensures Replays(EMPTY_BOOK, OnTicker(forwarded + [log[k]], t), BooksAfter(log[..k + 1])[t])
    {
      FeedReplays(log, cycles, k, k + 1, t);
      OnTickerAppend(forwarded, [log[k]], t);
      assert Replays(EMPTY_BOOK, OnTicker(forwarded, t), BooksAfter(log[..k])[t]);
      ReplaysAppend(EMPTY_BOOK, OnTicker(forwarded, t), BooksAfter(log[..k])[t], OnTicker([log[k]], t),
        BooksAfter(log[..k + 1])[t]);
    }
  }

  // --- Whole runs --------------------------------------------------------------------------------------------

  /** A delivery of messages that were sent. */
  ghost predicate Deliverable(log: seq<MarketUpdate>, cycles: seq<nat>, d: Delivery)
    requires Broadcast(log, cycles)
  {
    match d
    case Increments(places) => forall i {:trigger places[i]} :: 0 <= i < |places| ==> places[i] < |log|
    case SnapshotPackets(packets) => forall i {:trigger packets[i]} :: 0 <= i < |packets| ==>
      Genuine(log, cycles, packets[i])
  }

  ghost function Messages(log: seq<MarketUpdate>, cycles: seq<nat>, d: Delivery): seq<Sequenced>
    requires Broadcast(log, cycles) && Deliverable(log, cycles, d)
  {
    match d
    case Increments(places) =>
      seq(|places|, i requires 0 <= i < |places| => Sequenced(places[i] + 1, log[places[i]]))
    case SnapshotPackets(packets) =>
      seq(|packets|, i requires 0 <= i < |packets| => MessageOf(log, cycles, packets[i]))
  }

  /** Snapshot messages arrive in the order they were sent, if they arrive. */
  ghost predicate InOrder(packets: seq<Packet>) {
    forall i, j {:trigger packets[i], packets[j]} :: 0 <= i < j < |packets| ==> Later(packets[i], packets[j])
  }

  function AllPackets(ds: seq<Delivery>): seq<Packet> {
    if ds == [] then []
    else AllPackets(ds[..|ds| - 1]) + (if ds[|ds| - 1].SnapshotPackets? then ds[|ds| - 1].packets else [])
  }

  /** Every snapshot the messages of a buffer make the consumer take in has a matching start and end. */
  ghost predicate AllMatched(c: Consumer, isSnapshot: bool, ms: seq<Sequenced>) {
    forall j {:trigger ms[j]} :: 0 <= j < |ms| ==>
      Matched(Enqueue(Recovering(TakeAll(c, isSnapshot, ms[..j])), isSnapshot, ms[j]))
  }

  /**
   A run over this network: every delivery is of sent messages, and every snapshot taken in has a matching start and
   end. Nothing is asked of a snapshot that a gap in the increments makes the consumer discard, or of a buffer it drops
   unread.
   */
  ghost predicate Run(log: seq<MarketUpdate>, cycles: seq<nat>, ds: seq<Delivery>)
    requires Broadcast(log, cycles)
    decreases |ds|, 0
  {
    ds == [] ||
    var most, d := ds[..|ds| - 1], ds[|ds| - 1];
    && Run(log, cycles, most) && Deliverable(log, cycles, d)
    && var c := After(log, cycles, most);
       (d.SnapshotPackets? && !c.inRecovery) || AllMatched(c, d.SnapshotPackets?, Messages(log, cycles, d))
  }

  /** The consumer after these deliveries. */
  ghost function After(log: seq<MarketUpdate>, cycles: seq<nat>, ds: seq<Delivery>): Consumer
    requires Broadcast(log, cycles) && Run(log, cycles, ds)
    decreases |ds|, 1
  {
    if ds == [] then NEW_CONSUMER
    else
      var d := ds[|ds| - 1];
      Receive(After(log, cycles, ds[..|ds| - 1]), d.SnapshotPackets?, Messages(log, cycles, d))
  }

  lemma MatchedPrefix(c: Consumer, isSnapshot: bool, ms: seq<Sequenced>)
    requires AllMatched(c, isSnapshot, ms) && ms != []
    ensures AllMatched(c, isSnapshot, ms[..|ms| - 1])
    ensures Matched(Enqueue(Recovering(TakeAll(c, isSnapshot, ms[..|ms| - 1])), isSnapshot, ms[|ms| - 1]))
  {
    hide Matched;
    hide TakeAll;
    var most := ms[..|ms| - 1];
    forall j {:trigger most[j]} | 0 <= j < |most|
      ensures Matched(Enqueue(Recovering(TakeAll(c, isSnapshot, most[..j])), isSnapshot, most[j]))
    {
      assert ms[..j] == most[..j] && ms[j] == most[j];
    }
    var last := ms[|ms| - 1];
  }

  lemma {:induction false} TakeIncrements(log: seq<MarketUpdate>, cycles: seq<nat>, c: Consumer, k: nat,
      tags: seq<Packet>, places: seq<nat>) returns (now: nat, left: seq<Packet>)
    requires Broadcast(log, cycles) && Sound(log, cycles, c, k, tags) && Deliverable(log, cycles, Increments(places))
    requires AllMatched(c, false, Messages(log, cycles, Increments(places)))
    ensures Sound(log, cycles, TakeAll(c, false, Messages(log, cycles, Increments(places))), now, left)
      && left in {tags, []}
    decreases |places|
  {
    hide Broadcast;
    hide Sound;
    hide Take;
    hide Matched;
    hide AllMatched;
    var n := |places| - 1;
    now, left := k, tags;
    if places != [] {
      var ms, most := Messages(log, cycles, Increments(places)), Messages(log, cycles, Increments(places[..n]));
      assert ms[..n] == most;
      MatchedPrefix(c, false, ms);
      now, left := TakeIncrements(log, cycles, c, k, tags, places[..n]);
      var last := ms[n];
      now, left := TakeIncrement(log, cycles, TakeAll(c, false, most), now, left, places[n]);
    }
  }

  lemma {:induction false} TakeSnapshots(log: seq<MarketUpdate>, cycles: seq<nat>, c: Consumer, k: nat,
      tags: seq<Packet>, packets: seq<Packet>) returns (now: nat, left: seq<Packet>)
    requires Broadcast(log, cycles) && Sound(log, cycles, c, k, tags)
      && Deliverable(log, cycles, SnapshotPackets(packets))
    requires AllMatched(c, true, Messages(log, cycles, SnapshotPackets(packets)))
    requires InOrder(packets) && forall i {:trigger packets[i]} :: 0 <= i < |packets| ==> Behind(tags, packets[i])
    ensures Sound(log, cycles, TakeAll(c, true, Messages(log, cycles, SnapshotPackets(packets))), now, left)
    ensures forall q :: Behind(tags, q) && Behind(packets, q) ==> Behind(left, q)
    decreases |packets|
  {
    hide Broadcast;
    hide Sound;
    hide Take;
    hide Matched;
    hide Genuine;
    hide MessageOf;
    hide AllMatched;
    var n := |packets| - 1;
    now, left := k, tags;
    if packets != [] {
      var ms, most := Messages(log, cycles, SnapshotPackets(packets)),
        Messages(log, cycles, SnapshotPackets(packets[..n]));
      assert ms[..n] == most;
      MatchedPrefix(c, true, ms);
      now, left := TakeSnapshots(log, cycles, c, k, tags, packets[..n]);
      assert Behind(packets[..n], packets[n]) by {
        forall i {:trigger packets[..n][i]} | 0 <= i < n ensures Later(packets[..n][i], packets[n]) {
          assert packets[..n][i] == packets[i];
        }
      }
      var last := ms[n];
      now, left := TakeSnapshot(log, cycles, TakeAll(c, true, most), now, left, packets[n]);
      forall q | Behind(packets, q) ensures Later(packets[n], q) {
        assert packets[n] == packets[n];
      }
    }
  }

  /**
   In every run: between callbacks what was passed on replays to the books after some prefix of the feed, and whenever
   the consumer is not recovering that prefix is exactly the updates before the one it expects next.
   */
  lemma {:induction false} Recovers(log: seq<MarketUpdate>, cycles: seq<nat>, ds: seq<Delivery>)
    returns (k: nat, tags: seq<Packet>)
    requires Broadcast(log, cycles) && Run(log, cycles, ds) && InOrder(AllPackets(ds))
    ensures Sound(log, cycles, After(log, cycles, ds), k, tags)
    ensures forall q :: Behind(AllPackets(ds), q) ==> Behind(tags, q)
    decreases |ds|
  {
    hide Broadcast;
    hide Sound;
    hide AllMatched;
    hide Deliverable;
    hide Messages;
    hide TakeAll;
    if ds == [] {
      StartsSound(log, cycles);
      k, tags := 0, [];
    } else {
      var most, d := ds[..|ds| - 1], ds[|ds| - 1];
      var ps := AllPackets(most);
      assert InOrder(ps) by {
        forall i, j {:trigger ps[i], ps[j]} | 0 <= i < j < |ps| ensures Later(ps[i], ps[j]) {
          assert AllPackets(ds)[i] == ps[i] && AllPackets(ds)[j] == ps[j];
        }
      }
      k, tags := Recovers(log, cycles, most);
      var c := After(log, cycles, most);
      if d.Increments? {
        assert AllPackets(ds) == ps;
        k, tags := TakeIncrements(log, cycles, c, k, tags, d.places);
      } else {
        OrderedAfter(ps, d.packets);
        if c.inRecovery {
          k, tags := TakeSnapshots(log, cycles, c, k, tags, d.packets);
        }
      }
    }
  }

  lemma OrderedAfter(a: seq<Packet>, b: seq<Packet>)
    requires InOrder(a + b)
    ensures InOrder(b) && forall i {:trigger b[i]} :: 0 <= i < |b| ==> Behind(a, b[i])
    ensures forall q :: Behind(a + b, q) ==> Behind(a, q) && Behind(b, q)
  {
    var ab := a + b;
    forall i, j {:trigger b[i], b[j]} | 0 <= i < j < |b| ensures Later(b[i], b[j]) {
      assert ab[|a| + i] == b[i] && ab[|a| + j] == b[j];
    }
    forall i, j {:trigger a[j], b[i]} | 0 <= i < |b| && 0 <= j < |a| ensures Later(a[j], b[i]) {
      assert ab[|a| + i] == b[i] && ab[j] == a[j];
    }
    forall q, j {:trigger Later(a[j], q)} | Behind(ab, q) && 0 <= j < |a| ensures Later(a[j], q) {
      assert ab[j] == a[j];
    }
    forall q, j {:trigger Later(b[j], q)} | Behind(ab, q) && 0 <= j < |b| ensures Later(b[j], q) {
      assert ab[|a| + j] == b[j];
    }
  }

  lemma StartsSound(log: seq<MarketUpdate>, cycles: seq<nat>)
    requires Broadcast(log, cycles)
    ensures Sound(log, cycles, NEW_CONSUMER, 0, [])
  {
    assert log[..0] == [];
    EmptyAssembled(log, cycles);
  }

  /** The same, said without the bookkeeping. */
  lemma RecoverySafe(log: seq<MarketUpdate>, cycles: seq<nat>, ds: seq<Delivery>)
    requires Broadcast(log, cycles) && Run(log, cycles, ds) && InOrder(AllPackets(ds))
    ensures var c := After(log, cycles, ds);
      && (exists k :: 0 <= k <= |log| && UpTo(log, c.forwarded, k))
      && (!c.inRecovery ==> 1 <= c.nextExpIncSeqNum <= |log| + 1 && UpTo(log, c.forwarded, c.nextExpIncSeqNum - 1))
  {
    hide Broadcast;
    hide UpTo;
    hide Assembled;
    hide Queued;
    var k, tags := Recovers(log, cycles, ds);
  }

  lemma UpToAt(log: seq<MarketUpdate>, forwarded: seq<MarketUpdate>, k: nat, t: TickerId)
    requires k <= |log| && Publishable(log[..k]) && UpTo(log, forwarded, k) && t < ME_MAX_TICKERS
    ensures Replays(EMPTY_BOOK, OnTicker(forwarded, t), BooksAfter(log[..k])[t])
  {
    assert Publishable(log[..k]);
  }

  /**
   From the engine to the client: a consumer that has caught up with all the engine sent passes on exactly its books.
   */
  lemma ClientMatchesExchange(rs: seq<ClientRequest>, cycles: seq<nat>, ds: seq<Delivery>, t: TickerId)
    requires Runs.LegalRun(rs) && t < ME_MAX_TICKERS
    requires Broadcast(Runs.Run(rs).updates, cycles)
    requires Run(Runs.Run(rs).updates, cycles, ds) && InOrder(AllPackets(ds))
    requires var c := After(Runs.Run(rs).updates, cycles, ds);
      !c.inRecovery && c.nextExpIncSeqNum == |Runs.Run(rs).updates| + 1
    ensures var c := After(Runs.Run(rs).updates, cycles, ds);
      Replays(EMPTY_BOOK, OnTicker(c.forwarded, t), Runs.Run(rs).market[t].book)
  {
    hide Broadcast;
    hide Run;
    hide After;
    hide UpTo;
    hide Publishable;
    hide BooksAfter;
    hide Replays;
    hide Runs.Run;
    hide Runs.LegalRun;
    var log := Runs.Run(rs).updates;
    EngineFeed(rs);
    RecoverySafe(log, cycles, ds);
    assert log[..|log|] == log;
    UpToAt(log, After(log, cycles, ds).forwarded, |log|, t);
    assert BooksAfter(log)[t] == Runs.Run(rs).market[t].book;
  }

  /**
   The same without losses: however the published feed is cut into reads, and whatever is read from the snapshot stream
   in between, the client has passed on exactly what the engine sent, and it replays to the engine's books.
   */
  lemma ClientKeepsUp(requests: seq<ClientRequest>, rs: seq<SocketRead>, t: TickerId)
    requires Runs.LegalRun(requests) && t < ME_MAX_TICKERS
    requires IncrementsRead(rs) == Stamped(Runs.Run(requests).updates)
    ensures var c, s := AfterReads(NEW_CONSUMER, rs), Runs.Run(requests);
      && !c.inRecovery && c.nextExpIncSeqNum == |s.updates| + 1 && c.forwarded == s.updates
      && Replays(EMPTY_BOOK, OnTicker(c.forwarded, t), s.market[t].book)
  {
    hide AfterReads;
    hide Replays;
    hide Runs.Run;
    hide Runs.LegalRun;
    LosslessFeed(rs);
    assert Updates(Stamped(Runs.Run(requests).updates)) == Runs.Run(requests).updates;
    RunReplays(requests, t);
  }
}
