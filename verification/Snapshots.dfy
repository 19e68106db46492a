/**
 The snapshot synthesizer: a replica of every book built from the incremental feed, and the snapshot cycles it sends.
 */
module Snapshots {
  import opened Types
  import opened PriceTime
  import opened Matching
  import opened Replication
  import opened Rebuild
  import opened Feed

  // An update with its place in its stream.
  datatype Sequenced = Sequenced(seqNum: nat, update: MarketUpdate)

  // The live orders of one ticker, as the messages that would add them.
  type Orders = map<OrderId, MarketUpdate>

  function AddMessage(t: TickerId, e: Entry): MarketUpdate {
    MarketUpdate(Add, e.id, t, e.side, e.price, e.qty, e.priority)
  }

  /** These are exactly the live orders of the book. */
  ghost predicate Mirrors(r: Orders, b: Book, t: TickerId) {
    && (forall id: OrderId {:trigger RestsIn(b, id)} :: id in r <==> RestsIn(b, id))
    && (forall e {:trigger InBook(b, e)} :: InBook(b, e) ==> e.id in r && r[e.id] == AddMessage(t, e))
  }

  /** What the synthesizer asserts about an update before it takes it in. */
  predicate Admits(r: Orders, u: MarketUpdate) {
    match u.kind
    case Add => u.orderId !in r
    case Modify => u.orderId in r && r[u.orderId].orderId == u.orderId && r[u.orderId].side == u.side
    case Cancel => u.orderId in r && r[u.orderId].orderId == u.orderId && r[u.orderId].side == u.side
    case _ => true
  }

  function Absorb(r: Orders, u: MarketUpdate): Orders
    requires Admits(r, u)
  {
    match u.kind
    case Add => r[u.orderId := u]
    case Modify => r[u.orderId := r[u.orderId].(qty := u.qty, price := u.price)]
    case Cancel => r - {u.orderId}
    case _ => r
  }

  // --- The replica follows the feed --------------------------------------------------------------------------

  lemma AddMirrored(r: Orders, b: Book, t: TickerId, u: MarketUpdate)
    requires WellFormed(b) && Mirrors(r, b, t) && u.kind == Add && u.ticker == t && Accepts(b, u)
    ensures Admits(r, u) && Mirrors(Absorb(r, u), Apply(b, u), t)
  {
    var c, e := Apply(b, u), EntryIn(u);
    assert u.orderId in r ==> RestsIn(b, u.orderId);
    forall id: OrderId ensures id in Absorb(r, u) <==> RestsIn(c, id) {
      AddedIds(b, e, id);
    }
    forall f {:trigger InBook(c, f)} | InBook(c, f) ensures Absorb(r, u)[f.id] == AddMessage(t, f) {
      AddedEntry(b, e, f);
    }
  }

  lemma ModifyMirrored(r: Orders, b: Book, t: TickerId, u: MarketUpdate)
    requires WellFormed(b) && Mirrors(r, b, t) && u.kind == Modify && u.ticker == t && Accepts(b, u) && Truthful(b, u)
    ensures Admits(r, u) && Mirrors(Absorb(r, u), Apply(b, u), t)
  {
    var c, e := Apply(b, u), Lookup(b, u.orderId);
    var q := Absorb(r, u);
    InBookSide(b, e);
    var k := IndexOf(b.Of(e.side), e.id);
    forall id: OrderId ensures id in q <==> RestsIn(c, id) {
      IdsAfter(b, u, id);
    }
    forall f {:trigger InBook(c, f)} | InBook(c, f) ensures f.id in q && q[f.id] == AddMessage(t, f) {
      SetQtyEntry(b, e.side, k, u.qty, f);
    }
  }

  lemma CancelMirrored(r: Orders, b: Book, t: TickerId, u: MarketUpdate)
    requires WellFormed(b) && Mirrors(r, b, t) && u.kind == Cancel && u.ticker == t && Accepts(b, u) && Truthful(b, u)
    ensures Admits(r, u) && Mirrors(Absorb(r, u), Apply(b, u), t)
  {
    var c, e := Apply(b, u), Lookup(b, u.orderId);
    var q := Absorb(r, u);
    InBookSide(b, e);
    forall id: OrderId ensures id in q <==> RestsIn(c, id) {
      IdsAfter(b, u, id);
    }
    forall f {:trigger InBook(c, f)} | InBook(c, f) ensures f.id in q && q[f.id] == AddMessage(t, f) {
      RemovedEntry(b, e.side, IndexOf(b.Of(e.side), e.id), f);
    }
  }

  /** The replicas of all tickers are the books this feed describes. */
  ghost predicate Follows(rs: seq<Orders>, log: seq<MarketUpdate>)
    requires Publishable(log)
  {
    |rs| == ME_MAX_TICKERS && forall t {:trigger rs[t]} :: 0 <= t < |rs| ==> Mirrors(rs[t], BooksAfter(log)[t], t)
  }

  /**
   What is asserted of the stored order: that an order to be added does not rest yet, and that one to be modified or
   cancelled does, on the side the update names.
   */
  lemma AssertsWhatRests(rs: seq<Orders>, log: seq<MarketUpdate>, u: MarketUpdate)
    requires Publishable(log) && Follows(rs, log) && u.ticker < ME_MAX_TICKERS
    ensures var b := BooksAfter(log)[u.ticker];
      && (u.kind == Add ==> (Admits(rs[u.ticker], u) <==> !RestsIn(b, u.orderId)))
      && (u.kind in {Modify, Cancel} ==>
            (Admits(rs[u.ticker], u) <==> RestsIn(b, u.orderId) && Lookup(b, u.orderId).side == u.side))
      && (u.kind !in {Add, Modify, Cancel} ==> Admits(rs[u.ticker], u))
  {
    hide Publishable;
    hide BooksAfter;
    var b := BooksAfter(log)[u.ticker];
    assert Mirrors(rs[u.ticker], b, u.ticker);
    if RestsIn(b, u.orderId) { assert InBook(b, Lookup(b, u.orderId)); }
  }

  /** No assertion of the synthesizer fires on an update the engine can send, and the replica stays exact. */
  lemma FollowsOn(rs: seq<Orders>, log: seq<MarketUpdate>, u: MarketUpdate)
    requires Publishable(log + [u]) && Publishable(log) && Follows(rs, log)
    ensures u.ticker < |rs| && Admits(rs[u.ticker], u)
    ensures Follows(rs[u.ticker := Absorb(rs[u.ticker], u)], log + [u])
  {
    hide WellFormed;
    hide Accepts;
    hide Truthful;
    hide Mirrors;
    hide Admits;
    hide Absorb;
    hide Apply;
    hide Publishable;
    hide BooksAfter;
    var bs, t := BooksAfter(log), u.ticker;
    LastOne(log, u);
    BooksWellFormed(log, t);
    assert Mirrors(rs[t], bs[t], t);
    TradeIgnored(rs[t], bs[t], u);
    if u.kind == Add {
      AddMirrored(rs[t], bs[t], t, u);
    } else if u.kind == Modify {
      ModifyMirrored(rs[t], bs[t], t, u);
    } else if u.kind == Cancel {
      CancelMirrored(rs[t], bs[t], t, u);
    }
  }

  /** The replica after these updates. */
  ghost function ReplicaAfter(log: seq<MarketUpdate>): (rs: seq<Orders>)
    requires Publishable(log)
    ensures Follows(rs, log)
    decreases |log|
  {
    if log == [] then NoOrders()
    else
      var most, u := log[..|log| - 1], log[|log| - 1];
      assert log == most + [u];
      var rs := ReplicaAfter(most);
      FollowsOn(rs, most, u);
      rs[u.ticker := Absorb(rs[u.ticker], u)]
  }

  lemma ReplicaNext(log: seq<MarketUpdate>, u: MarketUpdate)
    requires Publishable(log + [u]) && Publishable(log)
    ensures u.ticker < ME_MAX_TICKERS && Admits(ReplicaAfter(log)[u.ticker], u)
    ensures ReplicaAfter(log + [u]) == ReplicaAfter(log)[u.ticker := Absorb(ReplicaAfter(log)[u.ticker], u)]
  {
    hide Admits;
    hide Absorb;
    var more := log + [u];
    assert more[..|more| - 1] == log;
    FollowsOn(ReplicaAfter(log), log, u);
  }

  function NoOrders(): seq<Orders> {
    [map[], map[], map[], map[], map[], map[], map[], map[]]
  }

  lemma TradeIgnored(r: Orders, b: Book, u: MarketUpdate)
    ensures u.kind == Trade ==> Admits(r, u) && Absorb(r, u) == r && Accepts(b, u) && Apply(b, u) == b
  {
  }

  // --- What a snapshot cycle says ----------------------------------------------------------------------------

  function Marker(kind: UpdateType, orderId: OrderId, ticker: TickerId): MarketUpdate {
    MarketUpdate(kind, orderId, ticker, NoSide, PRICE_INVALID, QTY_INVALID, PRIORITY_INVALID)
  }

  /** The orders with ids below n, in id order. */
  function Ascending(r: Orders, n: nat): seq<MarketUpdate> {
    if n == 0 then [] else Ascending(r, n - 1) + (if n - 1 in r then [r[n - 1]] else [])
  }

  function TickerPart(r: Orders, t: TickerId): seq<MarketUpdate> {
    [Marker(Clear, ORDER_ID_INVALID, t)] + Ascending(r, ME_MAX_ORDER_IDS)
  }

  /** The parts of the first n tickers. */
  function Parts(rs: seq<Orders>, n: nat): seq<MarketUpdate>
    requires n <= |rs|
  {
    if n == 0 then [] else Parts(rs, n - 1) + TickerPart(rs[n - 1], n - 1)
  }

  function Numbered(us: seq<MarketUpdate>): (ms: seq<Sequenced>) {
    seq(|us|, i requires 0 <= i < |us| => Sequenced(i, us[i]))
  }

  /** A full cycle: which increment it reflects, every ticker's orders, and the same increment again. */
  function Cycle(rs: seq<Orders>, last: nat): seq<Sequenced> {
    Numbered([Marker(SnapshotStart, last, TICKER_ID_INVALID)] + Parts(rs, |rs|)
      + [Marker(SnapshotEnd, last, TICKER_ID_INVALID)])
  }

  /** The stored order of the next id takes the book of the orders below it to that of the orders up to it. */
  lemma NextReplays(r: Orders, b: Book, t: TickerId, id: OrderId)
    requires WellFormed(b) && Mirrors(r, b, t) && RestsIn(b, id)
    ensures id in r && Replays(Below(b, id), [r[id]], Below(b, id + 1))
  {
    hide WellFormed;
    hide CanAdd;
    hide Added;
    hide Below;
    BelowGrows(b, id);
    var e, u, d := Lookup(b, id), r[id], Below(b, id + 1);
    assert InBook(b, e) && u == AddMessage(t, e) && EntryIn(u) == e;
    assert [u][1..] == [] && Replays(d, [], d);
  }

  lemma NotNext(r: Orders, b: Book, t: TickerId, id: OrderId)
    requires WellFormed(b) && Mirrors(r, b, t) && !RestsIn(b, id)
    ensures id !in r && Below(b, id + 1) == Below(b, id)
  {
    hide WellFormed;
    hide Below;
    BelowGrows(b, id);
  }

  lemma {:induction false} AscendingReplays(r: Orders, b: Book, t: TickerId, n: nat)
    requires WellFormed(b) && Mirrors(r, b, t)
    ensures Replays(EMPTY_BOOK, Ascending(r, n), Below(b, n))
  {
    hide WellFormed;
    hide Mirrors;
    hide RestsIn;
    hide Below;
    if n == 0 {
      BelowNone(b);
    } else {
      AscendingReplays(r, b, t, n - 1);
      var us, c, d := Ascending(r, n - 1), Below(b, n - 1), Below(b, n);
      hide Replays;
      if RestsIn(b, n - 1) {
        NextReplays(r, b, t, n - 1);
        ReplaysAppend(EMPTY_BOOK, us, c, [r[n - 1]], d);
      } else {
        NotNext(r, b, t, n - 1);
        assert us + [] == us;
      }
    }
  }

  lemma BelowNone(b: Book)
    ensures Below(b, 0) == EMPTY_BOOK
  {
    NoneBelow(b.bids);
    NoneBelow(b.asks);
  }

  lemma {:induction false} NoneBelow(s: seq<Entry>)
    ensures BelowId(s, 0) == []
    decreases |s|
  {
    if s != [] { NoneBelow(s[1..]); }
  }

  /**
   Whatever book a client starts from, a ticker's part of a snapshot rebuilds the exchange's book, queues included.
   */
  lemma SnapshotRebuilds(r: Orders, b: Book, t: TickerId, start: Book)
    requires WellFormed(b) && Mirrors(r, b, t)
    requires forall id: OrderId {:trigger RestsIn(b, id)} :: RestsIn(b, id) ==> id < ME_MAX_ORDER_IDS
    ensures Replays(start, TickerPart(r, t), b)
  {
    AscendingReplays(r, b, t, ME_MAX_ORDER_IDS);
    forall e | InBook(b, e) ensures e.id < ME_MAX_ORDER_IDS {
      LookupEntry(b, e);
    }
    BelowIdAll(b.bids, ME_MAX_ORDER_IDS);
    BelowIdAll(b.asks, ME_MAX_ORDER_IDS);
    var part := TickerPart(r, t);
    assert part[1..] == Ascending(r, ME_MAX_ORDER_IDS);
    assert Apply(start, part[0]) == EMPTY_BOOK;
  }

  // --- The components ----------------------------------------------------------------------------------------

  class SnapshotSynthesizer {
    const tickerOrders: array2<Option<MarketUpdate>>
    var lastIncSeqNum: nat
    ghost var replica: seq<Orders>

    ghost predicate Valid()
      reads this, tickerOrders
    {
      && tickerOrders.Length0 == |replica| == ME_MAX_TICKERS && tickerOrders.Length1 == ME_MAX_ORDER_IDS
      && (forall t, id {:trigger tickerOrders[t, id]} :: 0 <= t < |replica| && 0 <= id < ME_MAX_ORDER_IDS ==>
            tickerOrders[t, id] == if id in replica[t] then Some(replica[t][id]) else None)
    }

    constructor ()
      ensures Valid() && fresh(tickerOrders) && replica == NoOrders() && lastIncSeqNum == 0
    {
      tickerOrders := new Option<MarketUpdate>[ME_MAX_TICKERS, ME_MAX_ORDER_IDS]((_, _) => None);
      lastIncSeqNum := 0;
      replica := NoOrders();
    }

    /** Take in one update; ok is false where the program would stop on a failed assertion. */
    method AddToSnapshot(m: Sequenced) returns (ok: bool)
      requires Valid() && m.update.ticker < ME_MAX_TICKERS
      requires m.update.kind in {Add, Modify, Cancel} ==> m.update.orderId < ME_MAX_ORDER_IDS
      modifies this, tickerOrders
      ensures ok <==> Admits(old(replica)[m.update.ticker], m.update) && m.seqNum == old(lastIncSeqNum) + 1
      ensures ok ==> Valid() && lastIncSeqNum == m.seqNum
      ensures ok ==> replica == old(replica)[m.update.ticker := Absorb(old(replica)[m.update.ticker], m.update)]
    {
      var u := m.update;
      var t := u.ticker;
      ghost var was := replica[t];
      match u.kind {
        case Add =>
          if tickerOrders[t, u.orderId] != None {
            return false;
          }
          tickerOrders[t, u.orderId] := Some(u);
        case Modify =>
          var order := tickerOrders[t, u.orderId];
          if order == None || order.value.orderId != u.orderId || order.value.side != u.side {
            return false;
          }
          tickerOrders[t, u.orderId] := Some(order.value.(qty := u.qty, price := u.price));
        case Cancel =>
          var order := tickerOrders[t, u.orderId];
          if order == None || order.value.orderId != u.orderId || order.value.side != u.side {
            return false;
          }
          tickerOrders[t, u.orderId] := None;
        case _ =>
      }
      replica := replica[t := Absorb(was, u)];
      if m.seqNum != lastIncSeqNum + 1 {
        return false;
      }
      lastIncSeqNum := m.seqNum;
      return true;
    }

    /** Send one snapshot cycle. */
    method PublishSnapshot() returns (sent: seq<Sequenced>)
      requires Valid()
      ensures sent == Cycle(replica, lastIncSeqNum)
    {
      ghost var us := [Marker(SnapshotStart, lastIncSeqNum, TICKER_ID_INVALID)];
      var snapshotSize := 1;
      sent := [Sequenced(0, Marker(SnapshotStart, lastIncSeqNum, TICKER_ID_INVALID))];
      for t := 0 to ME_MAX_TICKERS
        invariant us == [Marker(SnapshotStart, lastIncSeqNum, TICKER_ID_INVALID)] + Parts(replica, t)
        invariant sent == Numbered(us) && snapshotSize == |sent|
      {
        ghost var before := us;
        sent := sent + [Sequenced(snapshotSize, Marker(Clear, ORDER_ID_INVALID, t))];
        snapshotSize := snapshotSize + 1;
        us := us + [Marker(Clear, ORDER_ID_INVALID, t)];
        for id := 0 to ME_MAX_ORDER_IDS
          invariant us == before + [Marker(Clear, ORDER_ID_INVALID, t)] + Ascending(replica[t], id)
          invariant sent == Numbered(us) && snapshotSize == |sent|
        {
          var order := tickerOrders[t, id];
          if order.Some? {
            sent := sent + [Sequenced(snapshotSize, order.value)];
            snapshotSize := snapshotSize + 1;
            us := us + [order.value];
          }
        }
      }
      sent := sent + [Sequenced(snapshotSize, Marker(SnapshotEnd, lastIncSeqNum, TICKER_ID_INVALID))];
    }

    /**
     Take in everything queued since the last visit; on the engine's feed no assertion fires and the replica is exact.
     */
    method Drain(queue: seq<Sequenced>, ghost log: seq<MarketUpdate>) returns (ok: bool)
      requires Valid() && Publishable(log) && IdsBelow(log)
      requires lastIncSeqNum <= |log| && queue == Stamped(log)[lastIncSeqNum..]
      requires Publishable(log[..lastIncSeqNum]) && replica == ReplicaAfter(log[..lastIncSeqNum])
      modifies this, tickerOrders
      ensures ok && Valid() && lastIncSeqNum == |log| && replica == ReplicaAfter(log)
    {
      hide Publishable;
      hide BooksAfter;
      hide Follows;
      hide Admits;
      hide Absorb;
      hide Valid;
      hide ReplicaAfter;
      hide IdsBelow;
      ghost var first := lastIncSeqNum;
      for i := 0 to |queue|
        invariant Valid() && lastIncSeqNum == first + i <= |log|
        invariant Publishable(log[..lastIncSeqNum]) && replica == ReplicaAfter(log[..lastIncSeqNum])
      {
        ghost var k := lastIncSeqNum;
        PublishablePrefix(log, k + 1);
        assert log[..k + 1] == log[..k] + [log[k]];
        assert queue[i] == Sequenced(k + 1, log[k]);
        FollowsOn(replica, log[..k], log[k]);
        ReplicaNext(log[..k], log[k]);
        IdsBelowPrefix(log, k + 1);
        SendableFits(log[..k], log[k]);
        ok := AddToSnapshot(queue[i]);
      }
      assert log[..lastIncSeqNum] == log;
      return true;
    }
  }

  lemma SendableFits(log: seq<MarketUpdate>, u: MarketUpdate)
    requires Publishable(log + [u]) && Publishable(log) && IdsBelow(log + [u])
    ensures u.ticker < ME_MAX_TICKERS && (u.kind in {Add, Modify, Cancel} ==> u.orderId < ME_MAX_ORDER_IDS)
  {
    hide BooksAfter;
    LastOne(log, u);
    var more := log + [u];
    assert more[|log|] == u && more[..|log|] == log;
    IdsBelowPrefix(more, |log|);
    if u.kind in {Modify, Cancel} { BooksIdsBelow(log, u.ticker, u.orderId); }
  }

  lemma IdsBelowPrefix(log: seq<MarketUpdate>, k: nat)
    requires IdsBelow(log) && k <= |log|
    ensures IdsBelow(log[..k])
  {
  }

  /** The feed as it leaves the publisher: consecutive sequence numbers from 1. */
  function Stamped(log: seq<MarketUpdate>): (ms: seq<Sequenced>) {
    seq(|log|, i requires 0 <= i < |log| => Sequenced(i + 1, log[i]))
  }

  class MarketDataPublisher {
    var nextIncSeqNum: nat
    // What goes to the incremental stream, and what is forwarded to the synthesizer.
    var incremental: seq<Sequenced>
    var snapshotUpdates: seq<Sequenced>

    constructor ()
      ensures nextIncSeqNum == 1 && incremental == Stamped([]) && snapshotUpdates == Stamped([])
    {
      nextIncSeqNum, incremental, snapshotUpdates := 1, [], [];
    }

    /** Publish everything the matching engine has queued, after the updates sent so far. */
    method Publish(updates: seq<MarketUpdate>, ghost log: seq<MarketUpdate>)
      requires nextIncSeqNum == |log| + 1 && incremental == snapshotUpdates == Stamped(log)
      modifies this
      ensures nextIncSeqNum == |log + updates| + 1
      ensures incremental == Stamped(log + updates) && snapshotUpdates == Stamped(log + updates)
    {
      for i := 0 to |updates|
        invariant nextIncSeqNum == |log| + i + 1
        invariant incremental == Stamped(log + updates[..i]) && snapshotUpdates == Stamped(log + updates[..i])
      {
        incremental := incremental + [Sequenced(nextIncSeqNum, updates[i])];
        snapshotUpdates := snapshotUpdates + [Sequenced(nextIncSeqNum, updates[i])];
        nextIncSeqNum := nextIncSeqNum + 1;
      }
      assert updates[..|updates|] == updates;
    }
  }
}
