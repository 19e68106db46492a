/** The client's market data consumer: gap detection on the incremental stream and recovery from the snapshot stream. */
module Consumers {
  import opened Types
  import opened Snapshots

  // Messages queued by sequence number.
  type Queue = map<nat, MarketUpdate>

  // The consumer's state, and everything it has passed on to the trade engine.
  datatype Consumer = Consumer(
    nextExpIncSeqNum: nat,
    inRecovery: bool,
    snapshotQueue: Queue,
    incrementalQueue: Queue,
    forwarded: seq<MarketUpdate>)

  const NEW_CONSUMER := Consumer(1, false, map[], map[], [])

  function Least(keys: set<nat>): (k: nat)
    requires keys != {}
    ensures k in keys && forall j :: j in keys ==> k <= j
  {
    var x :| x in keys;
    LeastBelow(keys, x);
    var k :| k in keys && forall j :: j in keys ==> k <= j;
    k
  }

  lemma {:induction false} LeastBelow(keys: set<nat>, x: nat)
    requires x in keys
    ensures exists k :: k in keys && forall j :: j in keys ==> k <= j
  {
    if y :| y in keys && y < x {
      LeastBelow(keys, y);
    }
  }

  /** The queue holds exactly the sequence numbers from 0 on, as many as it has messages. */
  ghost predicate Contiguous(q: Queue) {
    forall k: nat {:trigger k in q} :: k in q <==> k < |q|
  }

  lemma LastQueued(q: Queue)
    requires q != map[] && Contiguous(q)
    ensures |q| > 0 && |q| - 1 in q
  {
  }

  lemma {:induction false} CountUpTo(keys: set<nat>, n: nat)
    requires forall k: nat {:trigger k in keys} :: k in keys <==> k < n
    ensures |keys| == n
    decreases n
  {
    if n == 0 {
      assert keys == {};
    } else {
      CountUpTo(keys - {n - 1}, n - 1);
    }
  }

  lemma ContiguousUpTo(q: Queue, n: nat)
    requires forall k: nat {:trigger k in q} :: k in q <==> k < n
    ensures |q| == n && Contiguous(q)
  {
    CountUpTo(q.Keys, n);
    assert |q.Keys| == |q|;
  }

  /** The messages with sequence numbers from..to, in order. */
  function Listed(q: Queue, from: nat, end: nat): (us: seq<MarketUpdate>)
    requires from <= end && forall k {:trigger k in q} :: from <= k < end ==> k in q
    ensures |us| == end - from && forall i :: 0 <= i < |us| ==> us[i] == q[from + i]
    decreases end
  {
    if from == end then [] else Listed(q, from, end - 1) + [q[end - 1]]
  }

  predicate IsMarker(u: MarketUpdate) {
    u.kind == SnapshotStart || u.kind == SnapshotEnd
  }

  /** The updates themselves, without the markers of the snapshot cycle. */
  function Unmarked(us: seq<MarketUpdate>): seq<MarketUpdate> {
    if us == [] then []
    else Unmarked(us[..|us| - 1]) + (if IsMarker(us[|us| - 1]) then [] else [us[|us| - 1]])
  }

  lemma ListedNone(q: Queue, from: nat)
    ensures Unmarked(Listed(q, from, from)) == []
  {
  }

  lemma ListedGrows(q: Queue, from: nat, k: nat)
    requires from <= k && forall j {:trigger j in q} :: from <= j <= k ==> j in q
    ensures Unmarked(Listed(q, from, k + 1)) == Unmarked(Listed(q, from, k)) + (if IsMarker(q[k]) then [] else [q[k]])
  {
  }

  /** The first sequence number from this one on that the queue does not hold. */
  function RunEnd(q: Queue, from: nat): (end: nat)
    ensures from <= end && forall k {:trigger k in q} :: from <= k < end ==> k in q
    decreases |q|
  {
    if from in q then
      var end := RunEnd(q - {from}, from + 1);
      assert forall k {:trigger k in q} :: from <= k < end ==> k == from || k in q - {from};
      end
    else from
  }

  lemma {:induction false} RunEndIs(q: Queue, from: nat, end: nat)
    requires from <= end && end !in q && forall k {:trigger k in q} :: from <= k < end ==> k in q
    ensures RunEnd(q, from) == end
    decreases |q|
  {
    if from < end {
      assert from in q;
      RunEndIs(q - {from}, from + 1, end);
    }
  }

  // --- The consumer as a function of its state ---------------------------------------------------------------

  function StartSnapshotSync(c: Consumer): Consumer {
    c.(snapshotQueue := map[], incrementalQueue := map[])
  }

  /** The snapshot queue holds one message per sequence number from a start marker to an end marker. */
  ghost predicate Complete(c: Consumer) {
    var q := c.snapshotQueue;
    q != map[] && Contiguous(q) && q[0].kind == SnapshotStart && q[|q| - 1].kind == SnapshotEnd
  }

  /** Leave recovery if the queued snapshot is complete and the queued increments continue it without a gap. */
  ghost function CheckSnapshotSync(c: Consumer): Consumer {
    var q := c.snapshotQueue;
    if q == map[] then c
    else if q[Least(q.Keys)].kind != SnapshotStart || !Contiguous(q) then c.(snapshotQueue := map[])
    else if q[|q| - 1].kind != SnapshotEnd then c
    else
      var from := q[|q| - 1].orderId + 1;
      var end := RunEnd(c.incrementalQueue, from);
      if exists k :: k in c.incrementalQueue && end < k then c.(snapshotQueue := map[], nextExpIncSeqNum := end)
      else Consumer(end, false, map[], map[],
                    c.forwarded + Unmarked(Listed(q, 0, |q|)) + Unmarked(Listed(c.incrementalQueue, from, end)))
  }

  function Enqueue(c: Consumer, isSnapshot: bool, m: Sequenced): Consumer {
    if isSnapshot then
      c.(snapshotQueue := (if m.seqNum in c.snapshotQueue then map[] else c.snapshotQueue)[m.seqNum := m.update])
    else
      c.(incrementalQueue := c.incrementalQueue[m.seqNum := m.update])
  }

  ghost function QueueMessage(c: Consumer, isSnapshot: bool, m: Sequenced): Consumer {
    CheckSnapshotSync(Enqueue(c, isSnapshot, m))
  }

  /** One message of a buffer. */
  ghost function Take(c: Consumer, isSnapshot: bool, m: Sequenced): Consumer {
    if c.inRecovery then QueueMessage(c, isSnapshot, m)
    else if m.seqNum != c.nextExpIncSeqNum then QueueMessage(StartSnapshotSync(c).(inRecovery := true), isSnapshot, m)
    else if isSnapshot then c
    else c.(nextExpIncSeqNum := c.nextExpIncSeqNum + 1, forwarded := c.forwarded + [m.update])
  }

  ghost function TakeAll(c: Consumer, isSnapshot: bool, ms: seq<Sequenced>): Consumer
    decreases |ms|
  {
    if ms == [] then c else Take(TakeAll(c, isSnapshot, ms[..|ms| - 1]), isSnapshot, ms[|ms| - 1])
  }

  /** One read from a socket: a snapshot buffer is dropped unless the consumer is recovering when it arrives. */
  ghost function Receive(c: Consumer, isSnapshot: bool, ms: seq<Sequenced>): Consumer {
    if isSnapshot && !c.inRecovery then c else TakeAll(c, isSnapshot, ms)
  }

  class MarketDataConsumer {
    var nextExpIncSeqNum: nat
    var inRecovery: bool
    var snapshotQueuedMsgs: Queue
    var incrementalQueuedMsgs: Queue
    // The queue to the trade engine.
    var incomingMdUpdates: seq<MarketUpdate>

    ghost function State(): Consumer
      reads this
    {
      Consumer(nextExpIncSeqNum, inRecovery, snapshotQueuedMsgs, incrementalQueuedMsgs, incomingMdUpdates)
    }

    constructor ()
      ensures State() == NEW_CONSUMER
    {
      nextExpIncSeqNum, inRecovery := 1, false;
      snapshotQueuedMsgs, incrementalQueuedMsgs, incomingMdUpdates := map[], map[], [];
    }

    method ClearQueues()
      modifies this
      ensures State() == StartSnapshotSync(old(State()))
    {
      snapshotQueuedMsgs := map[];
      incrementalQueuedMsgs := map[];
    }

    /** Go through the snapshot queue in order of sequence number, up to the first gap. */
    method CollectSnapshot() returns (complete: bool, events: seq<MarketUpdate>)
      ensures complete <==> Contiguous(snapshotQueuedMsgs)
      ensures complete ==> events == Unmarked(Listed(snapshotQueuedMsgs, 0, |snapshotQueuedMsgs|))
    {
      var q := snapshotQueuedMsgs;
      var rest, next := q.Keys, 0;
      events := [];
      while rest != {}
        invariant forall k: nat {:trigger k in q} :: k in q <==> k < next || k in rest
        invariant forall k :: k in rest ==> k in q && next <= k
        invariant events == Unmarked(Listed(q, 0, next))
        decreases rest
      {
        var k := Least(rest);
        if k != next {
          assert next !in q && k in q;
          return false, events;
        }
        ListedGrows(q, 0, next);
        if !IsMarker(q[k]) {
          events := events + [q[k]];
        }
        next := next + 1;
        rest := rest - {k};
      }
      ContiguousUpTo(q, next);
      return true, events;
    }

    /** Go through the queued increments in order, skipping those the snapshot reflects, up to the first gap. */
    method CollectIncrements() returns (complete: bool, events: seq<MarketUpdate>)
      modifies this`nextExpIncSeqNum
      ensures nextExpIncSeqNum == RunEnd(incrementalQueuedMsgs, old(nextExpIncSeqNum))
      ensures complete <==> !exists k :: k in incrementalQueuedMsgs && nextExpIncSeqNum < k
      ensures complete ==> events == Unmarked(Listed(incrementalQueuedMsgs, old(nextExpIncSeqNum), nextExpIncSeqNum))
    {
      hide RunEnd;
      hide Unmarked;
      hide Listed;
      hide IsMarker;
      var q := incrementalQueuedMsgs;
      ghost var from := nextExpIncSeqNum;
      var rest := q.Keys;
      events := [];
      ListedNone(q, from);
      while rest != {}
        invariant q == incrementalQueuedMsgs && from <= nextExpIncSeqNum
        invariant forall k {:trigger k in q} :: from <= k < nextExpIncSeqNum ==> k in q
        invariant forall k: nat {:trigger k in q} :: k in q && nextExpIncSeqNum <= k ==> k in rest
        invariant forall k :: k in rest ==> k in q && (k < from || nextExpIncSeqNum <= k)
        invariant events == Unmarked(Listed(q, from, nextExpIncSeqNum))
        decreases rest
      {
        var k := Least(rest);
        rest := rest - {k};
        if k < nextExpIncSeqNum {
          continue;
        }
        if k != nextExpIncSeqNum {
          RunEndIs(q, from, nextExpIncSeqNum);
          return false, events;
        }
        ListedGrows(q, from, k);
        if !IsMarker(q[k]) {
          events := events + [q[k]];
        }
        nextExpIncSeqNum := nextExpIncSeqNum + 1;
      }
      RunEndIs(q, from, nextExpIncSeqNum);
      return true, events;
    }

    method CheckSync()
      modifies this
      ensures State() == CheckSnapshotSync(old(State()))
    {
      hide Contiguous;
      hide Least;
      hide Listed;
      hide Unmarked;
      hide RunEnd;
      if snapshotQueuedMsgs == map[] {
        return;
      }
      if snapshotQueuedMsgs[Least(snapshotQueuedMsgs.Keys)].kind != SnapshotStart {
        snapshotQueuedMsgs := map[];
        return;
      }
      var haveCompleteSnapshot, finalEvents := CollectSnapshot();
      if !haveCompleteSnapshot {
        snapshotQueuedMsgs := map[];
        return;
      }
      LastQueued(snapshotQueuedMsgs);
      var lastSnapshotMsg := snapshotQueuedMsgs[|snapshotQueuedMsgs| - 1];
      if lastSnapshotMsg.kind != SnapshotEnd {
        return;
      }
      nextExpIncSeqNum := lastSnapshotMsg.orderId + 1;
      var haveCompleteIncremental, increments := CollectIncrements();
      if !haveCompleteIncremental {
        snapshotQueuedMsgs := map[];
        return;
      }
      incomingMdUpdates := incomingMdUpdates + finalEvents + increments;
      snapshotQueuedMsgs := map[];
      incrementalQueuedMsgs := map[];
      inRecovery := false;
    }

    method Queue(isSnapshot: bool, request: Sequenced)
      modifies this
      ensures State() == QueueMessage(old(State()), isSnapshot, request)
    {
      if isSnapshot {
        if request.seqNum in snapshotQueuedMsgs {
          snapshotQueuedMsgs := map[];
        }
        snapshotQueuedMsgs := snapshotQueuedMsgs[request.seqNum := request.update];
      } else {
        incrementalQueuedMsgs := incrementalQueuedMsgs[request.seqNum := request.update];
      }
      CheckSync();
    }

    method RecvCallback(isSnapshot: bool, inbound: seq<Sequenced>)
      modifies this
      ensures State() == Receive(old(State()), isSnapshot, inbound)
    {
      if isSnapshot && !inRecovery {
        return;
      }
      for i := 0 to |inbound|
        invariant State() == TakeAll(old(State()), isSnapshot, inbound[..i])
      {
        assert inbound[..i + 1][..i] == inbound[..i];
        var request := inbound[i];
        var alreadyInRecovery := inRecovery;
        inRecovery := alreadyInRecovery || request.seqNum != nextExpIncSeqNum;
        if inRecovery {
          if !alreadyInRecovery {
            ClearQueues();
          }
          Queue(isSnapshot, request);
        } else if !isSnapshot {
          nextExpIncSeqNum := nextExpIncSeqNum + 1;
          incomingMdUpdates := incomingMdUpdates + [request.update];
        }
      }
      assert inbound[..|inbound|] == inbound;
    }
  }

  // --- Keeping up --------------------------------------------------------------------------------------------

  /** Increments under consecutive numbers from this one on. */
  predicate NumberedFrom(ms: seq<Sequenced>, n: nat) {
    forall i {:trigger ms[i]} :: 0 <= i < |ms| ==> ms[i].seqNum == n + i
  }

  function Updates(ms: seq<Sequenced>): (us: seq<MarketUpdate>) {
    seq(|ms|, i requires 0 <= i < |ms| => ms[i].update)
  }

  lemma {:induction false} TakesInOrder(c: Consumer, ms: seq<Sequenced>)
    requires !c.inRecovery && NumberedFrom(ms, c.nextExpIncSeqNum)
    ensures TakeAll(c, false, ms)
      == c.(nextExpIncSeqNum := c.nextExpIncSeqNum + |ms|, forwarded := c.forwarded + Updates(ms))
    decreases |ms|
  {
    hide QueueMessage;
    if ms == [] {
      assert Updates(ms) == [];
    } else {
      TakesInOrder(c, ms[..|ms| - 1]);
      assert Updates(ms) == Updates(ms[..|ms| - 1]) + [ms[|ms| - 1].update];
    }
  }

  /**
   Outside recovery a read of the increments expected next is passed on whole, and in order; a read from the snapshot
   stream changes nothing.
   */
  lemma KeepsUp(c: Consumer, isSnapshot: bool, ms: seq<Sequenced>)
    requires !c.inRecovery && (!isSnapshot ==> NumberedFrom(ms, c.nextExpIncSeqNum))
    ensures var d := Receive(c, isSnapshot, ms);
      && !d.inRecovery && d.snapshotQueue == c.snapshotQueue && d.incrementalQueue == c.incrementalQueue
      && d.nextExpIncSeqNum == c.nextExpIncSeqNum + (if isSnapshot then 0 else |ms|)
      && d.forwarded == c.forwarded + (if isSnapshot then [] else Updates(ms))
  {
    if !isSnapshot { TakesInOrder(c, ms); }
  }

  // What one read gave, and from which of the two sockets.
  datatype SocketRead = SocketRead(isSnapshot: bool, ms: seq<Sequenced>)

  ghost function AfterReads(c: Consumer, rs: seq<SocketRead>): Consumer
    decreases |rs|
  {
    if rs == [] then c
    else
      var last := rs[|rs| - 1];
      Receive(AfterReads(c, rs[..|rs| - 1]), last.isSnapshot, last.ms)
  }

  /** Everything read from the incremental stream. */
  function IncrementsRead(rs: seq<SocketRead>): seq<Sequenced> {
    if rs == [] then []
    else
      var last := rs[|rs| - 1];
      IncrementsRead(rs[..|rs| - 1]) + (if last.isSnapshot then [] else last.ms)
  }

  /**
   However a feed without losses is cut into reads, and whatever is read from the snapshot stream in between, everything
   is passed on, once and in order.
   */
  lemma {:induction false} LosslessFeed(rs: seq<SocketRead>)
    requires NumberedFrom(IncrementsRead(rs), 1)
    ensures var c, ms := AfterReads(NEW_CONSUMER, rs), IncrementsRead(rs);
      !c.inRecovery && c.nextExpIncSeqNum == |ms| + 1 && c.forwarded == Updates(ms)
    decreases |rs|
  {
    hide Receive;
    if rs == [] {
      assert Updates([]) == [];
    } else {
      var most, last, all := rs[..|rs| - 1], rs[|rs| - 1], IncrementsRead(rs);
      var before := IncrementsRead(most);
      assert NumberedFrom(before, 1) by {
        forall i {:trigger before[i]} | 0 <= i < |before| ensures before[i].seqNum == 1 + i {
          assert all[i] == before[i];
        }
      }
      if !last.isSnapshot {
        forall i {:trigger last.ms[i]} | 0 <= i < |last.ms| ensures last.ms[i].seqNum == |before| + 1 + i {
          assert all[|before| + i] == last.ms[i];
        }
      }
      LosslessFeed(most);
      KeepsUp(AfterReads(NEW_CONSUMER, most), last.isSnapshot, last.ms);
      assert Updates(all) == Updates(before) + (if last.isSnapshot then [] else Updates(last.ms));
    }
  }

  // --- What holds whatever arrives ---------------------------------------------------------------------------

  /** The snapshot queue is empty, or starts with a start marker, has no gap, and does not end with an end marker. */
  ghost predicate Assembling(c: Consumer) {
    var q := c.snapshotQueue;
    q == map[] || (Contiguous(q) && q[0].kind == SnapshotStart && q[|q| - 1].kind != SnapshotEnd)
  }

  /** After every queued message, whatever the messages and their order. */
  lemma QueueKeepsAssembling(c: Consumer, isSnapshot: bool, m: Sequenced)
    ensures Assembling(QueueMessage(c, isSnapshot, m))
  {
    var d := Enqueue(c, isSnapshot, m);
    var q := d.snapshotQueue;
    if q != map[] && Contiguous(q) {
      assert 0 in q by {
        var k :| k in q;
        assert k < |q|;
      }
      assert Least(q.Keys) == 0;
    }
  }

  /** The consumer leaves recovery exactly on a complete snapshot that the queued increments continue without a gap. */
  lemma LeavesRecovery(c: Consumer)
    requires c.inRecovery
    ensures Complete(c) ==>
      CheckSnapshotSync(c).nextExpIncSeqNum == RunEnd(c.incrementalQueue,
        c.snapshotQueue[|c.snapshotQueue| - 1].orderId + 1)
    ensures !CheckSnapshotSync(c).inRecovery <==>
      && Complete(c)
      && forall k :: k in c.incrementalQueue ==>
        k <= RunEnd(c.incrementalQueue, c.snapshotQueue[|c.snapshotQueue| - 1].orderId + 1)
  {
    var q := c.snapshotQueue;
    if q != map[] && Contiguous(q) {
      assert 0 in q by {
        var k :| k in q;
        assert k < |q|;
      }
      assert Least(q.Keys) == 0;
    }
  }
}
