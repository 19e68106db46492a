/** Which snapshots put together from several cycles are as good as the cycle they end with. */
module MixedSnapshots {
  import opened Types
  import opened PriceTime
  import opened Replication
  import opened Feed
  import opened Snapshots
  import opened Consumers
  import opened Recovery

  /** Whatever books a client has, these updates give it the books after the first k updates of the feed. */
  ghost predicate Restores(log: seq<MarketUpdate>, k: nat, body: seq<MarketUpdate>)
    requires k <= |log| && Publishable(log[..k])
  {
    forall t: TickerId, b: Book {:trigger Replays(b, OnTicker(body, t), BooksAfter(log[..k])[t])} ::
      t < ME_MAX_TICKERS && WellFormed(b) ==> Replays(b, OnTicker(body, t), BooksAfter(log[..k])[t])
  }

  ghost function PartsAt(log: seq<MarketUpdate>, k: nat): seq<MarketUpdate>
    requires k <= |log| && Publishable(log[..k])
  {
    Parts(ReplicaAfter(log[..k]), ME_MAX_TICKERS)
  }

  // What a snapshot is made of, apart from its markers.
  predicate Plain(u: MarketUpdate) {
    u.kind == Add || u == Marker(Clear, ORDER_ID_INVALID, u.ticker)
  }

  // --- The order of the messages of one cycle --------------------------------------------------------------------

  /** A CLEAR before the orders of its ticker, orders in id order, and ticker after ticker. */
  predicate Precedes(u: MarketUpdate, v: MarketUpdate) {
    u.ticker < v.ticker || (u.ticker == v.ticker && v.kind == Add && (u.kind != Add || u.orderId < v.orderId))
  }

  ghost predicate InSequence(us: seq<MarketUpdate>) {
    && (forall i {:trigger us[i]} :: 0 <= i < |us| ==> Plain(us[i]))
    && (forall i, j {:trigger us[i], us[j]} :: 0 <= i < j < |us| ==> Precedes(us[i], us[j]))
  }

  /** The orders are stored under their own tickers and ids. */
  ghost predicate Filed(rs: seq<Orders>) {
    forall t, id {:trigger rs[t][id]} :: 0 <= t < |rs| && id in rs[t] ==>
      rs[t][id].kind == Add && rs[t][id].ticker == t && rs[t][id].orderId == id
  }

  lemma ReplicaFiled(rs: seq<Orders>, log: seq<MarketUpdate>)
    requires Publishable(log) && Follows(rs, log)
    ensures Filed(rs)
  {
    hide Publishable;
    hide BooksAfter;
    hide Follows;
    forall t: nat, id {:trigger rs[t][id]} | t < |rs| && id in rs[t]
      ensures rs[t][id].kind == Add && rs[t][id].ticker == t && rs[t][id].orderId == id
    {
      var e := StoredOrder(rs, log, t, id);
    }
  }

  lemma StoredOrder(rs: seq<Orders>, log: seq<MarketUpdate>, t: TickerId, id: OrderId) returns (e: Entry)
    requires Publishable(log) && Follows(rs, log) && t < |rs| && id in rs[t]
    ensures InBook(BooksAfter(log)[t], e) && e.id == id && rs[t][id] == AddMessage(t, e)
  {
    hide Publishable;
    var b := BooksAfter(log)[t];
    assert Mirrors(rs[t], b, t);
    assert RestsIn(b, id);
    e := Lookup(b, id);
    assert InBook(b, e);
  }

  lemma {:induction false} AscendingInSequence(rs: seq<Orders>, t: TickerId, n: nat)
    requires Filed(rs) && t < |rs|
    ensures InSequence(Ascending(rs[t], n))
    ensures forall i {:trigger Ascending(rs[t], n)[i]} :: 0 <= i < |Ascending(rs[t], n)| ==>
      var u := Ascending(rs[t], n)[i];
      u.kind == Add && u.ticker == t && u.orderId < n && u.orderId in rs[t] && rs[t][u.orderId] == u
  {
    if n > 0 { AscendingInSequence(rs, t, n - 1); }
  }

  lemma {:induction false} PartsInSequence(rs: seq<Orders>, n: nat)
    requires Filed(rs) && n <= |rs|
    ensures InSequence(Parts(rs, n))
    ensures forall i {:trigger Parts(rs, n)[i]} :: 0 <= i < |Parts(rs, n)| ==>
      var u := Parts(rs, n)[i];
      u.ticker < n && (u.kind == Add ==> u.orderId in rs[u.ticker] && rs[u.ticker][u.orderId] == u)
  {
    hide Ascending;
    if n > 0 {
      PartsInSequence(rs, n - 1);
      AscendingInSequence(rs, n - 1, ME_MAX_ORDER_IDS);
    }
  }

  lemma FirstOfAll(us: seq<MarketUpdate>, u: MarketUpdate)
    requires InSequence(us) && u in us
    ensures us[0] == u || Precedes(us[0], u)
  {
    var i :| 0 <= i < |us| && us[i] == u;
    assert i > 0 ==> Precedes(us[0], us[i]);
  }

  lemma SplitFirst(us: seq<MarketUpdate>)
    requires InSequence(us) && us != []
    ensures InSequence(us[1..]) && us == [us[0]] + us[1..] && multiset(us) == multiset{us[0]} + multiset(us[1..])
  {
    var most := us[1..];
    forall i {:trigger most[i]} | 0 <= i < |most| ensures Plain(most[i]) {
      assert most[i] == us[i + 1];
    }
    forall i, j {:trigger most[i], most[j]} | 0 <= i < j < |most| ensures Precedes(most[i], most[j]) {
      assert most[i] == us[i + 1] && most[j] == us[j + 1];
    }
    assert us == [us[0]] + most;
  }

  /** The same messages in sequence are the same sequence. */
  lemma {:induction false} SequenceUnique(a: seq<MarketUpdate>, b: seq<MarketUpdate>)
    requires InSequence(a) && InSequence(b) && multiset(a) == multiset(b)
    ensures a == b
    decreases |a|
  {
    hide InSequence;
    assert |multiset(a)| == |a| && |multiset(b)| == |b|;
    if a != [] {
      SplitFirst(a);
      SplitFirst(b);
      assert a[0] in multiset(b) && b[0] in multiset(a);
      FirstOfAll(a, b[0]);
      FirstOfAll(b, a[0]);
      assert multiset(a[1..]) == multiset(a) - multiset{a[0]};
      assert multiset(b[1..]) == multiset(b) - multiset{b[0]};
      SequenceUnique(a[1..], b[1..]);
    }
  }

  // --- What a snapshot must say ----------------------------------------------------------------------------------

  /** What rests after some additions was added, or was there before and has not been cleared away. */
  lemma {:induction false} WhereFrom(b: Book, us: seq<MarketUpdate>, c: Book, e: Entry)
    requires Replays(b, us, c) && InBook(c, e) && forall u :: u in us ==> Plain(u)
    ensures InBook(b, e) || exists u :: u in us && u.kind == Add && EntryIn(u) == e
    decreases |us|
  {
    if us != [] {
      var u := us[0];
      assert u in us;
      WhereFrom(Apply(b, u), us[1..], c, e);
      if InBook(Apply(b, u), e) {
        if u.kind == Add { AddedEntry(b, EntryIn(u), e); }
      }
    }
  }

  /** Without a CLEAR everything stays. */
  lemma {:induction false} StaysThrough(b: Book, us: seq<MarketUpdate>, c: Book, e: Entry)
    requires Replays(b, us, c) && InBook(b, e) && forall u :: u in us ==> u.kind == Add
    ensures InBook(c, e)
    decreases |us|
  {
    if us != [] {
      assert us[0] in us;
      AddedHolds(b, EntryIn(us[0]), e);
      StaysThrough(Apply(b, us[0]), us[1..], c, e);
    }
  }

  /** A book of one bid that does not rest in this one. */
  lemma SomethingElse(c: Book) returns (e: Entry)
    requires WellFormed(c)
    ensures WellFormed(Book([e], [])) && !InBook(c, e) && InBook(Book([e], []), e)
  {
    var p := if c.bids == [] then 1 else c.bids[0].price + 1;
    e := Entry(1, Buy, p, 1, 1);
    forall i | 0 <= i < |c.bids| ensures c.bids[i] != e {
      assert i > 0 ==> Before(Buy, c.bids[0], c.bids[i]);
    }
    assert forall i :: 0 <= i < |c.asks| ==> c.asks[i] != e;
    assert Book([e], []).bids[0] == e;
  }

  lemma {:induction false} OnTickerOf(us: seq<MarketUpdate>, t: TickerId, u: MarketUpdate)
    requires u in OnTicker(us, t)
    ensures u in us && u.ticker == t
  {
    if us[0].ticker != t || u != us[0] {
      OnTickerOf(us[1..], t, u);
    }
  }

  /** Updates that restore the books of a point say everything the snapshot of that point says. */
  lemma SaysEverything(log: seq<MarketUpdate>, k: nat, body: seq<MarketUpdate>, u: MarketUpdate)
    requires k <= |log| && Publishable(log[..k]) && Restores(log, k, body) && forall v :: v in body ==> Plain(v)
    requires u in PartsAt(log, k)
    ensures u in body
  {
    hide Publishable;
    hide BooksAfter;
    hide Parts;
    hide ReplicaAfter;
    hide WellFormed;
    hide OnTicker;
    hide Replays;
    hide Precedes;
    hide RestsIn;
    var rs, t := ReplicaAfter(log[..k]), u.ticker;
    ReplicaFiled(rs, log[..k]);
    PartsInSequence(rs, ME_MAX_TICKERS);
    var i :| 0 <= i < |PartsAt(log, k)| && PartsAt(log, k)[i] == u;
    assert Plain(u) && t < ME_MAX_TICKERS;
    var c, us := BooksAfter(log[..k])[t], OnTicker(body, t);
    BooksWellFormed(log[..k], t);
    forall v | v in us ensures v in body && v.ticker == t && Plain(v) {
      OnTickerOf(body, t, v);
    }
    if u.kind == Add {
      var e := StoredOrder(rs, log[..k], t, u.orderId);
      EmptyWellFormed();
      NothingFromNothing(us, c, e);
      var v :| v in us && v.kind == Add && EntryIn(v) == e;
      assert v == u;
    } else {
      var e := SomethingElse(c);
      var b := Book([e], []);
      assert Replays(b, us, c);
      if forall v :: v in us ==> v.kind == Add {
        StaysThrough(b, us, c, e);
      }
      var v :| v in us && v.kind != Add;
      assert v == u;
    }
  }

  lemma NothingFromNothing(us: seq<MarketUpdate>, c: Book, e: Entry)
    requires Replays(EMPTY_BOOK, us, c) && InBook(c, e) && forall u :: u in us ==> Plain(u)
    ensures exists u :: u in us && u.kind == Add && EntryIn(u) == e
  {
    WhereFrom(EMPTY_BOOK, us, c, e);
  }

  lemma EmptyWellFormed()
    ensures WellFormed(EMPTY_BOOK)
  {
  }

  // --- Counting ----------------------------------------------------------------------------------------------------

  /** As many messages that include all the different ones of a cycle are those, each once. */
  lemma {:induction false} EachOnce(a: seq<MarketUpdate>, b: seq<MarketUpdate>)
    requires InSequence(a) && (forall u :: u in a ==> u in b) && |b| <= |a|
    ensures multiset(a) == multiset(b)
    decreases |a|
  {
    hide InSequence;
    if a != [] {
      SplitFirst(a);
      assert a[0] in b;
      var i :| 0 <= i < |b| && b[i] == a[0];
      var c := b[..i] + b[i + 1..];
      assert b == b[..i] + [b[i]] + b[i + 1..];
      forall u | u in a[1..] ensures u in c {
        OnlyOnce(a, u);
        assert u in b;
      }
      EachOnce(a[1..], c);
      assert multiset(b) == multiset(c) + multiset{b[i]};
    }
  }

  lemma OnlyOnce(us: seq<MarketUpdate>, u: MarketUpdate)
    requires InSequence(us) && us != [] && u in us[1..]
    ensures u in us && u != us[0]
  {
    var i :| 0 <= i < |us[1..]| && us[1..][i] == u;
    assert us[i + 1] == u && Precedes(us[0], us[i + 1]);
  }

  // --- What an accepted queue says ---------------------------------------------------------------------------------

  /** A complete snapshot put together from messages of these cycles. */
  ghost predicate Accepted(log: seq<MarketUpdate>, cycles: seq<nat>, q: Queue, tags: seq<Packet>)
    requires Broadcast(log, cycles)
  {
    && Assembled(log, cycles, q, tags) && q != map[] && Contiguous(q)
    && q[0].kind == SnapshotStart && q[|q| - 1].kind == SnapshotEnd
  }

  /** What the consumer passes on of it. */
  function Body(q: Queue): seq<MarketUpdate>
    requires forall i: nat {:trigger i in q} :: i < |q| ==> i in q
  {
    Unmarked(Listed(q, 0, |q|))
  }

  lemma {:induction false} UnmarkedAppend(a: seq<MarketUpdate>, b: seq<MarketUpdate>)
    ensures Unmarked(a + b) == Unmarked(a) + Unmarked(b)
    decreases |b|
  {
    if b == [] {
      assert a + b == a;
    } else {
      assert (a + b)[..|a + b| - 1] == a + b[..|b| - 1];
      UnmarkedAppend(a, b[..|b| - 1]);
    }
  }

  lemma {:induction false} UnmarkedOf(us: seq<MarketUpdate>)
    ensures |Unmarked(us)| <= |us| && (|Unmarked(us)| == |us| ==> Unmarked(us) == us)
    ensures forall u :: u in Unmarked(us) ==> u in us && !IsMarker(u)
    decreases |us|
  {
    if us != [] {
      UnmarkedOf(us[..|us| - 1]);
      assert us == us[..|us| - 1] + [us[|us| - 1]];
    }
  }

  /** The messages between the first and the last. */
  function Inner(q: Queue): (us: seq<MarketUpdate>)
    requires |q| >= 2 && forall i: nat {:trigger i in q} :: i < |q| ==> i in q
    ensures |us| == |q| - 2
  {
    Listed(q, 0, |q|)[1..|q| - 1]
  }

  lemma BodyOfInner(q: Queue)
    requires |q| >= 2 && forall i: nat {:trigger i in q} :: i < |q| ==> i in q
    requires IsMarker(q[0]) && IsMarker(q[|q| - 1])
    ensures Body(q) == Unmarked(Inner(q))
  {
    hide Listed;
    var us, mid := Listed(q, 0, |q|), Inner(q);
    var last := us[|q| - 1];
    assert us == [us[0]] + mid + [last];
    UnmarkedAppend([us[0]] + mid, [last]);
    UnmarkedAppend([us[0]], mid);
    assert [us[0]][..0] == [] && [last][..0] == [];
  }

  /** A message of a cycle that is not one of its markers. */
  lemma CycleMessage(log: seq<MarketUpdate>, k: nat, i: nat)
    requires k <= |log| && Publishable(log[..k]) && i < |CycleAt(log, k)|
    ensures |CycleAt(log, k)| == |PartsAt(log, k)| + 2 && InSequence(PartsAt(log, k))
    ensures var u := CycleAt(log, k)[i].update;
      IsMarker(u) || (0 < i <= |PartsAt(log, k)| && u == PartsAt(log, k)[i - 1] && Plain(u))
  {
    hide CycleAt;
    hide Publishable;
    hide BooksAfter;
    hide Parts;
    hide ReplicaAfter;
    hide Updates;
    hide Precedes;
    CycleShape(log, k);
    ReplicaFiled(ReplicaAfter(log[..k]), log[..k]);
    PartsInSequence(ReplicaAfter(log[..k]), ME_MAX_TICKERS);
    UpdatesAt(CycleAt(log, k), i);
    var u, ps := CycleAt(log, k)[i].update, PartsAt(log, k);
    if 0 < i <= |ps| {
      assert Updates(CycleAt(log, k))[i] == ps[i - 1];
    }
  }

  /** A message between the markers of an accepted queue, as part of its own cycle. */
  lemma InnerMessage(log: seq<MarketUpdate>, cycles: seq<nat>, q: Queue, tags: seq<Packet>, i: nat)
    requires Broadcast(log, cycles) && Accepted(log, cycles, q, tags) && |q| == |tags| >= 2 && i < |Inner(q)|
    ensures tags[i + 1].cycle < |cycles| && cycles[tags[i + 1].cycle] <= |log|
      && Publishable(log[..cycles[tags[i + 1].cycle]])
    ensures var u := Inner(q)[i];
      IsMarker(u) || (i < |PartsAt(log, cycles[tags[i + 1].cycle])| && u == PartsAt(log, cycles[tags[i + 1].cycle])[i]
        && Plain(u))
  {
    hide Broadcast;
    hide Assembled;
    hide Publishable;
    hide CycleAt;
    hide PartsAt;
    hide Listed;
    hide Plain;
    TaggedMessage(log, cycles, q, tags, i + 1);
    CycleMessage(log, cycles[tags[i + 1].cycle], i + 1);
    assert Inner(q)[i] == q[i + 1];
  }

  /** What is passed on of an accepted queue is no more than the snapshot of its end marker's point, and plain. */
  lemma BodyFits(log: seq<MarketUpdate>, cycles: seq<nat>, q: Queue, tags: seq<Packet>)
    requires Broadcast(log, cycles) && Accepted(log, cycles, q, tags)
    ensures var k := q[|q| - 1].orderId;
      && k <= |log| && Publishable(log[..k]) && IdsBelow(log[..k]) && InSequence(PartsAt(log, k))
      && |q| == |tags| == |PartsAt(log, k)| + 2 && Body(q) == Unmarked(Inner(q)) && |Body(q)| <= |PartsAt(log, k)|
      && forall u :: u in Body(q) ==> Plain(u)
  {
    hide Broadcast;
    hide Assembled;
    hide Publishable;
    hide IdsBelow;
    hide CycleAt;
    hide PartsAt;
    hide Listed;
    hide Plain;
    hide Body;
    hide Inner;
    hide Unmarked;
    hide InSequence;
    CompleteEnds(log, cycles, q, tags);
    var k := q[|q| - 1].orderId;
    CycleMessage(log, k, 0);
    BodyOfInner(q);
    UnmarkedOf(Inner(q));
    forall u | u in Body(q) ensures Plain(u) {
      var i :| 0 <= i < |Inner(q)| && Inner(q)[i] == u;
      InnerMessage(log, cycles, q, tags, i);
    }
  }

  /**
   An accepted snapshot gives every client the books of its end marker's point only if it consists of the messages of
   that point's cycle: whatever else it may be put together from, some client is misled.
   */
  lemma RestoresOnlyItsCycle(log: seq<MarketUpdate>, cycles: seq<nat>, q: Queue, tags: seq<Packet>)
    requires Broadcast(log, cycles) && Accepted(log, cycles, q, tags)
    ensures var k := q[|q| - 1].orderId;
      && k <= |log| && Publishable(log[..k])
      && (Restores(log, k, Body(q)) ==> multiset(Body(q)) == multiset(PartsAt(log, k)))
  {
    hide Broadcast;
    hide Assembled;
    hide Publishable;
    hide PartsAt;
    hide Plain;
    hide Body;
    hide InSequence;
    hide Restores;
    BodyFits(log, cycles, q, tags);
    var k := q[|q| - 1].orderId;
    if Restores(log, k, Body(q)) {
      forall u | u in PartsAt(log, k) ensures u in Body(q) {
        SaysEverything(log, k, Body(q), u);
      }
      EachOnce(PartsAt(log, k), Body(q));
    }
  }

  /** The snapshot of a point restores its books, whichever start marker it came with. */
  lemma CycleRestores(log: seq<MarketUpdate>, k: nat)
    requires k <= |log| && Publishable(log[..k]) && IdsBelow(log[..k])
    ensures Restores(log, k, PartsAt(log, k))
  {
    hide Publishable;
    hide BooksAfter;
    hide Parts;
    hide ReplicaAfter;
    hide WellFormed;
    hide OnTicker;
    hide Replays;
    hide TickerPart;
    hide Mirrors;
    hide RestsIn;
    hide IdsBelow;
    var rs := ReplicaAfter(log[..k]);
    forall t: TickerId, start: Book {:trigger Replays(start, OnTicker(PartsAt(log, k), t), BooksAfter(log[..k])[t])} |
      t < ME_MAX_TICKERS && WellFormed(start)
      ensures Replays(start, OnTicker(PartsAt(log, k), t), BooksAfter(log[..k])[t])
    {
      var b := BooksAfter(log[..k])[t];
      PartsOn(rs, log[..k], ME_MAX_TICKERS, t);
      BooksWellFormed(log[..k], t);
      forall id: OrderId | RestsIn(b, id) ensures id < ME_MAX_ORDER_IDS {
        BooksIdsBelow(log[..k], t, id);
      }
      assert Mirrors(rs[t], b, t);
      SnapshotRebuilds(rs[t], b, t, start);
    }
  }

  /** Up to message j everything is from one cycle, and from there on from one other. */
  ghost predicate SwitchesOnce(tags: seq<Packet>, j: nat) {
    && 0 < j <= |tags|
    && (forall i {:trigger tags[i]} :: 0 <= i < j ==> tags[i].cycle == tags[0].cycle)
    && (forall i {:trigger tags[i]} :: j <= i < |tags| ==> tags[i].cycle == tags[|tags| - 1].cycle)
  }

  lemma SameStart(a: seq<MarketUpdate>, b: seq<MarketUpdate>, c: seq<MarketUpdate>, m: nat)
    requires InSequence(a) && InSequence(b) && m <= |a| && m <= |b| == |c|
    requires c[..m] == a[..m] && c[m..] == b[m..] && multiset(c) == multiset(b)
    ensures c == b
  {
    hide InSequence;
    assert b == b[..m] + b[m..] && c == a[..m] + b[m..];
    assert multiset(c) == multiset(a[..m]) + multiset(b[m..]) && multiset(b) == multiset(b[..m]) + multiset(b[m..]);
    assert multiset(a[..m]) == multiset(c) - multiset(b[m..]);
    assert multiset(b[..m]) == multiset(b) - multiset(b[m..]);
    PrefixInSequence(a, m);
    PrefixInSequence(b, m);
    SequenceUnique(a[..m], b[..m]);
  }

  /** Message i is that of the one list before m, and that of the other from there on. */
  predicate FromOne(a: seq<MarketUpdate>, b: seq<MarketUpdate>, c: seq<MarketUpdate>, m: nat, i: nat)
    requires i < |c| == |b|
  {
    if i < m then i < |a| && c[i] == a[i] else c[i] == b[i]
  }

  lemma TwoParts(a: seq<MarketUpdate>, b: seq<MarketUpdate>, c: seq<MarketUpdate>, m: nat)
    requires |b| == |c| && m <= |c|
    requires forall i: nat {:trigger FromOne(a, b, c, m, i)} :: i < |c| ==> FromOne(a, b, c, m, i)
    ensures m <= |a| && c[..m] == a[..m] && c[m..] == b[m..]
  {
    assert m > 0 ==> FromOne(a, b, c, m, m - 1);
    forall i: nat | i < m ensures c[i] == a[i] {
      assert FromOne(a, b, c, m, i);
    }
    forall i: nat | m <= i < |c| ensures c[i] == b[i] {
      assert FromOne(a, b, c, m, i);
    }
  }

  lemma PrefixInSequence(us: seq<MarketUpdate>, m: nat)
    requires InSequence(us) && m <= |us|
    ensures InSequence(us[..m])
  {
    var most := us[..m];
    forall i {:trigger most[i]} | 0 <= i < m ensures Plain(most[i]) {
      assert most[i] == us[i];
    }
    forall i, j {:trigger most[i], most[j]} | 0 <= i < j < m ensures Precedes(most[i], most[j]) {
      assert most[i] == us[i] && most[j] == us[j];
    }
  }

  /** Nothing is left out of an accepted queue as long as the snapshot it ends: its inner messages are its body. */
  lemma WholeBody(log: seq<MarketUpdate>, cycles: seq<nat>, q: Queue, tags: seq<Packet>, i: nat)
    requires Broadcast(log, cycles) && Accepted(log, cycles, q, tags) && i < |Body(q)| == |q| - 2
    ensures |q| == |tags| && Body(q) == Inner(q)
    ensures tags[i + 1].cycle < |cycles| && cycles[tags[i + 1].cycle] <= |log|
      && Publishable(log[..cycles[tags[i + 1].cycle]])
    ensures var ps := PartsAt(log, cycles[tags[i + 1].cycle]); i < |ps| && Body(q)[i] == ps[i] && InSequence(ps)
  {
    hide Broadcast;
    hide Assembled;
    hide Publishable;
    hide IdsBelow;
    hide PartsAt;
    hide Plain;
    hide Body;
    hide Inner;
    hide Unmarked;
    hide InSequence;
    hide CycleAt;
    BodyFits(log, cycles, q, tags);
    UnmarkedOf(Inner(q));
    InnerMessage(log, cycles, q, tags, i);
    assert Inner(q)[i] in Unmarked(Inner(q));
    TaggedMessage(log, cycles, q, tags, i + 1);
    CycleMessage(log, cycles[tags[i + 1].cycle], 0);
  }

  /**
   If everything a queue passes on is in the cycle it ends with, and it switched to that cycle once, it is that cycle.
   */
  lemma SameMessages(log: seq<MarketUpdate>, cycles: seq<nat>, q: Queue, tags: seq<Packet>, j: nat)
    requires Broadcast(log, cycles) && Accepted(log, cycles, q, tags) && SwitchesOnce(tags, j)
    requires var k := q[|q| - 1].orderId;
      k <= |log| && Publishable(log[..k]) && multiset(Body(q)) == multiset(PartsAt(log, k))
    ensures Body(q) == PartsAt(log, q[|q| - 1].orderId)
  {
    hide Broadcast;
    hide Assembled;
    hide Publishable;
    hide IdsBelow;
    hide PartsAt;
    hide Body;
    hide InSequence;
    hide CycleAt;
    BodyFits(log, cycles, q, tags);
    CompleteEnds(log, cycles, q, tags);
    var k := q[|q| - 1].orderId;
    var b, c := PartsAt(log, k), Body(q);
    assert |multiset(b)| == |b| && |multiset(c)| == |c|;
    TaggedMessage(log, cycles, q, tags, 0);
    var a := PartsAt(log, cycles[tags[0].cycle]);
    CycleMessage(log, cycles[tags[0].cycle], 0);
    var m := if j - 1 <= |b| then j - 1 else |b|;
    forall i: nat {:trigger FromOne(a, b, c, m, i)} | i < |c| ensures FromOne(a, b, c, m, i) {
      WholeBody(log, cycles, q, tags, i);
      assert tags[i + 1].cycle == (if i < m then tags[0].cycle else tags[|tags| - 1].cycle);
    }
    TwoParts(a, b, c, m);
    SameStart(a, b, c, m);
  }

  /** A snapshot that switched cycles at most once is right for every client exactly if it is the cycle it ends with. */
  lemma RestoresIffItsCycle(log: seq<MarketUpdate>, cycles: seq<nat>, q: Queue, tags: seq<Packet>, j: nat)
    requires Broadcast(log, cycles) && Accepted(log, cycles, q, tags) && SwitchesOnce(tags, j)
    ensures var k := q[|q| - 1].orderId;
      k <= |log| && Publishable(log[..k]) && (Restores(log, k, Body(q)) <==> Body(q) == PartsAt(log, k))
  {
    hide Broadcast;
    hide Assembled;
    hide Publishable;
    hide IdsBelow;
    hide PartsAt;
    hide Body;
    hide InSequence;
    hide Restores;
    RestoresOnlyItsCycle(log, cycles, q, tags);
    BodyFits(log, cycles, q, tags);
    var k := q[|q| - 1].orderId;
    CycleRestores(log, k);
    if Restores(log, k, Body(q)) {
      SameMessages(log, cycles, q, tags, j);
    }
  }

  // --- Any number of switches --------------------------------------------------------------------------------------

  /**
   A message that may come after another: no CLEAR after its ticker's orders, no order before an older one at its
   price.
   */
  predicate MayFollow(u: MarketUpdate, v: MarketUpdate) {
    u.ticker == v.ticker ==>
      v.kind == Add && (u.kind == Add && u.side == v.side && u.price == v.price ==> u.orderId < v.orderId)
  }

  ghost predicate Orderly(us: seq<MarketUpdate>) {
    forall i, j {:trigger us[i], us[j]} :: 0 <= i < j < |us| ==> MayFollow(us[i], us[j])
  }

  lemma OrderlyParts(us: seq<MarketUpdate>, m: nat)
    requires Orderly(us) && m <= |us|
    ensures Orderly(us[..m]) && Orderly(us[m..])
    ensures forall u, v :: u in us[..m] && v in us[m..] ==> MayFollow(u, v)
  {
    var a, b := us[..m], us[m..];
    forall i, j {:trigger a[i], a[j]} | 0 <= i < j < |a| ensures MayFollow(a[i], a[j]) {
      assert a[i] == us[i] && a[j] == us[j];
    }
    forall i, j {:trigger b[i], b[j]} | 0 <= i < j < |b| ensures MayFollow(b[i], b[j]) {
      assert b[i] == us[m + i] && b[j] == us[m + j];
    }
    forall u, v | u in a && v in b ensures MayFollow(u, v) {
      var i :| 0 <= i < |a| && a[i] == u;
      var j :| 0 <= j < |b| && b[j] == v;
      assert us[i] == u && us[m + j] == v;
    }
  }

  lemma OrderlyFrom(u: MarketUpdate, us: seq<MarketUpdate>)
    requires Orderly(us) && forall v :: v in us ==> MayFollow(u, v)
    ensures Orderly([u] + us)
  {
    var all := [u] + us;
    forall i, j {:trigger all[i], all[j]} | 0 <= i < j < |all| ensures MayFollow(all[i], all[j]) {
      assert all[j] == us[j - 1] && us[j - 1] in us;
      if i > 0 { assert all[i] == us[i - 1]; }
    }
  }

  // Rebuilding a book from its orders.

  /** These are additions of exactly the orders of the book. */
  ghost predicate AddsOf(b: Book, us: seq<MarketUpdate>, t: TickerId) {
    && (forall u :: u in us ==> u.kind == Add && u.ticker == t && InBook(b, EntryIn(u)))
    && (forall e {:trigger InBook(b, e)} :: InBook(b, e) ==> AddMessage(t, e) in us)
  }

  lemma KeptEntry(b: Book, side: Side, k: nat, f: Entry)
    requires k < |b.Of(side)| && InBook(b, f) && f != b.Of(side)[k]
    ensures InBook(b.With(side, RemoveAt(b.Of(side), k)), f)
  {
    var s := b.Of(side);
    var t := RemoveAt(s, k);
    if f in s {
      var i :| 0 <= i < |s| && s[i] == f;
      assert t[if i < k then i else i - 1] == f;
    }
  }

  /** Put back behind the others at its price, the order that came last at that price is where it was. */
  lemma LastBack(b: Book, side: Side, k: nat)
    requires WellFormed(b) && side != NoSide && k < |b.Of(side)|
    requires forall i :: k < i < |b.Of(side)| ==> b.Of(side)[i].price != b.Of(side)[k].price
    ensures var e, c := b.Of(side)[k], b.With(side, RemoveAt(b.Of(side), k));
      e.side == side && CanAdd(c, e) && Added(c, e) == b
  {
    var s := b.Of(side);
    var e, t := s[k], RemoveAt(s, k);
    var c := b.With(side, t);
    forall i | 0 <= i < k ensures !Better(side, e.price, t[i].price) {
      assert Before(side, s[i], s[k]);
    }
    if k < |t| { assert Before(side, s[k], s[k + 1]); }
    InsertPosUnique(side, t, e.price, k);
    assert InsertAt(t, k, e) == s;
    IndexOfAt(side, s, k);
    RemovedIds(b, side, e.id, e.id);
  }

  /** An order none of the others at its price may follow is the last one there. */
  lemma LastAtPrice(b: Book, us: seq<MarketUpdate>, t: TickerId, u: MarketUpdate, k: nat)
    requires WellFormed(b) && AddsOf(b, us + [u], t) && Orderly(us + [u])
    requires u.side != NoSide && k < |b.Of(u.side)| && b.Of(u.side)[k] == EntryIn(u)
    ensures forall i :: k < i < |b.Of(u.side)| ==> b.Of(u.side)[i].price != u.price
  {
    var s := b.Of(u.side);
    forall i | k < i < |s| ensures s[i].price != u.price {
      assert InBook(b, s[i]) && Before(u.side, s[k], s[i]);
      var v := AddMessage(t, s[i]);
      assert v in us + [u];
      var j :| 0 <= j < |us| && us[j] == v;
      assert (us + [u])[j] == v && (us + [u])[|us|] == u;
    }
  }

  lemma NotAgain(us: seq<MarketUpdate>, u: MarketUpdate, v: MarketUpdate)
    requires Orderly(us + [u]) && v in us
    ensures v != u
  {
    var j :| 0 <= j < |us| && us[j] == v;
    assert MayFollow((us + [u])[j], (us + [u])[|us|]);
  }

  lemma AddsOfMost(b: Book, us: seq<MarketUpdate>, t: TickerId, u: MarketUpdate, k: nat)
    requires WellFormed(b) && AddsOf(b, us + [u], t) && Orderly(us + [u])
    requires u.side != NoSide && k < |b.Of(u.side)| && b.Of(u.side)[k] == EntryIn(u)
    ensures AddsOf(b.With(u.side, RemoveAt(b.Of(u.side), k)), us, t)
  {
    hide WellFormed;
    var c := b.With(u.side, RemoveAt(b.Of(u.side), k));
    forall v | v in us ensures v.kind == Add && v.ticker == t && InBook(c, EntryIn(v)) {
      assert v in us + [u];
      NotAgain(us, u, v);
      KeptEntry(b, u.side, k, EntryIn(v));
    }
    forall e {:trigger InBook(c, e)} | InBook(c, e) ensures AddMessage(t, e) in us {
      RemovedEntry(b, u.side, k, e);
      assert AddMessage(t, e) in us + [u];
    }
  }

  /** The orders of a book rebuild it in any order that respects the queue of each price. */
  lemma {:induction false} AddsRebuild(b: Book, us: seq<MarketUpdate>, t: TickerId)
    requires WellFormed(b) && AddsOf(b, us, t) && Orderly(us)
    ensures Replays(EMPTY_BOOK, us, b)
    decreases |us|
  {
    hide WellFormed;
    hide Replays;
    hide Orderly;
    hide CanAdd;
    hide Added;
    if us == [] {
      NoAdds(b, t);
    } else {
      var most, u := us[..|us| - 1], us[|us| - 1];
      assert us == most + [u] && u in us;
      InBookSide(b, EntryIn(u));
      var k := IndexOf(b.Of(u.side), u.orderId);
      hide AddsOf;
      var c := b.With(u.side, RemoveAt(b.Of(u.side), k));
      LastAtPrice(b, most, t, u, k);
      AddsOfMost(b, most, t, u, k);
      OrderlyParts(us, |most|);
      RemoveKeepsWellFormed(b, u.side, k);
      AddsRebuild(c, most, t);
      LastBack(b, u.side, k);
      OneAdd(c, u, b);
      ReplaysAppend(EMPTY_BOOK, most, c, [u], b);
    }
  }

  lemma OneAdd(c: Book, u: MarketUpdate, b: Book)
    requires u.kind == Add && CanAdd(c, EntryIn(u)) && Added(c, EntryIn(u)) == b
    ensures Replays(c, [u], b)
  {
    hide CanAdd;
    hide Added;
    assert [u][1..] == [] && Replays(b, [], b);
  }

  lemma NoAdds(b: Book, t: TickerId)
    requires AddsOf(b, [], t)
    ensures Replays(EMPTY_BOOK, [], b)
  {
    assert b.bids != [] ==> InBook(b, b.bids[0]);
    assert b.asks != [] ==> InBook(b, b.asks[0]);
  }

  // What a book says about the order its orders came in.

  /** All the orders at this one's price are older. */
  ghost predicate Youngest(b: Book, e: Entry) {
    forall f :: f in b.Of(e.side) && f.price == e.price ==> f.id < e.id
  }

  lemma AddedYoungest(b: Book, e: Entry)
    requires CanAdd(b, e)
    ensures e.side != NoSide && Youngest(b, e)
  {
    var s, t := b.Of(e.side), Added(b, e).Of(e.side);
    var k := InsertPos(e.side, s, e.price);
    forall f | f in s && f.price == e.price ensures f.id < e.id {
      var m :| 0 <= m < |s| && s[m] == f;
      assert t[k] == e && (if m < k then t[m] == f else t[m + 1] == f && t[k + 1] == s[k]);
      assert m < k ==> Before(e.side, t[m], t[k]);
      assert k < m ==> Before(e.side, t[k + 1], t[m + 1]);
    }
  }

  /** What is younger than everything after an addition is younger than the addition and everything before. */
  lemma YoungestBefore(b: Book, n: Entry, e: Entry)
    requires n.side != NoSide && Youngest(Added(b, n), e)
    ensures Youngest(b, e) && (n.side == e.side && n.price == e.price ==> n.id < e.id)
  {
    var s, t := b.Of(e.side), Added(b, n).Of(e.side);
    forall f | f in s ensures f in t {
    }
    assert n.side == e.side ==> n in t;
  }

  /** Additions that can be made one after the other are in a good order, and all younger than what was there. */
  lemma {:induction false} AddsOrderly(b: Book, us: seq<MarketUpdate>, c: Book)
    requires Replays(b, us, c) && forall u :: u in us ==> u.kind == Add
    ensures Orderly(us) && forall u :: u in us ==> Youngest(b, EntryIn(u))
    decreases |us|
  {
    hide CanAdd;
    hide Added;
    hide Orderly;
    hide Youngest;
    if us == [] {
      OrderlyNone();
    } else {
      var u, rest := us[0], us[1..];
      assert u in us && us == [u] + rest;
      AddsOrderly(Apply(b, u), rest, c);
      AddedYoungest(b, EntryIn(u));
      forall v | v in rest ensures MayFollow(u, v) && Youngest(b, EntryIn(v)) {
        YoungestBefore(b, EntryIn(u), EntryIn(v));
      }
      OrderlyFrom(u, rest);
    }
  }

  lemma OrderlyNone()
    ensures Orderly([])
  {
  }

  // One ticker at a time.

  lemma {:induction false} OnTickerHas(us: seq<MarketUpdate>, t: TickerId, u: MarketUpdate)
    ensures u in OnTicker(us, t) <==> u in us && u.ticker == t
  {
    if us != [] { OnTickerHas(us[1..], t, u); }
  }

  lemma {:induction false} OrderlyOnTicker(us: seq<MarketUpdate>, t: TickerId)
    requires Orderly(us)
    ensures Orderly(OnTicker(us, t))
  {
    hide Orderly;
    if us == [] {
      OrderlyNone();
    } else {
      OrderlyParts(us, 1);
      OrderlyOnTicker(us[1..], t);
      var on := OnTicker(us[1..], t);
      forall v | v in on ensures MayFollow(us[0], v) {
        OnTickerHas(us[1..], t, v);
        assert us[0] in us[..1];
      }
      OrderlyFrom(us[0], on);
      assert [] + on == on;
    }
  }

  lemma {:induction false} OrderlyTickers(us: seq<MarketUpdate>)
    requires forall t: TickerId :: Orderly(OnTicker(us, t))
    ensures Orderly(us)
  {
    hide Orderly;
    if us == [] {
      OrderlyNone();
    } else {
      var u, rest := us[0], us[1..];
      forall t: TickerId ensures Orderly(OnTicker(rest, t)) {
        assert Orderly(OnTicker(us, t));
        if u.ticker == t {
          OrderlyParts(OnTicker(us, t), 1);
          assert OnTicker(us, t)[1..] == OnTicker(rest, t);
        } else {
          assert OnTicker(us, t) == OnTicker(rest, t);
        }
      }
      OrderlyTickers(rest);
      var on := OnTicker(us, u.ticker);
      assert on == [u] + OnTicker(rest, u.ticker) && Orderly(on);
      OrderlyParts(on, 1);
      forall v | v in rest ensures MayFollow(u, v) {
        OnTickerHas(rest, u.ticker, v);
        assert u in on[..1] && on[1..] == OnTicker(rest, u.ticker);
      }
      OrderlyFrom(u, rest);
      assert us == [u] + rest;
    }
  }

  ghost predicate NoRepeats(us: seq<MarketUpdate>) {
    forall i, j {:trigger us[i], us[j]} :: 0 <= i < j < |us| ==> us[i] != us[j]
  }

  lemma {:induction false} OnTickerRepeats(us: seq<MarketUpdate>, t: TickerId)
    requires NoRepeats(us)
    ensures NoRepeats(OnTicker(us, t))
  {
    if us != [] {
      var rest := us[1..];
      assert forall i {:trigger rest[i]} :: 0 <= i < |rest| ==> rest[i] == us[i + 1];
      OnTickerRepeats(rest, t);
      OnTickerHas(rest, t, us[0]);
    }
  }

  lemma {:induction false} SequenceCounts(us: seq<MarketUpdate>, u: MarketUpdate)
    requires InSequence(us)
    ensures multiset(us)[u] <= 1
  {
    hide InSequence;
    if us != [] {
      SplitFirst(us);
      SequenceCounts(us[1..], u);
      if u in us[1..] { OnlyOnce(us, u); }
    }
  }

  lemma CountedOnce(us: seq<MarketUpdate>)
    requires forall u :: multiset(us)[u] <= 1
    ensures NoRepeats(us)
  {
    forall i, j {:trigger us[i], us[j]} | 0 <= i < j < |us| ensures us[i] != us[j] {
      assert us == us[..j] + us[j..] && us[i] in us[..j] && us[j] in us[j..];
      assert multiset(us)[us[i]] == multiset(us[..j])[us[i]] + multiset(us[j..])[us[i]];
    }
  }

  lemma {:induction false} AscendingHas(r: Orders, n: nat, id: OrderId)
    requires id < n && id in r
    ensures r[id] in Ascending(r, n)
  {
    if id < n - 1 { AscendingHas(r, n - 1, id); }
  }

  /** What the snapshot of a point says about one ticker: its CLEAR, and exactly the orders of its book. */
  lemma PartsSay(log: seq<MarketUpdate>, k: nat, t: TickerId, u: MarketUpdate)
    requires k <= |log| && Publishable(log[..k]) && IdsBelow(log[..k]) && t < ME_MAX_TICKERS
    ensures u in PartsAt(log, k) && u.ticker == t <==> Says(BooksAfter(log[..k])[t], t, u)
  {
    hide Publishable;
    hide BooksAfter;
    hide ReplicaAfter;
    hide Ascending;
    hide RestsIn;
    hide IdsBelow;
    hide InSequence;
    hide InBook;
    var rs, b := ReplicaAfter(log[..k]), BooksAfter(log[..k])[t];
    PartsOn(rs, log[..k], ME_MAX_TICKERS, t);
    OnTickerHas(PartsAt(log, k), t, u);
    ReplicaFiled(rs, log[..k]);
    AscendingInSequence(rs, t, ME_MAX_ORDER_IDS);
    assert Mirrors(rs[t], b, t);
    if u in Ascending(rs[t], ME_MAX_ORDER_IDS) {
      var i :| 0 <= i < |Ascending(rs[t], ME_MAX_ORDER_IDS)| && Ascending(rs[t], ME_MAX_ORDER_IDS)[i] == u;
      var e := StoredOrder(rs, log[..k], t, u.orderId);
    }
    if InBook(b, EntryIn(u)) {
      BooksWellFormed(log[..k], t);
      LookupEntry(b, EntryIn(u));
      BooksIdsBelow(log[..k], t, u.orderId);
      AscendingHas(rs[t], ME_MAX_ORDER_IDS, u.orderId);
    }
  }

  lemma ClearFirst(us: seq<MarketUpdate>, u: MarketUpdate)
    requires Orderly(us) && u in us && u.kind != Add && forall v :: v in us ==> v.ticker == u.ticker
    ensures us[0] == u && forall v :: v in us[1..] ==> v.kind == Add
  {
    var i :| 0 <= i < |us| && us[i] == u;
    assert us[0] in us;
    assert i > 0 ==> MayFollow(us[0], us[i]);
    forall v | v in us[1..] ensures v.kind == Add {
      var j :| 0 <= j < |us[1..]| && us[1..][j] == v;
      assert us[j + 1] == v && v in us && MayFollow(us[0], us[j + 1]);
    }
  }

  /** The messages of a snapshot, in any order that respects every queue, restore a ticker's book from any other. */
  lemma TickerRestored(log: seq<MarketUpdate>, k: nat, body: seq<MarketUpdate>, t: TickerId, start: Book)
    requires k <= |log| && Publishable(log[..k]) && IdsBelow(log[..k]) && t < ME_MAX_TICKERS
    requires Orderly(body) && forall u :: u in body <==> u in PartsAt(log, k)
    ensures Replays(start, OnTicker(body, t), BooksAfter(log[..k])[t])
  {
    hide Publishable;
    hide BooksAfter;
    hide PartsAt;
    hide IdsBelow;
    hide Orderly;
    hide InBook;
    hide WellFormed;
    hide OnTicker;
    var us, b, clear := OnTicker(body, t), BooksAfter(log[..k])[t], Marker(Clear, ORDER_ID_INVALID, t);
    OrderlyOnTicker(body, t);
    forall u ensures u in us <==> Says(b, t, u) {
      OnTickerHas(body, t, u);
      PartsSay(log, k, t, u);
    }
    ClearFirst(us, clear);
    var rest := us[1..];
    assert us == [clear] + rest;
    OrderlyParts(us, 1);
    forall e {:trigger InBook(b, e)} | InBook(b, e) ensures AddMessage(t, e) in rest {
      assert EntryIn(AddMessage(t, e)) == e && AddMessage(t, e) in us;
    }
    forall u | u in rest ensures u.kind == Add && u.ticker == t && InBook(b, EntryIn(u)) {
      assert u in us;
    }
    BooksWellFormed(log[..k], t);
    AddsRebuild(b, rest, t);
    assert Apply(start, clear) == EMPTY_BOOK;
  }

  // What a body that restores says about its order.

  lemma {:induction false} AfterClear(b: Book, us: seq<MarketUpdate>, c: Book, i: nat)
    requires Replays(b, us, c) && i < |us| && us[i].kind == Clear
    ensures Replays(EMPTY_BOOK, us[i + 1..], c)
    decreases i
  {
    hide Accepts;
    if i > 0 {
      AfterClear(Apply(b, us[0]), us[1..], c, i - 1);
      assert us[1..][i..] == us[i + 1..];
    }
  }

  /** Messages of one ticker that may be in its snapshot: its CLEAR and orders of its book. */
  predicate Says(b: Book, t: TickerId, u: MarketUpdate) {
    u == Marker(Clear, ORDER_ID_INVALID, t) || (InBook(b, EntryIn(u)) && u == AddMessage(t, EntryIn(u)))
  }

  /** An order before a CLEAR has to be added again. */
  lemma AddedAgain(us: seq<MarketUpdate>, b: Book, t: TickerId, i: nat)
    requires Replays(EMPTY_BOOK, us, b) && i < |us| && us[i].kind == Clear && us[0].kind == Add
    requires forall u :: u in us ==> Says(b, t, u)
    ensures us[0] in us[i + 1..]
  {
    hide Replays;
    hide InBook;
    var u, rest := us[0], us[i + 1..];
    AfterClear(EMPTY_BOOK, us, b, i);
    assert u in us;
    forall v | v in rest ensures v in us {
      var j :| 0 <= j < |rest| && rest[j] == v;
      assert us[i + 1 + j] == v;
    }
    NothingFromNothing(rest, b, EntryIn(u));
  }

  lemma NotRepeated(us: seq<MarketUpdate>, i: nat, u: MarketUpdate)
    requires NoRepeats(us) && i < |us| && u in us[i + 1..]
    ensures u in us && u != us[0] && u != us[i]
  {
    var j :| 0 <= j < |us[i + 1..]| && us[i + 1..][j] == u;
    assert us[i + 1 + j] == u;
  }

  /** Messages of one ticker, each once, that rebuild a book in which all their orders rest are in a good order. */
  lemma RebuildsOrderly(us: seq<MarketUpdate>, b: Book, t: TickerId)
    requires Replays(EMPTY_BOOK, us, b) && NoRepeats(us) && forall u :: u in us ==> Says(b, t, u)
    ensures Orderly(us)
  {
    hide Replays;
    hide Orderly;
    hide InBook;
    hide NoRepeats;
    var clear := Marker(Clear, ORDER_ID_INVALID, t);
    if clear in us {
      var i :| 0 <= i < |us| && us[i] == clear;
      assert us[0] in us;
      if us[0].kind == Add {
        AddedAgain(us, b, t, i);
        NotRepeated(us, i, us[0]);
      }
      AfterClear(EMPTY_BOOK, us, b, 0);
      forall u | u in us[1..] ensures u.kind == Add {
        NotRepeated(us, 0, u);
      }
      AddsOrderly(EMPTY_BOOK, us[1..], b);
      OrderlyFrom(clear, us[1..]);
      assert us == [clear] + us[1..];
    } else {
      AddsOrderly(EMPTY_BOOK, us, b);
    }
  }

  lemma RestoringOrderly(log: seq<MarketUpdate>, k: nat, body: seq<MarketUpdate>)
    requires k <= |log| && Publishable(log[..k]) && IdsBelow(log[..k])
    requires Restores(log, k, body) && NoRepeats(body) && forall u :: u in body ==> u in PartsAt(log, k)
    ensures Orderly(body)
  {
    hide Publishable;
    hide BooksAfter;
    hide PartsAt;
    hide IdsBelow;
    hide Orderly;
    hide InBook;
    hide Replays;
    hide OnTicker;
    hide NoRepeats;
    forall t: TickerId ensures Orderly(OnTicker(body, t)) {
      var us := OnTicker(body, t);
      if t < ME_MAX_TICKERS {
        var b := BooksAfter(log[..k])[t];
        forall u | u in us ensures Says(b, t, u) {
          OnTickerHas(body, t, u);
          PartsSay(log, k, t, u);
        }
        EmptyWellFormed();
        assert Replays(EMPTY_BOOK, us, b);
        OnTickerRepeats(body, t);
        RebuildsOrderly(us, b, t);
      } else {
        if us != [] {
          OnTickerHas(body, t, us[0]);
          KnownTicker(log, k, us[0]);
        }
        OrderlyNone();
      }
    }
    OrderlyTickers(body);
  }

  lemma KnownTicker(log: seq<MarketUpdate>, k: nat, u: MarketUpdate)
    requires k <= |log| && Publishable(log[..k]) && u in PartsAt(log, k)
    ensures u.ticker < ME_MAX_TICKERS
  {
    hide Publishable;
    hide ReplicaAfter;
    hide InSequence;
    ReplicaFiled(ReplicaAfter(log[..k]), log[..k]);
    PartsInSequence(ReplicaAfter(log[..k]), ME_MAX_TICKERS);
  }

  /**
   Messages no more than the snapshot of a point has give every client the books of that point exactly if they are that
   snapshot's messages, each ticker's CLEAR before its orders and the orders of one side and price in id order.
   */
  lemma RestoresIff(log: seq<MarketUpdate>, k: nat, body: seq<MarketUpdate>)
    requires k <= |log| && Publishable(log[..k]) && IdsBelow(log[..k])
    requires |body| <= |PartsAt(log, k)| && forall u :: u in body ==> Plain(u)
    ensures Restores(log, k, body) <==> multiset(body) == multiset(PartsAt(log, k)) && Orderly(body)
  {
    hide Publishable;
    hide BooksAfter;
    hide PartsAt;
    hide IdsBelow;
    hide Orderly;
    hide InSequence;
    hide Replays;
    hide OnTicker;
    hide Plain;
    var ps := PartsAt(log, k);
    CycleMessage(log, k, 0);
    if Restores(log, k, body) {
      hide Restores;
      forall u | u in ps ensures u in body {
        SaysEverything(log, k, body, u);
      }
      EachOnce(ps, body);
      forall u ensures multiset(body)[u] <= 1 {
        SequenceCounts(ps, u);
      }
      CountedOnce(body);
      assert forall u :: u in multiset(body) ==> u in ps;
      RestoringOrderly(log, k, body);
    }
    if multiset(body) == multiset(ps) && Orderly(body) {
      forall u ensures u in body <==> u in ps {
        assert u in multiset(body) <==> u in multiset(ps);
      }
      forall t: TickerId, b: Book {:trigger Replays(b, OnTicker(body, t), BooksAfter(log[..k])[t])} |
        t < ME_MAX_TICKERS && WellFormed(b) ensures Replays(b, OnTicker(body, t), BooksAfter(log[..k])[t])
      {
        TickerRestored(log, k, body, t, b);
      }
    }
  }

  /** The same of an accepted queue, put together from however many cycles. */
  lemma AcceptedRestoresIff(log: seq<MarketUpdate>, cycles: seq<nat>, q: Queue, tags: seq<Packet>)
    requires Broadcast(log, cycles) && Accepted(log, cycles, q, tags)
    ensures var k := q[|q| - 1].orderId;
      && k <= |log| && Publishable(log[..k])
      && (Restores(log, k, Body(q)) <==> multiset(Body(q)) == multiset(PartsAt(log, k)) && Orderly(Body(q)))
  {
    hide Broadcast;
    hide Assembled;
    hide Publishable;
    hide PartsAt;
    hide Plain;
    hide Body;
    hide InSequence;
    hide Restores;
    hide Orderly;
    hide IdsBelow;
    BodyFits(log, cycles, q, tags);
    RestoresIff(log, q[|q| - 1].orderId, Body(q));
  }
}
