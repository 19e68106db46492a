/** Why a book can be rebuilt from its orders in id order: ids increase along every queue. */
module Rebuild {
  import opened Types
  import opened PriceTime

  /** The orders of a side with ids below n, still in price-time order. */
  function BelowId(s: seq<Entry>, n: OrderId): seq<Entry> {
    if s == [] then [] else (if s[0].id < n then [s[0]] else []) + BelowId(s[1..], n)
  }

  lemma BelowIdUnfolds(s: seq<Entry>, n: OrderId)
    requires s != []
    ensures BelowId(s, n) == if s[0].id < n then [s[0]] + BelowId(s[1..], n) else BelowId(s[1..], n)
  {
    var r := BelowId(s[1..], n);
    assert [] + r == r;
  }

  lemma {:induction false} BelowIdMember(s: seq<Entry>, n: OrderId, e: Entry)
    ensures e in BelowId(s, n) <==> e in s && e.id < n
    decreases |s|
  {
    if s != [] {
      BelowIdMember(s[1..], n, e);
      assert s == [s[0]] + s[1..];
    }
  }

  lemma BelowIdLacks(s: seq<Entry>, n: OrderId)
    ensures !Has(BelowId(s, n), n)
  {
    var t := BelowId(s, n);
    forall i | 0 <= i < |t| ensures t[i].id != n {
      BelowIdMember(s, n, t[i]);
    }
  }

  function Below(b: Book, n: OrderId): Book {
    Book(BelowId(b.bids, n), BelowId(b.asks, n))
  }

  lemma {:induction false} BelowIdSide(side: Side, s: seq<Entry>, n: OrderId)
    requires SideOk(side, s)
    ensures SideOk(side, BelowId(s, n))
    decreases |s|
  {
    if s != [] {
      TailOk(side, s);
      BelowIdSide(side, s[1..], n);
      var t, r := BelowId(s, n), BelowId(s[1..], n);
      forall i, j | 0 <= i < j < |t| ensures Before(side, t[i], t[j]) {
        if s[0].id < n && i == 0 {
          assert t[j] == r[j - 1];
          BelowIdMember(s[1..], n, t[j]);
          FirstBefore(side, s, t[j]);
        } else {
          assert s[0].id < n ==> Before(side, r[i - 1], r[j - 1]);
        }
      }
    }
  }

  lemma BelowWellFormed(b: Book, n: OrderId)
    requires WellFormed(b)
    ensures WellFormed(Below(b, n))
  {
    var c := Below(b, n);
    BelowIdSide(Buy, b.bids, n);
    BelowIdSide(Sell, b.asks, n);
    forall i, j {:trigger Distinct(c.bids[i], c.asks[j])} | 0 <= i < |c.bids| && 0 <= j < |c.asks|
      ensures Distinct(c.bids[i], c.asks[j]) && c.bids[i].price < c.asks[j].price
    {
      BelowIdMember(b.bids, n, c.bids[i]);
      BelowIdMember(b.asks, n, c.asks[j]);
      var k :| 0 <= k < |b.bids| && b.bids[k] == c.bids[i];
      var m :| 0 <= m < |b.asks| && b.asks[m] == c.asks[j];
      assert Distinct(b.bids[k], b.asks[m]);
      PricesDisjoint(b, k, m);
    }
    if c.bids != [] && c.asks != [] {
      assert Distinct(c.bids[0], c.asks[0]);
    }
  }

  /** Nothing changes if the side has no order with the next id. */
  lemma {:induction false} BelowIdSkips(s: seq<Entry>, n: OrderId)
    requires !Has(s, n)
    ensures BelowId(s, n + 1) == BelowId(s, n)
    decreases |s|
  {
    if s != [] {
      assert s[0].id != n;
      forall i | 0 <= i < |s[1..]| ensures s[1..][i].id != n {
        assert s[1..][i] == s[i + 1];
      }
      BelowIdSkips(s[1..], n);
    }
  }

  lemma FirstBefore(side: Side, s: seq<Entry>, e: Entry)
    requires SideOk(side, s) && s != [] && e in s[1..]
    ensures Before(side, s[0], e) && s[0].id != e.id
    ensures e.id < s[0].id ==> Better(side, s[0].price, e.price)
  {
    var m :| 0 <= m < |s[1..]| && s[1..][m] == e;
    assert Before(side, s[0], s[m + 1]);
  }

  lemma AheadOfSmaller(side: Side, s: seq<Entry>)
    requires SideOk(side, s) && s != []
    ensures InsertPos(side, BelowId(s[1..], s[0].id), s[0].price) == 0
  {
    hide SideOk;
    hide BelowId;
    hide Before;
    var e, rest := s[0], s[1..];
    var t := BelowId(rest, e.id);
    if t != [] {
      BelowIdMember(rest, e.id, t[0]);
      FirstBefore(side, s, t[0]);
    }
    InsertPosUnique(side, t, e.price, 0);
  }

  lemma OnlyBest(side: Side, s: seq<Entry>)
    requires SideOk(side, s) && s != []
    ensures !Has(s[1..], s[0].id)
  {
    hide SideOk;
    hide Before;
    var rest := s[1..];
    forall i | 0 <= i < |rest| ensures rest[i].id != s[0].id {
      FirstBefore(side, s, rest[i]);
    }
  }

  /** The best order joins the orders with smaller ids in front. */
  lemma BestInserts(side: Side, s: seq<Entry>)
    requires SideOk(side, s) && s != []
    ensures BelowId(s, s[0].id + 1) == Insert(BelowId(s, s[0].id), s[0])
  {
    hide SideOk;
    hide BelowId;
    var e, rest := s[0], s[1..];
    var t := BelowId(rest, e.id);
    BelowIdUnfolds(s, e.id);
    BelowIdUnfolds(s, e.id + 1);
    AheadOfSmaller(side, s);
    SideOf(side, s);
    OnlyBest(side, s);
    BelowIdSkips(rest, e.id);
    assert [e] + t == InsertAt(t, 0, e);
  }

  lemma SideOf(side: Side, s: seq<Entry>)
    requires SideOk(side, s)
    ensures forall e :: e in s ==> e.side == side
  {
  }

  /** One more order in front moves the insert position of a worse order by one. */
  lemma InsertBehindBest(side: Side, f: Entry, u: seq<Entry>, e: Entry)
    requires Before(side, f, e) && e.side == side
    ensures Insert([f] + u, e) == [f] + Insert(u, e)
  {
    var t := [f] + u;
    var k := InsertPos(side, u, e.price);
    assert JoinsAt(side, t, e.price, k + 1);
    InsertPosUnique(side, t, e.price, k + 1);
    assert InsertAt(t, k + 1, e) == [f] + InsertAt(u, k, e);
  }

  /** The order with the next id joins the orders with smaller ids exactly where it rests among all of them. */
  lemma {:induction false} BelowIdInserts(side: Side, s: seq<Entry>, e: Entry)
    requires SideOk(side, s) && e in s
    ensures BelowId(s, e.id + 1) == Insert(BelowId(s, e.id), e)
    decreases |s|
  {
    hide SideOk;
    hide Insert;
    hide BelowId;
    if e == s[0] {
      BestInserts(side, s);
    } else {
      TailOk(side, s);
      SideOf(side, s);
      FirstBefore(side, s, e);
      BelowIdInserts(side, s[1..], e);
      var u := BelowId(s[1..], e.id);
      InsertBehindBest(side, s[0], u, e);
      BelowIdUnfolds(s, e.id);
      BelowIdUnfolds(s, e.id + 1);
    }
  }

  lemma {:induction false} BelowIdAll(s: seq<Entry>, n: OrderId)
    requires forall e :: e in s ==> e.id < n
    ensures BelowId(s, n) == s
    decreases |s|
  {
    if s != [] {
      BelowIdAll(s[1..], n);
      assert s[0] in s && s == [s[0]] + s[1..];
    }
  }

  /** Adding the order with the next id, if there is one, extends the part of the book below that id. */
  lemma BelowGrows(b: Book, n: OrderId)
    requires WellFormed(b)
    ensures if RestsIn(b, n)
      then CanAdd(Below(b, n), Lookup(b, n)) && Added(Below(b, n), Lookup(b, n)) == Below(b, n + 1)
      else Below(b, n + 1) == Below(b, n)
  {
    hide WellFormed;
    hide SideOk;
    hide Insert;
    hide BelowId;
    OneSideOf(b, n);
    if RestsIn(b, n) {
      var e := Lookup(b, n);
      InBookSide(b, e);
      SidesOk(b);
      BelowIdInserts(e.side, b.Of(e.side), e);
      BelowIdSkips(b.Of(Opposite(e.side)), n);
      BelowWellFormed(b, n + 1);
      BelowIdLacks(b.bids, n);
      BelowIdLacks(b.asks, n);
    } else {
      BelowIdSkips(b.bids, n);
      BelowIdSkips(b.asks, n);
    }
  }

  lemma SidesOk(b: Book)
    requires WellFormed(b)
    ensures SideOk(Buy, b.bids) && SideOk(Sell, b.asks)
  {
  }

  lemma OneSideOf(b: Book, id: OrderId)
    requires WellFormed(b)
    ensures RestsIn(b, id) ==> !Has(b.Of(Opposite(Lookup(b, id).side)), id)
  {
    if RestsIn(b, id) {
      InBookSide(b, Lookup(b, id));
      OneSide(b, id);
    }
  }
}
