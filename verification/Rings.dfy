/**
 The linked rings of a book as plain maps: for each order id the ids it points to, for each price the first order
 of its level and the prices of the neighbouring levels.  The functions are the pointer surgery of the books; the
 lemmas say which sequence of orders the rings spell afterwards.
 */
module Rings {
  import opened Types
  import opened PriceTime

  datatype Links = Links(
    next: map<OrderId, OrderId>,
    prev: map<OrderId, OrderId>,
    first: map<Price, OrderId>,
    nextLevel: map<Price, Price>,
    prevLevel: map<Price, Price>)

  const NO_LINKS := Links(map[], map[], map[], map[], map[])

  function Succ(k: nat, n: nat): nat {
    if k + 1 < n then k + 1 else 0
  }

  function Pred(k: nat, n: nat): nat
    requires k < n
  {
    if k == 0 then n - 1 else k - 1
  }

  /** Position k is the last order of its level. */
  predicate EndsLevel(s: seq<Entry>, k: nat)
    requires k < |s|
  {
    k + 1 == |s| || s[k].price != s[k + 1].price
  }

  /** Position k is the first order of its level. */
  predicate StartsLevel(s: seq<Entry>, k: nat)
    requires k < |s|
  {
    k == 0 || s[k].price != s[k - 1].price
  }

  /** The order ring leaving k: the next order of the level follows; the last order closes on the first. */
  predicate OrderLinkAt(r: Links, s: seq<Entry>, k: nat)
    requires k < |s|
  {
    var id := s[k].id;
    && id in r.next && id in r.prev && s[k].price in r.first
    && var after := if EndsLevel(s, k) then r.first[s[k].price] else s[k + 1].id;
       && after in r.prev && r.next[id] == after && r.prev[after] == id
       && (StartsLevel(s, k) ==> r.first[s[k].price] == id)
  }

  /** The level ring leaving k: where a level ends, the level of the cyclically next position follows. */
  predicate LevelLinkAt(r: Links, s: seq<Entry>, k: nat)
    requires k < |s|
  {
    var p := s[k].price;
    && p in r.nextLevel && p in r.prevLevel
    && (EndsLevel(s, k) ==>
          var q := s[Succ(k, |s|)].price;
          q in r.prevLevel && r.nextLevel[p] == q && r.prevLevel[q] == p)
  }

  /** Following the rings from the head yields exactly s. */
  ghost predicate Spells(r: Links, s: seq<Entry>) {
    && (forall k {:trigger OrderLinkAt(r, s, k)} :: 0 <= k < |s| ==> OrderLinkAt(r, s, k))
    && (forall k {:trigger LevelLinkAt(r, s, k)} :: 0 <= k < |s| ==> LevelLinkAt(r, s, k))
  }

  /** The rings link the live orders and levels of b, and no others. */
  ghost predicate Describes(r: Links, b: Book) {
    && Spells(r, b.bids) && Spells(r, b.asks)
    && r.prev.Keys == r.next.Keys && r.nextLevel.Keys == r.first.Keys && r.prevLevel.Keys == r.first.Keys
    && (forall id {:trigger RestsIn(b, id)} :: id in r.next <==> RestsIn(b, id))
    && (forall p {:trigger PricedIn(b, p)} :: p in r.first <==> PricedIn(b, p))
  }

  predicate OrderClosed(r: Links, id: OrderId) {
    id in r.next && r.next[id] in r.next && id in r.prev && r.prev[id] in r.next
  }

  predicate LevelClosed(r: Links, p: Price) {
    && p in r.first && r.first[p] in r.next
    && p in r.nextLevel && r.nextLevel[p] in r.first
    && p in r.prevLevel && r.prevLevel[p] in r.first
  }

  /** Where the level of position k starts. */
  ghost function LevelStart(s: seq<Entry>, k: nat): (i: nat)
    requires k < |s|
    ensures i <= k && StartsLevel(s, i)
    ensures forall m :: i <= m <= k ==> s[m].price == s[k].price
  {
    if StartsLevel(s, k) then k else LevelStart(s, k - 1)
  }

  ghost function LevelEnd(s: seq<Entry>, k: nat): (i: nat)
    requires k < |s|
    ensures k <= i < |s| && EndsLevel(s, i)
    ensures forall m :: k <= m <= i ==> s[m].price == s[k].price
    decreases |s| - k
  {
    if EndsLevel(s, k) then k else LevelEnd(s, k + 1)
  }

  /** What position k knows about its own links and those into it. */
  lemma LinksAt(side: Side, s: seq<Entry>, k: nat, r: Links)
    requires SideOk(side, s) && k < |s| && Spells(r, s)
    ensures s[k].id in r.next && s[k].id in r.prev
    ensures s[k].price in r.first && s[k].price in r.nextLevel && s[k].price in r.prevLevel
    ensures r.first[s[k].price] == s[LevelStart(s, k)].id
    ensures r.next[s[k].id] == (if EndsLevel(s, k) then s[LevelStart(s, k)].id else s[k + 1].id)
    ensures r.prev[s[k].id] == (if StartsLevel(s, k) then s[LevelEnd(s, k)].id else s[k - 1].id)
    ensures r.nextLevel[s[k].price] == s[Succ(LevelEnd(s, k), |s|)].price
    ensures r.prevLevel[s[k].price] == s[Pred(LevelStart(s, k), |s|)].price
  {
    var i, j := LevelStart(s, k), LevelEnd(s, k);
    assert OrderLinkAt(r, s, k) && OrderLinkAt(r, s, i) && OrderLinkAt(r, s, j);
    assert LevelLinkAt(r, s, k) && LevelLinkAt(r, s, j) && LevelLinkAt(r, s, Pred(i, |s|));
    if !StartsLevel(s, k) {
      assert OrderLinkAt(r, s, k - 1);
    }
  }

  lemma SideClosed(side: Side, s: seq<Entry>, k: nat, r: Links)
    requires SideOk(side, s) && k < |s| && Spells(r, s) && r.prev.Keys == r.next.Keys
    requires r.nextLevel.Keys == r.first.Keys && r.prevLevel.Keys == r.first.Keys
    ensures OrderClosed(r, s[k].id) && LevelClosed(r, s[k].price)
  {
    LinksAt(side, s, k, r);
    forall m | 0 <= m < |s| ensures s[m].id in r.next && s[m].price in r.first {
      LinksAt(side, s, m, r);
    }
  }

  /** The links never leave the orders and levels they link. */
  ghost predicate Closed(r: Links) {
    && (forall id {:trigger OrderClosed(r, id)} :: id in r.next ==> OrderClosed(r, id))
    && (forall p {:trigger LevelClosed(r, p)} :: p in r.first ==> LevelClosed(r, p))
  }

  lemma BookClosed(r: Links, b: Book)
    requires WellFormed(b) && Describes(r, b)
    ensures Closed(r)
  {
    forall id | id in r.next ensures OrderClosed(r, id) {
      assert RestsIn(b, id);
      var side := if Has(b.bids, id) then Buy else Sell;
      SideClosed(side, b.Of(side), IndexOf(b.Of(side), id), r);
    }
    forall p | p in r.first ensures LevelClosed(r, p) {
      assert PricedIn(b, p);
      var side := if HasPrice(b.bids, p) then Buy else Sell;
      var k :| 0 <= k < |b.Of(side)| && b.Of(side)[k].price == p;
      SideClosed(side, b.Of(side), k, r);
    }
  }

  predicate SameLinksAt(r: Links, q: Links, e: Entry) {
    && e.id in r.next && e.id in q.next && r.next[e.id] == q.next[e.id]
    && e.id in r.prev && e.id in q.prev && r.prev[e.id] == q.prev[e.id]
    && e.price in r.first && e.price in q.first && r.first[e.price] == q.first[e.price]
    && e.price in r.nextLevel && e.price in q.nextLevel && r.nextLevel[e.price] == q.nextLevel[e.price]
    && e.price in r.prevLevel && e.price in q.prevLevel && r.prevLevel[e.price] == q.prevLevel[e.price]
  }

  /** A side none of whose links changed still spells its sequence. */
  lemma SpellsUnchanged(side: Side, s: seq<Entry>, r: Links, q: Links)
    requires SideOk(side, s) && Spells(r, s)
    requires forall i {:trigger SameLinksAt(r, q, s[i])} :: 0 <= i < |s| ==> SameLinksAt(r, q, s[i])
    ensures Spells(q, s)
  {
    forall k | 0 <= k < |s| ensures OrderLinkAt(q, s, k) && LevelLinkAt(q, s, k) {
      var i, j := LevelStart(s, k), LevelEnd(s, k);
      assert OrderLinkAt(r, s, k) && LevelLinkAt(r, s, k) && OrderLinkAt(r, s, i);
      assert SameLinksAt(r, q, s[k]) && SameLinksAt(r, q, s[i]) && SameLinksAt(r, q, s[Succ(k, |s|)]);
    }
  }

  lemma SameLevel(side: Side, s: seq<Entry>, i: nat, k: nat, j: nat)
    requires SideOk(side, s) && i <= k <= j < |s| && s[i].price == s[j].price
    ensures s[k].price == s[i].price
  {
    assert i < k ==> Before(side, s[i], s[k]);
    assert k < j ==> Before(side, s[k], s[j]);
  }

  // --- Removing a level that holds a single order -------------------------------------------------------------

  ghost function DropLevel(r: Links, p: Price): Links
    requires LevelClosed(r, p)
  {
    var id := r.first[p];
    Links(r.next - {id}, r.prev - {id}, r.first - {p},
          r.nextLevel[r.prevLevel[p] := r.nextLevel[p]] - {p},
          r.prevLevel[r.nextLevel[p] := r.prevLevel[p]] - {p})
  }

  predicate AloneAt(s: seq<Entry>, k: nat) {
    k < |s| && StartsLevel(s, k) && EndsLevel(s, k)
  }

  lemma AlonePrice(side: Side, s: seq<Entry>, k: nat, i: nat)
    requires SideOk(side, s) && AloneAt(s, k) && i < |s| && i != k
    ensures s[i].price != s[k].price && s[i].id != s[k].id
  {
    assert if i < k then Before(side, s[i], s[k]) else Before(side, s[k], s[i]);
    if s[i].price == s[k].price {
      if i < k {
        SameLevel(side, s, i, k - 1, k);
      } else {
        SameLevel(side, s, k, k + 1, i);
      }
    }
  }

  lemma DropLevelOrderLink(side: Side, s: seq<Entry>, k: nat, r: Links, i: nat)
    requires SideOk(side, s) && AloneAt(s, k) && i != k && i < |s| && LevelClosed(r, s[k].price) && Spells(r, s)
    ensures OrderLinkAt(r, s, k) && r.first[s[k].price] == s[k].id
    ensures OrderLinkAt(DropLevel(r, s[k].price), RemoveAt(s, k), if i < k then i else i - 1)
  {
    var t := RemoveAt(s, k);
    var j := if i < k then i else i - 1;
    assert OrderLinkAt(r, s, k) && OrderLinkAt(r, s, i);
    AlonePrice(side, s, k, i);
    LevelStartAfterRemove(side, s, k, i);
    if !EndsLevel(s, i) {
      assert t[j + 1] == s[i + 1];
      AlonePrice(side, s, k, i + 1);
    }
  }

  lemma DropLevelLevelLink(side: Side, s: seq<Entry>, k: nat, r: Links, i: nat)
    requires SideOk(side, s) && AloneAt(s, k) && i != k && i < |s| && LevelClosed(r, s[k].price) && Spells(r, s)
    ensures s[k].price in r.first
    ensures LevelLinkAt(DropLevel(r, s[k].price), RemoveAt(s, k), if i < k then i else i - 1)
  {
    var t := RemoveAt(s, k);
    var j := if i < k then i else i - 1;
    var n := |s|;
    assert OrderLinkAt(r, s, k);
    assert LevelLinkAt(r, s, k) && LevelLinkAt(r, s, i) && LevelLinkAt(r, s, Pred(k, n));
    AlonePrice(side, s, k, i);
    LevelStartAfterRemove(side, s, k, i);
    if EndsLevel(t, j) {
      if Succ(i, n) == k {
        assert t[Succ(j, n - 1)] == s[Succ(k, n)];
      } else {
        assert t[Succ(j, n - 1)] == s[Succ(i, n)];
        AlonePrice(side, s, k, Succ(i, n));
      }
    }
  }

  lemma IdsWithout(side: Side, s: seq<Entry>, k: nat, id: OrderId)
    requires SideOk(side, s) && k < |s|
    ensures Has(RemoveAt(s, k), id) <==> Has(s, id) && id != s[k].id
  {
    var t := RemoveAt(s, k);
    if Has(t, id) {
      var j := IndexOf(t, id);
      DistinctIds(side, s, if j < k then j else j + 1, k);
    }
    if Has(s, id) && id != s[k].id {
      var i := IndexOf(s, id);
      assert t[if i < k then i else i - 1] == s[i];
    }
  }

  lemma PricesWithout(side: Side, s: seq<Entry>, k: nat, p: Price)
    requires SideOk(side, s) && k < |s|
    ensures HasPrice(RemoveAt(s, k), p) <==> HasPrice(s, p) && (AloneAt(s, k) ==> p != s[k].price)
  {
    var t := RemoveAt(s, k);
    if HasPrice(t, p) {
      var j :| 0 <= j < |t| && t[j].price == p;
      var i := if j < k then j else j + 1;
      assert s[i].price == p;
      if AloneAt(s, k) { AlonePrice(side, s, k, i); }
    }
    if HasPrice(s, p) && (AloneAt(s, k) ==> p != s[k].price) {
      var i :| 0 <= i < |s| && s[i].price == p;
      var m := if i != k then i else if StartsLevel(s, k) then k + 1 else k - 1;
      assert s[m].price == p;
      assert t[if m < k then m else m - 1] == s[m];
    }
  }

  lemma NotElsewhere(b: Book, side: Side, k: nat)
    requires WellFormed(b) && side != NoSide && k < |b.Of(side)|
    ensures !Has(b.Of(Opposite(side)), b.Of(side)[k].id) && !HasPrice(b.Of(Opposite(side)), b.Of(side)[k].price)
  {
    forall i | 0 <= i < |b.Of(Opposite(side))|
      ensures b.Of(Opposite(side))[i].id != b.Of(side)[k].id && b.Of(Opposite(side))[i].price != b.Of(side)[k].price
    {
      OtherSide(b, side, k, i);
    }
  }

  /** The ids and prices left in the book without position k. */
  lemma KeysWithout(b: Book, side: Side, k: nat, id: OrderId, p: Price)
    requires WellFormed(b) && side != NoSide && k < |b.Of(side)|
    ensures var c := b.With(side, RemoveAt(b.Of(side), k));
      && (RestsIn(c, id) <==> RestsIn(b, id) && id != b.Of(side)[k].id)
      && (PricedIn(c, p) <==> PricedIn(b, p) && (AloneAt(b.Of(side), k) ==> p != b.Of(side)[k].price))
  {
    hide Has;
    hide HasPrice;
    IdsWithout(side, b.Of(side), k, id);
    PricesWithout(side, b.Of(side), k, p);
    NotElsewhere(b, side, k);
  }

  lemma DropLevelElsewhere(b: Book, side: Side, k: nat, r: Links)
    requires WellFormed(b) && Spells(r, b.bids) && Spells(r, b.asks) && side != NoSide && AloneAt(b.Of(side), k)
    requires LevelClosed(r, b.Of(side)[k].price)
    ensures Spells(DropLevel(r, b.Of(side)[k].price), b.Of(Opposite(side)))
  {
    hide WellFormed;
    hide Spells;
    hide SideOk;
    var s, u := b.Of(side), b.Of(Opposite(side));
    Sides(b, side);
    LinksAt(side, s, k, r);
    var q := DropLevel(r, s[k].price);
    forall i | 0 <= i < |u| ensures SameLinksAt(r, q, u[i]) {
      LinksAt(Opposite(side), u, i, r);
      OtherSide(b, side, k, i);
      OtherSide(b, side, Pred(k, |s|), i);
      OtherSide(b, side, Succ(k, |s|), i);
    }
    SpellsUnchanged(Opposite(side), u, r, q);
  }

  lemma DropLevelHere(side: Side, s: seq<Entry>, k: nat, r: Links)
    requires SideOk(side, s) && AloneAt(s, k) && LevelClosed(r, s[k].price) && Spells(r, s)
    ensures Spells(DropLevel(r, s[k].price), RemoveAt(s, k))
  {
    var t := RemoveAt(s, k);
    var q := DropLevel(r, s[k].price);
    forall j | 0 <= j < |t| ensures OrderLinkAt(q, t, j) && LevelLinkAt(q, t, j) {
      DropLevelOrderLink(side, s, k, r, if j < k then j else j + 1);
      DropLevelLevelLink(side, s, k, r, if j < k then j else j + 1);
    }
  }

  /** Dropping the level of a lone order describes the book without that order. */
  lemma DropLevelDescribes(b: Book, side: Side, k: nat, r: Links)
    requires WellFormed(b) && Describes(r, b) && side != NoSide && AloneAt(b.Of(side), k)
    ensures var e := b.Of(side)[k];
      LevelClosed(r, e.price) && r.first[e.price] == e.id
      && Describes(DropLevel(r, e.price), b.With(side, RemoveAt(b.Of(side), k)))
  {
    var s := b.Of(side);
    var c := b.With(side, RemoveAt(s, k));
    SideClosed(side, s, k, r);
    LinksAt(side, s, k, r);
    var q := DropLevel(r, s[k].price);
    DropLevelElsewhere(b, side, k, r);
    DropLevelHere(side, s, k, r);
    forall id: OrderId ensures id in q.next <==> RestsIn(c, id) {
      KeysWithout(b, side, k, id, 0);
    }
    forall p: Price ensures p in q.first <==> PricedIn(c, p) {
      KeysWithout(b, side, k, 0, p);
    }
  }

  // --- Removing an order from a level that keeps others -------------------------------------------------------

  ghost function DropOrder(r: Links, p: Price, id: OrderId): Links
    requires OrderClosed(r, id) && p in r.first
  {
    var before, after := r.prev[id], r.next[id];
    r.(next := r.next[before := after] - {id},
       prev := r.prev[after := before] - {id},
       first := if r.first[p] == id then r.first[p := after] else r.first)
  }

  /** The position the order at k points to, and the one pointing to it. */
  ghost function NextPos(s: seq<Entry>, k: nat): (i: nat)
    requires k < |s|
    ensures i < |s|
  {
    if EndsLevel(s, k) then LevelStart(s, k) else k + 1
  }

  ghost function PrevPos(s: seq<Entry>, k: nat): (i: nat)
    requires k < |s|
    ensures i < |s|
  {
    if StartsLevel(s, k) then LevelEnd(s, k) else k - 1
  }

  /** The order links of position k, by position. */
  lemma RingAt(side: Side, s: seq<Entry>, k: nat, r: Links)
    requires SideOk(side, s) && k < |s| && Spells(r, s)
    ensures s[k].id in r.next && r.next[s[k].id] == s[NextPos(s, k)].id
    ensures s[k].id in r.prev && r.prev[s[k].id] == s[PrevPos(s, k)].id
    ensures s[k].price in r.first && r.first[s[k].price] == s[LevelStart(s, k)].id
  {
    hide SideOk;
    hide Spells;
    hide LevelStart;
    hide LevelEnd;
    LinksAt(side, s, k, r);
  }

  lemma NextPrevPos(side: Side, s: seq<Entry>, i: nat, k: nat)
    requires SideOk(side, s) && i < |s| && k < |s|
    ensures NextPos(s, i) == k <==> PrevPos(s, k) == i
  {
    if NextPos(s, i) == k && EndsLevel(s, i) {
      EndUnique(side, s, k, i);
    }
    if PrevPos(s, k) == i && StartsLevel(s, k) {
      EndUnique(side, s, k, i);
    }
  }

  /** A level has one start and one end. */
  lemma EndUnique(side: Side, s: seq<Entry>, i: nat, j: nat)
    requires SideOk(side, s) && i <= j < |s| && StartsLevel(s, i) && EndsLevel(s, j) && s[i].price == s[j].price
    ensures LevelEnd(s, i) == j && LevelStart(s, j) == i
  {
    var e := LevelEnd(s, i);
    if e < j { SameLevel(side, s, i, e + 1, j); }
  }

  /** The links of the orders that stay: whoever pointed at k now points past it. */
  lemma DropOrderMaps(side: Side, s: seq<Entry>, k: nat, r: Links, i: nat)
    requires SideOk(side, s) && k < |s| && !AloneAt(s, k) && i != k && i < |s| && Spells(r, s)
    requires OrderClosed(r, s[k].id) && s[k].price in r.first
    ensures var q := DropOrder(r, s[k].price, s[k].id);
      && s[i].id in q.next && q.next[s[i].id] == s[if NextPos(s, i) == k then NextPos(s, k) else NextPos(s, i)].id
      && s[i].id in q.prev && q.prev[s[i].id] == s[if PrevPos(s, i) == k then PrevPos(s, k) else PrevPos(s, i)].id
      && s[i].price in q.first
      && q.first[s[i].price] == s[if LevelStart(s, i) == k then NextPos(s, k) else LevelStart(s, i)].id
  {
    hide SideOk;
    hide Spells;
    hide LevelStart;
    hide NextPos;
    hide PrevPos;
    RingAt(side, s, k, r);
    RingAt(side, s, i, r);
    NextPrevPos(side, s, i, k);
    NextPrevPos(side, s, k, i);
    DistinctIds(side, s, k, i);
    if i != PrevPos(s, k) { DistinctIds(side, s, i, PrevPos(s, k)); }
    if i != NextPos(s, k) { DistinctIds(side, s, i, NextPos(s, k)); }
    if LevelStart(s, i) != k { DistinctIds(side, s, LevelStart(s, i), k); }
  }

  /** Removing position k moves the start of a level only when k was the start. */
  lemma LevelStartAfterRemove(side: Side, s: seq<Entry>, k: nat, i: nat)
    requires SideOk(side, s) && k < |s| && i != k && i < |s|
    ensures var t, j := RemoveAt(s, k), if i < k then i else i - 1;
      && (StartsLevel(t, j) <==> StartsLevel(s, i) || (i == k + 1 && StartsLevel(s, k)))
      && (EndsLevel(t, j) <==> EndsLevel(s, i) || (i + 1 == k && EndsLevel(s, k)))
  {
    var t, j := RemoveAt(s, k), if i < k then i else i - 1;
    if i == k + 1 && 0 < k {
      assert t[j - 1] == s[k - 1];
      if s[k - 1].price == s[i].price { SameLevel(side, s, k - 1, k, i); }
    } else if 0 < j {
      assert t[j - 1] == s[i - 1];
    }
    if i + 1 == k && k + 1 < |s| {
      assert t[j + 1] == s[k + 1];
      if s[k + 1].price == s[i].price { SameLevel(side, s, i, k, k + 1); }
    } else if j + 1 < |t| {
      assert t[j + 1] == s[i + 1];
    }
  }

  /** The position that follows i in its level once k is gone. */
  lemma NextAfterRemove(side: Side, s: seq<Entry>, k: nat, i: nat)
    requires SideOk(side, s) && k < |s| && !AloneAt(s, k) && i != k && i < |s|
    ensures var t, j := RemoveAt(s, k), if i < k then i else i - 1;
      var m := if NextPos(s, i) == k then NextPos(s, k) else NextPos(s, i);
      && t[j] == s[i] && m != k
      && (if EndsLevel(t, j) then m == (if LevelStart(s, i) == k then NextPos(s, k) else LevelStart(s, i))
          else j + 1 < |t| && t[j + 1] == s[m])
      && (StartsLevel(t, j) ==> i == (if LevelStart(s, i) == k then NextPos(s, k) else LevelStart(s, i)))
  {
    LevelStartAfterRemove(side, s, k, i);
    NextPrevPos(side, s, k, k);
  }

  lemma DropOrderOrderLink(side: Side, s: seq<Entry>, k: nat, r: Links, i: nat)
    requires SideOk(side, s) && k < |s| && !AloneAt(s, k) && i != k && i < |s| && Spells(r, s)
    requires OrderClosed(r, s[k].id) && s[k].price in r.first
    ensures OrderLinkAt(DropOrder(r, s[k].price, s[k].id), RemoveAt(s, k), if i < k then i else i - 1)
  {
    NextAfterRemove(side, s, k, i);
    DropOrderMaps(side, s, k, r, i);
    var m := if NextPos(s, i) == k then NextPos(s, k) else NextPos(s, i);
    NextPrevPos(side, s, i, m);
    NextPrevPos(side, s, k, m);
    NextPrevPos(side, s, i, k);
    DropOrderMaps(side, s, k, r, m);
  }

  lemma DropOrderHere(side: Side, s: seq<Entry>, k: nat, r: Links)
    requires SideOk(side, s) && k < |s| && !AloneAt(s, k) && Spells(r, s)
    requires OrderClosed(r, s[k].id) && s[k].price in r.first
    ensures Spells(DropOrder(r, s[k].price, s[k].id), RemoveAt(s, k))
  {
    var t := RemoveAt(s, k);
    var q := DropOrder(r, s[k].price, s[k].id);
    forall j | 0 <= j < |t| ensures OrderLinkAt(q, t, j) {
      DropOrderOrderLink(side, s, k, r, if j < k then j else j + 1);
    }
    forall j | 0 <= j < |t| ensures LevelLinkAt(q, t, j) {
      var i := if j < k then j else j + 1;
      LevelStartAfterRemove(side, s, k, i);
      assert LevelLinkAt(r, s, i) && LevelLinkAt(r, s, k);
      if EndsLevel(t, j) {
        var m := if EndsLevel(s, i) then i else k;
        assert s[m].price == t[j].price && EndsLevel(s, m);
        assert t[Succ(j, |t|)].price == s[Succ(m, |s|)].price;
      }
    }
  }

  lemma DropOrderSame(b: Book, side: Side, k: nat, r: Links, i: nat)
    requires WellFormed(b) && Spells(r, b.bids) && Spells(r, b.asks) && side != NoSide && k < |b.Of(side)|
    requires OrderClosed(r, b.Of(side)[k].id) && b.Of(side)[k].price in r.first && i < |b.Of(Opposite(side))|
    ensures SameLinksAt(r, DropOrder(r, b.Of(side)[k].price, b.Of(side)[k].id), b.Of(Opposite(side))[i])
  {
    hide WellFormed;
    hide Spells;
    hide SideOk;
    hide LevelStart;
    hide NextPos;
    hide PrevPos;
    var s, u := b.Of(side), b.Of(Opposite(side));
    Sides(b, side);
    RingAt(side, s, k, r);
    LinksAt(Opposite(side), u, i, r);
    OtherSide(b, side, k, i);
    OtherSide(b, side, PrevPos(s, k), i);
    OtherSide(b, side, NextPos(s, k), i);
  }

  lemma DropOrderElsewhere(b: Book, side: Side, k: nat, r: Links)
    requires WellFormed(b) && Spells(r, b.bids) && Spells(r, b.asks) && side != NoSide && k < |b.Of(side)|
    requires OrderClosed(r, b.Of(side)[k].id) && b.Of(side)[k].price in r.first
    ensures Spells(DropOrder(r, b.Of(side)[k].price, b.Of(side)[k].id), b.Of(Opposite(side)))
  {
    hide WellFormed;
    hide Spells;
    hide SideOk;
    hide SameLinksAt;
    hide DropOrder;
    var s, u := b.Of(side), b.Of(Opposite(side));
    Sides(b, side);
    var q := DropOrder(r, s[k].price, s[k].id);
    forall i | 0 <= i < |u| ensures SameLinksAt(r, q, u[i]) {
      DropOrderSame(b, side, k, r, i);
    }
    SpellsUnchanged(Opposite(side), u, r, q);
  }

  /** Unlinking an order from a level it shares describes the book without that order. */
  lemma DropOrderDescribes(b: Book, side: Side, k: nat, r: Links)
    requires WellFormed(b) && Describes(r, b) && side != NoSide && k < |b.Of(side)| && !AloneAt(b.Of(side), k)
    ensures var e := b.Of(side)[k];
      OrderClosed(r, e.id) && LevelClosed(r, e.price)
      && Describes(DropOrder(r, e.price, e.id), b.With(side, RemoveAt(b.Of(side), k)))
  {
    var s := b.Of(side);
    var c := b.With(side, RemoveAt(s, k));
    SideClosed(side, s, k, r);
    var q := DropOrder(r, s[k].price, s[k].id);
    DropOrderHere(side, s, k, r);
    DropOrderElsewhere(b, side, k, r);
    LinksAt(side, s, k, r);
    NextPrevPos(side, s, k, k);
    DistinctIds(side, s, k, PrevPos(s, k));
    DistinctIds(side, s, k, NextPos(s, k));
    forall id: OrderId ensures id in q.next <==> RestsIn(c, id) {
      KeysWithout(b, side, k, id, 0);
    }
    forall p: Price ensures p in q.first <==> PricedIn(c, p) {
      KeysWithout(b, side, k, 0, p);
    }
  }

  // --- Adding an order to an existing level -------------------------------------------------------------------

  ghost function AppendOrder(r: Links, p: Price, id: OrderId): Links
    requires LevelClosed(r, p) && OrderClosed(r, r.first[p])
  {
    var first := r.first[p];
    var last := r.prev[first];
    r.(next := r.next[last := id][id := first], prev := r.prev[id := last][first := id])
  }

  /** An order joining behind position k - 1 of its own price. */
  ghost predicate JoinsLevel(side: Side, s: seq<Entry>, k: nat, e: Entry) {
    && SideOk(side, s) && 0 < k <= |s| && s[k - 1].price == e.price && EndsLevel(s, k - 1)
    && (forall i {:trigger Distinct(s[i], e)} :: 0 <= i < |s| ==> Distinct(s[i], e))
  }

  /** The last order of the level is the one before its first, round the ring. */
  lemma JoinedRing(side: Side, s: seq<Entry>, k: nat, e: Entry, r: Links)
    requires JoinsLevel(side, s, k, e) && Spells(r, s)
    ensures var l, f := k - 1, LevelStart(s, k - 1);
      && s[l].price in r.first && r.first[s[l].price] == s[f].id && s[f].id in r.prev && r.prev[s[f].id] == s[l].id
      && PrevPos(s, f) == l && NextPos(s, l) == f
  {
    hide SideOk;
    hide Spells;
    var l := k - 1;
    var f := LevelStart(s, l);
    RingAt(side, s, l, r);
    RingAt(side, s, f, r);
    EndUnique(side, s, f, l);
  }

  lemma AppendOrderMaps(side: Side, s: seq<Entry>, k: nat, e: Entry, r: Links, i: nat)
    requires JoinsLevel(side, s, k, e) && Spells(r, s) && i < |s|
    requires LevelClosed(r, e.price) && OrderClosed(r, r.first[e.price])
    ensures var q, l := AppendOrder(r, e.price, e.id), k - 1;
      && s[i].id in q.next && q.next[s[i].id] == (if i == l then e.id else s[NextPos(s, i)].id)
      && s[i].id in q.prev && q.prev[s[i].id] == (if i == LevelStart(s, l) then e.id else s[PrevPos(s, i)].id)
      && e.id in q.next && q.next[e.id] == s[LevelStart(s, l)].id && e.id in q.prev && q.prev[e.id] == s[l].id
      && s[i].price in q.first && q.first[s[i].price] == s[LevelStart(s, i)].id && s[i].id != e.id
  {
    hide SideOk;
    hide Spells;
    hide LevelStart;
    hide NextPos;
    hide PrevPos;
    var l := k - 1;
    var f := LevelStart(s, l);
    JoinedRing(side, s, k, e, r);
    RingAt(side, s, i, r);
    if i != l { DistinctIds(side, s, i, l); }
    if i != f { DistinctIds(side, s, i, f); }
    assert Distinct(s[i], e) && Distinct(s[l], e) && Distinct(s[f], e);
  }

  /** Where levels start and end once e has joined the end of its level. */
  lemma EndsAfterAppend(side: Side, s: seq<Entry>, k: nat, e: Entry, j: nat)
    requires JoinsLevel(side, s, k, e) && j <= |s|
    ensures var t := InsertAt(s, k, e);
      if j == k then EndsLevel(t, j) && !StartsLevel(t, j)
      else
        var i := if j < k then j else j - 1;
        && t[j] == s[i] && (EndsLevel(t, j) <==> EndsLevel(s, i) && i != k - 1)
        && (StartsLevel(t, j) <==> StartsLevel(s, i))
        && (!EndsLevel(t, j) ==> t[j + 1] == (if i == k - 1 then e else s[i + 1]))
        && t[Succ(j, |t|)] == (if i == k - 1 then e else s[Succ(i, |s|)])
  {
  }

  lemma LastJoined(side: Side, s: seq<Entry>, k: nat, e: Entry, r: Links)
    requires JoinsLevel(side, s, k, e) && Spells(r, s)
    requires LevelClosed(r, e.price) && OrderClosed(r, r.first[e.price])
    ensures OrderLinkAt(AppendOrder(r, e.price, e.id), InsertAt(s, k, e), k)
    ensures OrderLinkAt(AppendOrder(r, e.price, e.id), InsertAt(s, k, e), k - 1)
  {
    hide Spells;
    hide SideOk;
    hide AppendOrder;
    var l := k - 1;
    var f := LevelStart(s, l);
    EndsAfterAppend(side, s, k, e, l);
    EndsAfterAppend(side, s, k, e, k);
    AppendOrderMaps(side, s, k, e, r, f);
    AppendOrderMaps(side, s, k, e, r, l);
  }

  lemma OthersQueued(side: Side, s: seq<Entry>, k: nat, e: Entry, r: Links, i: nat)
    requires JoinsLevel(side, s, k, e) && Spells(r, s) && i < |s| && i != k - 1
    requires LevelClosed(r, e.price) && OrderClosed(r, r.first[e.price])
    ensures OrderLinkAt(AppendOrder(r, e.price, e.id), InsertAt(s, k, e), if i < k then i else i + 1)
  {
    hide Spells;
    hide SideOk;
    hide AppendOrder;
    hide PrevPos;
    var m := NextPos(s, i);
    EndsAfterAppend(side, s, k, e, if i < k then i else i + 1);
    AppendOrderMaps(side, s, k, e, r, i);
    AppendOrderMaps(side, s, k, e, r, m);
    NextPrevPos(side, s, i, m);
    JoinedRing(side, s, k, e, r);
  }

  lemma AppendOrderHere(side: Side, s: seq<Entry>, k: nat, e: Entry, r: Links)
    requires JoinsLevel(side, s, k, e) && Spells(r, s)
    requires LevelClosed(r, e.price) && OrderClosed(r, r.first[e.price])
    ensures Spells(AppendOrder(r, e.price, e.id), InsertAt(s, k, e))
  {
    hide OrderLinkAt;
    var t := InsertAt(s, k, e);
    var q := AppendOrder(r, e.price, e.id);
    forall j | 0 <= j < |t| ensures OrderLinkAt(q, t, j) {
      if j == k || j == k - 1 {
        LastJoined(side, s, k, e, r);
      } else {
        OthersQueued(side, s, k, e, r, if j < k then j else j - 1);
      }
    }
    forall j | 0 <= j < |t| ensures LevelLinkAt(q, t, j) {
      EndsAfterAppend(side, s, k, e, j);
      var i := if j < k then j else j - 1;
      assert LevelLinkAt(r, s, i);
    }
  }

  lemma InsertKeys(b: Book, e: Entry, k: nat, id: OrderId, p: Price)
    requires e.side != NoSide && k <= |b.Of(e.side)|
    ensures var c := b.With(e.side, InsertAt(b.Of(e.side), k, e));
      && (RestsIn(c, id) <==> RestsIn(b, id) || id == e.id)
      && (PricedIn(c, p) <==> PricedIn(b, p) || p == e.price)
  {
    var s := b.Of(e.side);
    var t := InsertAt(s, k, e);
    assert t[k] == e;
    forall i | 0 <= i < |s| ensures s[i] in t {
      assert t[if i < k then i else i + 1] == s[i];
    }
    assert forall f :: f in t ==> f in s || f == e;
  }

  lemma FreshFor(b: Book, e: Entry, i: nat)
    requires e.side != NoSide && i < |b.Of(Opposite(e.side))|
    ensures !RestsIn(b, e.id) ==> b.Of(Opposite(e.side))[i].id != e.id
    ensures !PricedIn(b, e.price) ==> b.Of(Opposite(e.side))[i].price != e.price
  {
  }

  lemma AppendOrderElsewhere(b: Book, k: nat, e: Entry, r: Links, i: nat)
    requires WellFormed(b) && e.side != NoSide && JoinsLevel(e.side, b.Of(e.side), k, e)
    requires Spells(r, b.bids) && Spells(r, b.asks) && LevelClosed(r, e.price) && OrderClosed(r, r.first[e.price])
    requires !RestsIn(b, e.id) && i < |b.Of(Opposite(e.side))|
    ensures SameLinksAt(r, AppendOrder(r, e.price, e.id), b.Of(Opposite(e.side))[i])
  {
    hide WellFormed;
    hide Spells;
    hide SideOk;
    hide LevelStart;
    hide NextPos;
    hide PrevPos;
    var s, u := b.Of(e.side), b.Of(Opposite(e.side));
    Sides(b, e.side);
    var f := LevelStart(s, k - 1);
    JoinedRing(e.side, s, k, e, r);
    LinksAt(Opposite(e.side), u, i, r);
    OtherSide(b, e.side, k - 1, i);
    OtherSide(b, e.side, f, i);
    FreshFor(b, e, i);
  }

  /** Appending to a level's ring describes the book with the new order behind its price. */
  lemma AppendOrderDescribes(b: Book, k: nat, e: Entry, r: Links)
    requires WellFormed(b) && Describes(r, b) && e.side != NoSide && JoinsLevel(e.side, b.Of(e.side), k, e)
    requires !RestsIn(b, e.id)
    ensures LevelClosed(r, e.price) && OrderClosed(r, r.first[e.price])
    ensures Describes(AppendOrder(r, e.price, e.id), b.With(e.side, InsertAt(b.Of(e.side), k, e)))
  {
    hide WellFormed;
    hide SideOk;
    hide Spells;
    hide SameLinksAt;
    Sides(b, e.side);
    var s := b.Of(e.side);
    SideClosed(e.side, s, k - 1, r);
    LinksAt(e.side, s, k - 1, r);
    SideClosed(e.side, s, LevelStart(s, k - 1), r);
    AppendOrderHere(e.side, s, k, e, r);
    var q := AppendOrder(r, e.price, e.id);
    forall i | 0 <= i < |b.Of(Opposite(e.side))| ensures SameLinksAt(r, q, b.Of(Opposite(e.side))[i]) {
      AppendOrderElsewhere(b, k, e, r, i);
    }
    SpellsUnchanged(Opposite(e.side), b.Of(Opposite(e.side)), r, q);
    var c := b.With(e.side, InsertAt(s, k, e));
    forall id: OrderId ensures id in q.next <==> RestsIn(c, id) {
      InsertKeys(b, e, k, id, 0);
    }
    forall p: Price ensures p in q.first <==> PricedIn(c, p) {
      InsertKeys(b, e, k, 0, p);
    }
  }

  // --- Adding a level -----------------------------------------------------------------------------------------

  /** A new level of one order between two levels, or alone when its side was empty. */
  ghost function AddLevel(r: Links, p: Price, id: OrderId, before: Price, after: Price): Links {
    Links(r.next[id := id], r.prev[id := id], r.first[p := id],
          r.nextLevel[before := p][p := after], r.prevLevel[after := p][p := before])
  }

  /** An order at a fresh price that belongs at position k. */
  ghost predicate OpensLevel(side: Side, s: seq<Entry>, k: nat, e: Entry) {
    && SideOk(side, s) && k <= |s|
    && (forall i {:trigger Distinct(s[i], e)} :: 0 <= i < |s| ==> Distinct(s[i], e))
    && (forall i {:trigger s[i].price} :: 0 <= i < |s| ==> s[i].price != e.price)
    && (0 < k < |s| ==> s[k - 1].price != s[k].price)
  }

  /** The levels a new level at position k goes between. */
  ghost function LevelBefore(s: seq<Entry>, k: nat, p: Price): Price
    requires k <= |s|
  {
    if s == [] then p else s[if k == 0 then |s| - 1 else k - 1].price
  }

  ghost function LevelAfter(s: seq<Entry>, k: nat, p: Price): Price
    requires k <= |s|
  {
    if s == [] then p else s[if k == |s| then 0 else k].price
  }

  lemma OthersKept(side: Side, s: seq<Entry>, k: nat, e: Entry, r: Links, a: Price, c: Price, i: nat)
    requires OpensLevel(side, s, k, e) && Spells(r, s) && i < |s| && OrderLinkAt(r, s, i)
    ensures OrderLinkAt(AddLevel(r, e.price, e.id, a, c), InsertAt(s, k, e), if i < k then i else i + 1)
  {
    hide LevelStart;
    hide SideOk;
    hide Spells;
    hide NextPos;
    hide PrevPos;
    AddLevelEnds(side, s, k, e, if i < k then i else i + 1);
    RingAt(side, s, i, r);
    assert Distinct(s[i], e) && Distinct(s[LevelStart(s, i)], e) && Distinct(s[NextPos(s, i)], e);
  }

  lemma AloneInLevel(side: Side, s: seq<Entry>, k: nat, e: Entry, r: Links, a: Price, c: Price)
    requires OpensLevel(side, s, k, e)
    ensures OrderLinkAt(AddLevel(r, e.price, e.id, a, c), InsertAt(s, k, e), k)
  {
  }

  lemma AddLevelHere(side: Side, s: seq<Entry>, k: nat, e: Entry, r: Links)
    requires OpensLevel(side, s, k, e) && Spells(r, s)
    ensures Spells(AddLevel(r, e.price, e.id, LevelBefore(s, k, e.price), LevelAfter(s, k, e.price)), InsertAt(s, k, e))
  {
    hide OrderLinkAt;
    hide LevelLinkAt;
    hide LevelBefore;
    hide LevelAfter;
    hide AddLevel;
    var a, c := LevelBefore(s, k, e.price), LevelAfter(s, k, e.price);
    var t := InsertAt(s, k, e);
    var q := AddLevel(r, e.price, e.id, a, c);
    forall j | 0 <= j < |t| ensures OrderLinkAt(q, t, j) && LevelLinkAt(q, t, j) {
      if j == k {
        AloneInLevel(side, s, k, e, r, a, c);
      } else {
        OthersKept(side, s, k, e, r, a, c, if j < k then j else j - 1);
      }
      AddLevelLevelLink(side, s, k, e, r, j);
    }
  }

  lemma AddLevelEnds(side: Side, s: seq<Entry>, k: nat, e: Entry, j: nat)
    requires OpensLevel(side, s, k, e) && j <= |s| && j != k
    ensures var t, i := InsertAt(s, k, e), if j < k then j else j - 1;
      && t[j] == s[i] && (EndsLevel(t, j) <==> EndsLevel(s, i)) && (StartsLevel(t, j) <==> StartsLevel(s, i))
      && (!EndsLevel(t, j) ==> t[j + 1] == s[i + 1])
      && t[Succ(j, |t|)] == (if Succ(j, |t|) == k then e else s[Succ(i, |s|)])
  {
  }

  /** Different ends of levels have different prices, and so do the levels that follow them. */
  lemma EndPriceUnique(side: Side, s: seq<Entry>, i: nat, j: nat)
    requires SideOk(side, s) && i < j < |s| && EndsLevel(s, i) && EndsLevel(s, j)
    ensures s[i].price != s[j].price
    ensures s[Succ(i, |s|)].price != s[Succ(j, |s|)].price
  {
    if s[i].price == s[j].price { SameLevel(side, s, i, i + 1, j); }
    if j + 1 < |s| {
      if s[i + 1].price == s[j + 1].price { SameLevel(side, s, i + 1, j, j + 1); }
    } else if s[0].price == s[i + 1].price {
      SameLevel(side, s, 0, i, i + 1);
    }
  }

  lemma AddLevelLevelLink(side: Side, s: seq<Entry>, k: nat, e: Entry, r: Links, j: nat)
    requires OpensLevel(side, s, k, e) && Spells(r, s) && j <= |s|
    ensures LevelLinkAt(AddLevel(r, e.price, e.id, LevelBefore(s, k, e.price), LevelAfter(s, k, e.price)),
                        InsertAt(s, k, e), j)
  {
    var t := InsertAt(s, k, e);
    if j == k {
      assert |s| > 0 ==> LevelAfter(s, k, e.price) != e.price;
      assert t[Succ(k, |t|)].price == LevelAfter(s, k, e.price);
    } else {
      var i := if j < k then j else j - 1;
      AddLevelEnds(side, s, k, e, j);
      LinksAt(side, s, i, r);
      if EndsLevel(s, i) {
        AddLevelOldLink(side, s, k, e, r, i);
      }
    }
  }

  lemma AddLevelOldLink(side: Side, s: seq<Entry>, k: nat, e: Entry, r: Links, i: nat)
    requires OpensLevel(side, s, k, e) && Spells(r, s) && i < |s| && EndsLevel(s, i)
    ensures var q := AddLevel(r, e.price, e.id, LevelBefore(s, k, e.price), LevelAfter(s, k, e.price));
      var a, m := if k == 0 then |s| - 1 else k - 1, Succ(i, |s|);
      if i == a then q.nextLevel[s[i].price] == e.price && q.prevLevel[e.price] == s[i].price
      else
        && s[i].price in q.nextLevel && q.nextLevel[s[i].price] == s[m].price
        && s[m].price in q.prevLevel && q.prevLevel[s[m].price] == s[i].price
  {
    var a := if k == 0 then |s| - 1 else k - 1;
    assert LevelLinkAt(r, s, i);
    assert EndsLevel(s, a);
    assert LevelAfter(s, k, e.price) == s[Succ(a, |s|)].price;
    if i < a { EndPriceUnique(side, s, i, a); } else if a < i { EndPriceUnique(side, s, a, i); }
  }

  lemma AddLevelSame(b: Book, k: nat, e: Entry, r: Links, i: nat)
    requires WellFormed(b) && e.side != NoSide && OpensLevel(e.side, b.Of(e.side), k, e)
    requires Spells(r, b.bids) && Spells(r, b.asks) && !RestsIn(b, e.id) && !PricedIn(b, e.price)
    requires i < |b.Of(Opposite(e.side))|
    ensures var s := b.Of(e.side);
      var q := AddLevel(r, e.price, e.id, LevelBefore(s, k, e.price), LevelAfter(s, k, e.price));
      SameLinksAt(r, q, b.Of(Opposite(e.side))[i])
  {
    hide WellFormed;
    hide Spells;
    hide SideOk;
    hide RestsIn;
    hide PricedIn;
    hide LevelStart;
    hide LevelEnd;
    var s := b.Of(e.side);
    Sides(b, e.side);
    LinksAt(Opposite(e.side), b.Of(Opposite(e.side)), i, r);
    FreshFor(b, e, i);
    if s != [] {
      OtherSide(b, e.side, if k == 0 then |s| - 1 else k - 1, i);
      OtherSide(b, e.side, if k == |s| then 0 else k, i);
    }
  }

  lemma AddLevelElsewhere(b: Book, k: nat, e: Entry, r: Links)
    requires WellFormed(b) && e.side != NoSide && OpensLevel(e.side, b.Of(e.side), k, e)
    requires Spells(r, b.bids) && Spells(r, b.asks) && !RestsIn(b, e.id) && !PricedIn(b, e.price)
    ensures var s := b.Of(e.side);
      Spells(AddLevel(r, e.price, e.id, LevelBefore(s, k, e.price), LevelAfter(s, k, e.price)), b.Of(Opposite(e.side)))
  {
    var s, u := b.Of(e.side), b.Of(Opposite(e.side));
    Sides(b, e.side);
    hide WellFormed;
    hide Spells;
    hide SideOk;
    hide RestsIn;
    hide PricedIn;
    hide AddLevel;
    hide SameLinksAt;
    var q := AddLevel(r, e.price, e.id, LevelBefore(s, k, e.price), LevelAfter(s, k, e.price));
    forall i | 0 <= i < |u| ensures SameLinksAt(r, q, u[i]) {
      AddLevelSame(b, k, e, r, i);
    }
    SpellsUnchanged(Opposite(e.side), u, r, q);
  }

  /** Linking a new level in at its place describes the book with the new order. */
  lemma AddLevelDescribes(b: Book, k: nat, e: Entry, r: Links)
    requires WellFormed(b) && Describes(r, b) && e.side != NoSide && OpensLevel(e.side, b.Of(e.side), k, e)
    requires !RestsIn(b, e.id) && !PricedIn(b, e.price)
    ensures var s := b.Of(e.side);
      Describes(AddLevel(r, e.price, e.id, LevelBefore(s, k, e.price), LevelAfter(s, k, e.price)),
                b.With(e.side, InsertAt(s, k, e)))
  {
    var s := b.Of(e.side);
    var q := AddLevel(r, e.price, e.id, LevelBefore(s, k, e.price), LevelAfter(s, k, e.price));
    AddLevelHere(e.side, s, k, e, r);
    AddLevelElsewhere(b, k, e, r);
    AddLevelKeys(b, k, e, r);
    var c := b.With(e.side, InsertAt(s, k, e));
    forall id: OrderId ensures id in q.next <==> RestsIn(c, id) {
      InsertKeys(b, e, k, id, 0);
    }
    forall p: Price ensures p in q.first <==> PricedIn(c, p) {
      InsertKeys(b, e, k, 0, p);
    }
  }

  lemma AddLevelKeys(b: Book, k: nat, e: Entry, r: Links)
    requires Describes(r, b) && e.side != NoSide && k <= |b.Of(e.side)|
    ensures var s := b.Of(e.side);
      var q := AddLevel(r, e.price, e.id, LevelBefore(s, k, e.price), LevelAfter(s, k, e.price));
      && q.prev.Keys == q.next.Keys == r.next.Keys + {e.id}
      && q.nextLevel.Keys == q.prevLevel.Keys == q.first.Keys == r.first.Keys + {e.price}
  {
    var s := b.Of(e.side);
    var a, c := LevelBefore(s, k, e.price), LevelAfter(s, k, e.price);
    assert s != [] ==> PricedIn(b, a) && PricedIn(b, c);
  }
}
