/**
 The limit order book as a value.  Each side is one sequence of resting orders in price-time order: most
 aggressive price first, and within one price in order of arrival.  Price levels are the runs of equal prices.
 */
module PriceTime {
  import opened Types

  datatype Entry = Entry(id: OrderId, side: Side, price: Price, qty: Qty, priority: Priority)

  datatype Book = Book(bids: seq<Entry>, asks: seq<Entry>) {
    function Of(side: Side): seq<Entry> {
      if side == Buy then bids else asks
    }

    function With(side: Side, entries: seq<Entry>): Book {
      if side == Buy then Book(entries, asks) else Book(bids, entries)
    }
  }

  const EMPTY_BOOK := Book([], [])

  /** Price p is strictly more aggressive than q on this side. */
  predicate Better(side: Side, p: Price, q: Price) {
    if side == Buy then p > q else p < q
  }

  predicate Distinct(e: Entry, f: Entry) {
    e.id != f.id
  }

  /** Price-time precedence between two orders of one side. */
  predicate Before(side: Side, e: Entry, f: Entry) {
    && Distinct(e, f)
    && (Better(side, e.price, f.price) || (e.price == f.price && e.id < f.id && e.priority < f.priority))
  }

  ghost predicate SideOk(side: Side, s: seq<Entry>) {
    && (forall i :: 0 <= i < |s| ==> s[i].side == side && s[i].qty > 0)
    && (forall i, j {:trigger Before(side, s[i], s[j])} :: 0 <= i < j < |s| ==> Before(side, s[i], s[j]))
  }

  /** The best bid is strictly below the best ask: neither crossed nor locked. */
  predicate Uncrossed(b: Book) {
    b.bids == [] || b.asks == [] || b.bids[0].price < b.asks[0].price
  }

  ghost predicate WellFormed(b: Book) {
    && SideOk(Buy, b.bids)
    && SideOk(Sell, b.asks)
    && (forall i, j {:trigger Distinct(b.bids[i], b.asks[j])} ::
          0 <= i < |b.bids| && 0 <= j < |b.asks| ==> Distinct(b.bids[i], b.asks[j]))
    && Uncrossed(b)
  }

  lemma PricesDisjoint(b: Book, i: nat, j: nat)
    requires WellFormed(b) && i < |b.bids| && j < |b.asks|
    ensures b.bids[i].price < b.asks[j].price
  {
    assert i == 0 || Before(Buy, b.bids[0], b.bids[i]);
    assert j == 0 || Before(Sell, b.asks[0], b.asks[j]);
  }

  /**
   The order of a well-formed book in plain figures: bids from the highest price down, asks from the lowest up, at one
   price the older order first, every order of its own side and for something, and every bid below every ask.
   */
  lemma InPriceTimeOrder(b: Book)
    requires WellFormed(b)
    ensures forall i, j :: 0 <= i < j < |b.bids| ==>
      var e, f := b.bids[i], b.bids[j];
      e.price > f.price || (e.price == f.price && e.id < f.id && e.priority < f.priority)
    ensures forall i, j :: 0 <= i < j < |b.asks| ==>
      var e, f := b.asks[i], b.asks[j];
      e.price < f.price || (e.price == f.price && e.id < f.id && e.priority < f.priority)
    ensures forall i, j :: 0 <= i < |b.bids| && 0 <= j < |b.asks| ==> b.bids[i].price < b.asks[j].price
    ensures forall i :: 0 <= i < |b.bids| ==> b.bids[i].side == Buy && b.bids[i].qty > 0
    ensures forall i :: 0 <= i < |b.asks| ==> b.asks[i].side == Sell && b.asks[i].qty > 0
  {
    forall i, j | 0 <= i < j < |b.bids| ensures Before(Buy, b.bids[i], b.bids[j]) {
    }
    forall i, j | 0 <= i < j < |b.asks| ensures Before(Sell, b.asks[i], b.asks[j]) {
    }
    forall i, j | 0 <= i < |b.bids| && 0 <= j < |b.asks| ensures b.bids[i].price < b.asks[j].price {
      PricesDisjoint(b, i, j);
    }
  }

  ghost predicate JoinsAt(side: Side, s: seq<Entry>, price: Price, k: nat) {
    && k <= |s|
    && (forall i :: 0 <= i < k ==> !Better(side, price, s[i].price))
    && (k < |s| ==> Better(side, price, s[k].price))
  }

  lemma JoinsSomewhere(side: Side, s: seq<Entry>, price: Price)
    ensures exists k :: JoinsAt(side, s, price, k)
  {
    var k := 0;
    while k < |s| && !Better(side, price, s[k].price)
      invariant k <= |s| && forall i :: 0 <= i < k ==> !Better(side, price, s[i].price)
    {
      k := k + 1;
    }
    assert JoinsAt(side, s, price, k);
  }

  /** Where an order at this price joins: behind every order that is at least as aggressive. */
  ghost function InsertPos(side: Side, s: seq<Entry>, price: Price): (k: nat)
    ensures JoinsAt(side, s, price, k)
  {
    JoinsSomewhere(side, s, price);
    var k :| JoinsAt(side, s, price, k);
    k
  }

  lemma InsertPosUnique(side: Side, s: seq<Entry>, price: Price, k: nat)
    requires JoinsAt(side, s, price, k)
    ensures InsertPos(side, s, price) == k
  {
    var m := InsertPos(side, s, price);
    assert JoinsAt(side, s, price, m);
  }

  function InsertAt<T>(s: seq<T>, k: nat, e: T): seq<T>
    requires k <= |s|
  {
    s[..k] + [e] + s[k..]
  }

  function RemoveAt<T>(s: seq<T>, k: nat): seq<T>
    requires k < |s|
  {
    s[..k] + s[k + 1..]
  }

  ghost function Insert(s: seq<Entry>, e: Entry): seq<Entry> {
    InsertAt(s, InsertPos(e.side, s, e.price), e)
  }

  ghost predicate Has(s: seq<Entry>, id: OrderId) {
    exists k :: 0 <= k < |s| && s[k].id == id
  }

  ghost predicate HasPrice(s: seq<Entry>, p: Price) {
    exists k :: 0 <= k < |s| && s[k].price == p
  }

  ghost predicate RestsIn(b: Book, id: OrderId) {
    Has(b.bids, id) || Has(b.asks, id)
  }

  /** The entry of a resting order. */
  ghost function Lookup(b: Book, id: OrderId): (e: Entry)
    requires RestsIn(b, id)
    ensures e.id == id && InBook(b, e)
  {
    if Has(b.bids, id) then b.bids[IndexOf(b.bids, id)] else b.asks[IndexOf(b.asks, id)]
  }

  ghost predicate PricedIn(b: Book, p: Price) {
    HasPrice(b.bids, p) || HasPrice(b.asks, p)
  }

  /** The position of an order id that rests on this side. */
  ghost function IndexOf(s: seq<Entry>, id: OrderId): (k: nat)
    requires Has(s, id)
    ensures k < |s| && s[k].id == id
  {
    var k: nat :| k < |s| && s[k].id == id;
    k
  }

  ghost function Remove(s: seq<Entry>, id: OrderId): seq<Entry> {
    if Has(s, id) then RemoveAt(s, IndexOf(s, id)) else s
  }

  ghost function SetQty(s: seq<Entry>, id: OrderId, qty: Qty): seq<Entry> {
    if Has(s, id) then
      var k := IndexOf(s, id);
      s[k := s[k].(qty := qty)]
    else s
  }

  lemma HasAfterRemoveAt(s: seq<Entry>, k: nat, id: OrderId)
    requires k < |s| && s[k].id != id
    ensures Has(RemoveAt(s, k), id) == Has(s, id)
  {
    var t := RemoveAt(s, k);
    if Has(s, id) {
      var i := IndexOf(s, id);
      assert t[if i < k then i else i - 1] == s[i];
    }
  }

  /** A new order that arrived after everything resting at its price keeps the side in price-time order. */
  lemma InsertKeepsOrder(side: Side, s: seq<Entry>, e: Entry)
    requires SideOk(side, s) && e.side == side && e.qty > 0
    requires forall i :: 0 <= i < |s| && s[i].price == e.price ==> s[i].id < e.id && s[i].priority < e.priority
    requires forall i :: 0 <= i < |s| ==> Distinct(s[i], e)
    ensures SideOk(side, Insert(s, e))
  {
    var k := InsertPos(side, s, e.price);
    var t := Insert(s, e);
    forall i, j | 0 <= i < j < |t| ensures Before(side, t[i], t[j]) {
      if j == k {
        assert s[i] == t[i];
      } else if i == k {
        assert k == j - 1 || Before(side, s[k], s[j - 1]);
      } else {
        assert Before(side, s[if i < k then i else i - 1], s[if j < k then j else j - 1]);
      }
    }
  }

  lemma TailOk(side: Side, s: seq<Entry>)
    requires SideOk(side, s) && s != []
    ensures SideOk(side, s[1..])
  {
    var t := s[1..];
    forall i, j | 0 <= i < j < |t| ensures Before(side, t[i], t[j]) {
      assert Before(side, s[i + 1], s[j + 1]);
    }
  }

  lemma IndexOfAt(side: Side, s: seq<Entry>, k: nat)
    requires SideOk(side, s) && k < |s|
    ensures Has(s, s[k].id) && IndexOf(s, s[k].id) == k
  {
    var m := IndexOf(s, s[k].id);
    assert m < k ==> Before(side, s[m], s[k]);
    assert k < m ==> Before(side, s[k], s[m]);
  }


  /** Taking an order out keeps a book well formed. */
  lemma RemoveKeepsWellFormed(b: Book, side: Side, k: nat)
    requires WellFormed(b) && side != NoSide && k < |b.Of(side)|
    ensures WellFormed(b.With(side, RemoveAt(b.Of(side), k)))
  {
    var s := b.Of(side);
    var t := RemoveAt(s, k);
    var c := b.With(side, t);
    forall i, j | 0 <= i < j < |t| ensures Before(side, t[i], t[j]) {
      assert Before(side, s[if i < k then i else i + 1], s[if j < k then j else j + 1]);
    }
    forall i, j | 0 <= i < |c.bids| && 0 <= j < |c.asks| ensures Distinct(c.bids[i], c.asks[j]) {
      assert Distinct(b.bids[if side == Sell || i < k then i else i + 1],
        b.asks[if side == Buy || j < k then j else j + 1]);
    }
    if c.bids != [] && c.asks != [] {
      PricesDisjoint(b, if side == Buy && k == 0 then 1 else 0, if side == Sell && k == 0 then 1 else 0);
    }
  }

  /** A smaller but positive quantity changes neither the order nor the sides. */
  lemma SetQtyKeepsWellFormed(b: Book, side: Side, k: nat, qty: Qty)
    requires WellFormed(b) && side != NoSide && k < |b.Of(side)| && qty > 0
    ensures WellFormed(b.With(side, b.Of(side)[k := b.Of(side)[k].(qty := qty)]))
  {
    var s := b.Of(side);
    var t := s[k := s[k].(qty := qty)];
    var c := b.With(side, t);
    forall i, j | 0 <= i < j < |t| ensures Before(side, t[i], t[j]) {
      assert Before(side, s[i], s[j]);
    }
    forall i, j | 0 <= i < |c.bids| && 0 <= j < |c.asks| ensures Distinct(c.bids[i], c.asks[j]) {
      assert Distinct(b.bids[i], b.asks[j]);
    }
  }

  predicate InBook(b: Book, e: Entry) {
    e in b.bids || e in b.asks
  }

  /** The book with one more order at its insert position. */
  ghost function Added(b: Book, e: Entry): Book {
    b.With(e.side, Insert(b.Of(e.side), e))
  }

  /** A new id whose arrival leaves the book well formed: in particular uncrossed and behind its price's queue. */
  ghost predicate CanAdd(b: Book, e: Entry) {
    e.side != NoSide && !RestsIn(b, e.id) && WellFormed(Added(b, e))
  }

  /** An entry lies on its own side, at the position its id has there. */
  lemma InBookSide(b: Book, e: Entry)
    requires WellFormed(b) && InBook(b, e)
    ensures e.side != NoSide && e in b.Of(e.side) && Has(b.Of(e.side), e.id)
    ensures b.Of(e.side)[IndexOf(b.Of(e.side), e.id)] == e
  {
    var s := b.Of(e.side);
    var k :| 0 <= k < |s| && s[k] == e;
    IndexOfAt(e.side, s, k);
  }

  /** No order rests on both sides. */
  lemma OneSide(b: Book, id: OrderId)
    requires WellFormed(b)
    ensures !Has(b.bids, id) || !Has(b.asks, id)
  {
    if Has(b.bids, id) {
      forall m | 0 <= m < |b.asks| ensures b.asks[m].id != id {
        assert Distinct(b.bids[IndexOf(b.bids, id)], b.asks[m]);
      }
    }
  }

  lemma RemovedIds(b: Book, side: Side, id: OrderId, i: OrderId)
    requires WellFormed(b) && side != NoSide && Has(b.Of(side), id)
    ensures RestsIn(b.With(side, Remove(b.Of(side), id)), i) <==> RestsIn(b, i) && i != id
  {
    var s, u := b.Of(side), b.Of(if side == Buy then Sell else Buy);
    var k := IndexOf(s, id);
    if i != id {
      HasAfterRemoveAt(s, k, i);
    } else {
      forall m | 0 <= m < |u| ensures u[m].id != id {
        assert if side == Buy then Distinct(b.bids[k], b.asks[m]) else Distinct(b.bids[m], b.asks[k]);
      }
      var t := RemoveAt(s, k);
      forall m | 0 <= m < |t| ensures t[m].id != id {
        assert if m < k then Before(side, s[m], s[k]) else Before(side, s[k], s[m + 1]);
      }
    }
  }

  // --- What a change to one side leaves alone -----------------------------------------------------------------

  lemma DistinctIds(side: Side, s: seq<Entry>, i: nat, j: nat)
    requires SideOk(side, s) && i < |s| && j < |s| && i != j
    ensures s[i].id != s[j].id
  {
    assert if i < j then Before(side, s[i], s[j]) else Before(side, s[j], s[i]);
  }

  lemma Sides(b: Book, side: Side)
    requires WellFormed(b) && side != NoSide
    ensures SideOk(side, b.Of(side)) && SideOk(Opposite(side), b.Of(Opposite(side)))
  {
  }

  /** On the other side of the book nothing is at the price or has the id of position k. */
  lemma OtherSide(b: Book, side: Side, k: nat, i: nat)
    requires WellFormed(b) && side != NoSide && k < |b.Of(side)| && i < |b.Of(Opposite(side))|
    ensures var e, f := b.Of(side)[k], b.Of(Opposite(side))[i];
      e.id != f.id && e.price != f.price
  {
    if side == Buy {
      PricesDisjoint(b, k, i);
      assert Distinct(b.bids[k], b.asks[i]);
    } else {
      PricesDisjoint(b, i, k);
      assert Distinct(b.bids[i], b.asks[k]);
    }
  }

  lemma ReprioritizedSide(side: Side, s: seq<Entry>, k: nat, e: Entry, q: Priority)
    requires k <= |s| && SideOk(side, InsertAt(s, k, e)) && forall i :: 0 <= i < |s| ==> s[i].price != e.price
    ensures SideOk(side, InsertAt(s, k, e.(priority := q)))
  {
    var t, u := InsertAt(s, k, e), InsertAt(s, k, e.(priority := q));
    assert t[k] == e && u[k] == e.(priority := q);
    forall i | 0 <= i < |u| ensures u[i].side == side && u[i].qty > 0 {
      assert t[i].side == side;
    }
    forall i, j {:trigger Before(side, u[i], u[j])} | 0 <= i < j < |u| ensures Before(side, u[i], u[j]) {
      assert Before(side, t[i], t[j]);
      if i == k { assert t[j] == s[j - 1]; }
      if j == k { assert t[i] == s[i]; }
    }
  }

  /** Alone at its price an order may have any priority. */
  lemma AnyPriority(b: Book, e: Entry, q: Priority)
    requires CanAdd(b, e) && !HasPrice(b.Of(e.side), e.price)
    ensures CanAdd(b, e.(priority := q))
  {
    hide SideOk;
    hide RestsIn;
    var s, k := b.Of(e.side), InsertPos(e.side, b.Of(e.side), e.price);
    var c, d := Added(b, e), Added(b, e.(priority := q));
    ReprioritizedSide(e.side, s, k, e, q);
    assert d.bids == (if e.side == Buy then InsertAt(s, k, e.(priority := q)) else c.bids);
    assert d.asks == (if e.side == Buy then c.asks else InsertAt(s, k, e.(priority := q)));
    forall i, j {:trigger Distinct(d.bids[i], d.asks[j])} | 0 <= i < |d.bids| && 0 <= j < |d.asks|
      ensures Distinct(d.bids[i], d.asks[j])
    {
      assert Distinct(c.bids[i], c.asks[j]);
    }
  }

  lemma AddedHolds(b: Book, n: Entry, e: Entry)
    requires n.side != NoSide && (InBook(b, e) || e == n)
    ensures InBook(Added(b, n), e)
  {
  }

  lemma AddedEntry(b: Book, e: Entry, f: Entry)
    requires e.side != NoSide && !RestsIn(b, e.id) && InBook(Added(b, e), f)
    ensures f == e || (InBook(b, f) && f.id != e.id)
  {
    assert InBook(b, f) ==> RestsIn(b, f.id);
  }

  lemma SetQtyEntry(b: Book, side: Side, k: nat, qty: Qty, f: Entry)
    requires WellFormed(b) && side != NoSide && k < |b.Of(side)|
    requires InBook(b.With(side, b.Of(side)[k := b.Of(side)[k].(qty := qty)]), f)
    ensures f == b.Of(side)[k].(qty := qty) || (InBook(b, f) && f.id != b.Of(side)[k].id)
  {
    var s, u := b.Of(side), b.Of(Opposite(side));
    var t := s[k := s[k].(qty := qty)];
    if f in t {
      var j :| 0 <= j < |t| && t[j] == f;
      if j != k { DistinctIds(side, s, j, k); }
    } else {
      var j :| 0 <= j < |u| && u[j] == f;
      OtherSide(b, side, k, j);
    }
  }

  lemma RemovedEntry(b: Book, side: Side, k: nat, e: Entry)
    requires WellFormed(b) && side != NoSide && k < |b.Of(side)|
    requires InBook(b.With(side, RemoveAt(b.Of(side), k)), e)
    ensures InBook(b, e) && e.id != b.Of(side)[k].id
  {
    var s, u := b.Of(side), b.Of(Opposite(side));
    var t := RemoveAt(s, k);
    if e in t {
      var j :| 0 <= j < |t| && t[j] == e;
      DistinctIds(side, s, if j < k then j else j + 1, k);
    } else {
      var j :| 0 <= j < |u| && u[j] == e;
      OtherSide(b, side, k, j);
    }
  }

  /** The place in the queue of the next order at this price. */
  ghost function NextPriority(side: Side, s: seq<Entry>, price: Price): Priority {
    var k := InsertPos(side, s, price);
    if 0 < k <= |s| && s[k - 1].price == price then s[k - 1].priority + 1 else 1
  }

  /** Every order resting at a price comes before the next priority there. */
  lemma LastPriority(side: Side, s: seq<Entry>, price: Price, i: nat)
    requires SideOk(side, s) && i < |s| && s[i].price == price
    ensures s[i].priority < NextPriority(side, s, price)
  {
    var k := InsertPos(side, s, price);
    assert k < i ==> Before(side, s[k], s[i]);
    assert i < k - 1 ==> Before(side, s[i], s[k - 1]);
  }

  /** It is one more than that of the last order at the price, or 1 if there is none. */
  lemma NextPriorityIs(side: Side, s: seq<Entry>, price: Price)
    requires SideOk(side, s)
    ensures var p := NextPriority(side, s, price);
      && (forall e :: e in s && e.price == price ==> e.priority < p)
      && (if exists e :: e in s && e.price == price then exists e :: e in s && e.price == price && p == e.priority + 1
          else p == 1)
  {
    var k := InsertPos(side, s, price);
    forall e | e in s && e.price == price ensures e.priority < NextPriority(side, s, price) {
      var i :| 0 <= i < |s| && s[i] == e;
      LastPriority(side, s, price, i);
    }
    if i :| 0 <= i < |s| && s[i].price == price {
      assert k < i ==> Before(side, s[k], s[i]);
      assert i < k - 1 ==> Before(side, s[i], s[k - 1]);
      assert s[k - 1] in s;
    }
  }
}
