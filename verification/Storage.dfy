/** The storage primitives on their own: the memory pool and the single-producer single-consumer queue. */
module Storage {
  import opened Types

  // --- Masking as a fast modulo ------------------------------------------------------------------------------

  function Pow2(k: nat): (n: nat)
    ensures n > 0
  {
    if k == 0 then 1 else 2 * Pow2(k - 1)
  }

  /** Bitwise and. */
  function And(x: nat, y: nat): nat {
    if x == 0 || y == 0 then 0 else 2 * And(x / 2, y / 2) + (x % 2) * (y % 2)
  }

  /** Masking with one less than a power of two is the remainder. */
  lemma {:induction false} MaskIsModulo(x: nat, k: nat)
    ensures And(x, Pow2(k) - 1) == x % Pow2(k)
    decreases k
  {
    if k > 0 {
      var n := Pow2(k - 1);
      MaskIsModulo(x / 2, k - 1);
      HalfOfMask(n);
      RemainderByHalves(x, n);
    }
  }

  lemma HalfOfMask(n: nat)
    requires n > 0
    ensures (2 * n - 1) / 2 == n - 1 && (2 * n - 1) % 2 == 1
  {
  }

  lemma RemainderByHalves(x: nat, n: nat)
    requires n > 0
    ensures x % (2 * n) == 2 * ((x / 2) % n) + x % 2
  {
    var q, r := x / 2 / n, (x / 2) % n;
    assert x / 2 == q * n + r;
    assert x == (2 * n) * q + (2 * r + x % 2);
    RemainderIs(x, 2 * n, q, 2 * r + x % 2);
  }

  lemma RemainderIs(x: nat, n: nat, q: nat, r: nat)
    requires x == n * q + r && r < n
    ensures x % n == r && x / n == q
  {
    var d := x / n - q;
    assert x == n * (x / n) + x % n;
    assert n * d == n * (x / n) - n * q;
    assert n * d == r - x % n;
    ScaledBound(n, d);
  }

  lemma ScaledBound(n: int, d: int)
    requires n > 0
    ensures (d >= 1 ==> n * d >= n) && (d <= -1 ==> n * d <= -n)
  {
    if d >= 1 {
      assert n * d == n + n * (d - 1);
    } else if d <= -1 {
      assert n * d == -n + n * (d + 1);
    }
  }

  // --- The memory pool ---------------------------------------------------------------------------------------

  // A pool of n blocks as its history shows it: how many allocations succeeded, and which of them are still held.
  datatype Pool = Pool(n: nat, count: nat, held: set<nat>)

  /** Only the last n allocations can still be held: a block is handed out again only after it came back. */
  ghost predicate PoolOk(p: Pool) {
    p.n > 0 && forall j {:trigger j in p.held} :: j in p.held ==> j < p.count <= j + p.n
  }

  /** The next allocation succeeds unless the one made n allocations before it is still held. */
  predicate CanAllocate(p: Pool) {
    p.count < p.n || p.count - p.n !in p.held
  }

  function Allocated(p: Pool): Pool {
    p.(count := p.count + 1, held := p.held + {p.count})
  }

  /** The block the j-th allocation got. */
  function BlockOf(j: nat, n: nat): nat
    requires n > 0
  {
    j % n
  }

  /** Whoever holds this block gives it back. */
  ghost function Released(p: Pool, block: nat): Pool
    requires p.n > 0
  {
    p.(held := set j | j in p.held && BlockOf(j, p.n) != block)
  }

  lemma SameBlock(i: nat, j: nat, n: nat)
    requires n > 0 && i < j < i + n
    ensures i % n != j % n
  {
    if i % n == j % n {
      var q := j / n - i / n;
      assert j - i == n * q;
      ScaledBound(n, q);
    }
  }

  lemma NextBlock(j: nat, n: nat)
    requires n > 0
    ensures (j + n) % n == j % n
  {
    RemainderIs(j + n, n, j / n + 1, j % n);
  }

  /** Two allocations that are both held are never the same block. */
  lemma HeldApart(p: Pool, i: nat, j: nat)
    requires PoolOk(p) && i in p.held && j in p.held && i != j
    ensures BlockOf(i, p.n) != BlockOf(j, p.n)
  {
    if i < j { SameBlock(i, j, p.n); } else { SameBlock(j, i, p.n); }
  }

  /** The next allocation succeeds exactly if nobody holds the block whose turn it is. */
  lemma AllocatesIff(p: Pool)
    requires PoolOk(p)
    ensures CanAllocate(p) <==> forall j {:trigger j in p.held} :: j in p.held ==> j % p.n != p.count % p.n
  {
    if p.count >= p.n { NextBlock(p.count - p.n, p.n); }
    forall j {:trigger j in p.held} | j in p.held && j % p.n == p.count % p.n
      ensures p.count >= p.n && j == p.count - p.n
    {
      if j + p.n != p.count { SameBlock(j, p.count, p.n); }
    }
  }

  /** The pool may refuse while blocks are free: with two blocks, the second given back and the first still out. */
  lemma RefusesWithFreeBlock()
    ensures var p := Released(Allocated(Allocated(Pool(2, 0, {}))), 1);
      PoolOk(p) && p.held == {0} && !CanAllocate(p)
  {
  }

  class MemPool {
    const isFree: array<bool>
    const power: nat
    var nextFree: nat
    ghost var count: nat
    ghost var held: set<nat>

    ghost function State(): Pool
      reads this
    {
      Pool(isFree.Length, count, held)
    }

    ghost predicate Valid()
      reads this, isFree
    {
      && isFree.Length == Pow2(power) && PoolOk(State()) && nextFree == BlockOf(count, isFree.Length)
      && (forall i {:trigger isFree[i]} :: 0 <= i < isFree.Length ==>
            (isFree[i] <==> forall j {:trigger j in held} :: j in held ==> BlockOf(j, isFree.Length) != i))
    }

    /** A pool of a power of two blocks. */
    constructor (power: nat)
      ensures Valid() && fresh(isFree) && State() == Pool(Pow2(power), 0, {})
    {
      hide BlockOf;
      hide Pow2;
      FirstBlock(Pow2(power));
      this.power := power;
      isFree := new bool[Pow2(power)](_ => true);
      nextFree, count, held := 0, 0, {};
    }

    lemma NextIsHeld()
      requires Valid()
      ensures nextFree < isFree.Length && (isFree[nextFree] <==> CanAllocate(State()))
    {
      AllocatesIff(State());
    }

    /** Hand out the next block in turn, trying again a thousand times if it is not free. */
    method Allocate() returns (block: Option<nat>)
      requires Valid()
      modifies this, isFree
      ensures Valid()
      ensures block != None <==> forall j {:trigger j in old(held)} :: j in old(held) ==>
        j % isFree.Length != old(count) % isFree.Length
      ensures if CanAllocate(old(State())) then
          block == Some(BlockOf(old(count), isFree.Length)) && State() == Allocated(old(State()))
        else block == None && State() == old(State())
    {
      NextIsHeld();
      AllocatesIff(State());
      for retry := 0 to 1000
        invariant Valid() && State() == old(State()) && nextFree == old(nextFree)
        invariant retry > 0 ==> !CanAllocate(old(State()))
      {
        NextIsHeld();
        var current := nextFree;
        MaskIsModulo(current + 1, power);
        var next := And(current + 1, isFree.Length - 1);
        var wasFree := isFree[current];
        isFree[current] := false;
        if wasFree {
          NextInTurn(count, isFree.Length);
          nextFree := next;
          count, held := count + 1, held + {count};
          return Some(current);
        }
      }
      return None;
    }

    /** Give a block of this pool back. */
    method Deallocate(block: nat)
      requires Valid() && block < isFree.Length
      modifies this, isFree
      ensures Valid() && isFree[block] && State() == Released(old(State()), block)
    {
      hide BlockOf;
      isFree[block] := true;
      ghost var was := held;
      held := set j | j in held && BlockOf(j, isFree.Length) != block;
      forall i {:trigger isFree[i]} | 0 <= i < isFree.Length && i != block
        ensures (forall j {:trigger j in held} :: j in held ==> BlockOf(j, isFree.Length) != i)
            <==> (forall j {:trigger j in was} :: j in was ==> BlockOf(j, isFree.Length) != i)
      {
        forall j {:trigger j in was} | j in was && BlockOf(j, isFree.Length) == i ensures j in held {
        }
      }
    }
  }

  lemma FirstBlock(n: nat)
    requires n > 0
    ensures BlockOf(0, n) == 0
  {
    RemainderIs(0, n, 0, 0);
  }

  lemma NextInTurn(count: nat, n: nat)
    requires n > 0
    ensures (count % n + 1) % n == (count + 1) % n
  {
    var q, r := count / n, count % n;
    NextRemainder(count, n, q, r);
  }

  lemma NextRemainder(count: nat, n: nat, q: nat, r: nat)
    requires count == n * q + r && r < n
    ensures (r + 1) % n == (count + 1) % n
  {
    if r + 1 < n {
      RemainderIs(count + 1, n, q, r + 1);
      RemainderIs(r + 1, n, 0, r + 1);
    } else {
      assert n * (q + 1) == n * q + n;
      RemainderIs(count + 1, n, q + 1, 0);
      RemainderIs(n, n, 1, 0);
    }
  }

  // --- The queue between two threads -------------------------------------------------------------------------

  // Where each thread is between asking for a slot and moving its position on.
  datatype Place<+T> = Idle | At(slot: nat) | Done(slot: nat, value: T)

  // The queue, both threads, and what has gone in and come out so far.
  datatype Channel<T> = Channel(store: seq<T>, writePos: nat, readPos: nat, writer: Place<T>, reader: Place<T>,
                                produced: seq<T>, consumed: seq<T>)

  datatype Move<T> = AskToWrite | Write(x: T) | AdvanceWrite | AskToRead | Read | AdvanceRead

  /** The slot the writer is given, or none if the queue is full.  Only the position after it is wrapped round. */
  function NextToWrite<T>(c: Channel<T>): Option<nat>
    requires |c.store| > 0
  {
    if And(c.writePos + 1, |c.store| - 1) == c.readPos then None else Some(c.writePos)
  }

  function NextToRead<T>(c: Channel<T>): Option<nat> {
    if c.readPos == c.writePos then None else Some(c.readPos)
  }

  predicate Enabled<T>(c: Channel<T>, m: Move<T>) {
    match m
    case AskToWrite => |c.store| > 0 && c.writer == Idle
    case Write(_) => c.writer.At? && c.writer.slot < |c.store|
    case AdvanceWrite => c.writer.Done?
    case AskToRead => c.reader == Idle
    case Read => c.reader.At? && c.reader.slot < |c.store|
    case AdvanceRead => c.reader.Done?
  }

  /** One step of either thread; a thread that is refused a slot stays idle. */
  function After<T>(c: Channel<T>, m: Move<T>): Channel<T>
    requires Enabled(c, m)
  {
    match m
    case AskToWrite => c.(writer := if NextToWrite(c) == None then Idle else At(NextToWrite(c).value))
    case Write(x) => c.(store := c.store[c.writer.slot := x], writer := Done(c.writer.slot, x))
    case AdvanceWrite => c.(writePos := c.writePos + 1, writer := Idle, produced := c.produced + [c.writer.value])
    case AskToRead => c.(reader := if NextToRead(c) == None then Idle else At(NextToRead(c).value))
    case Read => c.(reader := Done(c.reader.slot, c.store[c.reader.slot]))
    case AdvanceRead => c.(readPos := c.readPos + 1, reader := Idle, consumed := c.consumed + [c.reader.value])
  }

  /** What holds of the queue and its threads as long as no more was written than there are slots. */
  ghost predicate ChannelOk<T>(c: Channel<T>, k: nat) {
    && |c.store| == Pow2(k) && c.writePos == |c.produced| && c.readPos == |c.consumed|
    && c.consumed <= c.produced && c.produced <= c.store
    && (c.writer.At? ==> c.writer.slot == c.writePos < |c.store|)
    && (c.writer.Done? ==> c.writer.slot == c.writePos < |c.store| && c.store[c.writePos] == c.writer.value)
    && (c.reader.At? ==> c.reader.slot == c.readPos < c.writePos)
    && (c.reader.Done? ==> c.reader.slot == c.readPos < c.writePos && c.reader.value == c.produced[c.readPos])
  }

  /** Every step of either thread, in any interleaving, as long as the writer asks for no more slots than there are. */
  lemma StepKeepsChannel<T>(c: Channel<T>, k: nat, m: Move<T>)
    requires ChannelOk(c, k) && Enabled(c, m) && (m == AskToWrite ==> c.writePos < |c.store|)
    ensures ChannelOk(After(c, m), k)
  {
  }

  /** A run from an empty queue of 2^k slots that asks for at most as many slots as there are. */
  ghost predicate Interleaves<T(!new)>(store: seq<T>, k: nat, moves: seq<Move<T>>, c: Channel<T>)
    decreases |moves|
  {
    if moves == [] then |store| == Pow2(k) && c == Channel(store, 0, 0, Idle, Idle, [], [])
    else
      var m := moves[|moves| - 1];
      exists b: Channel<T> :: Interleaves(store, k, moves[..|moves| - 1], b) && Enabled(b, m)
        && (m == AskToWrite ==> b.writePos < |b.store|) && c == After(b, m)
  }

  /** In every interleaving what comes out is a prefix of what went in. */
  lemma {:induction false} FirstInFirstOut<T(!new)>(store: seq<T>, k: nat, moves: seq<Move<T>>, c: Channel<T>)
    requires Interleaves(store, k, moves, c)
    ensures ChannelOk(c, k) && c.consumed <= c.produced
    decreases |moves|
  {
    if moves != [] {
      var m := moves[|moves| - 1];
      var b: Channel<T> :| Interleaves(store, k, moves[..|moves| - 1], b) && Enabled(b, m)
        && (m == AskToWrite ==> b.writePos < |b.store|) && c == After(b, m);
      FirstInFirstOut(store, k, moves[..|moves| - 1], b);
      StepKeepsChannel(b, k, m);
    }
  }

  /** The reader is given the oldest value not read yet, whenever there is one. */
  lemma ReadsTheOldest<T>(c: Channel<T>, k: nat)
    requires ChannelOk(c, k)
    ensures NextToRead(c) == if |c.consumed| < |c.produced| then Some(|c.consumed|) else None
    ensures |c.consumed| < |c.produced| ==>
      |c.consumed| < |c.store| && c.store[|c.consumed|] == c.produced[|c.consumed|]
  {
  }

  /** Within that many slots the queue refuses exactly when all but one are taken and none was ever given back. */
  lemma RefusesWhenFull<T>(c: Channel<T>, k: nat)
    requires ChannelOk(c, k) && c.writePos < |c.store| && k > 0
    ensures NextToWrite(c) == None <==> c.writePos == |c.store| - 1 && c.readPos == 0
  {
    MaskIsModulo(c.writePos + 1, k);
    if c.writePos + 1 < |c.store| {
      RemainderIs(c.writePos + 1, |c.store|, 0, c.writePos + 1);
    } else {
      RemainderIs(|c.store|, |c.store|, 1, 0);
    }
  }

  /**
   Beyond that the promise ends: after that many writes the slot given out, if any, is one past the end of the store.
   */
  lemma PastTheEnd<T>(c: Channel<T>, k: nat)
    requires ChannelOk(c, k) && c.writePos == |c.store| && k > 0
    ensures NextToWrite(c) == if c.readPos == 1 then None else Some(|c.store|)
  {
    var n := |c.store|;
    MaskIsModulo(n + 1, k);
    RemainderIs(n + 1, n, 1, 1);
  }

  // --- That point is reached -----------------------------------------------------------------------------------

  lemma OneMove<T(!new)>(store: seq<T>, k: nat, moves: seq<Move<T>>, b: Channel<T>, m: Move<T>)
    requires Interleaves(store, k, moves, b) && Enabled(b, m) && (m == AskToWrite ==> b.writePos < |b.store|)
    ensures Interleaves(store, k, moves + [m], After(b, m))
  {
    assert (moves + [m])[..|moves|] == moves;
  }

  ghost predicate Resting<T>(c: Channel<T>, n: nat) {
    c.writer == Idle && c.reader == Idle && c.writePos == c.readPos == n
  }

  /** One value goes in and comes out again. */
  lemma OneRound<T(!new)>(store: seq<T>, k: nat, moves: seq<Move<T>>, b: Channel<T>, n: nat, x: T)
    returns (more: seq<Move<T>>, c: Channel<T>)
    requires Interleaves(store, k, moves, b) && Resting(b, n) && n < |b.store| == Pow2(k) && k > 0
    ensures Interleaves(store, k, more, c) && Resting(c, n + 1) && |c.store| == Pow2(k)
  {
    hide Interleaves;
    GivesSlot(b, k, n);
    more, c := moves, b;
    OneMove(store, k, more, c, AskToWrite);
    more, c := more + [AskToWrite], After(c, AskToWrite);
    OneMove(store, k, more, c, Write(x));
    more, c := more + [Write(x)], After(c, Write(x));
    OneMove(store, k, more, c, AdvanceWrite);
    more, c := more + [AdvanceWrite], After(c, AdvanceWrite);
    OneMove(store, k, more, c, AskToRead);
    more, c := more + [AskToRead], After(c, AskToRead);
    OneMove(store, k, more, c, Read);
    more, c := more + [Read], After(c, Read);
    OneMove(store, k, more, c, AdvanceRead);
    more, c := more + [AdvanceRead], After(c, AdvanceRead);
  }

  lemma GivesSlot<T>(b: Channel<T>, k: nat, n: nat)
    requires Resting(b, n) && n < |b.store| == Pow2(k) && k > 0
    ensures NextToWrite(b) == Some(n)
  {
    MaskIsModulo(n + 1, k);
    if n + 1 < |b.store| {
      RemainderIs(n + 1, |b.store|, 0, n + 1);
    } else {
      RemainderIs(|b.store|, |b.store|, 1, 0);
    }
  }

  lemma {:induction false} Rounds<T(!new)>(store: seq<T>, k: nat, n: nat, x: T)
    returns (moves: seq<Move<T>>, c: Channel<T>)
    requires |store| == Pow2(k) && k > 0 && n <= |store|
    ensures Interleaves(store, k, moves, c) && Resting(c, n) && |c.store| == Pow2(k)
    decreases n
  {
    if n == 0 {
      moves, c := [], Channel(store, 0, 0, Idle, Idle, [], []);
    } else {
      moves, c := Rounds(store, k, n - 1, x);
      moves, c := OneRound(store, k, moves, c, n - 1, x);
    }
  }

  /** From any empty queue a run of legal moves leads to where it gives out a slot that is not there. */
  lemma OverrunIsReached<T(!new)>(store: seq<T>, k: nat, x: T) returns (moves: seq<Move<T>>, c: Channel<T>)
    requires |store| == Pow2(k) && k > 0
    ensures Interleaves(store, k, moves, c) && |c.store| == |store| && NextToWrite(c) == Some(|c.store|)
  {
    moves, c := Rounds(store, k, |store|, x);
    FirstInFirstOut(store, k, moves, c);
    PastTheEnd(c, k);
    assert Pow2(k) == 2 * Pow2(k - 1);
  }
}
