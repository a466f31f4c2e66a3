/** The bounded queue as one thread sees it: a first-in-first-out queue of fixed capacity. */
module BoundedQueue {
  import opened Ring
  import opened Bitwise
  import opened ScqRing

  datatype EnqueueResult<T> = Stored | QueueFull(item: T) | QueueClosed(item: T)

  // ---------------------------------------------------------------- indices and cells

  /** How often x occurs in s. */
  function Occurs(s: seq<nat>, x: nat): nat {
    if s == [] then 0 else (if s[0] == x then 1 else 0) + Occurs(s[1..], x)
  }

  lemma {:induction false} OccursIsCount(s: seq<nat>, x: nat)
    ensures Occurs(s, x) == multiset(s)[x] && (Occurs(s, x) > 0 <==> x in s)
  {
    if s != [] {
      OccursIsCount(s[1..], x);
      assert s == [s[0]] + s[1..];
    }
  }

  lemma OccursAppend(a: seq<nat>, b: seq<nat>, x: nat)
    ensures Occurs(a + b, x) == Occurs(a, x) + Occurs(b, x)
  {
    OccursIsCount(a, x);
    OccursIsCount(b, x);
    OccursIsCount(a + b, x);
  }

  lemma {:induction false} OccursFirst(n: nat, x: nat)
    ensures Occurs(FirstIndices(n), x) == if x < n then 1 else 0
  {
    if n > 0 {
      OccursFirst(n - 1, x);
      OccursAppend(FirstIndices(n - 1), [n - 1], x);
    }
  }

  /** Every index below n is in exactly one place: in the free ring, in the alloc ring, or held by the
      operation under way. */
  ghost predicate Partition(free: seq<nat>, alloc: seq<nat>, held: seq<nat>, n: nat) {
    forall x: nat :: Occurs(free, x) + Occurs(alloc, x) + Occurs(held, x) == if x < n then 1 else 0
  }

  lemma PartitionSizes(free: seq<nat>, alloc: seq<nat>, held: seq<nat>, n: nat)
    requires Partition(free, alloc, held, n)
    ensures |free| + |alloc| + |held| == n
  {
    var all := multiset(free) + multiset(alloc) + multiset(held);
    forall x: nat ensures all[x] == multiset(FirstIndices(n))[x] {
      OccursIsCount(free, x);
      OccursIsCount(alloc, x);
      OccursIsCount(held, x);
      OccursFirst(n, x);
      OccursIsCount(FirstIndices(n), x);
    }
    assert all == multiset(FirstIndices(n));
    assert |all| == |free| + |alloc| + |held|;
  }

  /** The cells of the indices in the alloc ring hold an item, and no others. */
  ghost predicate Owned<T>(free: seq<nat>, alloc: seq<nat>, held: seq<nat>, cells: seq<Option<T>>, n: nat) {
    && Partition(free, alloc, held, n)
    && |cells| >= n
    && (forall x: nat :: x < |cells| ==> (cells[x].Some? <==> x in alloc))
  }

  ghost predicate AllSome<T>(cells: seq<Option<T>>, indices: seq<nat>) {
    forall k: nat :: k < |indices| ==> indices[k] < |cells| && cells[indices[k]].Some?
  }

  /** The items in the cells, in the order of the indices. */
  ghost function Items<T>(cells: seq<Option<T>>, indices: seq<nat>): (items: seq<T>)
    requires AllSome(cells, indices)
  {
    seq(|indices|, k requires 0 <= k < |indices| => cells[indices[k]].value)
  }

  /** A held index is in neither ring, and all indices of the alloc ring have their item. */
  lemma Exclusive<T>(free: seq<nat>, alloc: seq<nat>, pos: nat, cells: seq<Option<T>>, n: nat)
    requires Owned(free, alloc, [pos], cells, n)
    ensures pos < n && pos !in free && pos !in alloc && AllSome(cells, alloc)
  {
    assert Occurs([pos], pos) == 1;
    OccursIsCount(free, pos);
    OccursIsCount(alloc, pos);
    forall k: nat | k < |alloc| ensures alloc[k] < n && alloc[k] != pos {
      OccursIsCount(alloc, alloc[k]);
    }
  }

  lemma TakingFree<T>(free: seq<nat>, alloc: seq<nat>, cells: seq<Option<T>>, n: nat)
    requires Owned(free, alloc, [], cells, n) && |alloc| < n
    ensures free != [] && Owned(free[1..], alloc, [free[0]], cells, n)
    ensures free[0] < n && cells[free[0]].None? && AllSome(cells, alloc)
  {
    PartitionSizes(free, alloc, [], n);
    Exclusive(free[1..], alloc, free[0], cells, n);
  }

  lemma Adding<T>(free: seq<nat>, alloc: seq<nat>, pos: nat, cells: seq<Option<T>>, item: T, n: nat)
    requires Owned(free, alloc, [pos], cells, n)
    ensures pos < n && |alloc| < n && AllSome(cells, alloc)
    ensures Owned(free, alloc + [pos], [], cells[pos := Some(item)], n)
    ensures AllSome(cells[pos := Some(item)], alloc + [pos])
    ensures Items(cells[pos := Some(item)], alloc + [pos]) == Items(cells, alloc) + [item]
  {
    PartitionSizes(free, alloc, [pos], n);
    Exclusive(free, alloc, pos, cells, n);
    forall x: nat ensures Occurs(alloc + [pos], x) == Occurs(alloc, x) + Occurs([pos], x) {
      OccursAppend(alloc, [pos], x);
    }
  }

  lemma Returning<T>(free: seq<nat>, alloc: seq<nat>, pos: nat, cells: seq<Option<T>>, n: nat)
    requires Owned(free, alloc, [pos], cells, n)
    ensures pos < n && |free| < n && Owned(free + [pos], alloc, [], cells, n) && AllSome(cells, alloc)
  {
    PartitionSizes(free, alloc, [pos], n);
    Exclusive(free, alloc, pos, cells, n);
    forall x: nat ensures Occurs(free + [pos], x) == Occurs(free, x) + Occurs([pos], x) {
      OccursAppend(free, [pos], x);
    }
  }

  lemma TakingOldest<T>(free: seq<nat>, alloc: seq<nat>, held: seq<nat>, cells: seq<Option<T>>, n: nat)
    requires Owned(free, alloc, held, cells, n) && AllSome(cells, alloc) && alloc != []
    ensures alloc[0] < n && alloc[0] !in alloc[1..]
    ensures Owned(free, alloc[1..], held + [alloc[0]], cells[alloc[0] := None], n)
    ensures AllSome(cells[alloc[0] := None], alloc[1..])
    ensures Items(cells, alloc) == [cells[alloc[0]].value] + Items(cells[alloc[0] := None], alloc[1..])
  {
    OccursIsCount(alloc, alloc[0]);
    OccursIsCount(alloc[1..], alloc[0]);
    var later := held + [alloc[0]];
    forall x: nat ensures Occurs(later, x) == Occurs(held, x) + (if x == alloc[0] then 1 else 0) {
      OccursAppend(held, [alloc[0]], x);
    }
    assert Partition(free, alloc[1..], later, n);
    forall x: nat | x < |cells| && x != alloc[0] ensures cells[x].Some? <==> x in alloc[1..] {
      assert x in alloc <==> x in alloc[1..];
    }
  }

  // ---------------------------------------------------------------- the queue

  class BoundedQueue<T(0)> {
    const free: ScqRing
    const alloc: ScqRing
    const backing: array<Option<T>>
    var used: nat

    function Capacity(): nat { free.Capacity() }

    /** All objects the queue consists of. */
    function Repr(): set<object> { {this, free, free.slots, alloc, alloc.slots, backing} }

    ghost predicate Within(objects: set<object>) {
      && this in objects && free in objects && free.slots in objects
      && alloc in objects && alloc.slots in objects && backing in objects
    }

    /** The two rings are well-formed and share nothing; only the alloc ring is ever finalized. */
    ghost predicate Rings()
      reads this, free, free.slots, alloc, alloc.slots
    {
      && free != alloc && free.slots != alloc.slots
      && backing as object != free.slots && backing as object != alloc.slots
      && free.Valid() && alloc.Valid() && free.order == alloc.order && !free.finalized
    }

    ghost predicate Valid()
      reads this, free, free.slots, alloc, alloc.slots, backing
    {
      && Rings()
      && used == |alloc.contents|
      && Owned(free.contents, alloc.contents, [], backing[..], Capacity())
      && AllSome(backing[..], alloc.contents)
    }

    /** The items in the queue, oldest first. */
    ghost function Contents(): seq<T>
      requires Valid()
      reads this, free, free.slots, alloc, alloc.slots, backing
    {
      Items(backing[..], alloc.contents)
    }

    constructor New(order: nat, sealable: bool)
      ensures Valid() && fresh(Repr())
      ensures Contents() == [] && Capacity() == Pow2(order)
      ensures !alloc.finalized && alloc.finalizable == sealable
    {
      alloc := new ScqRing.Empty(order, sealable);
      free := new ScqRing.Full(order, sealable);
      backing := new Option<T>[2 * Pow2(order)](_ => None);
      used := 0;
      new;
      forall x: nat ensures Occurs(free.contents, x) == if x < Capacity() then 1 else 0 {
        OccursFirst(Capacity(), x);
      }
    }

    /** Takes an index out of the free ring. */
    method TakeFree() returns (pos: nat)
      requires Rings() && free.contents != []
      modifies free, free.slots
      ensures Rings() && pos == old(free.contents)[0] && free.contents == old(free.contents)[1..]
    {
      var found := free.Dequeue();
      if found.None? {
        // the code reports a full queue here, but a thread that runs alone finds an index
        assert false;
      }
      pos := found.value;
    }

    /** Gives index pos back to the free ring; the code panics if the ring refuses it, which it never does. */
    method Release(pos: nat)
      requires Rings() && used == |alloc.contents|
      requires Owned(free.contents, alloc.contents, [pos], backing[..], Capacity())
      modifies free, free.slots
      ensures Valid() && free.contents == old(free.contents) + [pos]
    {
      Returning(free.contents, alloc.contents, pos, backing[..], Capacity());
      var r := free.Enqueue(pos);
      assert r.Ok?;
    }

    /** Hands index pos to the alloc ring, unless that ring is finalized, and then finalizes it if told to. */
    method Append(pos: nat, seal: bool) returns (ok: bool)
      requires Rings() && pos < Capacity() && |alloc.contents| < Capacity()
      modifies alloc, alloc.slots
      ensures Rings() && ok == !old(alloc.finalized)
      ensures alloc.finalized == (old(alloc.finalized) || (seal && alloc.finalizable))
      ensures alloc.contents == if ok then old(alloc.contents) + [pos] else old(alloc.contents)
    {
      var put := alloc.Enqueue(pos);
      if put.Err? {
        return false;
      }
      if seal {
        alloc.Finalize();
      }
      return true;
    }

    /** The way back of an enqueue that the alloc ring refused: takes the item out of its cell again. */
    method PutBack(pos: nat, ghost cells: seq<Option<T>>) returns (item: T)
      requires Rings() && used == |alloc.contents| + 1
      requires Owned(free.contents, alloc.contents, [pos], cells, Capacity())
      requires pos < backing.Length == |cells| && backing[..] == cells[pos := backing[pos]] && backing[pos].Some?
      modifies this`used, free, free.slots, backing
      ensures Valid() && used == old(used) - 1 && item == old(backing[pos].value)
      ensures free.contents == old(free.contents) + [pos] && backing[..] == cells
    {
      Exclusive(free.contents, alloc.contents, pos, cells, Capacity());
      used := used - 1;
      item := backing[pos].value;
      backing[pos] := None;
      assert backing[..] == cells;
      Release(pos);
    }

    /** The second half of an enqueue, which holds the free index pos: writes the item and hands the index
        to the alloc ring, or takes the item back. */
    method Put(pos: nat, finalize: bool, item: T) returns (r: EnqueueResult<T>)
      requires Rings() && used == |alloc.contents| + 1
      requires Owned(free.contents, alloc.contents, [pos], backing[..], Capacity())
      requires AllSome(backing[..], alloc.contents)
      modifies this`used, free, free.slots, alloc, alloc.slots, backing
      ensures Valid()
      ensures r == if old(alloc.finalized) then QueueClosed(item) else EnqueueResult.Stored
      ensures r.Stored? ==> Contents() == old(Items(backing[..], alloc.contents)) + [item]
      ensures alloc.finalized == (old(alloc.finalized)
                || (r.Stored? && finalize && alloc.finalizable && old(used) >= Capacity()))
      ensures !r.Stored? ==> free.contents == old(free.contents) + [pos]
                             && alloc.contents == old(alloc.contents) && backing[..] == old(backing[..])
    {
      ghost var cells := backing[..];
      Adding(free.contents, alloc.contents, pos, cells, item, Capacity());
      backing[pos] := Some(item);
      assert backing[..] == cells[pos := Some(item)];
      var put := Append(pos, finalize && used >= Capacity());
      if !put {
        var back := PutBack(pos, cells);
        return QueueClosed(back);
      }
      return EnqueueResult.Stored;
    }

    /** BoundedQueue::enqueue_cycle.  The item is stored exactly when there is room and the queue is not
        sealed; otherwise the same item comes back, and nothing but tickets is used up. */
    method EnqueueCycle(finalize: bool, item: T) returns (r: EnqueueResult<T>)
      requires Valid()
      modifies Repr()
      ensures Valid()
      ensures r == if |old(Contents())| >= Capacity() then QueueFull(item)
                   else if old(alloc.finalized) then QueueClosed(item) else EnqueueResult.Stored
      ensures Contents() == if r.Stored? then old(Contents()) + [item] else old(Contents())
      ensures alloc.finalized == (old(alloc.finalized)
                || (r.Stored? && finalize && alloc.finalizable && |old(Contents())| + 1 >= Capacity()))
      ensures used == |Contents()|
      ensures r.QueueFull? ==> free.contents == old(free.contents)
      ensures r.QueueClosed? ==>
                && old(free.contents) != []
                && free.contents == old(free.contents)[1..] + [old(free.contents)[0]]
      ensures !r.Stored? ==> alloc.contents == old(alloc.contents) && backing[..] == old(backing[..])
    {
      var size := used;
      used := used + 1;
      if size >= Capacity() {
        used := used - 1;
        return QueueFull(item);
      }
      TakingFree(free.contents, alloc.contents, backing[..], Capacity());
      var pos := TakeFree();
      r := Put(pos, finalize, item);
    }

    /** BoundedQueue::enqueue.  Gives the item back if it was not stored. */
    method Enqueue(item: T) returns (back: Option<T>)
      requires Valid()
      modifies Repr()
      ensures Valid() && alloc.finalized == old(alloc.finalized)
      ensures if |old(Contents())| < Capacity() && !old(alloc.finalized)
              then back.None? && Contents() == old(Contents()) + [item]
              else back == Some(item) && Contents() == old(Contents())
    {
      var r := EnqueueCycle(false, item);
      return if r.Stored? then None else Some(r.item);
    }

    /** Takes the oldest index out of the alloc ring, and the item out of its cell. */
    method TakeOldest(ghost held: seq<nat>) returns (pos: Option<nat>, item: Option<T>)
      requires Rings() && AllSome(backing[..], alloc.contents)
      requires Owned(free.contents, alloc.contents, held, backing[..], Capacity())
      modifies alloc, alloc.slots, backing
      ensures Rings() && AllSome(backing[..], alloc.contents) && alloc.finalized == old(alloc.finalized)
      ensures pos.Some? == item.Some? == (old(alloc.contents) != [])
      ensures pos.None? ==> alloc.contents == [] && backing[..] == old(backing[..])
      ensures pos.Some? ==>
                && pos.value == old(alloc.contents)[0] < Capacity() && alloc.contents == old(alloc.contents)[1..]
                && pos.value < backing.Length && backing[..] == old(backing[..])[pos.value := None]
                && pos.value !in alloc.contents
                && Owned(free.contents, alloc.contents, held + [pos.value], backing[..], Capacity())
                && old(Items(backing[..], alloc.contents)) == [item.value] + Items(backing[..], alloc.contents)
    {
      ghost var cells := backing[..];
      if alloc.contents != [] {
        TakingOldest(free.contents, alloc.contents, held, cells, Capacity());
      }
      pos := alloc.Dequeue();
      if pos.None? {
        return None, None;
      }
      item := backing[pos.value];
      backing[pos.value] := None;
      assert backing[..] == cells[pos.value := None];
    }

    /** BoundedQueue::dequeue.  Takes the oldest item out, and its index goes back to the free ring. */
    method Dequeue() returns (r: Option<T>)
      requires Valid()
      modifies Repr()
      ensures Valid() && alloc.finalized == old(alloc.finalized)
      ensures if old(Contents()) == [] then r.None? && Contents() == []
              else r == Some(old(Contents())[0]) && Contents() == old(Contents())[1..]
      ensures free.contents == old(free.contents) + if r.Some? then [old(alloc.contents)[0]] else []
    {
      ghost var items := Contents();
      var pos, item := TakeOldest([]);
      if pos.None? {
        return None;
      }
      assert items[1..] == Items(backing[..], alloc.contents) && item == Some(items[0]);
      used := used - 1;
      Release(pos.value);
      return item;
    }

    /** The drop of a queue: every item in it is dropped once, oldest first, and no cell keeps one. */
    method Drop() returns (dropped: seq<T>)
      requires Valid()
      modifies Repr()
      ensures dropped == old(Contents())
      ensures alloc.contents == [] && forall x: nat :: x < backing.Length ==> backing[x].None?
    {
      ghost var gone: seq<nat> := [];
      dropped := [];
      while true
        invariant Rings() && AllSome(backing[..], alloc.contents)
        invariant Owned(free.contents, alloc.contents, gone, backing[..], Capacity())
        invariant dropped + Items(backing[..], alloc.contents) == old(Contents())
        decreases |alloc.contents|
      {
        ghost var left := Items(backing[..], alloc.contents);
        var pos, item := TakeOldest(gone);
        if pos.None? {
          return;
        }
        assert left == [item.value] + Items(backing[..], alloc.contents);
        dropped := dropped + [item.value];
        gone := gone + [pos.value];
      }
    }
  }
}
