/** The unbounded queue as one thread sees it: a linked list of bounded queues, the segments.
    Items go into the last segment and come out of the first. */
module UnboundedQueue {
  import opened Ring
  import opened Bitwise
  import opened BoundedQueue

  function Concat<T>(parts: seq<seq<T>>): seq<T> {
    if parts == [] then [] else parts[0] + Concat(parts[1..])
  }

  lemma {:induction false} ConcatSnoc<T>(parts: seq<seq<T>>, p: seq<T>)
    ensures Concat(parts + [p]) == Concat(parts) + p
  {
    if parts == [] {
      assert (parts + [p])[1..] == [];
    } else {
      ConcatSnoc(parts[1..], p);
      assert (parts + [p])[1..] == parts[1..] + [p];
    }
  }

  lemma ConcatGrow<T>(parts: seq<seq<T>>, item: T)
    requires parts != []
    ensures var last := |parts| - 1;
            Concat(parts[last := parts[last] + [item]]) == Concat(parts) + [item]
  {
    var last := |parts| - 1;
    ConcatSnoc(parts[..last], parts[last]);
    ConcatSnoc(parts[..last], parts[last] + [item]);
    assert parts == parts[..last] + [parts[last]];
    assert parts[last := parts[last] + [item]] == parts[..last] + [parts[last] + [item]];
  }

  lemma ConcatFrom<T>(parts: seq<seq<T>>, k: nat)
    requires k < |parts|
    ensures Concat(parts[k..]) == parts[k] + Concat(parts[k + 1..])
  {
    assert parts[k..][1..] == parts[k + 1..];
  }

  lemma ConcatTake<T>(parts: seq<seq<T>>)
    requires parts != [] && parts[0] != []
    ensures Concat(parts) == [parts[0][0]] + Concat(parts[0 := parts[0][1..]])
  {
    var r := parts[0 := parts[0][1..]];
    assert r[1..] == parts[1..];
    assert parts[0] == [parts[0][0]] + r[0];
  }

  class LscqNode<T(0)> {
    const value: BoundedQueue<T>
    var next: LscqNode?<T>
    ghost const order: nat
    /** All objects of this segment. */
    ghost const repr: set<object>

    /** The queue of this segment holds `items`, and is finalized or not. */
    ghost predicate Holds(items: seq<T>, closed: bool)
      reads this, repr
    {
      this in repr && forall q :: q == value ==>
        && q.Within(repr) && q.Valid() && q.Contents() == items
        && q.Capacity() == Pow2(order) && q.alloc.finalizable && q.alloc.finalized == closed
    }

    constructor New(order: nat)
      ensures Holds([], false) && this.order == order
      ensures next == null && fresh(repr)
    {
      var queue := new BoundedQueue<T>.New(order, true);
      value, next := queue, null;
      this.order := order;
      repr := {this} + queue.Repr();
    }

    twostate lemma Stays(p: (seq<T>, bool))
      requires old(Holds(p.0, p.1)) && unchanged(repr)
      ensures Holds(p.0, p.1) && next == old(next)
    {
    }

    /** Holds says nothing about where the segment leads. */
    twostate lemma Relinked(p: (seq<T>, bool))
      requires old(Holds(p.0, p.1)) && unchanged(repr - {this})
      ensures Holds(p.0, p.1)
    {
      assert old(value.Valid());
    }

    /** Offers an item to the queue of this segment. */
    method Put(finalize: bool, item: T, ghost items: seq<T>, ghost closed: bool) returns (r: EnqueueResult<T>)
      requires Holds(items, closed)
      modifies repr
      ensures next == old(next)
      ensures r.Stored? <==> |items| < Pow2(order) && !closed
      ensures if r.Stored? then Holds(items + [item], finalize && |items| + 1 >= Pow2(order))
              else Holds(items, closed) && r.item == item
    {
      assert value.Valid();
      r := value.EnqueueCycle(finalize, item);
    }

    method Take(ghost items: seq<T>, ghost closed: bool) returns (r: Option<T>)
      requires Holds(items, closed)
      modifies repr
      ensures next == old(next)
      ensures if items == [] then r.None? && Holds([], closed) else r == Some(items[0]) && Holds(items[1..], closed)
    {
      assert value.Valid();
      r := value.Dequeue();
    }

    /** Lets dequeues look for entries again, whatever the threshold was. */
    method Rearm(ghost items: seq<T>, ghost closed: bool)
      requires Holds(items, closed)
      modifies repr
      ensures next == old(next) && Holds(items, closed)
    {
      assert value.Valid();
      value.alloc.threshold := 3 * Pow2(value.free.order + 1) - 1;
    }

    /** Frees the segment, which drops its queue. */
    method Free(ghost items: seq<T>, ghost closed: bool) returns (dropped: seq<T>)
      requires Holds(items, closed)
      modifies repr
      ensures next == old(next) && dropped == items
    {
      assert value.Valid();
      dropped := value.Drop();
    }
  }

  class UnboundedQueue<T(0)> {
    var head: LscqNode<T>
    var tail: LscqNode<T>
    const order: nat
    /** The segments from head on, the items of each, and which are finalized. */
    ghost var nodes: seq<LscqNode<T>>
    ghost var parts: seq<seq<T>>
    ghost var closed: seq<bool>
    /** Which segment tail points to, counted from head on; negative once head has gone past it. */
    ghost var at: int
    ghost var repr: set<object>

    /** Every segment before the last is finalized, and so is a full one.  Segments of one place are an
        exception: the item that starts a segment fills it without finalizing it. */
    static ghost predicate Closing(parts: seq<seq<T>>, closed: seq<bool>, order: nat) {
      && |closed| == |parts|
      && (forall i: nat :: order >= 1 && i < |parts| && (i + 1 < |parts| || |parts[i]| >= Pow2(order)) ==> closed[i])
    }

    /** No two segments share an object. */
    static ghost predicate Disjoint(nodes: seq<LscqNode<T>>) {
      forall i: nat, j: nat :: i < j < |nodes| ==> nodes[i].repr !! nodes[j].repr
    }

    static lemma DisjointSnoc(nodes: seq<LscqNode<T>>, ncq: LscqNode<T>, repr: set<object>)
      requires Disjoint(nodes) && ncq.repr !! repr && forall i: nat :: i < |nodes| ==> nodes[i].repr <= repr
      ensures Disjoint(nodes + [ncq])
    {
    }

    /** The segments from k on hold their items and are linked in order. */
    ghost predicate Remaining(k: nat)
      reads this, repr
    {
      && |parts| == |nodes| == |closed|
      && (forall i: nat :: i < |nodes| ==> nodes[i] in nodes[i].repr && nodes[i].repr <= repr && this !in nodes[i].repr)
      && Disjoint(nodes)
      && (forall i: nat :: k <= i < |nodes| ==> nodes[i].order == order && nodes[i].Holds(parts[i], closed[i]))
      && (forall i: nat, j: nat :: k <= i && i + 1 == j < |nodes| ==> nodes[i].next == nodes[j])
      && (k < |nodes| ==> nodes[|nodes| - 1].next == null)
    }

    /** The list from head on is well-formed, wherever tail points. */
    ghost predicate Chain()
      reads this, repr
    {
      this in repr && nodes != [] && head == nodes[0] && Remaining(0) && Closing(parts, closed, order)
    }

    /** tail points into the list, perhaps to a segment before the last. */
    ghost predicate Linked()
      reads this, repr
    {
      Chain() && 0 <= at < |nodes| && tail == nodes[at]
    }

    /** What every operation leaves behind: tail points to the last segment. */
    ghost predicate Valid()
      reads this, repr
    {
      Linked() && at == |nodes| - 1
    }

    /** The items in the queue, oldest first. */
    ghost function Contents(): seq<T>
      reads this
    {
      Concat(parts)
    }

    constructor New(segmentOrder: nat)
      ensures Valid() && fresh(repr) && Contents() == [] && order == segmentOrder
    {
      var queue := new LscqNode<T>.New(segmentOrder);
      head, tail, order := queue, queue, segmentOrder;
      nodes, parts, closed, at := [queue], [[]], [false], 0;
      repr := {this} + queue.repr;
    }

    /** The list stays well-formed when only segment k, and what it holds, has changed. */
    twostate lemma OthersStay(k: nat)
      requires old(Chain()) && k < |nodes|
      requires nodes == old(nodes) && repr == old(repr) && head == old(head)
      requires |parts| == |nodes| && parts == old(parts)[k := parts[k]]
      requires |closed| == |nodes| && closed == old(closed)[k := closed[k]]
      requires order >= 1 && (k + 1 < |parts| || |parts[k]| >= Pow2(order)) ==> closed[k]
      requires unchanged(repr - nodes[k].repr - {this})
      requires nodes[k].Holds(parts[k], closed[k]) && nodes[k].next == old(nodes[k].next)
      ensures Chain()
    {
      forall i: nat | i < |nodes| && i != k
        ensures nodes[i].Holds(parts[i], closed[i]) && nodes[i].next == old(nodes[i].next)
      {
        assert nodes[i].repr !! nodes[k].repr;
        assert nodes[i].repr <= repr - nodes[k].repr - {this};
        nodes[i].Stays((parts[i], closed[i]));
      }
    }

    /** Offers an item to the last segment. */
    method Offer(item: T) returns (r: EnqueueResult<T>)
      requires Valid()
      modifies this`parts, this`closed, tail.repr
      ensures Valid()
      ensures !r.Stored? ==> r.item == item && parts == old(parts) && (order >= 1 ==> closed[at])
      ensures r.Stored? ==> Contents() == old(Contents()) + [item]
    {
      r := tail.Put(true, item, parts[at], closed[at]);
      if r.Stored? {
        ConcatGrow(parts, item);
        closed := closed[at := |parts[at]| + 1 >= Pow2(order)];
        parts := parts[at := parts[at] + [item]];
      }
      OthersStay(at);
    }

    /** Every segment is as in a list whose last segment leads to ncq. */
    ghost predicate LeadsTo(ncq: LscqNode<T>, items: seq<T>)
      reads this, repr, ncq, ncq.repr
    {
      && nodes != [] && |parts| == |nodes| == |closed| && ncq.Holds(items, false) && ncq.next == null
      && (forall i: nat :: i < |nodes| ==> nodes[i] in nodes[i].repr && nodes[i].repr <= repr)
      && (forall i: nat :: i < |nodes| ==> nodes[i].Holds(parts[i], closed[i]))
      && (forall i: nat, j: nat :: i + 1 == j < |nodes| ==> nodes[i].next == nodes[j])
      && nodes[|nodes| - 1].next == ncq
    }

    /** Lets the last segment lead to a new one. */
    method Attach(ncq: LscqNode<T>, ghost items: seq<T>)
      requires Valid() && ncq.Holds(items, false) && ncq.next == null && ncq.repr !! repr
      modifies tail`next
      ensures LeadsTo(ncq, items)
    {
      tail.next := ncq;
      forall i: nat | i < |nodes| ensures nodes[i].Holds(parts[i], closed[i]) {
        nodes[i].Relinked((parts[i], closed[i]));
      }
    }

    /** The new segment belongs to the list. */
    ghost method Record(ncq: LscqNode<T>, items: seq<T>)
      requires LeadsTo(ncq, items) && ncq.repr !! repr && this !in ncq.repr && this in repr
      requires Disjoint(nodes) && forall i: nat :: i < |nodes| ==> nodes[i].order == order && this !in nodes[i].repr
      requires ncq.order == order
      modifies this`nodes, this`parts, this`closed, this`at, this`repr
      ensures nodes == old(nodes) + [ncq] && parts == old(parts) + [items] && closed == old(closed) + [false]
      ensures at == |nodes| - 1 && repr == old(repr) + ncq.repr && Remaining(0)
    {
      DisjointSnoc(nodes, ncq, repr);
      nodes, parts, closed := nodes + [ncq], parts + [items], closed + [false];
      at, repr := |nodes| - 1, repr + ncq.repr;
    }

    /** Links a new segment behind the last one. */
    method Link(ncq: LscqNode<T>, ghost items: seq<T>)
      requires Valid() && ncq.Holds(items, false) && ncq.order == order && ncq.next == null && ncq.repr !! repr
      requires order >= 1 ==> closed[at] && |items| < Pow2(order)
      modifies this, tail`next
      ensures Valid() && Contents() == old(Contents()) + items && repr == old(repr) + ncq.repr
    {
      ConcatSnoc(parts, items);
      Attach(ncq, items);
      Record(ncq, items);
      tail := ncq;
    }

    /** Starts a new segment with the item that the last one refused. */
    method Grow(item: T)
      requires Valid() && (order >= 1 ==> closed[at])
      modifies this, tail`next
      ensures Valid() && Contents() == old(Contents()) + [item] && fresh(repr - old(repr))
    {
      var ncq := new LscqNode<T>.New(order);
      var first := ncq.Put(false, item, [], false);
      assert first.Stored?;
      Link(ncq, [item]);
    }

    /** UnboundedQueueInternal::enqueue.  A segment that is full or sealed refuses the item, which then
        starts a new one. */
    method Enqueue(item: T)
      requires Linked()
      modifies repr
      ensures Valid() && fresh(repr - old(repr))
      ensures Contents() == old(Contents()) + [item]
    {
      var element := item;
      while true
        invariant Linked() && repr == old(repr) && nodes == old(nodes) && parts == old(parts) && closed == old(closed)
        decreases |nodes| - at
      {
        var cq := tail;
        var next := cq.next;
        assert at + 1 < |nodes| ==> next == nodes[at + 1];
        if next != null {
          tail := next;
          at := at + 1;
          continue;
        }
        var put := Offer(element);
        if put.Stored? {
          return;
        }
        element := put.item;
        Grow(element);
        return;
      }
    }

    /** Takes an item out of the first segment. */
    method TakeFirst() returns (r: Option<T>)
      requires Chain()
      modifies this`parts, head.repr
      ensures Chain() && (old(parts)[0] == [] ==> r.None? && parts == old(parts))
      ensures old(parts)[0] != [] ==> r.Some? && old(Contents()) == [r.value] + Contents()
    {
      r := head.Take(parts[0], closed[0]);
      if r.Some? {
        ConcatTake(parts);
        parts := parts[0 := parts[0][1..]];
      }
      OthersStay(0);
    }

    method RearmFirst()
      requires Chain()
      modifies head.repr
      ensures Chain() && head.next == old(head.next)
    {
      head.Rearm(parts[0], closed[0]);
      OthersStay(0);
    }

    /** Moves head past a drained segment, which is not the last one. */
    method Advance(next: LscqNode<T>)
      requires Chain() && parts[0] == [] && next == head.next
      modifies this
      ensures Chain() && repr == old(repr) && Contents() == old(Contents())
      ensures nodes == old(nodes)[1..] && at == old(at) - 1 && tail == old(tail)
    {
      assert |nodes| > 1 && next == nodes[1];
      head := next;
      nodes, parts, closed, at := nodes[1..], parts[1..], closed[1..], at - 1;
    }

    /** One round of a dequeue; `again` says that a drained segment was left behind. */
    method DequeueRound() returns (r: Option<T>, again: bool)
      requires Chain()
      modifies repr
      ensures Chain() && repr == old(repr) && tail == old(tail)
      ensures again ==>
                r.None? && Contents() == old(Contents()) && nodes == old(nodes)[1..] && at == old(at) - 1
      ensures !again ==>
                && nodes == old(nodes) && at == old(at)
                && if old(Contents()) == [] then r.None? && Contents() == []
                   else r.Some? && old(Contents()) == [r.value] + Contents()
    {
      r := TakeFirst();
      if r.Some? {
        return r, false;
      }
      var next := head.next;
      assert |nodes| > 1 ==> next == nodes[1];
      if next == null {
        assert parts == [[]] && Concat(parts[1..]) == [];
        return None, false;
      }
      RearmFirst();
      r := TakeFirst();
      if r.Some? {
        // another thread's item, which cannot come while one thread runs alone
        assert false;
      }
      Advance(next);
      return None, true;
    }

    /** UnboundedQueueInternal::dequeue.  Empty only if no segment holds an item: a drained segment that
        leads to another one is left behind.  The code does not look at tail; a tail that lags behind stays
        in the list unless head goes past it. */
    method Dequeue() returns (r: Option<T>)
      requires Chain()
      modifies repr
      ensures Chain() && repr == old(repr) && tail == old(tail)
      ensures |nodes| <= old(|nodes|) && nodes == old(nodes)[old(|nodes|) - |nodes|..]
      ensures at == old(at) - (old(|nodes|) - |nodes|)
      ensures old(Linked()) ==> (Linked() <==> at >= 0)
      ensures old(Valid()) ==> Valid()
      ensures if old(Contents()) == [] then r.None? && Contents() == []
              else r == Some(old(Contents())[0]) && Contents() == old(Contents())[1..]
    {
      while true
        invariant Chain() && repr == old(repr) && tail == old(tail) && Contents() == old(Contents())
        invariant |nodes| <= old(|nodes|) && nodes == old(nodes)[old(|nodes|) - |nodes|..]
        invariant at == old(at) - (old(|nodes|) - |nodes|)
        decreases |nodes|
      {
        var again;
        r, again := DequeueRound();
        if !again {
          return;
        }
      }
    }

    /** Remaining as a closed box: a proof that only passes it on does not look inside. */
    ghost predicate Rest(k: nat)
      reads this, repr
    {
      forall q: UnboundedQueue<T> :: q == this ==> q.Remaining(k)
    }

    lemma StartOfDrop()
      requires Chain()
      ensures forall i: nat, j: nat :: i < j < |nodes| ==> nodes[i] != nodes[j]
      ensures forall i: nat :: i < |nodes| ==> nodes[i].repr <= repr && this !in nodes[i].repr
      ensures Rest(0) && |parts| == |nodes|
    {
    }

    /** Frees segment k, and finds the next one before that. */
    method FreeAt(temp: LscqNode<T>, ghost k: nat) returns (next: LscqNode?<T>, items: seq<T>)
      requires Rest(k) && k < |nodes| == |parts| && temp == nodes[k] && this !in temp.repr
      modifies temp.repr
      ensures Rest(k + 1) && items == parts[k]
      ensures if k + 1 == |nodes| then next == null else next == nodes[k + 1]
    {
      assert this.Remaining(k);
      next := temp.next;
      items := temp.Free(parts[k], closed[k]);
      forall i: nat | k < i < |nodes|
        ensures nodes[i].Holds(parts[i], closed[i]) && nodes[i].next == old(nodes[i].next)
      {
        assert nodes[k].repr !! nodes[i].repr;
        nodes[i].Stays((parts[i], closed[i]));
      }
    }

    /** The drop of a queue: frees every segment from head on, once, and with them drops every item once,
        oldest first. */
    method Drop() returns (freed: seq<LscqNode<T>>, dropped: seq<T>)
      requires Chain()
      modifies repr
      ensures freed == old(nodes) && dropped == old(Contents())
      ensures forall i: nat, j: nat :: i < j < |freed| ==> freed[i] != freed[j]
    {
      StartOfDrop();
      var next: LscqNode?<T> := head;
      ghost var k: nat := 0;
      freed, dropped := [], [];
      while next != null
        invariant nodes == old(nodes) && parts == old(parts) && repr == old(repr)
        invariant k <= |nodes| && Rest(k)
        invariant freed == nodes[..k]
        invariant dropped + Concat(parts[k..]) == old(Contents())
        invariant if k == |nodes| then next == null else next == nodes[k]
        decreases |nodes| - k
      {
        var temp: LscqNode<T> := next;
        var items;
        ConcatFrom(parts, k);
        next, items := FreeAt(temp, k);
        freed, dropped := freed + [temp], dropped + items;
        k := k + 1;
      }
    }
  }
}
