/** The ring as one thread sees it: an object whose operations take an index in at one end and
    out at the other.  A compare-exchange of a thread that runs alone succeeds. */
module ScqRing {
  import opened Tickets
  import opened Bitwise
  import opened Ring

  datatype EnqResult = Ok | Err(error: RingError)

  /** 0, 1, ..., n - 1 */
  function FirstIndices(n: nat): (s: seq<nat>)
    ensures |s| == n && forall i :: 0 <= i < n ==> s[i] == i
  {
    if n == 0 then [] else FirstIndices(n - 1) + [n - 1]
  }

  // ---------------------------------------------------------------- slots and contents

  /** A slot is safe; its cycle is that of an entry in the ring, of a ticket that head has passed,
      or -1. */
  ghost predicate Fits(slot: Slot, j: nat, n: nat, head: nat, count: nat) {
    && slot.safe && slot.cycle >= -1 && (slot.entry.Some? ==> slot.cycle >= 0)
    && (slot.cycle >= 0 ==>
          var t := Ticket(slot.cycle, j, n);
          if slot.entry.Some? then head <= t < head + count else t < head)
  }

  ghost predicate EntryAt(slots: seq<Slot>, head: nat, contents: seq<nat>, t: nat)
    requires |slots| > 0 && head <= t < head + |contents|
  {
    slots[Pos(t, |slots|)] == Slot(Cycle(t, |slots|), true, Some(contents[t - head]))
  }

  /** The entries of the slots are exactly `contents`, under the tickets from head on. */
  ghost predicate Holds(slots: seq<Slot>, head: nat, contents: seq<nat>) {
    && |slots| > 0 && |contents| <= |slots|
    && (forall t: nat :: head <= t < head + |contents| ==> EntryAt(slots, head, contents, t))
    && (forall j: nat :: j < |slots| ==> Fits(slots[j], j, |slots|, head, |contents|))
  }

  /** An entry is that of a ticket from head on; an empty slot ahead of head is of an earlier cycle. */
  lemma SlotOfTicket(slots: seq<Slot>, head: nat, contents: seq<nat>, t: nat) returns (u: nat)
    requires Holds(slots, head, contents)
    ensures slots[Pos(t, |slots|)].safe
    ensures slots[Pos(t, |slots|)].entry.Some? ==>
              head <= u < head + |contents| && Pos(u, |slots|) == Pos(t, |slots|)
    ensures t >= head && slots[Pos(t, |slots|)].entry.None? ==>
              slots[Pos(t, |slots|)].cycle < Cycle(t, |slots|)
  {
    var j := Pos(t, |slots|);
    var slot := slots[j];
    assert Fits(slot, j, |slots|, head, |contents|);
    u := 0;
    if slot.cycle >= 0 {
      u := Ticket(slot.cycle, j, |slots|);
      PosOfTicket(slot.cycle, j, |slots|);
      if slot.entry.None? && t >= head {
        CycleOrder(u, t, |slots|);
      }
    }
  }

  /** The slot of the ticket after the last entry is empty, unless the ring holds an entry in every slot. */
  lemma SlotBehind(slots: seq<Slot>, head: nat, contents: seq<nat>)
    requires Holds(slots, head, contents) && |contents| < |slots|
    ensures slots[Pos(head + |contents|, |slots|)].entry.None?
  {
    var t := head + |contents|;
    var u := SlotOfTicket(slots, head, contents, t);
    if slots[Pos(t, |slots|)].entry.Some? {
      SameSlotApart(u, t, |slots|);
    }
  }

  /** Writing an entry behind the last one appends to the contents. */
  lemma Appending(slots: seq<Slot>, head: nat, contents: seq<nat>, x: nat)
    requires Holds(slots, head, contents) && |contents| < |slots|
    ensures var t := head + |contents|;
            Holds(slots[Pos(t, |slots|) := Slot(Cycle(t, |slots|), true, Some(x))], head, contents + [x])
  {
    var t, n := head + |contents|, |slots|;
    var r := slots[Pos(t, n) := Slot(Cycle(t, n), true, Some(x))];
    var longer := contents + [x];
    forall u: nat | head <= u < head + |longer| ensures EntryAt(r, head, longer, u) {
      if u < t {
        assert EntryAt(slots, head, contents, u);
        if Pos(u, n) == Pos(t, n) { SameSlotApart(u, t, n); }
      }
    }
    TicketOfPos(t, n);
    forall j: nat | j < n ensures Fits(r[j], j, n, head, |longer|) {
      assert Fits(slots[j], j, n, head, |contents|);
    }
  }

  /** The slots after the slot of ticket head has been emptied. */
  function Emptied(slots: seq<Slot>, head: nat): seq<Slot>
    requires |slots| > 0
  {
    slots[Pos(head, |slots|) := slots[Pos(head, |slots|)].(entry := None)]
  }

  lemma LaterEntry(slots: seq<Slot>, head: nat, contents: seq<nat>, u: nat)
    requires Holds(slots, head, contents) && head < u < head + |contents|
    ensures EntryAt(Emptied(slots, head), head + 1, contents[1..], u)
  {
    assert EntryAt(slots, head, contents, u);
    if Pos(u, |slots|) == Pos(head, |slots|) { SameSlotApart(head, u, |slots|); }
  }

  lemma LaterFits(slots: seq<Slot>, head: nat, contents: seq<nat>, j: nat)
    requires Holds(slots, head, contents) && contents != [] && j < |slots|
    ensures Fits(Emptied(slots, head)[j], j, |slots|, head + 1, |contents| - 1)
  {
    assert Fits(slots[j], j, |slots|, head, |contents|);
    assert EntryAt(slots, head, contents, head);
    if j == Pos(head, |slots|) {
      TicketOfPos(head, |slots|);
    } else if slots[j].cycle >= 0 {
      PosOfTicket(slots[j].cycle, j, |slots|);
    }
  }

  /** Emptying the slot of the first entry removes it from the contents. */
  lemma Consuming(slots: seq<Slot>, head: nat, contents: seq<nat>)
    requires Holds(slots, head, contents) && contents != []
    ensures EntryAt(slots, head, contents, head)
    ensures Holds(Emptied(slots, head), head + 1, contents[1..])
  {
    var r, next, rest := Emptied(slots, head), head + 1, contents[1..];
    forall u: nat | next <= u < next + |rest| ensures EntryAt(r, next, rest, u) {
      LaterEntry(slots, head, contents, u);
    }
    forall j: nat | j < |r| ensures Fits(r[j], j, |r|, next, |rest|) {
      LaterFits(slots, head, contents, j);
    }
  }

  /** A ticket drawn on an empty ring finds an empty slot of an earlier cycle, and advances it. */
  lemma Passing(slots: seq<Slot>, head: nat)
    requires Holds(slots, head, [])
    ensures slots[Pos(head, |slots|)].entry.None? && slots[Pos(head, |slots|)].cycle < Cycle(head, |slots|)
    ensures var slot := slots[Pos(head, |slots|)];
            Holds(slots[Pos(head, |slots|) := Slot(Cycle(head, |slots|), slot.safe, None)], head + 1, [])
  {
    var n := |slots|;
    var u := SlotOfTicket(slots, head, [], head);
    var r := slots[Pos(head, n) := Slot(Cycle(head, n), slots[Pos(head, n)].safe, None)];
    TicketOfPos(head, n);
    forall j: nat | j < n ensures Fits(r[j], j, n, head + 1, 0) {
      assert Fits(slots[j], j, n, head, 0);
    }
  }

  /** A ticket behind the last entry finds an empty slot of an earlier cycle, or the entry of some u; then
      the next ticket leads to the slot after u.  `last` is where the previous ticket led. */
  lemma Probing(slots: seq<Slot>, head: nat, contents: seq<nat>, t: nat, last: nat) returns (u: nat)
    requires Holds(slots, head, contents) && |contents| < |slots| && head + |contents| <= t
    requires head <= last <= head + |contents|
    requires last == head || Pos(t, |slots|) == Pos(last, |slots|)
    ensures var slot := slots[Pos(t, |slots|)];
            && slot.safe
            && (slot.entry.None? ==> slot.cycle < Cycle(t, |slots|))
            && (slot.entry.Some? ==> last <= u < head + |contents| < t && Pos(t + 1, |slots|) == Pos(u + 1, |slots|))
  {
    var n := |slots|;
    u := SlotOfTicket(slots, head, contents, t);
    SlotBehind(slots, head, contents);
    if slots[Pos(t, n)].entry.Some? {
      if u < last { SameSlotApart(u, last, n); }
      PosNext(t, n);
      PosNext(u, n);
    }
  }

  lemma EmptyHolds(half: nat)
    requires half >= 1
    ensures Holds(EmptyRing(half, false, 0).slots, 0, [])
  {
  }

  lemma FullHolds(half: nat)
    requires half >= 1
    ensures Holds(FullRing(half, false, 0).slots, 0, FirstIndices(half))
  {
    var slots := FullRing(half, false, 0).slots;
    var all := FirstIndices(half);
    forall t: nat | 0 <= t < half ensures EntryAt(slots, 0, all, t) {
      assert Pos(t, |slots|) == t && Cycle(t, |slots|) == 0;
    }
  }

  // ---------------------------------------------------------------- the ring

  class ScqRing {
    const order: nat
    const finalizable: bool
    const slots: array<Slot>
    var finalized: bool
    var head: nat
    var tail: nat
    var threshold: int
    /** The indices in the ring, oldest first. */
    ghost var contents: seq<nat>

    function Capacity(): nat { Pow2(order) }

    function Count(): nat { 2 * Pow2(order) }

    function Threshold(): int { Threshold3(Pow2(order)) }

    /** The entries are those of the tickets from head on, and while the ring is not finalized they
        reach up to tail; enqueues that a finalized ring refused leave a gap before tail. */
    ghost predicate Valid()
      reads this, slots
    {
      && slots.Length == Count()
      && head + |contents| <= tail
      && (!finalized ==> head + |contents| == tail)
      && (finalized ==> finalizable)
      && (forall k: nat :: k < |contents| ==> contents[k] < Capacity())
      && Holds(slots[..], head, contents)
      && (contents != [] ==> threshold >= 0)
    }

    constructor Empty(order: nat, finalizable: bool)
      ensures Valid() && fresh(slots)
      ensures this.order == order && this.finalizable == finalizable && !finalized
      ensures contents == [] && head == 0 && tail == 0 && threshold == -1
      ensures slots[..] == EmptyRing(Pow2(order), finalizable, 0).slots
    {
      this.order := order;
      this.finalizable := finalizable;
      slots := new Slot[2 * Pow2(order)](_ => Slot(-1, true, None));
      finalized, head, tail, threshold := false, 0, 0, -1;
      contents := [];
      new;
      assert slots[..] == EmptyRing(Pow2(order), false, 0).slots;
      EmptyHolds(Pow2(order));
    }

    constructor Full(order: nat, finalizable: bool)
      ensures Valid() && fresh(slots)
      ensures this.order == order && this.finalizable == finalizable && !finalized
      ensures contents == FirstIndices(Pow2(order))
      ensures head == 0 && tail == Pow2(order) && threshold == Threshold3(Pow2(order))
      ensures slots[..] == FullRing(Pow2(order), finalizable, 0).slots
    {
      this.order := order;
      this.finalizable := finalizable;
      slots := new Slot[2 * Pow2(order)](
        (j: nat) => if j < Pow2(order) then Slot(0, true, Some(j)) else Slot(-1, true, None));
      finalized, head, tail, threshold := false, 0, Pow2(order), Threshold3(Pow2(order));
      contents := FirstIndices(Pow2(order));
      new;
      assert slots[..] == FullRing(Pow2(order), false, 0).slots;
      FullHolds(Pow2(order));
    }

    method Finalize()
      requires Valid()
      modifies this`finalized
      ensures Valid() && finalized == (old(finalized) || finalizable)
    {
      if finalizable {
        finalized := true;
      }
    }

    /** The successful compare-exchange of an enqueue at ticket t, the one behind the last entry, and the
        update of the threshold. */
    method Insert(t: nat, eidx: nat)
      requires Holds(slots[..], head, contents) && slots.Length == Count() && |contents| < Count()
      requires t == head + |contents| == tail - 1 && eidx < Capacity() && !finalized
      requires forall k: nat :: k < |contents| ==> contents[k] < Capacity()
      modifies this`contents, this`threshold, slots
      ensures Valid() && contents == old(contents) + [eidx] && threshold == Threshold()
      ensures slots[..] == old(slots[..])[Pos(t, Count()) := Slot(Cycle(t, Count()), true, Some(eidx))]
    {
      Appending(slots[..], head, contents, eidx);
      slots[Pos(t, Count())] := Slot(Cycle(t, Count()), true, Some(eidx));
      contents := contents + [eidx];
      if threshold != Threshold() {
        threshold := Threshold();
      }
      assert slots[..] == old(slots[..])[Pos(t, Count()) := Slot(Cycle(t, Count()), true, Some(eidx))];
    }

    /** ScqRing::enqueue.  An index that the ring cannot hold is refused; a finalized ring refuses
        every index, after drawing at most one ticket more than it has entries.  If all slots hold
        an entry, the code draws tickets forever; the queue never lets that happen. */
    method Enqueue(eidx: nat) returns (r: EnqResult)
      requires Valid() && |contents| < Count()
      modifies this, slots
      ensures Valid() && head == old(head) && finalized == old(finalized)
      ensures eidx >= Capacity() ==> r == Err(IndexLargerThanOrder)
      ensures eidx < Capacity() ==> r == if finalized then Err(QueueFinalized) else Ok
      ensures r.Ok? ==>
                && contents == old(contents) + [eidx] && tail == old(tail) + 1 && threshold == Threshold()
                && slots[..]
                   == old(slots[..])[Pos(old(tail), Count()) := Slot(Cycle(old(tail), Count()), true, Some(eidx))]
      ensures !r.Ok? ==>
                && contents == old(contents) && threshold == old(threshold) && slots[..] == old(slots[..])
                && old(tail) <= tail <= old(tail) + |contents| + 1
    {
      if eidx >= Capacity() {
        return Err(IndexLargerThanOrder);
      }
      ghost var was, last := slots[..], head;
      while true
        invariant slots[..] == was && contents == old(contents) && head == old(head) && finalized == old(finalized)
        invariant threshold == old(threshold)
        invariant head <= last <= head + |contents|
        invariant old(tail) <= tail <= old(tail) + (last - head)
        invariant last == head || Pos(tail, Count()) == Pos(last, Count())
        invariant !finalized ==> tail == old(tail)
        decreases head + |contents| - last
      {
        ghost var u := Probing(was, head, contents, tail, last);
        var t := tail;
        tail := tail + 1;
        var tcycle, tidx := Cycle(t, Count()), Pos(t, Count());
        var entry := slots[tidx];
        if entry.cycle < tcycle && entry.entry.None? && (entry.safe || head <= t) {
          if finalizable && finalized {
            return Err(QueueFinalized);
          }
          Insert(t, eidx);
          return Ok;
        }
        last := u + 1;
      }
    }

    /** ScqRing::catchup, for a thread that runs alone: tail becomes hd if it is still tl, and otherwise
        is pulled up to head. */
    method Catchup(tl: nat, hd: nat)
      modifies this`tail
      ensures tail == if old(tail) == tl then hd else if old(tail) < head then head else old(tail)
    {
      var expected, target := tl, hd;
      while tail != expected
        invariant tail == old(tail)
        invariant (expected == tl && target == hd) || (tail != tl && expected == tail < target == head)
        decreases tail != expected
      {
        target := head;
        expected := tail;
        if expected >= target {
          return;
        }
      }
      tail := target;
    }

    /** What becomes of a slot that a dequeuer with ticket h visits alone: its entry is consumed if it is of
        the ticket's cycle; a slot of an earlier cycle is marked unsafe, or advanced if it is empty; a slot of
        a later cycle stays. */
    static function Visited(e: Slot, c: nat): Slot {
      if e.cycle == c then e.(entry := None)
      else if e.cycle > c then e
      else if e.entry.Some? then e.(safe := false)
      else Slot(c, e.safe, None)
    }

    /** The loop of a dequeue at the slot of ticket h. */
    method Visit(h: nat) returns (taken: bool, index: Option<nat>)
      requires slots.Length == Count()
      modifies slots
      ensures taken == (old(slots[Pos(h, Count())]).cycle == Cycle(h, Count()))
      ensures index == old(slots[Pos(h, Count())]).entry
      ensures slots[..] == old(slots[..])[Pos(h, Count()) := Visited(old(slots[Pos(h, Count())]), Cycle(h, Count()))]
    {
      var hcycle, hidx := Cycle(h, Count()), Pos(h, Count());
      var attempt := 0;
      while true
        invariant slots[..] == old(slots[..])
        decreases 11 - attempt
      {
        var entry := slots[hidx];
        if entry.cycle == hcycle {
          slots[hidx] := entry.(entry := None);
          return true, entry.entry;
        }
        if entry.entry.None? {
          attempt := attempt + 1;
          if attempt <= 10 {
            continue;
          }
        }
        // mark the entry unsafe, or advance the empty slot to this cycle
        var entryNew := if entry.entry.Some? then entry.(safe := false) else Slot(hcycle, entry.safe, None);
        if entry.cycle < hcycle && entry != entryNew {
          slots[hidx] := entryNew;
        }
        return false, entry.entry;
      }
    }

    /** One round of a dequeue: draws ticket head, and takes its entry or finds the ring empty.  `again` says
        that neither the tail test nor the threshold ends the call. */
    method Round() returns (r: Option<nat>, again: bool)
      requires Valid() && threshold >= 0
      modifies this, slots
      ensures Valid() && finalized == old(finalized) && head == old(head) + 1
      ensures old(contents) != [] ==>
                && r == Some(old(contents)[0]) && contents == old(contents)[1..] && !again
                && tail == old(tail) && threshold == old(threshold)
      ensures old(contents) == [] ==>
                && r == None && contents == [] && threshold == old(threshold) - 1
                && old(tail) <= tail && (again ==> threshold >= 0 && tail == old(tail))
    {
      ghost var was := slots[..];
      if contents == [] { Passing(was, head); } else { Consuming(was, head, contents); }
      var h := head;
      head := head + 1;
      var taken, entry := Visit(h);
      if taken {
        contents := contents[1..];
        return entry, false;
      }
      if tail <= h + 1 {
        Catchup(tail, h + 1);
        threshold := threshold - 1;
        return None, false;
      }
      threshold := threshold - 1;
      return None, threshold + 1 > 0;
    }

    /** ScqRing::dequeue.  Takes the oldest index out, in one round.  On an empty ring it passes at most
        threshold + 1 tickets and takes the threshold down. */
    method Dequeue() returns (r: Option<nat>)
      requires Valid()
      modifies this, slots
      ensures Valid() && finalized == old(finalized)
      ensures old(contents) != [] ==>
                && r == Some(old(contents)[0]) && contents == old(contents)[1..]
                && head == old(head) + 1 && tail == old(tail) && threshold == old(threshold)
      ensures old(contents) == [] ==>
                && r == None && contents == []
                && threshold <= old(threshold)
                && old(head) <= head && (old(threshold) >= 0 ==> head <= old(head) + old(threshold) + 1)
                && (old(threshold) < 0 ==> head == old(head))
                && old(tail) <= tail
    {
      if threshold < 0 {
        return None;
      }
      while true
        invariant Valid() && contents == old(contents) && finalized == old(finalized)
        invariant tail == old(tail) && 0 <= threshold <= old(threshold)
        invariant contents != [] ==> head == old(head) && threshold == old(threshold)
        invariant head - old(head) == old(threshold) - threshold
        decreases threshold
      {
        var again;
        r, again := Round();
        if !again {
          return;
        }
      }
    }
  }
}
