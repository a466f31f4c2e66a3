/** What every step of the ring machine keeps. */
module RingInvariant {
  import opened Tickets
  import opened Ring

  /** Slots only move forward: to a later cycle; within a cycle from live to empty; and with
      cycle and entry unchanged, from safe to unsafe. */
  predicate Before(a: Slot, b: Slot) {
    || a.cycle < b.cycle
    || (a.cycle == b.cycle && a.entry.Some? && b.entry.None?)
    || (a.cycle == b.cycle && a.entry == b.entry && a.safe && !b.safe)
  }

  predicate NotAfter(a: Slot, b: Slot) { a == b || Before(a, b) }

  /** The thread holds head ticket h and is still looking at its slot. */
  predicate InLoop(pc: Pc, h: nat) {
    (pc.DeqLoad? || pc.DeqTake? || pc.DeqCas?) && pc.h == h
  }

  /** The thread holds head ticket h and has neither consumed an entry nor returned. */
  predicate InFlight(pc: Pc, h: nat) {
    || InLoop(pc, h)
    || ((pc.DeqTail? || pc.CatchCas? || pc.CatchHead? || pc.CatchTail? || pc.DeqEmpty? || pc.DeqRound?)
        && pc.h == h)
  }

  /** The thread holds tail ticket t and has not inserted yet. */
  predicate Enqueuing(pc: Pc, t: nat) {
    (pc.EnqLoad? || pc.EnqHead? || pc.EnqFinal? || pc.EnqCas?) && pc.t == t
  }

  /** The threads that will insert at ticket t through an unsafe slot have looked at head:
      any later dequeuer of this slot that has left has also changed it. */
  ghost predicate Guarded(s: Ring, t: nat, e: Slot)
    requires s.Wf()
  {
    forall u :: u in s.log.left && u >= t && Pos(u, s.N()) == Pos(t, s.N()) ==> s.At(t) != e
  }

  ghost predicate Loaded(s: Ring, t: nat, e: Slot)
    requires s.Wf()
  {
    e.entry.None? && e.cycle < Cycle(t, s.N()) && NotAfter(e, s.At(t))
  }

  ghost predicate HoldsTail(s: Ring, i: nat, x: nat, t: nat) {
    x < s.half && t < s.tail && t in s.log.enqBy && s.log.enqBy[t] == i && t !in s.log.inserted
  }

  ghost predicate HoldsHead(s: Ring, i: nat, h: nat) {
    h < s.head && h < |s.log.deqBy| && s.log.deqBy[h] == i
  }

  ghost predicate EnqOkAt(s: Ring, i: nat)
    requires s.Wf() && i < |s.pcs|
  {
    match s.pcs[i]
    case EnqTicket(x) => x < s.half
    case EnqLoad(x, t) => HoldsTail(s, i, x, t)
    case EnqHead(x, t, e) => HoldsTail(s, i, x, t) && Loaded(s, t, e) && !e.safe
    case EnqFinal(x, t, e) =>
      s.finalizable && HoldsTail(s, i, x, t) && Loaded(s, t, e) && (!e.safe ==> Guarded(s, t, e))
    case EnqCas(x, t, e) => HoldsTail(s, i, x, t) && Loaded(s, t, e) && (!e.safe ==> Guarded(s, t, e))
    case EnqThreshold(x, t) => t in s.log.inserted && s.log.inserted[t] == x
    case EnqStore(x, t) => t in s.log.inserted && s.log.inserted[t] == x
    case EnqOk(x, t) => t in s.log.inserted && s.log.inserted[t] == x
    case EnqErr(x, error) => if error.QueueFinalized? then s.finalized && x < s.half else x >= s.half
    case _ => true
  }

  ghost predicate DeqOkAt(s: Ring, i: nat)
    requires s.Wf() && i < |s.pcs|
  {
    match s.pcs[i]
    case DeqLoad(h, _) => HoldsHead(s, i, h) && h !in s.log.left
    case DeqTake(h, e) =>
      && HoldsHead(s, i, h) && h !in s.log.left && h in s.log.inserted && e.entry == Some(s.log.inserted[h])
      && e.cycle == Cycle(h, s.N()) && NotAfter(e, s.At(h))
    case DeqCas(h, _, e, new') =>
      && HoldsHead(s, i, h) && h !in s.log.left && e.cycle < Cycle(h, s.N())
      && new' == (if e.entry.Some? then e.(safe := false) else Slot(Cycle(h, s.N()), e.safe, None))
      && (e.entry.Some? ==> e.safe)
    case DeqTail(h) => HoldsHead(s, i, h) && h in s.log.left
    case CatchCas(h, tl, hd) => HoldsHead(s, i, h) && h in s.log.left && h < hd <= s.head && tl <= hd
    case CatchHead(h) => HoldsHead(s, i, h) && h in s.log.left
    case CatchTail(h, hd) => HoldsHead(s, i, h) && h in s.log.left && h < hd <= s.head
    case DeqEmpty(h) => HoldsHead(s, i, h) && h in s.log.left && h < s.tail
    case DeqRound(h) => HoldsHead(s, i, h) && h in s.log.left && h < s.tail
    case DeqSome(h, x) => HoldsHead(s, i, h) && h in s.log.taken && s.log.taken[h] == x
    case _ => true
  }

  ghost predicate PcOk(s: Ring, i: nat)
    requires s.Wf() && i < |s.pcs|
  {
    EnqOkAt(s, i) && DeqOkAt(s, i)
  }

  /** A live slot holds what was inserted with its ticket, and no dequeuer has left that
      ticket behind; an empty slot that was ever used belongs to a ticket that was left. */
  ghost predicate SlotOk(s: Ring, j: nat)
    requires s.Wf() && j < s.N()
  {
    var slot := s.slots[j];
    && slot.cycle >= -1
    && (slot.cycle == -1 ==> slot.entry.None?)
    && (slot.cycle >= 0 ==>
          var t := Ticket(slot.cycle, j, s.N());
          match slot.entry
          case Some(x) => t in s.log.inserted && s.log.inserted[t] == x && t !in s.log.left
          case None => t in s.log.left)
  }

  ghost predicate SlotsOk(s: Ring)
    requires s.Wf()
  {
    forall j: nat :: j < s.N() ==> SlotOk(s, j)
  }

  /** A dequeuer that left ticket u has closed its slot to the enqueuer of u. */
  ghost predicate Closed(s: Ring, u: nat)
    requires s.Wf()
  {
    s.At(u).cycle >= Cycle(u, s.N()) || !s.At(u).safe
  }

  /** The entry of ticket t is in its slot. */
  ghost predicate LiveAt(s: Ring, t: nat, x: nat)
    requires s.Wf()
  {
    s.At(t).cycle == Cycle(t, s.N()) && s.At(t).entry == Some(x)
  }

  ghost predicate LogOk(s: Ring)
    requires s.Wf()
  {
    && |s.log.deqBy| == s.head
    && (forall t :: t in s.log.enqBy ==> t < s.tail)
    && (forall u :: u in s.log.left ==> u < s.head && Closed(s, u))
    && (forall t :: t in s.log.inserted ==> t < s.tail && s.log.inserted[t] < s.half)
    && (forall t :: t in s.log.taken ==>
          t in s.log.left && t in s.log.inserted && s.log.taken[t] == s.log.inserted[t])
    && (forall t :: t in s.log.inserted && t !in s.log.taken ==> LiveAt(s, t, s.log.inserted[t]))
  }

  /** Every head ticket not left is held by a thread in its slot loop, and every one that the
      tail has not passed by a thread in flight. */
  ghost predicate HoldersOk(s: Ring)
    requires s.Wf() && |s.log.deqBy| == s.head
  {
    forall h: nat :: h < s.head ==>
      && s.log.deqBy[h] < |s.pcs|
      && (h !in s.log.left ==> InLoop(s.pcs[s.log.deqBy[h]], h))
      && (s.tail <= h ==> InFlight(s.pcs[s.log.deqBy[h]], h))
  }

  ghost predicate Inv(s: Ring) {
    && s.Wf()
    && LogOk(s)
    && SlotsOk(s)
    && HoldersOk(s)
    && (forall i: nat :: i < |s.pcs| ==> PcOk(s, i))
  }

  // ---------------------------------------------------------------- initial states

  lemma EmptyInv(half: nat, finalizable: bool, threads: nat)
    requires half >= 1
    ensures Inv(EmptyRing(half, finalizable, threads))
  {
  }

  lemma FullInv(half: nat, finalizable: bool, threads: nat)
    requires half >= 1
    ensures Inv(FullRing(half, finalizable, threads))
  {
    var s := FullRing(half, finalizable, threads);
    forall t | t in s.log.inserted ensures LiveAt(s, t, s.log.inserted[t]) {
      assert Cycle(t, s.N()) == 0 && Pos(t, s.N()) == t;
    }
  }

  // ---------------------------------------------------------------- what a step may change

  /** Any step of thread i changes the shared state only forward, and only at tickets that
      thread i holds. */
  ghost predicate Evolves(s: Ring, r: Ring, i: nat)
    requires s.Wf()
  {
    && SameShape(s, r) && s.head <= r.head && s.tail <= r.tail && (s.finalized ==> r.finalized)
    && (forall k: nat :: k < |s.pcs| && k != i ==> r.pcs[k] == s.pcs[k])
    && (forall j: nat :: j < s.N() ==> NotAfter(s.slots[j], r.slots[j]))
    && |s.log.deqBy| <= |r.log.deqBy|
    && (forall h: nat :: h < |s.log.deqBy| ==> r.log.deqBy[h] == s.log.deqBy[h])
    && (forall t :: t in s.log.enqBy ==> t in r.log.enqBy && r.log.enqBy[t] == s.log.enqBy[t])
    && (forall t :: t in s.log.inserted ==> t in r.log.inserted && r.log.inserted[t] == s.log.inserted[t])
    && (forall t :: t in r.log.inserted && t !in s.log.inserted ==>
          t in s.log.enqBy && s.log.enqBy[t] == i)
    && (forall t :: t in s.log.taken ==> t in r.log.taken && r.log.taken[t] == s.log.taken[t])
    && (forall t :: t in r.log.taken && t !in s.log.taken ==> t !in s.log.left)
    && s.log.left <= r.log.left
    && (forall u :: u in r.log.left && u !in s.log.left ==>
          && HoldsHead(s, i, u)
          && (r.At(u).cycle >= Cycle(u, r.N()) || r.At(u).entry.Some?))
  }

  lemma GuardedStays(s: Ring, r: Ring, i: nat, t: nat, e: Slot)
    requires s.Wf() && Evolves(s, r, i) && Loaded(s, t, e) && Guarded(s, t, e)
    ensures Guarded(r, t, e)
  {
    forall u | u in r.log.left && u >= t && Pos(u, r.N()) == Pos(t, r.N()) ensures r.At(t) != e {
      if u !in s.log.left {
        CycleOrder(t, u, r.N());
      }
    }
  }

  lemma OtherEnqueuer(s: Ring, r: Ring, i: nat, k: nat)
    requires s.Wf() && Evolves(s, r, i) && k < |s.pcs| && k != i && EnqOkAt(s, k)
    ensures EnqOkAt(r, k)
  {
    match s.pcs[k]
    case EnqFinal(x, t, e) => if !e.safe { GuardedStays(s, r, i, t, e); }
    case EnqCas(x, t, e) => if !e.safe { GuardedStays(s, r, i, t, e); }
    case _ =>
  }

  lemma OtherDequeuer(s: Ring, r: Ring, i: nat, k: nat)
    requires s.Wf() && Evolves(s, r, i) && k < |s.pcs| && k != i && DeqOkAt(s, k)
    ensures DeqOkAt(r, k)
  {
  }

  lemma OtherThread(s: Ring, r: Ring, i: nat, k: nat)
    requires s.Wf() && Evolves(s, r, i) && k < |s.pcs| && k != i && PcOk(s, k)
    ensures PcOk(r, k)
  {
    OtherEnqueuer(s, r, i, k);
    OtherDequeuer(s, r, i, k);
  }

  lemma SlotsStay(s: Ring, r: Ring)
    requires s.Wf() && SlotsOk(s) && SameShape(s, r) && r.slots == s.slots
    requires r.log.inserted == s.log.inserted && r.log.left == s.log.left
    ensures SlotsOk(r)
  {
    forall j: nat | j < r.N() ensures SlotOk(r, j) { assert SlotOk(s, j); }
  }

  /** Writing the slot of ticket t forward keeps what the log says of every other slot. */
  lemma LogStays(s: Ring, r: Ring, t: nat)
    requires Inv(s) && SameShape(s, r) && r.head == s.head && s.tail <= r.tail
    requires r.slots == s.slots[Pos(t, s.N()) := r.At(t)] && NotAfter(s.At(t), r.At(t))
    ensures forall u :: u in s.log.left && Pos(u, s.N()) != Pos(t, s.N()) ==> Closed(r, u)
    ensures forall v :: v in s.log.inserted && v !in s.log.taken && Pos(v, s.N()) != Pos(t, s.N()) ==>
                          LiveAt(r, v, s.log.inserted[v])
    ensures s.At(t).safe == r.At(t).safe || !r.At(t).safe ==>
              forall u :: u in s.log.left ==> Closed(r, u)
  {
    forall u | u in s.log.left ensures Closed(s, u) {}
    forall v | v in s.log.inserted && v !in s.log.taken ensures LiveAt(s, v, s.log.inserted[v]) {}
  }

  lemma OtherSlots(s: Ring, r: Ring, t: nat)
    requires Inv(s) && SameShape(s, r) && SlotOk(r, Pos(t, s.N()))
    requires r.slots == s.slots[Pos(t, s.N()) := r.At(t)]
    requires forall v :: v in s.log.inserted ==> v in r.log.inserted && r.log.inserted[v] == s.log.inserted[v]
    requires forall u :: u in s.log.left || u == t <==> u in r.log.left || u == t
    ensures SlotsOk(r)
  {
    Laws(s.N());
    forall j: nat | j < r.N() ensures SlotOk(r, j) {
      assert SlotOk(s, j);
    }
  }

  ghost predicate Kept(s: Ring, r: Ring, i: nat)
    requires s.Wf()
  {
    Inv(r) && Evolves(s, r, i)
  }

  lemma Assemble(s: Ring, r: Ring, i: nat)
    requires Inv(s) && i < |s.pcs| && Evolves(s, r, i)
    requires LogOk(r) && SlotsOk(r) && HoldersOk(r) && PcOk(r, i)
    ensures Kept(s, r, i)
  {
    forall k: nat | k < |r.pcs| ensures PcOk(r, k) {
      if k != i { OtherThread(s, r, i, k); }
    }
  }

  // ---------------------------------------------------------------- steps that leave the slots alone

  /** A step that moves one thread, and perhaps a counter or the threshold. */
  lemma Local(s: Ring, r: Ring, i: nat)
    requires Inv(s) && i < |s.pcs| && SameShape(s, r)
    requires r.slots == s.slots && r.pcs == s.pcs[i := r.pcs[i]]
    requires r.log == s.log && r.head == s.head && s.tail <= r.tail && (s.finalized ==> r.finalized)
    requires PcOk(r, i)
    requires forall h: nat :: InLoop(s.pcs[i], h) ==> InLoop(r.pcs[i], h)
    requires forall h: nat :: InFlight(s.pcs[i], h) && r.tail <= h ==> InFlight(r.pcs[i], h)
    ensures Kept(s, r, i)
  {
    SlotsStay(s, r);
    Assemble(s, r, i);
  }

  lemma KeepEnqTicket(s: Ring, i: nat, x: nat)
    requires Inv(s) && i < |s.pcs| && s.pcs[i] == EnqTicket(x)
    ensures Kept(s, StepEnqTicket(s, i, x), i)
  {
    assert PcOk(s, i);
    SlotsStay(s, StepEnqTicket(s, i, x));
    Assemble(s, StepEnqTicket(s, i, x), i);
  }

  lemma KeepEnqHead(s: Ring, i: nat, x: nat, t: nat, e: Slot)
    requires Inv(s) && i < |s.pcs| && s.pcs[i] == EnqHead(x, t, e)
    ensures Kept(s, StepEnqHead(s, i, x, t, e), i)
  {
    assert PcOk(s, i);
    Local(s, StepEnqHead(s, i, x, t, e), i);
  }

  lemma KeepDeqTicket(s: Ring, i: nat)
    requires Inv(s) && i < |s.pcs| && s.pcs[i] == DeqTicket
    ensures Kept(s, StepDeqTicket(s, i), i)
  {
    SlotsStay(s, StepDeqTicket(s, i));
    Assemble(s, StepDeqTicket(s, i), i);
  }

  /** The slot has moved on past ticket h, or is closed to its enqueuer. */
  ghost predicate Excludes(s: Ring, h: nat)
    requires s.Wf()
  {
    && s.At(h).cycle != Cycle(h, s.N())
    && (s.At(h).cycle < Cycle(h, s.N()) ==> s.At(h).entry.Some? && !s.At(h).safe)
  }

  lemma LeaveSlots(s: Ring, i: nat, h: nat)
    requires Inv(s) && i < |s.pcs| && Excludes(s, h)
    ensures SlotsOk(s.Leave(h).To(i, DeqTail(h)))
  {
    assert SlotOk(s, Pos(h, s.N()));
    if s.At(h).cycle >= 0 { PosOfTicket(s.At(h).cycle, Pos(h, s.N()), s.N()); }
    OtherSlots(s, s.Leave(h).To(i, DeqTail(h)), h);
  }

  lemma LeaveLog(s: Ring, i: nat, h: nat)
    requires Inv(s) && i < |s.pcs| && InLoop(s.pcs[i], h) && Excludes(s, h)
    ensures var r := s.Leave(h).To(i, DeqTail(h)); LogOk(r) && HoldersOk(r)
  {
    assert PcOk(s, i);
  }

  /** A dequeuer leaves its slot without writing to it: the slot already excludes its ticket. */
  lemma KeepLeave(s: Ring, i: nat, h: nat)
    requires Inv(s) && i < |s.pcs| && InLoop(s.pcs[i], h) && Excludes(s, h)
    ensures Kept(s, s.Leave(h).To(i, DeqTail(h)), i)
  {
    assert PcOk(s, i);
    LeaveSlots(s, i, h);
    LeaveLog(s, i, h);
    Assemble(s, s.Leave(h).To(i, DeqTail(h)), i);
  }

  lemma KeepDeqLoad(s: Ring, i: nat, h: nat, attempt: nat)
    requires Inv(s) && i < |s.pcs| && s.pcs[i] == DeqLoad(h, attempt)
    ensures Kept(s, StepDeqLoad(s, i, h, attempt), i)
  {
    var e, c := s.At(h), Cycle(h, s.N());
    var r := StepDeqLoad(s, i, h, attempt);
    assert PcOk(s, i);
    if r.pcs[i] == DeqTail(h) {
      KeepLeave(s, i, h);
    } else {
      if e.cycle == c {
        TicketOfPos(h, s.N());
        assert SlotOk(s, Pos(h, s.N()));
      }
      Local(s, r, i);
    }
  }

  // ---------------------------------------------------------------- steps that write a slot

  /** The heart of the argument: when the compare-exchange of an enqueuer succeeds, the
      dequeuer of its ticket has not left the slot behind. */
  lemma NotLeftBehind(s: Ring, i: nat, x: nat, t: nat, e: Slot)
    requires Inv(s) && i < |s.pcs| && s.pcs[i] == EnqCas(x, t, e) && s.At(t) == e
    ensures forall u :: u in s.log.left && Pos(u, s.N()) == Pos(t, s.N()) ==> u < t
  {
    assert PcOk(s, i);
    forall u | u in s.log.left && Pos(u, s.N()) == Pos(t, s.N()) ensures u < t {
      if u >= t {
        assert Closed(s, u);
        CycleOrder(t, u, s.N());
      }
    }
  }

  lemma InsertLog(s: Ring, i: nat, x: nat, t: nat, e: Slot)
    requires Inv(s) && i < |s.pcs| && s.pcs[i] == EnqCas(x, t, e) && s.At(t) == e
    ensures LogOk(StepEnqCas(s, i, false, x, t, e))
  {
    var r := StepEnqCas(s, i, false, x, t, e);
    assert PcOk(s, i);
    NotLeftBehind(s, i, x, t, e);
    LogStays(s, r, t);
    forall u | u in r.log.left ensures u < r.head && Closed(r, u) {
      if Pos(u, s.N()) == Pos(t, s.N()) { CycleOrder(u, t, s.N()); }
    }
    forall v | v in r.log.inserted && v !in r.log.taken ensures LiveAt(r, v, r.log.inserted[v]) {
      assert v == t || LiveAt(s, v, s.log.inserted[v]);
    }
  }

  lemma InsertSlots(s: Ring, i: nat, x: nat, t: nat, e: Slot)
    requires Inv(s) && i < |s.pcs| && s.pcs[i] == EnqCas(x, t, e) && s.At(t) == e
    ensures SlotsOk(StepEnqCas(s, i, false, x, t, e))
  {
    assert PcOk(s, i);
    NotLeftBehind(s, i, x, t, e);
    TicketOfPos(t, s.N());
    OtherSlots(s, StepEnqCas(s, i, false, x, t, e), t);
  }

  lemma KeepInsert(s: Ring, i: nat, x: nat, t: nat, e: Slot)
    requires Inv(s) && i < |s.pcs| && s.pcs[i] == EnqCas(x, t, e) && s.At(t) == e
    ensures Kept(s, StepEnqCas(s, i, false, x, t, e), i)
  {
    assert PcOk(s, i);
    InsertLog(s, i, x, t, e);
    InsertSlots(s, i, x, t, e);
    Assemble(s, StepEnqCas(s, i, false, x, t, e), i);
  }

  lemma KeepEnqCas(s: Ring, i: nat, weak: bool, x: nat, t: nat, e: Slot)
    requires Inv(s) && i < |s.pcs| && s.pcs[i] == EnqCas(x, t, e)
    ensures Kept(s, StepEnqCas(s, i, weak, x, t, e), i)
  {
    assert PcOk(s, i);
    if weak || s.At(t) != e {
      Local(s, StepEnqCas(s, i, weak, x, t, e), i);
    } else {
      KeepInsert(s, i, x, t, e);
    }
  }

  lemma TakeLog(s: Ring, i: nat, h: nat, e: Slot)
    requires Inv(s) && i < |s.pcs| && s.pcs[i] == DeqTake(h, e)
    ensures LogOk(StepDeqTake(s, i, h, e))
  {
    var r := StepDeqTake(s, i, h, e);
    assert PcOk(s, i);
    assert LiveAt(s, h, s.log.inserted[h]);
    LogStays(s, r, h);
    forall v | v in r.log.inserted && v !in r.log.taken ensures LiveAt(r, v, r.log.inserted[v]) {
      SameSlotLive(s, v, h);
    }
  }

  lemma TakeSlots(s: Ring, i: nat, h: nat, e: Slot)
    requires Inv(s) && i < |s.pcs| && s.pcs[i] == DeqTake(h, e)
    ensures SlotsOk(StepDeqTake(s, i, h, e))
  {
    assert PcOk(s, i);
    assert LiveAt(s, h, s.log.inserted[h]);
    TicketOfPos(h, s.N());
    OtherSlots(s, StepDeqTake(s, i, h, e), h);
  }

  lemma KeepDeqTake(s: Ring, i: nat, h: nat, e: Slot)
    requires Inv(s) && i < |s.pcs| && s.pcs[i] == DeqTake(h, e)
    ensures Kept(s, StepDeqTake(s, i, h, e), i)
  {
    assert PcOk(s, i);
    assert LiveAt(s, h, s.log.inserted[h]);
    TakeLog(s, i, h, e);
    TakeSlots(s, i, h, e);
    Assemble(s, StepDeqTake(s, i, h, e), i);
  }

  /** Two entries in the ring have different slots. */
  lemma SameSlotLive(s: Ring, v: nat, h: nat)
    requires s.Wf() && LogOk(s)
    requires v in s.log.inserted && v !in s.log.taken && h in s.log.inserted && h !in s.log.taken
    ensures v != h ==> Pos(v, s.N()) != Pos(h, s.N())
  {
    assert LiveAt(s, v, s.log.inserted[v]) && LiveAt(s, h, s.log.inserted[h]);
    TicketOfPos(v, s.N());
    TicketOfPos(h, s.N());
  }

  lemma ChangeLog(s: Ring, i: nat, h: nat, attempt: nat, e: Slot, new': Slot)
    requires Inv(s) && i < |s.pcs| && s.pcs[i] == DeqCas(h, attempt, e, new') && s.At(h) == e
    ensures LogOk(StepDeqCas(s, i, false, h, attempt, e, new'))
  {
    var r := StepDeqCas(s, i, false, h, attempt, e, new');
    assert PcOk(s, i);
    LogStays(s, r, h);
    forall v | v in r.log.inserted && v !in r.log.taken ensures LiveAt(r, v, r.log.inserted[v]) {
      assert LiveAt(s, v, s.log.inserted[v]);
    }
  }

  lemma ChangeSlots(s: Ring, i: nat, h: nat, attempt: nat, e: Slot, new': Slot)
    requires Inv(s) && i < |s.pcs| && s.pcs[i] == DeqCas(h, attempt, e, new') && s.At(h) == e
    ensures SlotsOk(StepDeqCas(s, i, false, h, attempt, e, new'))
  {
    assert PcOk(s, i);
    TicketOfPos(h, s.N());
    assert SlotOk(s, Pos(h, s.N()));
    if e.entry.Some? { PosOfTicket(e.cycle, Pos(h, s.N()), s.N()); }
    OtherSlots(s, StepDeqCas(s, i, false, h, attempt, e, new'), h);
  }

  /** The slot a dequeuer marks or advances with a successful compare-exchange. */
  lemma KeepChange(s: Ring, i: nat, h: nat, attempt: nat, e: Slot, new': Slot)
    requires Inv(s) && i < |s.pcs| && s.pcs[i] == DeqCas(h, attempt, e, new') && s.At(h) == e
    ensures Kept(s, StepDeqCas(s, i, false, h, attempt, e, new'), i)
  {
    assert PcOk(s, i);
    ChangeLog(s, i, h, attempt, e, new');
    ChangeSlots(s, i, h, attempt, e, new');
    Assemble(s, StepDeqCas(s, i, false, h, attempt, e, new'), i);
  }

  lemma KeepDeqCas(s: Ring, i: nat, weak: bool, h: nat, attempt: nat, e: Slot, new': Slot)
    requires Inv(s) && i < |s.pcs| && s.pcs[i] == DeqCas(h, attempt, e, new')
    ensures Kept(s, StepDeqCas(s, i, weak, h, attempt, e, new'), i)
  {
    assert PcOk(s, i);
    if weak || s.At(h) != e {
      Local(s, StepDeqCas(s, i, weak, h, attempt, e, new'), i);
    } else {
      KeepChange(s, i, h, attempt, e, new');
    }
  }

  // ---------------------------------------------------------------- every action

  lemma KeepEnqueueStep(s: Ring, i: nat, weak: bool)
    requires Inv(s) && i < |s.pcs|
    requires s.pcs[i].EnqLoad? || s.pcs[i].EnqFinal? || s.pcs[i].EnqThreshold? || s.pcs[i].EnqStore?
    ensures Kept(s, StepThread(s, i, weak), i)
  {
    assert PcOk(s, i);
    Local(s, StepThread(s, i, weak), i);
  }

  lemma KeepDequeueStep(s: Ring, i: nat, weak: bool)
    requires Inv(s) && i < |s.pcs|
    requires s.pcs[i].DeqCheck? || s.pcs[i].DeqTail? || s.pcs[i].DeqEmpty? || s.pcs[i].DeqRound?
    ensures Kept(s, StepThread(s, i, weak), i)
  {
    assert PcOk(s, i);
    Local(s, StepThread(s, i, weak), i);
  }

  lemma KeepCatchStep(s: Ring, i: nat, weak: bool)
    requires Inv(s) && i < |s.pcs|
    requires s.pcs[i].CatchCas? || s.pcs[i].CatchHead? || s.pcs[i].CatchTail?
    ensures Kept(s, StepThread(s, i, weak), i)
  {
    assert PcOk(s, i);
    Local(s, StepThread(s, i, weak), i);
  }

  lemma KeepTicketStep(s: Ring, i: nat, weak: bool)
    requires Inv(s) && i < |s.pcs|
    requires s.pcs[i].EnqTicket? || s.pcs[i].EnqHead? || s.pcs[i].EnqCas? || s.pcs[i].DeqTicket?
    ensures Kept(s, StepThread(s, i, weak), i)
  {
    match s.pcs[i]
    case EnqTicket(x) => KeepEnqTicket(s, i, x);
    case EnqHead(x, t, e) => KeepEnqHead(s, i, x, t, e);
    case EnqCas(x, t, e) => KeepEnqCas(s, i, weak, x, t, e);
    case DeqTicket => KeepDeqTicket(s, i);
  }

  lemma KeepSlotStep(s: Ring, i: nat, weak: bool)
    requires Inv(s) && i < |s.pcs|
    requires s.pcs[i].DeqLoad? || s.pcs[i].DeqTake? || s.pcs[i].DeqCas?
    ensures Kept(s, StepThread(s, i, weak), i)
  {
    var r := StepThread(s, i, weak);
    var pc := s.pcs[i];
    if pc.DeqLoad? {
      assert r == StepDeqLoad(s, i, pc.h, pc.attempt);
      KeepDeqLoad(s, i, pc.h, pc.attempt);
    } else if pc.DeqTake? {
      assert r == StepDeqTake(s, i, pc.h, pc.e);
      KeepDeqTake(s, i, pc.h, pc.e);
    } else {
      assert r == StepDeqCas(s, i, weak, pc.h, pc.attempt, pc.e, pc.new');
      KeepDeqCas(s, i, weak, pc.h, pc.attempt, pc.e, pc.new');
    }
  }

  lemma KeepStep(s: Ring, i: nat, weak: bool)
    requires Inv(s) && i < |s.pcs|
    ensures Kept(s, StepThread(s, i, weak), i)
  {
    var pc := s.pcs[i];
    if pc.EnqTicket? || pc.EnqHead? || pc.EnqCas? || pc.DeqTicket? {
      KeepTicketStep(s, i, weak);
    } else if pc.DeqLoad? || pc.DeqTake? || pc.DeqCas? {
      KeepSlotStep(s, i, weak);
    } else if pc.EnqLoad? || pc.EnqFinal? || pc.EnqThreshold? || pc.EnqStore? {
      KeepEnqueueStep(s, i, weak);
    } else if pc.DeqCheck? || pc.DeqTail? || pc.DeqEmpty? || pc.DeqRound? {
      KeepDequeueStep(s, i, weak);
    } else if pc.CatchCas? || pc.CatchHead? || pc.CatchTail? {
      KeepCatchStep(s, i, weak);
    }
  }

  /** What no action ever undoes. */
  ghost predicate Forward(s: Ring, r: Ring)
    requires s.Wf()
  {
    && SameShape(s, r) && s.head <= r.head && s.tail <= r.tail && (s.finalized ==> r.finalized)
    && (forall j: nat :: j < s.N() ==> NotAfter(s.slots[j], r.slots[j]))
    && (forall t :: t in s.log.inserted ==> t in r.log.inserted && r.log.inserted[t] == s.log.inserted[t])
    && (forall h :: h in s.log.taken ==> h in r.log.taken && r.log.taken[h] == s.log.taken[h])
    && s.log.left <= r.log.left
    && (forall h :: h in s.log.left && h !in s.log.taken ==> h !in r.log.taken)
  }

  lemma KeepCall(s: Ring, a: Action)
    requires Inv(s) && (a.CallEnqueue? || a.CallDequeue? || a.Return?)
    ensures Inv(Apply(s, a)) && Forward(s, Apply(s, a))
  {
    if Apply(s, a) != s { Local(s, Apply(s, a), a.i); }
  }

  lemma KeepFinalize(s: Ring)
    requires Inv(s)
    ensures Inv(Apply(s, Finalize)) && Forward(s, Apply(s, Finalize))
  {
    var r := Apply(s, Finalize);
    forall i: nat | i < |r.pcs| ensures PcOk(r, i) { assert PcOk(s, i); }
    SlotsStay(s, r);
  }

  lemma KeepAction(s: Ring, a: Action)
    requires Inv(s)
    ensures Inv(Apply(s, a)) && Forward(s, Apply(s, a))
  {
    if a.Finalize? {
      KeepFinalize(s);
    } else if !a.Step? {
      KeepCall(s, a);
    } else if a.i < |s.pcs| {
      KeepStep(s, a.i, a.weak);
    }
  }

  lemma {:induction false} InvAlways(s: Ring, run: seq<Action>)
    requires Inv(s)
    ensures Inv(Exec(s, run))
    decreases run
  {
    if run != [] {
      KeepAction(s, run[0]);
      InvAlways(Apply(s, run[0]), run[1..]);
    }
  }

  /** The invariant as a closed box: a proof that only passes it on does not look inside. */
  ghost predicate Sound(s: Ring) {
    forall q: Ring :: q == s ==> Inv(q)
  }

  lemma Enclose(s: Ring)
    requires Inv(s)
    ensures Sound(s)
  {
  }

  lemma Disclose(s: Ring)
    requires Sound(s)
    ensures Inv(s)
  {
    assert s == s ==> Inv(s);
  }

  lemma SoundLive(s: Ring, t: nat)
    requires s.Wf() && Sound(s) && t in s.log.inserted && t !in s.log.taken
    ensures LiveAt(s, t, s.log.inserted[t])
  {
    Disclose(s);
  }

  /** Why an enqueue was refused. */
  lemma SoundError(s: Ring, i: nat)
    requires s.Wf() && Sound(s) && i < |s.pcs| && s.pcs[i].EnqErr?
    ensures if s.pcs[i].error.QueueFinalized? then s.finalized else s.pcs[i].x >= s.half
  {
    Disclose(s);
    assert PcOk(s, i);
  }
}
