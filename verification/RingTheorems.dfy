/** What the ring guarantees in every interleaving of any number of threads, from an empty
    or a full ring of any size. */
module RingTheorems {
  import opened Tickets
  import opened Ring
  import opened RingInvariant
  import opened Counting

  function Initial(full: bool, half: nat, finalizable: bool, threads: nat): Ring {
    if full then FullRing(half, finalizable, threads) else EmptyRing(half, finalizable, threads)
  }

  lemma InitialInv(full: bool, half: nat, finalizable: bool, threads: nat)
    requires half >= 1
    ensures Inv(Initial(full, half, finalizable, threads))
  {
    EmptyInv(half, finalizable, threads);
    FullInv(half, finalizable, threads);
  }

  /** States that some run reaches. */
  ghost predicate Reachable(s: Ring) {
    exists full, half, finalizable, threads, run: seq<Action> ::
      ReachedBy(s, full, half, finalizable, threads, run)
  }

  ghost predicate ReachedBy(s: Ring, full: bool, half: nat, finalizable: bool, threads: nat, run: seq<Action>) {
    half >= 1 && s == Exec(Initial(full, half, finalizable, threads), run)
  }

  lemma ReachableInv(s: Ring)
    requires Reachable(s)
    ensures Inv(s)
  {
    var full, half, finalizable, threads, run :| ReachedBy(s, full, half, finalizable, threads, run);
    InitialInv(full, half, finalizable, threads);
    InvAlways(Initial(full, half, finalizable, threads), run);
  }

  // ---------------------------------------------------------------- no orphans

  /** Every entry in the ring was inserted with the ticket of its slot and cycle, and either
      its ticket is still to be drawn or exactly one thread holds it, in its slot loop. */
  lemma NoOrphan(s: Ring, j: nat)
    requires s.Wf() && Reachable(s) && j < s.N() && s.slots[j].entry.Some?
    ensures s.slots[j].cycle >= 0
    ensures var t := Ticket(s.slots[j].cycle, j, s.N());
            && t in s.log.inserted && s.slots[j].entry == Some(s.log.inserted[t])
            && t < s.tail && t !in s.log.taken
            && (s.head <= t || exists i: nat :: i < |s.pcs| && InLoop(s.pcs[i], t))
            && (forall i: nat, k: nat ::
                  i < |s.pcs| && k < |s.pcs| && InLoop(s.pcs[i], t) && InLoop(s.pcs[k], t) ==> i == k)
  {
    ReachableInv(s);
    assert SlotOk(s, j);
    var t := Ticket(s.slots[j].cycle, j, s.N());
    forall i: nat, k: nat | i < |s.pcs| && k < |s.pcs| && InLoop(s.pcs[i], t) && InLoop(s.pcs[k], t)
      ensures i == k
    {
      UniqueHeadTicket(s, i, k, t);
    }
  }

  /** Conversely, an entry that was inserted and not taken is in the ring: none is lost. */
  lemma NothingLost(s: Ring, t: nat)
    requires Reachable(s) && t in s.log.inserted && t !in s.log.taken
    ensures s.Wf() && LiveAt(s, t, s.log.inserted[t])
  {
    ReachableInv(s);
  }

  lemma UniqueHeadTicket(s: Ring, i: nat, k: nat, h: nat)
    requires Inv(s) && i < |s.pcs| && k < |s.pcs|
    requires InFlight(s.pcs[i], h) && InFlight(s.pcs[k], h)
    ensures i == k
  {
    assert PcOk(s, i) && PcOk(s, k);
  }

  lemma UniqueTailTicket(s: Ring, i: nat, k: nat, t: nat)
    requires Reachable(s) && i < |s.pcs| && k < |s.pcs|
    requires Enqueuing(s.pcs[i], t) && Enqueuing(s.pcs[k], t)
    ensures i == k && t !in s.log.inserted
  {
    ReachableInv(s);
    assert PcOk(s, i) && PcOk(s, k);
  }

  /** A ticket that its dequeuer gave up on stays closed: nothing is ever inserted with it. */
  lemma {:induction false} GivenUpForever(s: Ring, h: nat, more: seq<Action>)
    requires Inv(s) && h in s.log.left && h !in s.log.taken
    ensures h !in s.log.inserted && h !in Exec(s, more).log.inserted
    decreases more
  {
    TicketOfPos(h, s.N());
    assert SlotOk(s, Pos(h, s.N()));
    assert h in s.log.inserted ==> LiveAt(s, h, s.log.inserted[h]);
    if more != [] {
      KeepAction(s, more[0]);
      GivenUpForever(Apply(s, more[0]), h, more[1..]);
    }
  }

  // ---------------------------------------------------------------- ticket matching

  /** A dequeuer returns exactly the index inserted with its own ticket, never ⊥. */
  lemma TicketMatching(s: Ring, i: nat, h: nat, x: nat)
    requires Reachable(s) && i < |s.pcs| && s.pcs[i] == DeqSome(h, x)
    ensures h in s.log.inserted && s.log.inserted[h] == x && x < s.half && h < s.head
  {
    ReachableInv(s);
    assert PcOk(s, i);
  }

  /** Between the load that matched and the fetch_or, the slot may at most lose its safe bit;
      so the entry consumed is the one read, and it has not been consumed before. */
  lemma MatchedSlotWaits(s: Ring, i: nat, h: nat, e: Slot)
    requires Reachable(s) && i < |s.pcs| && s.pcs[i] == DeqTake(h, e)
    ensures s.Wf() && (s.At(h) == e || s.At(h) == e.(safe := false))
    ensures h in s.log.inserted && e.entry == Some(s.log.inserted[h]) && h !in s.log.taken
    ensures StepThread(s, i, false).pcs[i] == DeqSome(h, s.log.inserted[h])
    ensures StepThread(s, i, false).At(h) == s.At(h).(entry := None)
  {
    ReachableInv(s);
    assert PcOk(s, i);
    assert LiveAt(s, h, s.log.inserted[h]);
  }

  /** What was taken with a ticket is never changed: no ticket is consumed twice. */
  lemma {:induction false} TakenOnce(s: Ring, more: seq<Action>, h: nat)
    requires Inv(s) && h in s.log.taken
    ensures h in Exec(s, more).log.taken && Exec(s, more).log.taken[h] == s.log.taken[h]
    decreases more
  {
    if more != [] {
      KeepAction(s, more[0]);
      TakenOnce(Apply(s, more[0]), more[1..], h);
    }
  }

  // ---------------------------------------------------------------- the ABA problem

  lemma Transitive(a: Slot, b: Slot, c: Slot)
    requires NotAfter(a, b) && NotAfter(b, c)
    ensures NotAfter(a, c) && (a == c ==> b == c)
  {
  }

  lemma {:induction false} SlotForwardRun(s: Ring, run: seq<Action>, j: nat)
    requires Inv(s) && j < s.N()
    ensures NotAfter(s.slots[j], Exec(s, run).slots[j])
    decreases run
  {
    if run != [] {
      var r := Apply(s, run[0]);
      KeepAction(s, run[0]);
      SlotForwardRun(r, run[1..], j);
      Transitive(s.slots[j], r.slots[j], Exec(s, run).slots[j]);
    }
  }

  /** A slot that holds the same record at two moments held it at every moment between: a
      compare-exchange that succeeds proves the slot untouched since it was loaded. */
  lemma NoAba(s: Ring, first: seq<Action>, second: seq<Action>, j: nat)
    requires Reachable(s) && s.Wf() && j < s.N()
    requires Exec(s, first + second).slots[j] == s.slots[j]
    ensures Exec(s, first).slots[j] == s.slots[j]
  {
    ReachableInv(s);
    InvAlways(s, first);
    ExecAppend(s, first, second);
    SlotForwardRun(s, first, j);
    SlotForwardRun(Exec(s, first), second, j);
    Transitive(s.slots[j], Exec(s, first).slots[j], Exec(s, first + second).slots[j]);
  }

  // ---------------------------------------------------------------- what happens to a slot

  /** An enqueuer writes its entry over an empty slot of an earlier cycle. */
  ghost predicate Fills(s: Ring, r: Ring, pc: Pc)
    requires s.Wf()
  {
    && pc.EnqCas? && s.At(pc.t).entry.None? && s.At(pc.t).cycle < Cycle(pc.t, s.N())
    && r.slots == s.slots[Pos(pc.t, s.N()) := Slot(Cycle(pc.t, s.N()), true, Some(pc.x))]
  }

  /** A dequeuer empties a slot that holds the entry of its ticket. */
  ghost predicate Empties(s: Ring, r: Ring, pc: Pc)
    requires s.Wf()
  {
    && pc.DeqTake? && s.At(pc.h).entry.Some? && s.At(pc.h).cycle == Cycle(pc.h, s.N())
    && r.slots == s.slots[Pos(pc.h, s.N()) := s.At(pc.h).(entry := None)]
  }

  /** A dequeuer marks a safe slot with an entry of an earlier cycle. */
  ghost predicate Marks(s: Ring, r: Ring, pc: Pc)
    requires s.Wf()
  {
    && pc.DeqCas? && s.At(pc.h).entry.Some? && s.At(pc.h).safe && s.At(pc.h).cycle < Cycle(pc.h, s.N())
    && r.slots == s.slots[Pos(pc.h, s.N()) := s.At(pc.h).(safe := false)]
  }

  /** A dequeuer advances an empty slot of an earlier cycle to its own, and keeps the safe bit. */
  ghost predicate Advances(s: Ring, r: Ring, pc: Pc)
    requires s.Wf()
  {
    && pc.DeqCas? && s.At(pc.h).entry.None? && s.At(pc.h).cycle < Cycle(pc.h, s.N())
    && r.slots == s.slots[Pos(pc.h, s.N()) := Slot(Cycle(pc.h, s.N()), s.At(pc.h).safe, None)]
  }

  lemma OtherStepsKeepSlots(s: Ring, i: nat, weak: bool)
    requires s.Wf() && i < |s.pcs| && !s.pcs[i].EnqCas? && !s.pcs[i].DeqTake? && !s.pcs[i].DeqCas?
    ensures StepThread(s, i, weak).slots == s.slots
  {
    var pc := s.pcs[i];
    if pc.DeqLoad? { assert StepThread(s, i, weak) == StepDeqLoad(s, i, pc.h, pc.attempt); }
  }

  lemma DeqCasChanges(s: Ring, i: nat, weak: bool)
    requires s.Wf() && i < |s.pcs| && s.pcs[i].DeqCas? && PcOk(s, i)
    ensures var pc, r := s.pcs[i], StepThread(s, i, weak);
            if weak || s.At(pc.h) != pc.e then r.slots == s.slots else Marks(s, r, pc) || Advances(s, r, pc)
  {
    var pc := s.pcs[i];
    assert StepThread(s, i, weak) == StepDeqCas(s, i, weak, pc.h, pc.attempt, pc.e, pc.new');
  }

  /** In every reachable state, a step leaves all slots as they are or changes one of them in one of four ways. */
  lemma SlotsChange(s: Ring, i: nat, weak: bool)
    requires Reachable(s) && s.Wf() && i < |s.pcs|
    ensures var pc, r := s.pcs[i], StepThread(s, i, weak);
            r.slots == s.slots || Fills(s, r, pc) || Empties(s, r, pc) || Marks(s, r, pc) || Advances(s, r, pc)
  {
    ReachableInv(s);
    assert PcOk(s, i);
    var pc := s.pcs[i];
    if pc.EnqCas? {
      assert StepThread(s, i, weak) == StepEnqCas(s, i, weak, pc.x, pc.t, pc.e);
    } else if pc.DeqTake? {
      assert StepThread(s, i, weak) == StepDeqTake(s, i, pc.h, pc.e);
      assert LiveAt(s, pc.h, s.log.inserted[pc.h]);
    } else if pc.DeqCas? {
      DeqCasChanges(s, i, weak);
    } else {
      OtherStepsKeepSlots(s, i, weak);
    }
  }

  /** A weak compare-exchange may fail for no reason.  Then nothing has changed, and the thread loads again
      what it compared: the slot of its ticket, or head and tail. */
  lemma SpuriousFailure(s: Ring, i: nat)
    requires s.Wf() && i < |s.pcs| && (s.pcs[i].EnqCas? || s.pcs[i].DeqCas? || s.pcs[i].CatchCas?)
    ensures var pc, r := s.pcs[i], StepThread(s, i, true);
            && r == s.To(i, r.pcs[i])
            && (pc.EnqCas? ==> r.pcs[i] == EnqLoad(pc.x, pc.t))
            && (pc.DeqCas? ==> r.pcs[i] == DeqLoad(pc.h, pc.attempt))
            && (pc.CatchCas? ==> r.pcs[i] == CatchHead(pc.h))
  {
    var pc := s.pcs[i];
    if pc.DeqCas? { assert StepThread(s, i, true) == StepDeqCas(s, i, true, pc.h, pc.attempt, pc.e, pc.new'); }
  }

  // ---------------------------------------------------------------- control flow

  /** Where a step can lead: into the empty path only through the tail test, and to a tail
      ticket only through the fetch_add. */
  ghost predicate Flow(s: Ring, a: Pc, b: Pc) {
    && (forall h: nat :: WillReturnNone(b, h) ==> WillReturnNone(a, h) || (a == DeqTail(h) && s.tail <= h + 1))
    && (forall t: nat :: HasTicket(b, t) ==> HasTicket(a, t) || t == s.tail)
  }

  lemma EdgeSlot(s: Ring, i: nat, weak: bool)
    requires s.Wf() && i < |s.pcs|
    requires s.pcs[i].DeqLoad? || s.pcs[i].DeqTake? || s.pcs[i].DeqCas?
    ensures StepThread(s, i, weak).pcs[i].DeqLoad? || StepThread(s, i, weak).pcs[i].DeqTake?
         || StepThread(s, i, weak).pcs[i].DeqCas? || StepThread(s, i, weak).pcs[i].DeqTail?
         || StepThread(s, i, weak).pcs[i].DeqSome?
  {
    var pc := s.pcs[i];
    if pc.DeqLoad? {
      assert StepThread(s, i, weak) == StepDeqLoad(s, i, pc.h, pc.attempt);
    } else if pc.DeqTake? {
      assert StepThread(s, i, weak) == StepDeqTake(s, i, pc.h, pc.e);
    } else {
      assert StepThread(s, i, weak) == StepDeqCas(s, i, weak, pc.h, pc.attempt, pc.e, pc.new');
    }
  }

  lemma Edge(s: Ring, i: nat, weak: bool)
    requires s.Wf() && i < |s.pcs|
    ensures Flow(s, s.pcs[i], StepThread(s, i, weak).pcs[i])
  {
    var r := StepThread(s, i, weak);
    if s.pcs[i].DeqLoad? || s.pcs[i].DeqTake? || s.pcs[i].DeqCas? {
      EdgeSlot(s, i, weak);
    } else if s.pcs[i].EnqCas? {
      assert r == StepEnqCas(s, i, weak, s.pcs[i].x, s.pcs[i].t, s.pcs[i].e);
    }
  }

  // ---------------------------------------------------------------- the meaning of "empty"

  /** Thread i, holding head ticket h, is about to load a tail that says "empty"; every entry
      in the ring already belongs to another thread that holds its ticket. */
  ghost predicate SeesEmpty(s: Ring, i: nat, h: nat) {
    && s.Wf() && i < |s.pcs| && s.pcs[i] == DeqTail(h) && s.tail <= h + 1
    && (forall j: nat :: j < s.N() && s.slots[j].entry.Some? ==> Claimed(s, i, j))
  }

  /** The entry of slot j is about to be consumed by a thread other than i. */
  ghost predicate Claimed(s: Ring, i: nat, j: nat)
    requires s.Wf() && j < s.N()
  {
    && s.slots[j].cycle >= 0
    && exists k: nat :: k < |s.pcs| && k != i && InLoop(s.pcs[k], Ticket(s.slots[j].cycle, j, s.N()))
  }

  lemma EmptyAtTailLoad(s: Ring, i: nat, h: nat)
    requires Inv(s) && i < |s.pcs| && s.pcs[i] == DeqTail(h) && s.tail <= h + 1
    ensures SeesEmpty(s, i, h)
  {
    assert PcOk(s, i);
    forall j: nat | j < s.N() && s.slots[j].entry.Some? ensures Claimed(s, i, j) {
      assert SlotOk(s, j);
      var t := Ticket(s.slots[j].cycle, j, s.N());
      assert t < s.head && InLoop(s.pcs[s.log.deqBy[t]], t);
    }
  }

  /** The tail test failed and None will be returned, after the catch-up. */
  predicate WillReturnNone(pc: Pc, h: nat) {
    (pc.CatchCas? || pc.CatchHead? || pc.CatchTail? || pc.DeqEmpty?) && pc.h == h
  }

  lemma WillReturnNoneStep(s: Ring, a: Action, i: nat, h: nat)
    requires Inv(s) && i < |s.pcs| && WillReturnNone(Apply(s, a).pcs[i], h) && !WillReturnNone(s.pcs[i], h)
    ensures s.pcs[i] == DeqTail(h) && s.tail <= h + 1
  {
    if a.Step? && a.i == i { Edge(s, i, a.weak); }
  }

  /** In every run, whoever returns None through the tail test was entitled to: at an earlier
      moment of the same call, nothing in the ring was left for it. */
  lemma {:induction false} EmptyMeansEmpty(s0: Ring, run: seq<Action>, i: nat, h: nat)
    requires Inv(s0) && i < |s0.pcs| && s0.pcs[i].Idle?
    requires WillReturnNone(Exec(s0, run).pcs[i], h)
    ensures exists k: nat :: k < |run| && SeesEmpty(Exec(s0, run[..k]), i, h)
    decreases |run|
  {
    if run != [] {
      var last := |run| - 1;
      var s := Exec(s0, run[..last]);
      assert run == run[..last] + [run[last]];
      ExecAppend(s0, run[..last], [run[last]]);
      assert Exec(s, [run[last]]) == Apply(s, run[last]);
      InvAlways(s0, run[..last]);
      if WillReturnNone(s.pcs[i], h) {
        EmptyMeansEmpty(s0, run[..last], i, h);
        var k: nat :| k < last && SeesEmpty(Exec(s0, run[..last][..k]), i, h);
        assert run[..last][..k] == run[..k];
      } else {
        WillReturnNoneStep(s, run[last], i, h);
        EmptyAtTailLoad(s, i, h);
        assert SeesEmpty(Exec(s0, run[..last]), i, h);
      }
    }
  }

  // ---------------------------------------------------------------- head, tail and catch-up

  lemma {:induction false} CountersGrow(s: Ring, run: seq<Action>)
    requires Inv(s)
    ensures s.head <= Exec(s, run).head && s.tail <= Exec(s, run).tail
    ensures forall t :: t in s.log.inserted ==> t in Exec(s, run).log.inserted
    decreases run
  {
    if run != [] {
      KeepAction(s, run[0]);
      CountersGrow(Apply(s, run[0]), run[1..]);
    }
  }

  predicate IsInFlight(pc: Pc) {
    pc.DeqLoad? || pc.DeqTake? || pc.DeqCas? || pc.DeqTail? || pc.CatchCas? || pc.CatchHead?
    || pc.CatchTail? || pc.DeqEmpty? || pc.DeqRound?
  }

  ghost predicate HeldInFlight(s: Ring, h: nat) {
    exists i: nat :: i < |s.pcs| && InFlight(s.pcs[i], h)
  }

  function FlightFlags(s: Ring): seq<bool> {
    seq(|s.pcs|, i requires 0 <= i < |s.pcs| => IsInFlight(s.pcs[i]))
  }

  /** Every ticket that head is ahead of tail is held by a thread of its own, still in flight. */
  lemma CatchUpBound(s: Ring)
    requires Reachable(s)
    ensures forall h: nat :: s.tail <= h < s.head ==> HeldInFlight(s, h)
    ensures s.head <= s.tail + Trues(FlightFlags(s))
    ensures (forall i: nat :: i < |s.pcs| ==> !IsInFlight(s.pcs[i])) ==> s.head <= s.tail
  {
    ReachableInv(s);
    forall h: nat | s.tail <= h < s.head ensures HeldInFlight(s, h) {
      assert InFlight(s.pcs[s.log.deqBy[h]], h);
    }
    if s.tail < s.head {
      Pigeons(FlightFlags(s), s.log.deqBy[s.tail..]);
    }
    TruesBound(FlightFlags(s));
  }

  // ---------------------------------------------------------------- first in, first out

  /** The tail ticket of the enqueue that the thread is in, from the fetch_add to its return. */
  predicate HasTicket(pc: Pc, t: nat) {
    Enqueuing(pc, t) || ((pc.EnqThreshold? || pc.EnqStore? || pc.EnqOk?) && pc.t == t)
  }

  lemma LaterTicketStep(s: Ring, a: Action, j: nat, t: nat)
    requires Inv(s) && j < |s.pcs| && t <= s.tail
    requires forall u: nat :: HasTicket(s.pcs[j], u) ==> u >= t
    ensures forall u: nat :: HasTicket(Apply(s, a).pcs[j], u) ==> u >= t
  {
    if a.Step? && a.i == j { Edge(s, j, a.weak); }
  }

  lemma {:induction false} LaterTicket(s: Ring, run: seq<Action>, j: nat, t: nat)
    requires Inv(s) && j < |s.pcs| && forall u: nat :: HasTicket(s.pcs[j], u) ==> u >= t
    requires t <= s.tail
    ensures forall u: nat :: HasTicket(Exec(s, run).pcs[j], u) ==> u >= t
    decreases run
  {
    if run != [] {
      LaterTicketStep(s, run[0], j, t);
      KeepAction(s, run[0]);
      LaterTicket(Apply(s, run[0]), run[1..], j, t);
    }
  }

  /** Real-time order.  An entry was inserted with ticket ta while thread j had not begun its
      next call; j then enqueues with ticket tb.  Whenever the second entry has been taken, the
      ticket of the first has been drawn, and the first has been taken or its dequeuer is at work. */
  lemma RealTimeFifo(s: Ring, mid: seq<Action>, rest: seq<Action>, j: nat, ta: nat, tb: nat)
    requires Reachable(s) && s.Wf() && ta in s.log.inserted && j < |s.pcs| && s.pcs[j].Idle?
    requires HasTicket(Exec(s, mid).pcs[j], tb)
    ensures ta < tb
    ensures var z := Exec(Exec(s, mid), rest);
            tb in z.log.taken ==>
              && ta < tb < z.head
              && (ta in z.log.taken || exists k: nat :: k < |z.pcs| && InLoop(z.pcs[k], ta))
  {
    ReachableInv(s);
    LaterTicket(s, mid, j, s.tail);
    InvAlways(s, mid);
    CountersGrow(s, mid);
    var z := Exec(Exec(s, mid), rest);
    InvAlways(Exec(s, mid), rest);
    CountersGrow(Exec(s, mid), rest);
    if tb in z.log.taken && ta !in z.log.taken {
      assert LiveAt(z, ta, z.log.inserted[ta]);
      TicketOfPos(ta, z.N());
      assert SlotOk(z, Pos(ta, z.N()));
      assert InLoop(z.pcs[z.log.deqBy[ta]], ta);
    }
  }

  // ---------------------------------------------------------------- the threshold

  /** The thread passed the threshold test and may still decrement the threshold. */
  predicate InRound(pc: Pc) { pc.DeqTicket? || IsInFlight(pc) }

  function RoundFlags(s: Ring): seq<bool> {
    seq(|s.pcs|, i requires 0 <= i < |s.pcs| => InRound(s.pcs[i]))
  }

  ghost predicate ThresholdOk(s: Ring) {
    s.Wf() && Trues(RoundFlags(s)) - |s.pcs| <= s.threshold <= Threshold3(s.half)
  }

  /** What a step of thread i may do to the threshold. */
  ghost predicate ThresholdOkStep(s: Ring, r: Ring, i: nat)
    requires i < |s.pcs| && i < |r.pcs|
  {
    && r.threshold <= Threshold3(s.half)
    && (r.threshold == s.threshold - 1 || r.threshold == s.threshold || r.threshold >= 0)
    && (r.threshold == s.threshold - 1 ==> InRound(s.pcs[i]) && (InRound(r.pcs[i]) ==> r.threshold >= 0))
    && (InRound(r.pcs[i]) && !InRound(s.pcs[i]) ==> r.threshold >= 0)
  }

  lemma ThresholdOfLoad(s: Ring, i: nat, weak: bool)
    requires s.Wf() && i < |s.pcs| && s.threshold <= Threshold3(s.half) && s.pcs[i].DeqLoad?
    ensures ThresholdOkStep(s, StepThread(s, i, weak), i)
  {
    assert StepThread(s, i, weak) == StepDeqLoad(s, i, s.pcs[i].h, s.pcs[i].attempt);
  }

  predicate InEnqueue(pc: Pc) {
    pc.EnqTicket? || pc.EnqLoad? || pc.EnqHead? || pc.EnqFinal? || pc.EnqCas? || pc.EnqThreshold? || pc.EnqStore?
  }

  lemma ThresholdOfEnqueue(s: Ring, i: nat, weak: bool)
    requires s.Wf() && i < |s.pcs| && s.threshold <= Threshold3(s.half)
    requires InEnqueue(s.pcs[i])
    ensures ThresholdOkStep(s, StepThread(s, i, weak), i)
  {
  }

  lemma ThresholdOfStep(s: Ring, i: nat, weak: bool)
    requires s.Wf() && i < |s.pcs| && s.threshold <= Threshold3(s.half)
    ensures ThresholdOkStep(s, StepThread(s, i, weak), i)
  {
    var pc := s.pcs[i];
    if pc.DeqLoad? {
      ThresholdOfLoad(s, i, weak);
    } else if InEnqueue(pc) {
      ThresholdOfEnqueue(s, i, weak);
    } else {
      ThresholdOfDequeue(s, i, weak);
    }
  }

  lemma ThresholdOfDequeue(s: Ring, i: nat, weak: bool)
    requires s.Wf() && i < |s.pcs| && s.threshold <= Threshold3(s.half) && !s.pcs[i].DeqLoad?
    requires !InEnqueue(s.pcs[i])
    ensures ThresholdOkStep(s, StepThread(s, i, weak), i)
  {
  }

  /** One thread has moved, and changed the threshold as a step may. */
  lemma ThresholdMove(s: Ring, r: Ring, i: nat)
    requires ThresholdOk(s) && r.Wf() && OnlyThread(s, r, i) && ThresholdOkStep(s, r, i)
    ensures ThresholdOk(r)
  {
    TruesUpdate(RoundFlags(s), i, InRound(r.pcs[i]));
    assert RoundFlags(r) == RoundFlags(s)[i := InRound(r.pcs[i])];
    TruesBound(RoundFlags(r));
  }

  lemma ThresholdStep(s: Ring, a: Action)
    requires ThresholdOk(s)
    ensures ThresholdOk(Apply(s, a))
  {
    var r := Apply(s, a);
    if a.Finalize? || a.i >= |s.pcs| {
      assert RoundFlags(r) == RoundFlags(s);
    } else if a.Step? {
      ThresholdOfStep(s, a.i, a.weak);
      ThresholdMove(s, r, a.i);
    } else if r != s {
      ThresholdMove(s, r, a.i);
    }
  }

  lemma {:induction false} ThresholdRun(s: Ring, run: seq<Action>)
    requires ThresholdOk(s)
    ensures ThresholdOk(Exec(s, run))
    decreases run
  {
    if run != [] {
      ThresholdStep(s, run[0]);
      ThresholdRun(Apply(s, run[0]), run[1..]);
    }
  }

  /** With k threads, at least one, the threshold stays between (dequeuers in a round) - k and
      3 * capacity - 1. */
  lemma ThresholdBounds(full: bool, half: nat, finalizable: bool, threads: nat, run: seq<Action>)
    requires half >= 1 && threads >= 1
    ensures var s := Exec(Initial(full, half, finalizable, threads), run);
            Trues(RoundFlags(s)) - threads <= s.threshold <= 3 * half - 1
  {
    var s := Initial(full, half, finalizable, threads);
    TruesBound(RoundFlags(s));
    ThresholdRun(s, run);
  }
}
