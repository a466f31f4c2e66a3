/** Progress.  A thread that is anywhere in an operation, while all others are stopped anywhere in theirs, and
    that now runs alone: it returns, and what it answers is determined by the state. */
module RingProgress {
  import opened Tickets
  import opened Ring
  import opened RingInvariant
  import opened RingTheorems
  import opened RingSolo

  // ---------------------------------------------------------------- a dequeue, from anywhere

  predicate InDequeue(pc: Pc) { pc.DeqCheck? || pc.DeqTicket? || IsInFlight(pc) }

  /** What a dequeuer answers that draws one ticket in any case, and `budget` more if they are in vain. */
  function AnswerWithin(s: Ring, budget: int): Pc {
    match FirstEntry(s.log.inserted, s.log.taken, s.head, s.tail)
    case None => DeqNone
    case Some(t) => if t - s.head <= budget then DeqSome(t, s.log.inserted[t]) else DeqNone
  }

  /** What it answers after a round in vain, which costs the threshold one. */
  function AfterVain(s: Ring, empty: bool): Pc {
    if empty || s.threshold <= 0 then DeqNone else AnswerWithin(s, s.threshold - 1)
  }

  /** What it answers when it holds head ticket h and looks at its slot. */
  function AfterLook(s: Ring, h: nat): Pc {
    if h in s.log.inserted && h !in s.log.taken then DeqSome(h, s.log.inserted[h])
    else AfterVain(s, s.tail <= h + 1)
  }

  /** The answer of a dequeuer that stands at pc, from where it stands. */
  function Resume(s: Ring, pc: Pc): Pc {
    match pc
    case DeqCheck => Answer(s)
    case DeqTicket => AnswerWithin(s, if s.threshold < 0 then 0 else s.threshold)
    case DeqLoad(h, _) => AfterLook(s, h)
    case DeqTake(h, _) => AfterLook(s, h)
    case DeqCas(h, _, _, _) => AfterLook(s, h)
    case DeqTail(h) => AfterVain(s, s.tail <= h + 1)
    case DeqRound(_) => AfterVain(s, false)
    case DeqSome(_, _) => pc
    case _ => DeqNone
  }

  lemma FirstAtHead(s: Ring)
    requires s.Wf() && Sound(s)
    ensures s.At(s.head).cycle == Cycle(s.head, s.N())
       <==> FirstEntry(s.log.inserted, s.log.taken, s.head, s.tail) == Some(s.head)
    ensures s.At(s.head).cycle == Cycle(s.head, s.N()) ==>
              s.head in s.log.inserted && IndexBits(s, s.At(s.head)) == s.log.inserted[s.head]
  {
    Disclose(s);
    HeadSlot(s);
  }

  /** With the threshold used up, one round is left. */
  lemma LastRound(s: Ring, i: nat) returns (k: nat)
    requires s.Wf() && Sound(s) && i < |s.pcs| && s.pcs[i] == DeqTicket && s.threshold < 0
    ensures Solo(s, i, k).pcs[i] == AnswerWithin(s, 0)
  {
    FirstAtHead(s);
    k := OneRound(s, i);
  }

  lemma FromTicketOn(s: Ring, i: nat) returns (k: nat)
    requires s.Wf() && Sound(s) && i < |s.pcs| && s.pcs[i] == DeqTicket
    ensures Solo(s, i, k).pcs[i] == Resume(s, DeqTicket)
  {
    if s.threshold < 0 { k := LastRound(s, i); } else { k := AnswerFromTicket(s, i); }
  }

  lemma NextRound(s: Ring, s1: Ring, i: nat, h: nat)
    requires InVain(s, s1, i, h) && s1.pcs[i].DeqTicket?
    ensures Resume(s1, DeqTicket) == AfterVain(s, s.tail <= h + 1)
  {
  }

  /** After a round in vain. */
  lemma FromVain(s: Ring, i: nat, h: nat, k1: nat) returns (k: nat)
    requires s.Wf() && Sound(s) && i < |s.pcs| && InVain(s, Solo(s, i, k1), i, h)
    ensures Solo(s, i, k).pcs[i] == AfterVain(s, s.tail <= h + 1)
  {
    k := k1;
    var s1 := Solo(s, i, k1);
    if s1.pcs[i].DeqTicket? {
      SoloSound(s, i, k1);
      NextRound(s, s1, i, h);
      var k2 := FromTicketOn(s1, i);
      SoloAppend(s, i, k1, k2);
      k := k1 + k2;
    }
  }

  lemma FromTailOn(s: Ring, i: nat, h: nat) returns (k: nat)
    requires s.Wf() && Sound(s) && i < |s.pcs| && s.pcs[i] == DeqTail(h)
    ensures Solo(s, i, k).pcs[i] == AfterVain(s, s.tail <= h + 1)
  {
    var k1 := FromDeqTail(s, i, h);
    k := FromVain(s, i, h, k1);
  }

  lemma FromRoundOn(s: Ring, i: nat, h: nat) returns (k: nat)
    requires s.Wf() && Sound(s) && i < |s.pcs| && s.pcs[i] == DeqRound(h)
    ensures Solo(s, i, k).pcs[i] == AfterVain(s, false)
  {
    var s1 := StepDeqRound(s, i);
    k := 0;
    if s1.pcs[i].DeqTicket? {
      StepSound(s, i);
      k := FromTicketOn(s1, i);
    }
    k := k + 1;
    StepOnce(s, s1, i, k);
  }

  /** The slot of a ticket that a thread holds in its loop is of the ticket's cycle if and only if its entry
      is there. */
  lemma LoopSlot(s: Ring, i: nat, h: nat)
    requires s.Wf() && Sound(s) && i < |s.pcs| && InLoop(s.pcs[i], h)
    ensures s.At(h).cycle == Cycle(h, s.N()) <==> h in s.log.inserted && h !in s.log.taken
    ensures s.At(h).cycle == Cycle(h, s.N()) ==> IndexBits(s, s.At(h)) == s.log.inserted[h]
  {
    Disclose(s);
    assert PcOk(s, i);
    TicketOfPos(h, s.N());
    assert SlotOk(s, Pos(h, s.N()));
    if h in s.log.inserted && h !in s.log.taken { assert LiveAt(s, h, s.log.inserted[h]); }
  }

  /** From a look at the slot. */
  lemma FromLoadOn(s: Ring, i: nat, h: nat, attempt: nat) returns (k: nat)
    requires s.Wf() && Sound(s) && i < |s.pcs| && s.pcs[i] == DeqLoad(h, attempt)
    ensures Solo(s, i, k).pcs[i] == AfterLook(s, h)
  {
    LoopSlot(s, i, h);
    var k1 := FromDeqLoad(s, i, h, attempt);
    k := FromSlotDone(s, i, h, k1);
  }

  lemma FromSlotDone(s: Ring, i: nat, h: nat, k1: nat) returns (k: nat)
    requires s.Wf() && Sound(s) && i < |s.pcs| && SlotDone(s, Solo(s, i, k1), i, h)
    requires s.At(h).cycle == Cycle(h, s.N()) <==> h in s.log.inserted && h !in s.log.taken
    requires s.At(h).cycle == Cycle(h, s.N()) ==> IndexBits(s, s.At(h)) == s.log.inserted[h]
    ensures Solo(s, i, k).pcs[i] == AfterLook(s, h)
  {
    var s1 := Solo(s, i, k1);
    var k2 := RestOfRound(s, s1, i, h);
    SoloAppend(s, i, k1, k2);
    k := k1 + k2;
    if s.At(h).cycle != Cycle(h, s.N()) { k := FromVain(s, i, h, k); }
  }

  /** From the fetch_or. */
  lemma FromTakeOn(s: Ring, i: nat, h: nat, e: Slot)
    requires s.Wf() && Sound(s) && i < |s.pcs| && s.pcs[i] == DeqTake(h, e)
    ensures Solo(s, i, 1).pcs[i] == AfterLook(s, h)
  {
    FromDeqTake(s, i, h, e);
    Disclose(s);
    assert PcOk(s, i);
    assert h !in s.log.taken;
  }

  lemma CasOfOther(s: Ring, i: nat, h: nat, attempt: nat, e: Slot, new': Slot)
    requires s.Wf() && Sound(s) && i < |s.pcs| && s.pcs[i] == DeqCas(h, attempt, e, new')
    ensures e.cycle < Cycle(h, s.N())
  {
    Disclose(s);
    assert PcOk(s, i);
  }

  /** From a compare-exchange of the slot: if the slot has changed, the thread looks at it again. */
  lemma FromCasOn(s: Ring, i: nat, h: nat, attempt: nat, e: Slot, new': Slot) returns (k: nat)
    requires s.Wf() && Sound(s) && i < |s.pcs| && s.pcs[i] == DeqCas(h, attempt, e, new')
    ensures Solo(s, i, k).pcs[i] == AfterLook(s, h)
  {
    if s.At(h) == e {
      k := FromFittingChange(s, i, h, attempt, e, new');
    } else {
      var s1 := StepDeqCas(s, i, false, h, attempt, e, new');
      StepSound(s, i);
      k := FromLoadOn(s1, i, h, attempt);
      k := k + 1;
      StepOnce(s, s1, i, k);
    }
  }

  lemma FromFittingChange(s: Ring, i: nat, h: nat, attempt: nat, e: Slot, new': Slot) returns (k: nat)
    requires s.Wf() && Sound(s) && i < |s.pcs| && s.pcs[i] == DeqCas(h, attempt, e, new') && s.At(h) == e
    ensures Solo(s, i, k).pcs[i] == AfterLook(s, h)
  {
    CasOfOther(s, i, h, attempt, e, new');
    LoopSlot(s, i, h);
    FromDeqCas(s, i, h, attempt, e, new');
    k := FromSlotDone(s, i, h, 1);
  }

  lemma FromCheckOn(s: Ring, i: nat) returns (k: nat)
    requires s.Wf() && Sound(s) && i < |s.pcs| && s.pcs[i] == DeqCheck
    ensures Solo(s, i, k).pcs[i] == Answer(s)
  {
    var s1 := StepDeqCheck(s, i);
    k := 0;
    if s.threshold >= 0 {
      StepSound(s, i);
      k := FromTicketOn(s1, i);
    }
    k := k + 1;
    StepOnce(s, s1, i, k);
  }

  // ---------------------------------------------------------------- catch-up

  /** The catch-up has ended, with tail as given, and the threshold went down by one. */
  ghost predicate Caught(s: Ring, r: Ring, i: nat, tail: nat) {
    && SameShape(s, r) && i < |r.pcs| && r.pcs[i] == DeqNone && r.tail == tail && r.head == s.head
    && r.threshold == s.threshold - 1
  }

  /** Where a catch-up leaves tail that stands at pc: a compare-exchange that fits sets it; one that was lost
      pulls it up to where head is now, if it is not there. */
  function CaughtTail(s: Ring, pc: Pc): nat {
    match pc
    case CatchCas(_, tl, hd) => if s.tail == tl then hd else if s.tail >= s.head then s.tail else s.head
    case CatchHead(_) => if s.tail >= s.head then s.tail else s.head
    case CatchTail(_, hd) => if s.tail >= hd then s.tail else hd
    case _ => s.tail
  }

  lemma FromDeqEmpty(s: Ring, i: nat, h: nat)
    requires s.Wf() && i < |s.pcs| && s.pcs[i] == DeqEmpty(h)
    ensures Caught(s, Solo(s, i, 1), i, s.tail)
  {
    StepOnce(s, StepDeqEmpty(s, i), i, 1);
  }

  lemma FromFittingCas(s: Ring, i: nat, h: nat, hd: nat)
    requires s.Wf() && i < |s.pcs| && s.pcs[i] == CatchCas(h, s.tail, hd)
    ensures Caught(s, Solo(s, i, 2), i, hd)
  {
    var s1 := StepCatchCas(s, i, false, h, s.tail, hd);
    FromDeqEmpty(s1, i, h);
    StepOnce(s, s1, i, 2);
  }

  lemma FromCatchTail(s: Ring, i: nat, h: nat, hd: nat) returns (k: nat)
    requires s.Wf() && i < |s.pcs| && s.pcs[i] == CatchTail(h, hd)
    ensures k <= 3 && Caught(s, Solo(s, i, k), i, CaughtTail(s, s.pcs[i]))
  {
    var s1 := StepCatchTail(s, i, h, hd);
    k := if s.tail >= hd then 2 else 3;
    if s.tail >= hd { FromDeqEmpty(s1, i, h); } else { FromFittingCas(s1, i, h, hd); }
    StepOnce(s, s1, i, k);
  }

  lemma FromCatchHead(s: Ring, i: nat, h: nat) returns (k: nat)
    requires s.Wf() && i < |s.pcs| && s.pcs[i] == CatchHead(h)
    ensures k <= 4 && Caught(s, Solo(s, i, k), i, CaughtTail(s, s.pcs[i]))
  {
    var s1 := s.To(i, CatchTail(h, s.head));
    k := FromCatchTail(s1, i, h, s.head);
    k := k + 1;
    StepOnce(s, s1, i, k);
  }

  /** From a compare-exchange of tail that may have been lost. */
  lemma FromCatchCas(s: Ring, i: nat, h: nat, tl: nat, hd: nat) returns (k: nat)
    requires s.Wf() && i < |s.pcs| && s.pcs[i] == CatchCas(h, tl, hd)
    ensures k <= 5 && Caught(s, Solo(s, i, k), i, CaughtTail(s, s.pcs[i]))
  {
    if s.tail == tl {
      FromFittingCas(s, i, h, hd);
      k := 2;
    } else {
      var s1 := StepCatchCas(s, i, false, h, tl, hd);
      k := FromCatchHead(s1, i, h);
      k := k + 1;
      StepOnce(s, s1, i, k);
    }
  }

  // ---------------------------------------------------------------- the dequeue as a whole

  /** From any state at all, a thread anywhere in a catch-up that runs alone returns None after at most five
      steps, and tail is where it should be. */
  lemma CatchUpReturns(s: Ring, i: nat) returns (k: nat)
    requires s.Wf() && i < |s.pcs|
    requires s.pcs[i].CatchCas? || s.pcs[i].CatchHead? || s.pcs[i].CatchTail? || s.pcs[i].DeqEmpty?
    ensures k <= 5 && Caught(s, Solo(s, i, k), i, CaughtTail(s, s.pcs[i]))
  {
    match s.pcs[i]
    case CatchCas(h, tl, hd) => k := FromCatchCas(s, i, h, tl, hd);
    case CatchHead(h) => k := FromCatchHead(s, i, h);
    case CatchTail(h, hd) => k := FromCatchTail(s, i, h, hd);
    case DeqEmpty(h) => FromDeqEmpty(s, i, h); k := 1;
  }

  lemma LookEnds(s: Ring, i: nat) returns (k: nat)
    requires s.Wf() && Sound(s) && i < |s.pcs| && (s.pcs[i].DeqLoad? || s.pcs[i].DeqTake? || s.pcs[i].DeqCas?)
    ensures Solo(s, i, k).pcs[i] == AfterLook(s, s.pcs[i].h)
  {
    match s.pcs[i]
    case DeqLoad(h, attempt) => k := FromLoadOn(s, i, h, attempt);
    case DeqTake(h, e) => FromTakeOn(s, i, h, e); k := 1;
    case DeqCas(h, attempt, e, new') => k := FromCasOn(s, i, h, attempt, e, new');
  }

  lemma DequeueEnds(s: Ring, i: nat) returns (k: nat)
    requires s.Wf() && Sound(s) && i < |s.pcs| && InDequeue(s.pcs[i])
    ensures Solo(s, i, k).pcs[i] == Resume(s, s.pcs[i])
  {
    var pc := s.pcs[i];
    if pc.DeqLoad? || pc.DeqTake? || pc.DeqCas? {
      k := LookEnds(s, i);
    } else if pc.DeqCheck? {
      k := FromCheckOn(s, i);
    } else if pc.DeqTicket? {
      k := FromTicketOn(s, i);
    } else if pc.DeqTail? {
      k := FromTailOn(s, i, pc.h);
    } else if pc.DeqRound? {
      k := FromRoundOn(s, i, pc.h);
    } else {
      k := CatchUpReturns(s, i);
    }
  }

  /** In every reachable state, with the other threads stopped anywhere, a thread anywhere in a dequeue that
      runs alone returns.  If it holds a ticket in its slot loop whose entry is there, it returns that entry;
      otherwise, and from everywhere else, `Resume` says what it returns. */
  lemma DequeueReturns(s: Ring, i: nat) returns (k: nat)
    requires Reachable(s) && i < |s.pcs| && InDequeue(s.pcs[i])
    ensures s.Wf()
    ensures var r := Exec(s, Alone(i, k)); r.pcs[i] == Resume(s, s.pcs[i]) && Returned(r.pcs[i])
    ensures forall h: nat :: InLoop(s.pcs[i], h) && h in s.log.inserted && h !in s.log.taken ==>
              Exec(s, Alone(i, k)).pcs[i] == DeqSome(h, s.log.inserted[h])
  {
    ReachableInv(s);
    Enclose(s);
    k := DequeueEnds(s, i);
    SoloIsExec(s, i, k);
  }

  /** A new empty ring answers None at once: its threshold is used up, and no ticket is drawn. */
  lemma NewRingIsEmpty(half: nat, finalizable: bool, threads: nat, i: nat)
    requires half >= 1 && i < threads
    ensures var s := EmptyRing(half, finalizable, threads);
            var r := Exec(s, [CallDequeue(i)] + Alone(i, 1));
            r.pcs[i] == DeqNone && r.head == s.head && r.tail == s.tail && r.threshold == s.threshold
  {
    var s := EmptyRing(half, finalizable, threads);
    var s1 := BeginDequeue(s, i);
    assert Apply(s, CallDequeue(i)) == s1;
    StepOnce(s1, StepDeqCheck(s1, i), i, 1);
    CallThenSolo(s, CallDequeue(i), i, 1);
  }
}
