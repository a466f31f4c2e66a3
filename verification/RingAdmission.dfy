/** Progress of an enqueue, and what finalization does.  A thread that is anywhere in an enqueue, while all
    others are stopped anywhere in their operations, and that now runs alone. */
module RingAdmission {
  import opened Tickets
  import opened Counting
  import opened Ring
  import opened RingInvariant
  import opened RingTheorems
  import opened RingSolo

  predicate Sealed(s: Ring) { s.finalizable && s.finalized }

  /** The enqueue was refused, and has left nothing behind. */
  predicate Refused(s: Ring, r: Ring, i: nat, x: nat)
    requires i < |r.pcs|
  {
    && r.pcs[i] == EnqErr(x, QueueFinalized) && r.slots == s.slots && r.threshold == s.threshold
    && r.log.inserted == s.log.inserted
  }

  /** The enqueue has put its index in. */
  predicate PutIn(s: Ring, r: Ring, i: nat, x: nat)
    requires i < |r.pcs|
  {
    && r.pcs[i].EnqOk? && r.pcs[i].x == x && r.threshold == Threshold3(s.half)
    && r.log.inserted == s.log.inserted[r.pcs[i].t := x]
  }

  ghost predicate Untaken(s: Ring, r: Ring) {
    SameShape(s, r) && r.head == s.head && r.finalized == s.finalized && r.log.taken == s.log.taken
  }

  ghost predicate Ends(s: Ring, r: Ring, i: nat, x: nat) {
    Untaken(s, r) && i < |r.pcs| && if Sealed(s) then Refused(s, r, i, x) else PutIn(s, r, i, x)
  }

  // ---------------------------------------------------------------- at the slot

  lemma CasFits(s: Ring, i: nat, x: nat, t: nat, e: Slot) returns (k: nat)
    requires s.Wf() && i < |s.pcs| && s.pcs[i] == EnqCas(x, t, e) && s.At(t) == e
    ensures var r := Solo(s, i, k);
            Untaken(s, r) && PutIn(s, r, i, x) && r.pcs[i] == EnqOk(x, t) && r.tail == s.tail
  {
    var s1 := StepEnqCas(s, i, false, x, t, e);
    k := FromThreshold(s1, i, x, t);
    k := k + 1;
    StepOnce(s, s1, i, k);
  }

  lemma FinalEnds(s: Ring, i: nat, x: nat, t: nat, e: Slot) returns (k: nat)
    requires s.Wf() && i < |s.pcs| && s.pcs[i] == EnqFinal(x, t, e) && s.At(t) == e && s.finalizable
    ensures var r := Solo(s, i, k); Ends(s, r, i, x) && r.tail == s.tail
  {
    var s1 := StepEnqFinal(s, i, x, t, e);
    k := 0;
    if !s.finalized { k := CasFits(s1, i, x, t, e); }
    k := k + 1;
    StepOnce(s, s1, i, k);
  }

  lemma AdmittedEnds(s: Ring, i: nat, x: nat, t: nat, e: Slot) returns (k: nat)
    requires s.Wf() && i < |s.pcs| && s.pcs[i] == Admitted(s, x, t, e) && s.At(t) == e
    ensures var r := Solo(s, i, k); Ends(s, r, i, x) && r.tail == s.tail
  {
    if s.finalizable { k := FinalEnds(s, i, x, t, e); } else { k := CasFits(s, i, x, t, e); }
  }

  /** An enqueuer with ticket t finds the slot in a state in which it may insert. */
  predicate Usable(s: Ring, t: nat)
    requires s.Wf()
  {
    s.At(t).cycle < Cycle(t, s.N()) && s.At(t).entry.None? && (s.At(t).safe || s.head <= t)
  }

  /** One look at the slot: the enqueue ends there, or goes on to the next ticket. */
  lemma FromLook(s: Ring, i: nat, x: nat, t: nat) returns (k: nat)
    requires s.Wf() && i < |s.pcs| && s.pcs[i] == EnqLoad(x, t)
    ensures var r := Solo(s, i, k);
            if Usable(s, t) then Ends(s, r, i, x) && r.tail == s.tail else r == s.To(i, EnqTicket(x))
  {
    var e, s1 := s.At(t), StepEnqLoad(s, i, x, t);
    k := 0;
    if s1.pcs[i].EnqHead? {
      var s2 := StepEnqHead(s1, i, x, t, e);
      if s.head <= t { k := AdmittedEnds(s2, i, x, t, e); }
      k := k + 1;
      StepOnce(s1, s2, i, k);
    } else if !s1.pcs[i].EnqTicket? {
      k := AdmittedEnds(s1, i, x, t, e);
    }
    k := k + 1;
    StepOnce(s, s1, i, k);
  }

  /** Tickets are drawn up to the first one with a usable slot. */
  lemma {:induction false} FromDraw(s: Ring, i: nat, x: nat, d: nat) returns (k: nat)
    requires s.Wf() && i < |s.pcs| && s.pcs[i] == EnqTicket(x) && Usable(s, s.tail + d)
    ensures var r := Solo(s, i, k); Ends(s, r, i, x) && s.tail < r.tail <= s.tail + d + 1
    decreases d
  {
    var s1 := StepEnqTicket(s, i, x);
    k := FromLook(s1, i, x, s.tail);
    if !Usable(s, s.tail) {
      var s2 := Solo(s1, i, k);
      var k2 := FromDraw(s2, i, x, d - 1);
      SoloAppend(s1, i, k, k2);
      k := k + k2;
    }
    k := k + 1;
    StepOnce(s, s1, i, k);
  }

  /** If some slot has no entry, one of the next tickets finds it usable, at the latest one after head. */
  lemma UsableAhead(s: Ring) returns (d: nat)
    requires s.Wf() && Sound(s) && Live(s) < s.N()
    ensures Usable(s, s.tail + d) && s.tail + d <= (if s.head <= s.tail then s.tail else s.head) + Live(s)
  {
    var from := if s.head <= s.tail then s.tail else s.head;
    d := EmptySlotAhead(s, from);
    EmptySlotIsOld(s, from + d);
    d := from + d - s.tail;
  }

  // ---------------------------------------------------------------- an enqueue, from anywhere

  lemma FromDrawOn(s: Ring, i: nat, x: nat) returns (k: nat)
    requires s.Wf() && Sound(s) && Live(s) < s.N() && i < |s.pcs| && s.pcs[i] == EnqTicket(x)
    ensures var r := Solo(s, i, k);
            && Ends(s, r, i, x)
            && r.tail <= (if s.head <= s.tail then s.tail else s.head) + Live(s) + 1
  {
    var d := UsableAhead(s);
    k := FromDraw(s, i, x, d);
  }

  lemma FromLookOn(s: Ring, i: nat, x: nat, t: nat) returns (k: nat)
    requires s.Wf() && Sound(s) && Live(s) < s.N() && i < |s.pcs| && s.pcs[i] == EnqLoad(x, t)
    ensures Ends(s, Solo(s, i, k), i, x)
  {
    k := FromLook(s, i, x, t);
    if !Usable(s, t) {
      var d := UsableAhead(s);
      var k2 := FromDraw(Solo(s, i, k), i, x, d);
      SoloAppend(s, i, k, k2);
      k := k + k2;
    }
  }

  /** From a compare-exchange of the slot: if the slot has changed, the thread looks at it again. */
  lemma FromCasOn(s: Ring, i: nat, x: nat, t: nat, e: Slot) returns (k: nat)
    requires s.Wf() && Sound(s) && Live(s) < s.N() && i < |s.pcs| && s.pcs[i] == EnqCas(x, t, e)
    ensures var r := Solo(s, i, k);
            if s.At(t) == e then Untaken(s, r) && PutIn(s, r, i, x) && r.pcs[i] == EnqOk(x, t) else Ends(s, r, i, x)
  {
    if s.At(t) == e {
      k := CasFits(s, i, x, t, e);
    } else {
      var s1 := StepEnqCas(s, i, false, x, t, e);
      StepSound(s, i);
      assert LiveFlags(s1) == LiveFlags(s);
      k := FromLookOn(s1, i, x, t);
      k := k + 1;
      StepOnce(s, s1, i, k);
    }
  }

  lemma FinalIsFinalizable(s: Ring, i: nat)
    requires s.Wf() && Sound(s) && i < |s.pcs| && s.pcs[i].EnqFinal?
    ensures s.finalizable
  {
    Disclose(s);
    assert PcOk(s, i);
  }

  lemma FromFinalOn(s: Ring, i: nat, x: nat, t: nat, e: Slot) returns (k: nat)
    requires s.Wf() && Sound(s) && Live(s) < s.N() && i < |s.pcs| && s.pcs[i] == EnqFinal(x, t, e)
    ensures Ends(s, Solo(s, i, k), i, x)
  {
    FinalIsFinalizable(s, i);
    var s1 := StepEnqFinal(s, i, x, t, e);
    k := 0;
    if !s.finalized {
      StepSound(s, i);
      assert LiveFlags(s1) == LiveFlags(s);
      k := FromCasOn(s1, i, x, t, e);
    }
    k := k + 1;
    StepOnce(s, s1, i, k);
  }

  lemma FromAdmittedOn(s: Ring, i: nat, x: nat, t: nat, e: Slot) returns (k: nat)
    requires s.Wf() && Sound(s) && Live(s) < s.N() && i < |s.pcs| && s.pcs[i] == Admitted(s, x, t, e)
    ensures Ends(s, Solo(s, i, k), i, x)
  {
    if s.finalizable { k := FromFinalOn(s, i, x, t, e); } else { k := FromCasOn(s, i, x, t, e); }
  }

  lemma FromHeadOn(s: Ring, i: nat, x: nat, t: nat, e: Slot) returns (k: nat)
    requires s.Wf() && Sound(s) && Live(s) < s.N() && i < |s.pcs| && s.pcs[i] == EnqHead(x, t, e)
    ensures Ends(s, Solo(s, i, k), i, x)
  {
    var s1 := StepEnqHead(s, i, x, t, e);
    StepSound(s, i);
    assert LiveFlags(s1) == LiveFlags(s);
    if s.head <= t { k := FromAdmittedOn(s1, i, x, t, e); } else { k := FromDrawOn(s1, i, x); }
    k := k + 1;
    StepOnce(s, s1, i, k);
  }

  lemma FromStore(s: Ring, i: nat, x: nat, t: nat)
    requires s.Wf() && i < |s.pcs| && s.pcs[i] == EnqStore(x, t)
    ensures Solo(s, i, 1) == s.(threshold := Threshold3(s.half)).To(i, EnqOk(x, t))
  {
    StepOnce(s, StepEnqStore(s, i, x, t), i, 1);
  }

  /** The thread has inserted, or will with its next step. */
  predicate PastSeal(s: Ring, pc: Pc)
    requires s.Wf()
  {
    pc.EnqThreshold? || pc.EnqStore? || (pc.EnqCas? && s.At(pc.t) == pc.e)
  }

  lemma SettlingEnds(s: Ring, i: nat) returns (k: nat)
    requires s.Wf() && i < |s.pcs| && (s.pcs[i].EnqThreshold? || s.pcs[i].EnqStore?)
    ensures var r := Solo(s, i, k);
            Untaken(s, r) && r.pcs[i] == EnqOk(s.pcs[i].x, s.pcs[i].t) && r.threshold == Threshold3(s.half)
  {
    var x, t := s.pcs[i].x, s.pcs[i].t;
    if s.pcs[i].EnqStore? {
      FromStore(s, i, x, t);
      k := 1;
    } else {
      k := FromThreshold(s, i, x, t);
    }
  }

  lemma EnqueueEnds(s: Ring, i: nat) returns (k: nat)
    requires s.Wf() && Sound(s) && Live(s) < s.N() && i < |s.pcs| && InEnqueue(s.pcs[i])
    ensures var r, pc := Solo(s, i, k), s.pcs[i];
            if PastSeal(s, pc) then r.pcs[i].EnqOk? && r.pcs[i].x == pc.x && r.pcs[i].t == pc.t
            else Ends(s, r, i, pc.x)
  {
    match s.pcs[i]
    case EnqTicket(x) => k := FromDrawOn(s, i, x);
    case EnqLoad(x, t) => k := FromLookOn(s, i, x, t);
    case EnqHead(x, t, e) => k := FromHeadOn(s, i, x, t, e);
    case EnqFinal(x, t, e) => k := FromFinalOn(s, i, x, t, e);
    case EnqCas(x, t, e) => k := FromCasOn(s, i, x, t, e);
    case _ => k := SettlingEnds(s, i);
  }

  // ---------------------------------------------------------------- exactly when an enqueue returns

  /** All slots are full, and the thread will find that out. */
  ghost predicate Spins(s: Ring, i: nat) {
    && s.Wf() && i < |s.pcs| && (forall j: nat :: j < s.N() ==> s.slots[j].entry.Some?)
    && match s.pcs[i]
       case EnqTicket(_) => true
       case EnqLoad(_, _) => true
       case EnqHead(_, t, e) => e.entry.None? && !(Sealed(s) && s.head <= t)
       case EnqFinal(_, _, e) => e.entry.None? && s.finalizable && !s.finalized
       case EnqCas(_, _, e) => e.entry.None?
       case _ => false
  }

  lemma {:induction false} SpinsForever(s: Ring, i: nat, k: nat)
    requires Spins(s, i)
    ensures Spins(Solo(s, i, k), i)
    decreases k
  {
    if k > 0 { SpinsForever(StepThread(s, i, false), i, k - 1); }
  }

  /** Past every test that a full ring could fail. */
  predicate Decided(s: Ring, pc: Pc)
    requires s.Wf()
  {
    PastSeal(s, pc) || (Sealed(s) && (pc.EnqFinal? || (pc.EnqHead? && s.head <= pc.t)))
  }

  lemma DecidedEnds(s: Ring, i: nat) returns (k: nat)
    requires s.Wf() && i < |s.pcs| && Decided(s, s.pcs[i]) && InEnqueue(s.pcs[i])
    ensures Returned(Solo(s, i, k).pcs[i])
  {
    match s.pcs[i]
    case EnqHead(x, t, e) =>
      StepOnce(StepEnqHead(s, i, x, t, e), StepEnqFinal(StepEnqHead(s, i, x, t, e), i, x, t, e), i, 1);
      StepOnce(s, StepEnqHead(s, i, x, t, e), i, 2);
      k := 2;
    case EnqFinal(x, t, e) =>
      StepOnce(s, StepEnqFinal(s, i, x, t, e), i, 1);
      k := 1;
    case EnqCas(x, t, e) => k := CasFits(s, i, x, t, e);
    case _ => k := SettlingEnds(s, i);
  }

  lemma UndecidedSpins(s: Ring, i: nat)
    requires s.Wf() && Sound(s) && i < |s.pcs| && InEnqueue(s.pcs[i]) && Live(s) >= s.N() && !Decided(s, s.pcs[i])
    ensures Spins(s, i)
  {
    TruesBound(LiveFlags(s));
    forall j: nat | j < s.N() ensures s.slots[j].entry.Some? { AllLive(s, j); }
    Disclose(s);
    assert PcOk(s, i);
  }

  /** In every reachable state, with the other threads stopped anywhere, a thread anywhere in an enqueue that
      runs alone returns if and only if some slot has no entry, or the thread is past the tests of the slot:
      it has inserted, or will with its next step, or is about to find the ring finalized. */
  lemma EnqueueReturnsIff(s: Ring, i: nat)
    requires Reachable(s) && i < |s.pcs| && InEnqueue(s.pcs[i])
    ensures s.Wf()
    ensures (exists k: nat :: Returned(Exec(s, Alone(i, k)).pcs[i])) <==> Live(s) < s.N() || Decided(s, s.pcs[i])
  {
    ReachableInv(s);
    Enclose(s);
    if Live(s) < s.N() || Decided(s, s.pcs[i]) {
      var k;
      if Live(s) < s.N() { k := EnqueueEnds(s, i); } else { k := DecidedEnds(s, i); }
      SoloIsExec(s, i, k);
      assert Returned(Exec(s, Alone(i, k)).pcs[i]);
    } else {
      UndecidedSpins(s, i);
      forall k: nat ensures !Returned(Exec(s, Alone(i, k)).pcs[i]) {
        SpinsForever(s, i, k);
        SoloIsExec(s, i, k);
      }
    }
  }

  /** And if some slot has no entry, this is the answer: Ok if the thread has inserted, or will with its next
      step, and otherwise as the flag is: QueueFinalized on a ring that is finalized, and nothing is left
      behind, and Ok on one that is not, with exactly its index put in. */
  lemma EnqueueReturns(s: Ring, i: nat) returns (k: nat)
    requires Reachable(s) && i < |s.pcs| && InEnqueue(s.pcs[i]) && s.Wf() && Live(s) < s.N()
    ensures var r, pc := Exec(s, Alone(i, k)), s.pcs[i];
            if PastSeal(s, pc) then r.pcs[i] == EnqOk(pc.x, pc.t) else Ends(s, r, i, pc.x)
  {
    ReachableInv(s);
    Enclose(s);
    k := EnqueueEnds(s, i);
    SoloIsExec(s, i, k);
  }

  // ---------------------------------------------------------------- a call

  lemma CallEnds(s: Ring, i: nat, x: nat) returns (k: nat)
    requires s.Wf() && Sound(s) && i < |s.pcs| && s.pcs[i].Idle? && x < s.half && Live(s) < s.N()
    ensures var r := Exec(s, [CallEnqueue(i, x)] + Alone(i, k));
            && Ends(s, r, i, x)
            && r.tail <= (if s.head <= s.tail then s.tail else s.head) + Live(s) + 1
  {
    Disclose(s);
    KeepAction(s, CallEnqueue(i, x));
    var s1 := BeginEnqueue(s, i, x);
    assert Apply(s, CallEnqueue(i, x)) == s1;
    Enclose(s1);
    assert LiveFlags(s1) == LiveFlags(s);
    k := FromDrawOn(s1, i, x);
    CallThenSolo(s, CallEnqueue(i, x), i, k);
  }

  /** With no operation in flight and a slot without an entry, an enqueue running alone on a finalized ring is
      refused.  It draws at most live + 1 tickets, and leaves slots, entries and threshold as they were. */
  lemma SealedEnqueue(s: Ring, i: nat, x: nat) returns (k: nat)
    requires Reachable(s) && i < |s.pcs| && x < s.half && s.Wf() && Live(s) < s.N() && Sealed(s)
    requires forall j: nat :: j < |s.pcs| ==> s.pcs[j].Idle?
    ensures var r := Exec(s, [CallEnqueue(i, x)] + Alone(i, k));
            && SameShape(s, r) && Refused(s, r, i, x) && r.log.taken == s.log.taken && r.head == s.head
            && r.tail <= s.tail + Live(s) + 1
  {
    ReachableInv(s);
    CatchUpBound(s);
    Enclose(s);
    k := CallEnds(s, i, x);
  }

  /** Finalization takes effect: the next enqueue of a finalizable ring is refused. */
  lemma FinalizeRefuses(s: Ring, i: nat, x: nat) returns (k: nat)
    requires Reachable(s) && i < |s.pcs| && x < s.half && s.Wf() && Live(s) < s.N() && s.finalizable
    requires s.pcs[i].Idle?
    ensures var r := Exec(s, [Finalize, CallEnqueue(i, x)] + Alone(i, k));
            SameShape(s, r) && Refused(s, r, i, x) && r.log.taken == s.log.taken && r.finalized
  {
    ReachableInv(s);
    KeepAction(s, Finalize);
    var s1 := s.(finalized := true);
    Enclose(s1);
    assert LiveFlags(s1) == LiveFlags(s);
    k := CallEnds(s1, i, x);
    assert [Finalize, CallEnqueue(i, x)] + Alone(i, k) == [Finalize] + ([CallEnqueue(i, x)] + Alone(i, k));
    ExecCons(s, Finalize, [CallEnqueue(i, x)] + Alone(i, k));
  }

  /** An index that the ring cannot hold is refused at once, finalized or not. */
  lemma TooLarge(s: Ring, i: nat, x: nat)
    requires s.Wf() && i < |s.pcs| && s.pcs[i].Idle? && x >= s.half
    ensures Exec(s, [CallEnqueue(i, x)]) == s.(pcs := s.pcs[i := EnqErr(x, IndexLargerThanOrder)])
  {
    ExecOne(s, CallEnqueue(i, x));
  }
}
