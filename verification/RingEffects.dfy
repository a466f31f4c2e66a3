/** What one step of a ring does to its entries, seen from outside: it puts one index in, takes
    one index out, or leaves the entries as they are. */
module RingEffects {
  import opened Tickets
  import opened Ring
  import opened RingInvariant

  /** An enqueue of x that has not put its index in, perhaps because it was refused. */
  predicate BeforeInsert(pc: Pc, x: nat) {
    (pc.EnqTicket? || pc.EnqLoad? || pc.EnqHead? || pc.EnqFinal? || pc.EnqCas? || pc.EnqErr?) && pc.x == x
  }

  /** An enqueue of x that has. */
  predicate AfterInsert(pc: Pc, x: nat) {
    (pc.EnqThreshold? || pc.EnqStore? || pc.EnqOk?) && pc.x == x
  }

  /** A dequeue that has taken nothing. */
  predicate Searching(pc: Pc) {
    pc.DeqCheck? || pc.DeqTicket? || pc.DeqLoad? || pc.DeqTake? || pc.DeqCas? || pc.DeqTail? || pc.CatchCas?
    || pc.CatchHead? || pc.CatchTail? || pc.DeqEmpty? || pc.DeqRound? || pc.DeqNone?
  }

  datatype Effect = Quiet | Insertion(t: nat, x: nat) | Removal(h: nat, x: nat)

  /** A step moves one thread, and changes neither the flag nor the owner of a ticket. */
  ghost predicate Moves(s: Ring, r: Ring, i: nat) {
    && OnlyThread(s, r, i) && r.finalized == s.finalized
    && |s.log.deqBy| <= |r.log.deqBy|
    && (forall h: nat :: h < |s.log.deqBy| ==> r.log.deqBy[h] == s.log.deqBy[h])
  }

  /** The entries stay, and the thread is as far as before. */
  ghost predicate Unmoved(s: Ring, r: Ring, i: nat)
    requires OnlyThread(s, r, i) && s.Wf()
  {
    && r.log.inserted == s.log.inserted && r.log.taken == s.log.taken
    && (forall j: nat :: j < s.N() ==> r.slots[j].entry == s.slots[j].entry)
    && (forall j: nat :: j < s.N() && s.slots[j].entry.Some? ==> r.slots[j].cycle == s.slots[j].cycle)
    && (forall x: nat :: BeforeInsert(s.pcs[i], x) ==> BeforeInsert(r.pcs[i], x))
    && (forall x: nat :: AfterInsert(s.pcs[i], x) ==> AfterInsert(r.pcs[i], x))
    && (Searching(s.pcs[i]) ==> Searching(r.pcs[i]))
  }

  /** The step of thread i leads from s to r and has effect f on the entries. */
  ghost predicate Does(s: Ring, r: Ring, i: nat, f: Effect)
    requires s.Wf()
  {
    && Moves(s, r, i) && Sound(r)
    && match f
       case Quiet => Unmoved(s, r, i)
       case Insertion(t, x) =>
         && s.pcs[i].EnqCas? && s.pcs[i].t == t && s.pcs[i].x == x && r.pcs[i] == EnqThreshold(x, t)
         && s.At(t).entry.None?
         && r.slots == s.slots[Pos(t, s.N()) := Slot(Cycle(t, s.N()), true, Some(x))]
         && t !in s.log.inserted
         && r.log.inserted == s.log.inserted[t := x] && r.log.taken == s.log.taken
       case Removal(h, x) =>
         && s.pcs[i].DeqTake? && s.pcs[i].h == h && r.pcs[i] == DeqSome(h, x)
         && LiveAt(s, h, x)
         && r.slots == s.slots[Pos(h, s.N()) := s.At(h).(entry := None)]
         && h in s.log.inserted && s.log.inserted[h] == x && h !in s.log.taken
         && h < |s.log.deqBy| && s.log.deqBy[h] == i
         && r.log.inserted == s.log.inserted && r.log.taken == s.log.taken[h := x]
  }

  lemma InsertDoes(s: Ring, i: nat)
    requires Inv(s) && i < |s.pcs| && s.pcs[i].EnqCas?
    ensures var pc := s.pcs[i];
            var r := StepEnqCas(s, i, false, pc.x, pc.t, pc.e);
            s.At(pc.t) == pc.e ==> Does(s, r, i, Insertion(pc.t, pc.x))
  {
    assert PcOk(s, i);
    KeepEnqCas(s, i, false, s.pcs[i].x, s.pcs[i].t, s.pcs[i].e);
    Enclose(StepEnqCas(s, i, false, s.pcs[i].x, s.pcs[i].t, s.pcs[i].e));
  }

  lemma TakeDoes(s: Ring, i: nat) returns (x: nat)
    requires Inv(s) && i < |s.pcs| && s.pcs[i].DeqTake?
    ensures Does(s, StepDeqTake(s, i, s.pcs[i].h, s.pcs[i].e), i, Removal(s.pcs[i].h, x))
  {
    assert PcOk(s, i);
    var h := s.pcs[i].h;
    assert LiveAt(s, h, s.log.inserted[h]);
    KeepDeqTake(s, i, h, s.pcs[i].e);
    Enclose(StepDeqTake(s, i, h, s.pcs[i].e));
    x := s.log.inserted[h];
  }

  /** A dequeuer only marks a slot unsafe or advances an empty one. */
  lemma ChangeDoes(s: Ring, i: nat, weak: bool)
    requires s.Wf() && i < |s.pcs| && s.pcs[i].DeqCas? && PcOk(s, i)
    ensures var pc := s.pcs[i];
            var r := StepDeqCas(s, i, weak, pc.h, pc.attempt, pc.e, pc.new');
            Moves(s, r, i) && Unmoved(s, r, i)
  {
  }

  lemma LoadDoes(s: Ring, i: nat)
    requires s.Wf() && i < |s.pcs| && s.pcs[i].DeqLoad?
    ensures var r := StepDeqLoad(s, i, s.pcs[i].h, s.pcs[i].attempt);
            Moves(s, r, i) && Unmoved(s, r, i)
  {
  }

  lemma EnqueueDoes(s: Ring, i: nat, weak: bool)
    requires s.Wf() && i < |s.pcs|
    requires var pc := s.pcs[i];
             pc.EnqTicket? || pc.EnqLoad? || pc.EnqHead? || pc.EnqFinal? || pc.EnqThreshold? || pc.EnqStore?
    ensures var r := StepThread(s, i, weak); Moves(s, r, i) && Unmoved(s, r, i)
  {
  }

  lemma OtherDoes(s: Ring, i: nat, weak: bool)
    requires s.Wf() && i < |s.pcs|
    requires var pc := s.pcs[i]; !pc.DeqCas? && !pc.DeqTake? && !pc.DeqLoad? && !pc.EnqCas?
    requires var pc := s.pcs[i];
             !(pc.EnqTicket? || pc.EnqLoad? || pc.EnqHead? || pc.EnqFinal? || pc.EnqThreshold? || pc.EnqStore?)
    ensures var r := StepThread(s, i, weak); Moves(s, r, i) && Unmoved(s, r, i)
  {
  }

  lemma FailedCas(s: Ring, i: nat, weak: bool)
    requires s.Wf() && i < |s.pcs| && s.pcs[i].EnqCas? && (weak || s.At(s.pcs[i].t) != s.pcs[i].e)
    ensures var r := StepThread(s, i, weak); Moves(s, r, i) && Unmoved(s, r, i)
  {
  }

  lemma QuietDoes(s: Ring, i: nat, weak: bool)
    requires s.Wf() && i < |s.pcs| && PcOk(s, i) && !s.pcs[i].DeqTake?
    requires s.pcs[i].EnqCas? ==> weak || s.At(s.pcs[i].t) != s.pcs[i].e
    ensures var r := StepThread(s, i, weak); Moves(s, r, i) && Unmoved(s, r, i)
  {
    var pc := s.pcs[i];
    if pc.EnqCas? {
      FailedCas(s, i, weak);
    } else if pc.DeqCas? {
      ChangeDoes(s, i, weak);
    } else if pc.DeqLoad? {
      LoadDoes(s, i);
    } else if pc.EnqTicket? || pc.EnqLoad? || pc.EnqHead? || pc.EnqFinal? || pc.EnqThreshold? || pc.EnqStore? {
      EnqueueDoes(s, i, weak);
    } else {
      OtherDoes(s, i, weak);
    }
  }

  lemma QuietStep(s: Ring, i: nat, weak: bool)
    requires Inv(s) && i < |s.pcs| && !s.pcs[i].DeqTake?
    requires s.pcs[i].EnqCas? ==> weak || s.At(s.pcs[i].t) != s.pcs[i].e
    ensures Does(s, StepThread(s, i, weak), i, Quiet)
  {
    assert PcOk(s, i);
    QuietDoes(s, i, weak);
    KeepStep(s, i, weak);
    Enclose(StepThread(s, i, weak));
  }

  /** Every step has exactly one of the three effects. */
  lemma StepDoes(s: Ring, i: nat, weak: bool) returns (f: Effect)
    requires s.Wf() && Sound(s) && i < |s.pcs|
    ensures Does(s, StepThread(s, i, weak), i, f)
  {
    Disclose(s);
    var pc, r := s.pcs[i], StepThread(s, i, weak);
    if pc.EnqCas? && !weak && s.At(pc.t) == pc.e {
      assert r == StepEnqCas(s, i, weak, pc.x, pc.t, pc.e);
      InsertDoes(s, i);
      return Insertion(pc.t, pc.x);
    }
    if pc.DeqTake? {
      assert r == StepDeqTake(s, i, pc.h, pc.e);
      var x := TakeDoes(s, i);
      return Removal(pc.h, x);
    }
    QuietStep(s, i, weak);
    return Quiet;
  }
}
