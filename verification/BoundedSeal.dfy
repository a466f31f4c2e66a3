/** When a bounded queue is finalized, in every interleaving: only after `used` has reached the capacity; and an
    enqueue is answered Closed only by a queue that is. */
module BoundedSeal {
  import opened Ring
  import opened RingInvariant
  import opened RingTheorems
  import opened BoundedMachine
  import opened BoundedInvariant
  import opened BoundedTheorems
  import opened BoundedFifo
  import opened BoundedSolo

  /** The thread knows what `used` was when it was counted. */
  predicate HasSize<T>(pc: QPc<T>) { pc.PutFree? || pc.PutWrite? || pc.PutAlloc? }

  predicate SizeOk<T>(pc: QPc<T>, cap: nat, peak: int) {
    (HasSize(pc) ==> pc.size + 1 <= peak) && (pc.PutSeal? ==> cap <= peak)
  }

  /** `peak` is at least what `used` has been so far, and at least the capacity if the queue is finalized or
      about to be. */
  ghost predicate Sizes<T>(s: Queue<T>, peak: int) {
    && s.used <= peak && (s.alloc.finalized ==> s.cap <= peak)
    && forall i: nat :: i < |s.pcs| ==> SizeOk(s.pcs[i], s.cap, peak)
  }

  /** What a step of thread i does to what the threads know. */
  ghost predicate SizeMove<T>(s: Queue<T>, r: Queue<T>, i: nat) {
    && i < |s.pcs| && |r.pcs| == |s.pcs| && r.pcs == s.pcs[i := r.pcs[i]] && r.cap == s.cap
    && (forall peak: int :: s.used <= peak && r.used <= peak && SizeOk(s.pcs[i], s.cap, peak) ==>
          SizeOk(r.pcs[i], s.cap, peak))
    && (r.alloc.finalized ==> s.alloc.finalized || s.pcs[i].PutSeal?)
  }

  lemma EnterSizes<T>(s: Queue<T>, i: nat, weak: bool)
    requires s.Wf() && i < |s.pcs| && (s.pcs[i].PutCount? || s.pcs[i].PutFull? || s.pcs[i].PutFree?)
    ensures SizeMove(s, DoStep(s, i, weak), i)
  {
  }

  lemma FlagOfSlotStep(a: Ring, i: nat, weak: bool)
    requires a.Wf() && i < |a.pcs| && (a.pcs[i].DeqLoad? || a.pcs[i].DeqTake? || a.pcs[i].DeqCas?)
    ensures StepThread(a, i, weak).finalized == a.finalized
  {
    var pc := a.pcs[i];
    if pc.DeqLoad? {
      assert StepThread(a, i, weak) == StepDeqLoad(a, i, pc.h, pc.attempt);
    } else if pc.DeqTake? {
      assert StepThread(a, i, weak) == StepDeqTake(a, i, pc.h, pc.e);
    } else {
      assert StepThread(a, i, weak) == StepDeqCas(a, i, weak, pc.h, pc.attempt, pc.e, pc.new');
    }
  }

  lemma FlagOfEnqueue(a: Ring, i: nat, weak: bool)
    requires a.Wf() && i < |a.pcs| && InEnqueue(a.pcs[i])
    ensures StepThread(a, i, weak).finalized == a.finalized
  {
  }

  lemma FlagStays(a: Ring, i: nat, weak: bool)
    requires a.Wf() && i < |a.pcs|
    ensures StepThread(a, i, weak).finalized == a.finalized
  {
    if a.pcs[i].DeqLoad? || a.pcs[i].DeqTake? || a.pcs[i].DeqCas? {
      FlagOfSlotStep(a, i, weak);
    } else if InEnqueue(a.pcs[i]) {
      FlagOfEnqueue(a, i, weak);
    }
  }

  lemma AllocSizes<T>(s: Queue<T>, i: nat, weak: bool)
    requires s.Wf() && i < |s.pcs| && s.pcs[i].PutAlloc?
    ensures SizeMove(s, DoStep(s, i, weak), i)
  {
    var pc := s.pcs[i];
    FlagStays(s.alloc, i, weak);
    assert DoStep(s, i, weak) == DoPutAlloc(s, i, weak, pc.item, pc.fin, pc.size, pc.pos);
  }

  lemma PutSizes<T>(s: Queue<T>, i: nat, weak: bool)
    requires s.Wf() && i < |s.pcs|
    requires s.pcs[i].PutWrite? || s.pcs[i].PutUncount? || s.pcs[i].PutReadBack? || s.pcs[i].PutSeal?
    ensures SizeMove(s, DoStep(s, i, weak), i)
  {
  }

  lemma ReleaseSizes<T>(s: Queue<T>, i: nat, weak: bool)
    requires s.Wf() && i < |s.pcs| && (s.pcs[i].PutRelease? || s.pcs[i].GetRelease?)
    ensures SizeMove(s, DoStep(s, i, weak), i)
  {
  }

  lemma GetSizes<T>(s: Queue<T>, i: nat, weak: bool)
    requires s.Wf() && i < |s.pcs| && (s.pcs[i].GetAlloc? || s.pcs[i].GetUncount? || s.pcs[i].GetRead?)
    ensures SizeMove(s, DoStep(s, i, weak), i)
  {
    FlagStays(s.alloc, i, weak);
  }

  lemma StepSizes<T>(s: Queue<T>, i: nat, weak: bool)
    requires s.Wf() && i < |s.pcs|
    ensures SizeMove(s, DoStep(s, i, weak), i)
  {
    var pc := s.pcs[i];
    if pc.PutCount? || pc.PutFull? || pc.PutFree? {
      EnterSizes(s, i, weak);
    } else if pc.PutAlloc? {
      AllocSizes(s, i, weak);
    } else if pc.PutWrite? || pc.PutUncount? || pc.PutReadBack? || pc.PutSeal? {
      PutSizes(s, i, weak);
    } else if pc.PutRelease? || pc.GetRelease? {
      ReleaseSizes(s, i, weak);
    } else if pc.GetAlloc? || pc.GetUncount? || pc.GetRead? {
      GetSizes(s, i, weak);
    }
  }

  lemma ActionSizes<T>(s: Queue<T>, a: QAction<T>, peak: int)
    requires s.Wf() && Sizes(s, peak) && QApply(s, a).used <= peak
    ensures Sizes(QApply(s, a), peak)
  {
    if a.i < |s.pcs| && a.QStep? { StepSizes(s, a.i, a.weak); }
  }

  /** The moment after k actions, at which `used` has reached the capacity. */
  ghost predicate FullAt<T>(s: Queue<T>, run: seq<QAction<T>>, k: nat) {
    s.Wf() && k <= |run| && QExec(s, run[..k]).used >= s.cap
  }

  lemma LaterFull<T>(s: Queue<T>, run: seq<QAction<T>>, k: nat)
    requires s.Wf() && run != [] && FullAt(QApply(s, run[0]), run[1..], k)
    ensures FullAt(s, run, k + 1)
  {
    assert run[..k + 1] == [run[0]] + run[1..][..k];
    QExecCons(s, run[0], run[1..][..k]);
  }

  lemma {:induction false} SealRun<T>(s: Queue<T>, run: seq<QAction<T>>)
    requires s.Wf() && Sizes(s, s.cap - 1) && QExec(s, run).alloc.finalized
    ensures exists k: nat :: FullAt(s, run, k)
    decreases run
  {
    if run != [] {
      var r := QApply(s, run[0]);
      if r.used >= s.cap {
        QExecCons(s, run[0], []);
        assert run[..1] == [run[0]] + [];
        assert FullAt(s, run, 1);
      } else {
        ActionSizes(s, run[0], s.cap - 1);
        SealRun(r, run[1..]);
        var k: nat :| FullAt(r, run[1..], k);
        LaterFull(s, run, k);
      }
    }
  }

  /** In every run of a new queue that ends in a finalized one, `used` had at some moment reached the capacity:
      an enqueue finalizes the queue only when it fills the last place. */
  lemma SealedWhenFull<T>(cap: nat, sealable: bool, threads: nat, run: seq<QAction<T>>)
    requires cap >= 1 && QExec(NewQueue<T>(cap, sealable, threads), run).alloc.finalized
    ensures exists k: nat :: FullAt(NewQueue<T>(cap, sealable, threads), run, k)
  {
    SealRun(NewQueue<T>(cap, sealable, threads), run);
  }

  /** A queue that was made sealable stays so, with its capacity and its threads. */
  lemma KeepsMode<T>(cap: nat, sealable: bool, threads: nat, run: seq<QAction<T>>)
    requires cap >= 1
    ensures var s := QExec(NewQueue<T>(cap, sealable, threads), run);
            s.cap == cap && |s.pcs| == threads && (s.alloc.finalizable <==> sealable)
  {
    var s0 := NewQueue<T>(cap, sealable, threads);
    var owner := NewQueueInv<T>(cap, sealable, threads);
    var free, alloc := QueueRuns(s0, run, owner);
    assert SameShape(s0.alloc, QExec(s0, run).alloc);
  }

  // ---------------------------------------------------------------- the answer Closed

  /** The enqueue has been refused by the alloc ring. */
  predicate Turned<T>(pc: QPc<T>) {
    || pc.PutUncount? || pc.PutReadBack? || pc.PutRelease?
    || (pc.PutDone? && pc.result.Closed?)
  }

  ghost predicate TurnedOk<T>(s: Queue<T>) {
    forall i: nat :: i < |s.pcs| && Turned(s.pcs[i]) ==> s.alloc.finalized
  }

  lemma TurnedByAlloc<T>(s: Queue<T>, owner: seq<Place>, i: nat, weak: bool)
    requires QInv(s, owner) && i < |s.pcs| && s.pcs[i].PutAlloc? && Turned(DoStep(s, i, weak).pcs[i])
    ensures s.alloc.finalized
  {
    var pc := s.pcs[i];
    assert DoStep(s, i, weak) == DoPutAlloc(s, i, weak, pc.item, pc.fin, pc.size, pc.pos);
    assert s.alloc.pcs[i].EnqErr?;
    RefusedIfSealed(s, i, owner);
  }

  lemma OnlyRefusalTurns<T>(s: Queue<T>, i: nat, weak: bool)
    requires s.Wf() && i < |s.pcs| && !s.pcs[i].PutAlloc? && !Turned(s.pcs[i])
    ensures !Turned(DoStep(s, i, weak).pcs[i])
  {
    var pc := s.pcs[i];
    if pc.PutFree? {
      PutFreeTurns(s, i, weak);
    } else if pc.GetAlloc? || pc.GetUncount? || pc.GetRead? || pc.GetRelease? {
      GetTurns(s, i, weak);
    }
  }

  lemma GetTurns<T>(s: Queue<T>, i: nat, weak: bool)
    requires s.Wf() && i < |s.pcs|
    requires s.pcs[i].GetAlloc? || s.pcs[i].GetUncount? || s.pcs[i].GetRead? || s.pcs[i].GetRelease?
    ensures !Turned(DoStep(s, i, weak).pcs[i])
  {
  }

  lemma PutFreeTurns<T>(s: Queue<T>, i: nat, weak: bool)
    requires s.Wf() && i < |s.pcs| && s.pcs[i].PutFree?
    ensures !Turned(DoStep(s, i, weak).pcs[i])
  {
  }

  lemma FlagForward<T>(s: Queue<T>, owner: seq<Place>, i: nat, weak: bool)
    requires QInv(s, owner) && i < |s.pcs| && s.alloc.finalized
    ensures DoStep(s, i, weak).alloc.finalized
  {
    assert Coupled(s, i);
    StepMoves(s, i, weak);
    FlagStays(s.alloc, i, weak);
  }

  lemma TurnedStep<T>(s: Queue<T>, owner: seq<Place>, i: nat, weak: bool)
    requires QInv(s, owner) && i < |s.pcs| && TurnedOk(s)
    ensures TurnedOk(DoStep(s, i, weak))
  {
    var r := DoStep(s, i, weak);
    StepSizes(s, i, weak);
    if s.alloc.finalized {
      FlagForward(s, owner, i, weak);
    } else if Turned(r.pcs[i]) {
      if s.pcs[i].PutAlloc? { TurnedByAlloc(s, owner, i, weak); } else { OnlyRefusalTurns(s, i, weak); }
    }
  }

  lemma TurnedAction<T>(s: Queue<T>, owner: seq<Place>, a: QAction<T>)
    requires QInv(s, owner) && TurnedOk(s)
    ensures TurnedOk(QApply(s, a))
  {
    if a.i < |s.pcs| && a.QStep? { TurnedStep(s, owner, a.i, a.weak); }
  }

  lemma {:induction false} TurnedRun<T>(s: Queue<T>, owner: seq<Place>, run: seq<QAction<T>>)
    requires QInv(s, owner) && TurnedOk(s)
    ensures TurnedOk(QExec(s, run))
    decreases run
  {
    if run != [] {
      TurnedAction(s, owner, run[0]);
      var owner' := KeepQAction(s, run[0], owner);
      TurnedRun(QApply(s, run[0]), owner', run[1..]);
    }
  }

  /** In every reachable state, an enqueue is answered Closed, or on its way to that answer, only if the queue
      is finalized. */
  lemma ClosedIsSealed<T(!new)>(s: Queue<T>, i: nat)
    requires QReachable(s) && i < |s.pcs| && Turned(s.pcs[i])
    ensures s.alloc.finalized
  {
    var cap, sealable, threads, run: seq<QAction<T>> :| QReachedBy(s, cap, sealable, threads, run);
    var owner := NewQueueInv<T>(cap, sealable, threads);
    TurnedRun(NewQueue<T>(cap, sealable, threads), owner, run);
  }
}
