/** What the answer Full of an enqueue means, in every run and for any number of threads: at some moment of the
    call `used` had reached the capacity, or every free index was another operation's. */
module BoundedFull {
  import opened Ring
  import opened RingInvariant
  import opened RingCredit
  import opened BoundedMachine
  import opened BoundedInvariant
  import opened BoundedTheorems
  import opened BoundedDrop
  import opened BoundedOrder
  import opened BoundedAnswers

  // ---------------------------------------------------------------- the moment

  /** Thread i is about to find that its enqueue must answer Full: at the counter, or in the free ring. */
  ghost predicate Wants<T>(s: Queue<T>, i: nat) {
    && s.Wf() && i < |s.pcs|
    && ((s.pcs[i].PutCount? && s.used >= s.cap) || (s.pcs[i].PutFree? && Fails(s.free, i)))
  }

  /** Another enqueue holds the ticket of the free index, or an operation that has not returned is giving
      it back. */
  ghost predicate Elsewhere<T>(s: Queue<T>, i: nat, t: nat)
    requires s.Wf() && t in s.free.log.inserted
  {
    || (exists k: nat :: k < |s.pcs| && k != i && s.pcs[k].PutFree? && InLoop(s.free.pcs[k], t))
    || (exists k: nat :: k < |s.pcs| && (s.pcs[k].PutRelease? || s.pcs[k].GetRelease?)
                         && s.pcs[k].pos == s.free.log.inserted[t])
  }

  /** There is no place for the item: as many items as the capacity are counted, or no free index is left. */
  ghost predicate NoPlace<T>(s: Queue<T>, i: nat) {
    && s.Wf() && i < |s.pcs|
    && (s.pcs[i].PutCount? ==> s.used >= s.cap)
    && (s.pcs[i].PutFree? ==>
          forall t: nat :: Entry(s.free.log.inserted, s.free.log.taken, t) ==> Elsewhere(s, i, t))
  }

  lemma ClaimedByPut<T>(s: Queue<T>, owner: seq<Place>, i: nat, t: nat)
    requires QInv(s, owner) && Claims(s.free, i, t)
    ensures exists k: nat :: k < |s.pcs| && k != i && s.pcs[k].PutFree? && InLoop(s.free.pcs[k], t)
  {
    var k: nat :| k < |s.free.pcs| && k != i && InLoop(s.free.pcs[k], t);
    assert Coupled(s, k);
  }

  lemma ReturnedByOther<T>(s: Queue<T>, owner: seq<Place>, t: nat)
    requires QInv(s, owner) && t in s.free.log.inserted && Unsettled(s.free, t)
    ensures exists k: nat :: k < |s.pcs| && (s.pcs[k].PutRelease? || s.pcs[k].GetRelease?)
                             && s.pcs[k].pos == s.free.log.inserted[t]
  {
    var k := Releases(s.free, t);
    assert Coupled(s, k);
  }

  lemma Releases(s: Ring, t: nat) returns (k: nat)
    requires s.Wf() && Sound(s) && t in s.log.inserted && Unsettled(s, t)
    ensures k < |s.pcs| && (s.pcs[k].EnqThreshold? || s.pcs[k].EnqStore?) && s.pcs[k].x == s.log.inserted[t]
  {
    Disclose(s);
    k :| k < |s.pcs| && (s.pcs[k].EnqThreshold? || s.pcs[k].EnqStore?) && s.pcs[k].t == t;
    assert PcOk(s, k);
  }

  lemma FreeFails<T>(s: Queue<T>, owner: seq<Place>, i: nat, t: nat)
    requires QInv(s, owner) && Paid(s.free) && i < |s.pcs| && Fails(s.free, i)
    requires Entry(s.free.log.inserted, s.free.log.taken, t)
    ensures Elsewhere(s, i, t)
  {
    FailsJustly(s.free, i, t);
    if Claims(s.free, i, t) { ClaimedByPut(s, owner, i, t); } else { ReturnedByOther(s, owner, t); }
  }

  lemma WantsJustly<T(!new)>(s: Queue<T>, i: nat)
    requires QReachable(s) && Wants(s, i)
    ensures NoPlace(s, i)
  {
    var owner := QReachableInv(s);
    var free, alloc := ReachableInOrder(s);
    if s.pcs[i].PutFree? {
      forall t: nat | Entry(s.free.log.inserted, s.free.log.taken, t) ensures Elsewhere(s, i, t) {
        FreeFails(s, owner, i, t);
      }
    }
  }

  // ---------------------------------------------------------------- from the moment to the answer

  /** Thread i has found that it must answer Full, and is on its way to that answer. */
  predicate Refusing<T>(s: Queue<T>, i: nat) {
    && s.Wf() && i < |s.pcs|
    && (|| s.pcs[i].PutFull? || (s.pcs[i].PutDone? && s.pcs[i].result.Full?)
        || (s.pcs[i].PutFree? && Leaving(s.free.pcs[i])))
  }

  predicate NotFull<T>(pc: QPc<T>) { !pc.PutFull? && !pc.PutFree? && (pc.PutDone? ==> !pc.result.Full?) }

  lemma AllocGivesNotFull<T>(s: Queue<T>, i: nat, weak: bool)
    requires s.Wf() && i < |s.pcs| && (s.pcs[i].PutWrite? || s.pcs[i].PutAlloc?)
    ensures NotFull(DoStep(s, i, weak).pcs[i])
  {
  }

  lemma GetGivesNotFull<T>(s: Queue<T>, i: nat, weak: bool)
    requires s.Wf() && i < |s.pcs| && (s.pcs[i].GetAlloc? || s.pcs[i].GetUncount? || s.pcs[i].GetRead?)
    ensures NotFull(DoStep(s, i, weak).pcs[i])
  {
  }

  lemma ReleaseGivesNotFull<T>(s: Queue<T>, i: nat, weak: bool)
    requires s.Wf() && i < |s.pcs| && (s.pcs[i].PutRelease? || s.pcs[i].GetRelease?)
    ensures NotFull(DoStep(s, i, weak).pcs[i])
  {
  }

  lemma OtherGivesNotFull<T>(s: Queue<T>, i: nat, weak: bool)
    requires s.Wf() && i < |s.pcs| && NotFull(s.pcs[i]) && !s.pcs[i].PutCount?
    ensures NotFull(DoStep(s, i, weak).pcs[i])
  {
    var pc := s.pcs[i];
    if pc.PutWrite? || pc.PutAlloc? {
      AllocGivesNotFull(s, i, weak);
    } else if pc.GetAlloc? || pc.GetUncount? || pc.GetRead? {
      GetGivesNotFull(s, i, weak);
    } else if pc.PutRelease? || pc.GetRelease? {
      ReleaseGivesNotFull(s, i, weak);
    }
  }

  lemma CallIsNotFull<T>(s: Queue<T>, a: QAction<T>, i: nat)
    requires s.Wf() && !a.QStep? && Refusing(QApply(s, a), i)
    ensures Refusing(s, i)
  {
  }

  lemma RefusingOther<T>(s: Queue<T>, a: QAction<T>, i: nat)
    requires s.Wf() && Refusing(QApply(s, a), i) && !Refusing(s, i)
    ensures a == QStep(i, a.weak) && (s.pcs[i].PutCount? || s.pcs[i].PutFree?) && Refusing(DoStep(s, i, a.weak), i)
  {
    if !a.QStep? {
      CallIsNotFull(s, a, i);
    } else if a.i < |s.pcs| {
      if a.i != i {
        StepByOther(s, a.i, a.weak, i);
      } else if NotFull(s.pcs[i]) && !s.pcs[i].PutCount? {
        OtherGivesNotFull(s, i, a.weak);
      }
    }
  }

  lemma RefusingStep<T>(s: Queue<T>, a: QAction<T>, i: nat)
    requires s.Wf() && Refusing(QApply(s, a), i) && !Refusing(s, i)
    ensures Wants(s, i)
  {
    RefusingOther(s, a, i);
    var pc := s.pcs[i];
    if pc.PutFree? {
      assert DoStep(s, i, a.weak) == DoPutFree(s, i, a.weak, pc.item, pc.fin, pc.size);
      LeavingStep(s.free, i, a.weak);
    } else {
      assert DoStep(s, i, a.weak) == DoPutCount(s, i, pc.item, pc.fin);
    }
  }

  // ---------------------------------------------------------------- runs

  /** The moment after k actions: thread i finds that it must answer Full, there is no place for its item, and
      it goes on to that answer. */
  ghost predicate FullMoment<T>(s0: Queue<T>, run: seq<QAction<T>>, i: nat, k: nat) {
    && s0.Wf() && k < |run| && Wants(QExec(s0, run[..k]), i) && NoPlace(QExec(s0, run[..k]), i)
    && forall m: nat :: k < m <= |run| ==> Refusing(QExec(s0, run[..m]), i)
  }

  lemma FullStays<T>(s0: Queue<T>, run: seq<QAction<T>>, i: nat, k: nat)
    requires run != [] && FullMoment(s0, run[..|run| - 1], i, k) && Refusing(QExec(s0, run), i)
    ensures FullMoment(s0, run, i, k)
  {
    var last := |run| - 1;
    assert run[..last][..k] == run[..k];
    forall m: nat | k < m <= |run| ensures Refusing(QExec(s0, run[..m]), i) {
      if m < |run| { assert run[..last][..m] == run[..m]; } else { assert run[..m] == run; }
    }
  }

  lemma LastFull<T>(s0: Queue<T>, run: seq<QAction<T>>, i: nat, s: Queue<T>)
    requires s0.Wf() && run != [] && s == QExec(s0, run[..|run| - 1]) && Refusing(QExec(s0, run), i)
    requires Wants(s, i) && NoPlace(s, i)
    ensures FullMoment(s0, run, i, |run| - 1)
  {
    assert run[..|run|] == run;
  }

  lemma FullNow<T(!new)>(s0: Queue<T>, run: seq<QAction<T>>, i: nat, s: Queue<T>)
    requires QReachable(s0) && s0.Wf() && run != [] && s == QExec(s0, run[..|run| - 1])
    requires Refusing(QExec(s0, run), i) && !Refusing(s, i)
    ensures FullMoment(s0, run, i, |run| - 1)
  {
    var last := |run| - 1;
    assert run == run[..last] + [run[last]];
    LastAction(s0, run[..last], run[last]);
    RunReachable(s0, run[..last]);
    RefusingStep(s, run[last], i);
    WantsJustly(s, i);
    LastFull(s0, run, i, s);
  }

  /** In every run, for any number of threads, whoever answers Full was entitled to: at some moment of the same
      call `used` was at least the capacity, or every free index was held by another enqueue or being given back
      by an operation that had not returned. */
  lemma {:induction false} FullIsJust<T(!new)>(s0: Queue<T>, run: seq<QAction<T>>, i: nat)
    requires QReachable(s0) && s0.Wf() && i < |s0.pcs| && s0.pcs[i].QIdle? && Refusing(QExec(s0, run), i)
    ensures exists k: nat :: FullMoment(s0, run, i, k)
    decreases |run|
  {
    if run != [] {
      var last := |run| - 1;
      if Refusing(QExec(s0, run[..last]), i) {
        FullIsJust(s0, run[..last], i);
        var k: nat :| FullMoment(s0, run[..last], i, k);
        FullStays(s0, run, i, k);
      } else {
        FullNow(s0, run, i, QExec(s0, run[..last]));
      }
    }
  }
}
