/** What the answers of a dequeue of the bounded queue mean, for as many threads as the capacity and one more. */
module BoundedAnswers {
  import opened Tickets
  import opened Counting
  import opened Ring
  import opened RingInvariant
  import opened RingTheorems
  import opened RingSolo
  import opened RingCredit
  import opened BoundedMachine
  import opened BoundedInvariant
  import opened BoundedTheorems
  import opened BoundedSolo
  import opened BoundedDrop
  import opened BoundedOrder

  // ---------------------------------------------------------------- with no operation in flight

  predicate AtRest<T>(s: Queue<T>) {
    forall j: nat :: j < |s.pcs| ==> s.pcs[j].QIdle?
  }

  predicate AllIdle(s: Ring) {
    forall j: nat :: j < |s.pcs| ==> s.pcs[j].Idle?
  }

  lemma RingsAtRest<T>(s: Queue<T>, owner: seq<Place>)
    requires QInv(s, owner) && AtRest(s)
    ensures AllIdle(s.free) && AllIdle(s.alloc) && s.used == Live(s.alloc)
  {
    forall j: nat | j < |s.pcs| ensures s.free.pcs[j].Idle? && s.alloc.pcs[j].Idle? { assert Coupled(s, j); }
    TruesBound(CountFlags(s));
  }

  /** Then the threshold admits every entry that is paid for. */
  lemma Admits(s: Ring, t: nat)
    requires AllIdle(s) && Paid(s) && Ahead(s, t)
    ensures t - s.head <= s.threshold
  {
    assert !Unsettled(s, t);
  }

  lemma EntryIsLive(s: Ring, t: nat)
    requires s.Wf() && Sound(s) && Entry(s.log.inserted, s.log.taken, t)
    ensures Live(s) > 0
  {
    SoundLive(s, t);
    TruesBound(LiveFlags(s));
    assert LiveFlags(s)[Pos(t, s.N())];
  }

  /** The first of the entries of a ring at rest, if there is any. */
  lemma FirstAdmitted(s: Ring)
    requires s.Wf() && Sound(s) && AllIdle(s) && Paid(s)
    ensures var first := FirstEntry(s.log.inserted, s.log.taken, s.head, s.tail);
            if Live(s) == 0 then first.None?
            else first.Some? && first.value - s.head <= s.threshold
                 && forall u: nat :: Entry(s.log.inserted, s.log.taken, u) ==> first.value <= u
  {
    AllAhead(s);
    TruesBound(LiveFlags(s));
    if FirstEntry(s.log.inserted, s.log.taken, s.head, s.tail).Some? {
      EntryIsLive(s, FirstEntry(s.log.inserted, s.log.taken, s.head, s.tail).value);
    }
    if Live(s) > 0 {
      var j: nat :| j < s.N() && LiveFlags(s)[j];
      var t := TicketIn(s, j);
      FirstEntryIsFirst(s.log.inserted, s.log.taken, s.head, s.tail, t);
      var first := FirstEntry(s.log.inserted, s.log.taken, s.head, s.tail).value;
      Admits(s, first);
      forall u: nat | Entry(s.log.inserted, s.log.taken, u) ensures first <= u {
        FirstEntryIsFirst(s.log.inserted, s.log.taken, s.head, s.tail, u);
      }
    }
  }

  // ---------------------------------------------------------------- Some and None

  /** With no operation in flight, and at most as many threads as the capacity and one more, a dequeue running
      alone answers None if and only if the queue is empty, and otherwise the item of the oldest ticket. */
  lemma NoneIffEmpty<T(!new)>(s: Queue<T>, i: nat) returns (k: nat, t: nat)
    requires QReachable(s) && i < |s.pcs| <= s.cap + 1 && AtRest(s)
    ensures s.Wf()
    ensures var r := QExec(s, [CallGet(i)] + QAlone(i, k)).pcs[i];
            if s.used == 0 then r == GetDone(None)
            else && Entry(s.alloc.log.inserted, s.alloc.log.taken, t)
                 && t in s.values && r == GetDone(Some(s.values[t]))
                 && forall u: nat :: Entry(s.alloc.log.inserted, s.alloc.log.taken, u) ==> t <= u
  {
    var owner := QReachableInv(s);
    var free, alloc := ReachableInOrder(s);
    RingsAtRest(s, owner);
    FirstAdmitted(s.alloc);
    k := LoneGet(s, i);
    t := 0;
    if s.used > 0 { t := FirstEntry(s.alloc.log.inserted, s.alloc.log.taken, s.alloc.head, s.alloc.tail).value; }
  }

  lemma FewHoles(a: Ring)
    requires a.Wf() && Sound(a) && AllIdle(a) && Paid(a)
    ensures Suffices(a.log.inserted, a.log.taken, a.head, a.tail, a.threshold)
  {
    var all := Entries(a.log.inserted, a.log.taken, a.head, a.tail);
    if all != [] {
      LastEntry(a.log.inserted, a.log.taken, a.head, a.tail);
      Admits(a, all[|all| - 1]);
      HolesBound(a.log.inserted, a.log.taken, a.head, all[|all| - 1]);
    }
  }

  lemma ReachesAll(a: Ring)
    requires a.Wf() && Sound(a) && AllIdle(a) && Paid(a)
    ensures forall t :: Entry(a.log.inserted, a.log.taken, t)
                   <==> t in Reached(a.log.inserted, a.log.taken, a.head, a.tail, a.threshold)
  {
    AllAhead(a);
    FewHoles(a);
    AllReached(a.log.inserted, a.log.taken, a.head, a.tail, a.threshold);
    forall t: nat
      ensures Entry(a.log.inserted, a.log.taken, t) <==> t in Entries(a.log.inserted, a.log.taken, a.head, a.tail)
    {
      EntriesMember(a.log.inserted, a.log.taken, a.head, a.tail, t);
    }
  }

  /** So a drop drops every item. */
  lemma DropsAll<T(!new)>(s: Queue<T>, i: nat)
    requires QReachable(s) && i < |s.pcs| <= s.cap + 1 && AtRest(s)
    ensures forall t :: Entry(s.alloc.log.inserted, s.alloc.log.taken, t) <==> t in DropTickets(s)
  {
    var owner := QReachableInv(s);
    var free, alloc := ReachableInOrder(s);
    RingsAtRest(s, owner);
    ReachesAll(s.alloc);
  }

  lemma {:induction false} HolesBound(inserted: map<nat, nat>, taken: map<nat, nat>, from: nat, to: nat)
    requires from <= to
    ensures Holes(inserted, taken, from, to) <= to - from
    decreases if from < to then to - from else 0
  {
    if from < to { HolesBound(inserted, taken, from + 1, to); }
  }

  // ---------------------------------------------------------------- None while others are at work

  /** A dequeue of the ring is about to find that it must answer None: through the tail test, or through one of
      the two threshold tests. */
  predicate Fails(s: Ring, i: nat)
    requires i < |s.pcs|
  {
    match s.pcs[i]
    case DeqTail(h) => s.tail <= h + 1
    case DeqCheck => s.threshold < 0
    case DeqRound(_) => s.threshold <= 0
    case _ => false
  }

  lemma HeldTicket(s: Ring, t: nat) returns (k: nat)
    requires s.Wf() && Sound(s) && Entry(s.log.inserted, s.log.taken, t) && t < s.head
    ensures k < |s.pcs| && InLoop(s.pcs[k], t)
  {
    Disclose(s);
    assert LiveAt(s, t, s.log.inserted[t]);
    TicketOfPos(t, s.N());
    assert SlotOk(s, Pos(t, s.N()));
    k := s.log.deqBy[t];
  }

  /** At the tail test every entry is behind head. */
  lemma TailTest(s: Ring, i: nat, t: nat)
    requires s.Wf() && Sound(s) && i < |s.pcs| && s.pcs[i].DeqTail? && s.tail <= s.pcs[i].h + 1
    requires Entry(s.log.inserted, s.log.taken, t)
    ensures t < s.head
  {
    Disclose(s);
    assert PcOk(s, i);
  }

  /** At the two threshold tests every entry ahead of head is unsettled. */
  lemma ThresholdTest(s: Ring, i: nat, t: nat)
    requires s.Wf() && Paid(s) && i < |s.pcs| && Ahead(s, t) && Fails(s, i) && !s.pcs[i].DeqTail?
    ensures Unsettled(s, t)
  {
    if s.pcs[i].DeqRound? { TruesUpdate(FlightFlags(s), i, false); }
  }

  /** Another dequeue holds ticket t, and will take its entry. */
  ghost predicate Claims(s: Ring, i: nat, t: nat) {
    exists k: nat :: k < |s.pcs| && k != i && InLoop(s.pcs[k], t)
  }

  /** When a dequeue fails, every entry is claimed by another one or, but for the tail test, unsettled. */
  lemma FailsJustly(s: Ring, i: nat, t: nat)
    requires s.Wf() && Sound(s) && i < |s.pcs| && Fails(s, i) && (s.pcs[i].DeqTail? || Paid(s))
    requires Entry(s.log.inserted, s.log.taken, t)
    ensures Claims(s, i, t) || (Unsettled(s, t) && !s.pcs[i].DeqTail?)
  {
    if s.pcs[i].DeqTail? { TailTest(s, i, t); }
    if t < s.head {
      var k := HeldTicket(s, t);
    } else {
      ThresholdTest(s, i, t);
    }
  }

  /** Another dequeue holds ticket t, and will take the item. */
  ghost predicate Spoken<T>(s: Queue<T>, i: nat, t: nat)
    requires s.Wf()
  {
    exists k: nat :: k < |s.pcs| && k != i && s.pcs[k].GetAlloc? && InLoop(s.alloc.pcs[k], t)
  }

  /** Thread i is about to find that its dequeue must answer None. */
  ghost predicate Gives<T>(s: Queue<T>, i: nat) {
    s.Wf() && i < |s.pcs| && s.pcs[i].GetAlloc? && Fails(s.alloc, i)
  }

  /** Every item stored belongs to another dequeue or, but for the tail test, to an enqueue that has not
      returned. */
  ghost predicate NothingLeft<T>(s: Queue<T>, i: nat) {
    && s.Wf() && i < |s.pcs|
    && forall t: nat :: Entry(s.alloc.log.inserted, s.alloc.log.taken, t) ==>
         && t in s.values && s.Filled(s.alloc.log.inserted[t])
         && (Spoken(s, i, t) || (Unsettled(s.alloc, t) && !s.alloc.pcs[i].DeqTail?))
  }

  lemma ClaimIsSpoken<T>(s: Queue<T>, owner: seq<Place>, i: nat, t: nat)
    requires QInv(s, owner) && Claims(s.alloc, i, t)
    ensures Spoken(s, i, t)
  {
    var k: nat :| k < |s.alloc.pcs| && k != i && InLoop(s.alloc.pcs[k], t);
    assert Coupled(s, k);
  }

  lemma GivesJustly<T>(s: Queue<T>, owner: seq<Place>, i: nat)
    requires QInv(s, owner) && Gives(s, i) && (s.alloc.pcs[i].DeqTail? || Paid(s.alloc))
    ensures NothingLeft(s, i)
  {
    IsStocked(s, owner);
    forall t: nat | Entry(s.alloc.log.inserted, s.alloc.log.taken, t)
      ensures Spoken(s, i, t) || (Unsettled(s.alloc, t) && !s.alloc.pcs[i].DeqTail?)
    {
      FailsJustly(s.alloc, i, t);
      if Claims(s.alloc, i, t) { ClaimIsSpoken(s, owner, i, t); }
    }
  }

  predicate Leaving(pc: Pc) {
    pc.CatchCas? || pc.CatchHead? || pc.CatchTail? || pc.DeqEmpty? || pc.DeqNone?
  }

  /** Thread i has found that it must answer None, and is on its way to that answer. */
  predicate Giving<T>(s: Queue<T>, i: nat) {
    && s.Wf() && i < |s.pcs|
    && (s.pcs[i].GetDone? ==> s.pcs[i].value.None?)
    && (s.pcs[i].GetDone? || (s.pcs[i].GetAlloc? && Leaving(s.alloc.pcs[i])))
  }

  lemma LeavingStep(s: Ring, i: nat, weak: bool)
    requires s.Wf() && i < |s.pcs| && Leaving(StepThread(s, i, weak).pcs[i]) && !Leaving(s.pcs[i])
    ensures Fails(s, i)
  {
    if s.pcs[i].DeqLoad? || s.pcs[i].DeqTake? || s.pcs[i].DeqCas? { EdgeSlot(s, i, weak); }
  }

  /** What thread i does is its own affair. */
  ghost predicate Untouched<T>(s: Queue<T>, r: Queue<T>, i: nat) {
    i < |s.pcs| == |r.pcs| && |s.alloc.pcs| == |r.alloc.pcs| && r.pcs[i] == s.pcs[i]
    && |s.free.pcs| == |r.free.pcs| && (i < |s.alloc.pcs| ==> r.alloc.pcs[i] == s.alloc.pcs[i])
    && (i < |s.free.pcs| ==> r.free.pcs[i] == s.free.pcs[i])
  }

  lemma EnterByOther<T>(s: Queue<T>, k: nat, weak: bool, i: nat)
    requires s.Wf() && k < |s.pcs| && i < |s.pcs| && k != i
    requires s.pcs[k].PutCount? || s.pcs[k].PutFull? || s.pcs[k].PutFree?
    ensures Untouched(s, DoStep(s, k, weak), i)
  {
  }

  lemma PutByOther<T>(s: Queue<T>, k: nat, weak: bool, i: nat)
    requires s.Wf() && k < |s.pcs| && i < |s.pcs| && k != i && (s.pcs[k].PutWrite? || s.pcs[k].PutAlloc?)
    ensures Untouched(s, DoStep(s, k, weak), i)
  {
  }

  lemma StepByOther<T>(s: Queue<T>, k: nat, weak: bool, i: nat)
    requires s.Wf() && k < |s.pcs| && i < |s.pcs| && k != i
    ensures Untouched(s, DoStep(s, k, weak), i)
  {
    var pc := s.pcs[k];
    if pc.PutCount? || pc.PutFull? || pc.PutFree? {
      EnterByOther(s, k, weak, i);
    } else if pc.PutWrite? || pc.PutAlloc? {
      PutByOther(s, k, weak, i);
    } else if pc.PutUncount? || pc.PutReadBack? || pc.PutRelease? || pc.PutSeal? {
      RefusalByOther(s, k, weak, i);
    }
  }

  lemma RefusalByOther<T>(s: Queue<T>, k: nat, weak: bool, i: nat)
    requires s.Wf() && k < |s.pcs| && i < |s.pcs| && k != i
    requires s.pcs[k].PutUncount? || s.pcs[k].PutReadBack? || s.pcs[k].PutRelease? || s.pcs[k].PutSeal?
    ensures Untouched(s, DoStep(s, k, weak), i)
  {
  }

  predicate NotGiving<T>(pc: QPc<T>) { !pc.GetAlloc? && (pc.GetDone? ==> pc.value.Some?) }

  lemma PutGivesNothing<T>(s: Queue<T>, i: nat, weak: bool)
    requires s.Wf() && i < |s.pcs| && (s.pcs[i].PutWrite? || s.pcs[i].PutAlloc?)
    ensures NotGiving(DoStep(s, i, weak).pcs[i])
  {
  }

  lemma FreeGivesNothing<T>(s: Queue<T>, i: nat, weak: bool)
    requires s.Wf() && i < |s.pcs| && (s.pcs[i].PutFree? || s.pcs[i].PutRelease? || s.pcs[i].GetRelease?)
    ensures NotGiving(DoStep(s, i, weak).pcs[i])
  {
  }

  /** Only inside the alloc ring a dequeue finds that it must answer None. */
  lemma OtherGivesNothing<T>(s: Queue<T>, i: nat, weak: bool)
    requires s.Wf() && i < |s.pcs| && !s.pcs[i].GetAlloc? && !s.pcs[i].GetDone?
    ensures NotGiving(DoStep(s, i, weak).pcs[i])
  {
    var pc := s.pcs[i];
    if pc.PutWrite? || pc.PutAlloc? {
      PutGivesNothing(s, i, weak);
    } else if pc.PutFree? || pc.PutRelease? || pc.GetRelease? {
      FreeGivesNothing(s, i, weak);
    }
  }

  lemma CallGivesNothing<T>(s: Queue<T>, a: QAction<T>, i: nat)
    requires s.Wf() && !a.QStep? && Giving(QApply(s, a), i)
    ensures Giving(s, i)
  {
  }

  lemma GivingOther<T>(s: Queue<T>, a: QAction<T>, i: nat)
    requires s.Wf() && Giving(QApply(s, a), i) && !Giving(s, i)
    ensures a == QStep(i, a.weak) && s.pcs[i].GetAlloc? && Giving(DoStep(s, i, a.weak), i)
  {
    if !a.QStep? {
      CallGivesNothing(s, a, i);
    } else if a.i < |s.pcs| {
      if a.i != i {
        StepByOther(s, a.i, a.weak, i);
      } else if !s.pcs[i].GetAlloc? && !s.pcs[i].GetDone? {
        OtherGivesNothing(s, i, a.weak);
      }
    }
  }

  lemma GivingStep<T>(s: Queue<T>, a: QAction<T>, i: nat)
    requires s.Wf() && Giving(QApply(s, a), i) && !Giving(s, i)
    ensures Gives(s, i)
  {
    GivingOther(s, a, i);
    assert DoStep(s, i, a.weak) == DoGetAlloc(s, i, a.weak);
    LeavingStep(s.alloc, i, a.weak);
  }

  /** The moment after k actions: thread i finds that it must answer None, nothing is left for it, and it goes
      on to that answer. */
  ghost predicate Moment<T>(s0: Queue<T>, run: seq<QAction<T>>, i: nat, k: nat) {
    && s0.Wf() && k < |run|
    && var s := QExec(s0, run[..k]);
       && Gives(s, i) && (s.alloc.pcs[i].DeqTail? || |s.pcs| <= s.cap + 1 ==> NothingLeft(s, i))
       && forall m: nat :: k < m <= |run| ==> Giving(QExec(s0, run[..m]), i)
  }

  lemma RunReachable<T(!new)>(s: Queue<T>, run: seq<QAction<T>>)
    requires QReachable(s) && s.Wf()
    ensures QReachable(QExec(s, run))
  {
    var cap, sealable, threads, before: seq<QAction<T>> :| QReachedBy(s, cap, sealable, threads, before);
    QExecAppend(NewQueue<T>(cap, sealable, threads), before, run);
    assert QReachedBy(QExec(s, run), cap, sealable, threads, before + run);
  }

  lemma MomentOf<T(!new)>(s: Queue<T>, i: nat)
    requires QReachable(s) && Gives(s, i)
    ensures s.alloc.pcs[i].DeqTail? || |s.pcs| <= s.cap + 1 ==> NothingLeft(s, i)
  {
    var owner := QReachableInv(s);
    var free, alloc := ReachableInOrder(s);
    if s.alloc.pcs[i].DeqTail? || |s.pcs| <= s.cap + 1 { GivesJustly(s, owner, i); }
  }

  lemma LastAction<T>(s: Queue<T>, run: seq<QAction<T>>, a: QAction<T>)
    requires s.Wf()
    ensures QExec(s, run + [a]) == QApply(QExec(s, run), a)
  {
    QExecAppend(s, run, [a]);
    assert [a] + [] == [a];
    QExecCons(QExec(s, run), a, []);
  }

  lemma MomentStays<T>(s0: Queue<T>, run: seq<QAction<T>>, i: nat, k: nat)
    requires run != [] && Moment(s0, run[..|run| - 1], i, k) && Giving(QExec(s0, run), i)
    ensures Moment(s0, run, i, k)
  {
    var last := |run| - 1;
    assert run[..last][..k] == run[..k];
    forall m: nat | k < m <= |run| ensures Giving(QExec(s0, run[..m]), i) {
      if m < |run| { assert run[..last][..m] == run[..m]; } else { assert run[..m] == run; }
    }
  }

  lemma JustGiven<T(!new)>(s: Queue<T>, a: QAction<T>, i: nat)
    requires QReachable(s) && s.Wf() && Giving(QApply(s, a), i) && !Giving(s, i)
    ensures Gives(s, i) && (s.alloc.pcs[i].DeqTail? || |s.pcs| <= s.cap + 1 ==> NothingLeft(s, i))
  {
    GivingStep(s, a, i);
    MomentOf(s, i);
  }

  lemma LastMoment<T>(s0: Queue<T>, run: seq<QAction<T>>, i: nat, s: Queue<T>)
    requires s0.Wf() && run != [] && s == QExec(s0, run[..|run| - 1]) && Giving(QExec(s0, run), i)
    requires Gives(s, i) && (s.alloc.pcs[i].DeqTail? || |s.pcs| <= s.cap + 1 ==> NothingLeft(s, i))
    ensures Moment(s0, run, i, |run| - 1)
  {
    assert run[..|run|] == run;
  }

  lemma MomentNow<T(!new)>(s0: Queue<T>, run: seq<QAction<T>>, i: nat, s: Queue<T>)
    requires QReachable(s0) && s0.Wf() && run != [] && s == QExec(s0, run[..|run| - 1])
    requires Giving(QExec(s0, run), i) && !Giving(s, i)
    ensures Moment(s0, run, i, |run| - 1)
  {
    var last := |run| - 1;
    assert run == run[..last] + [run[last]];
    LastAction(s0, run[..last], run[last]);
    RunReachable(s0, run[..last]);
    JustGiven(s, run[last], i);
    LastMoment(s0, run, i, s);
  }

  /** In every run, whoever answers None was entitled to: at some moment of the same call every item stored
      belonged to another dequeue or, if it was a threshold test that failed, to an enqueue that had not
      returned.  The tail test is right for any number of threads, and the threshold tests are for at most as
      many as the capacity and one more. */
  lemma {:induction false} NoneIsJust<T(!new)>(s0: Queue<T>, run: seq<QAction<T>>, i: nat)
    requires QReachable(s0) && s0.Wf() && i < |s0.pcs| && s0.pcs[i].QIdle? && Giving(QExec(s0, run), i)
    ensures exists k: nat :: Moment(s0, run, i, k)
    decreases |run|
  {
    if run != [] {
      var last := |run| - 1;
      if Giving(QExec(s0, run[..last]), i) {
        NoneIsJust(s0, run[..last], i);
        var k: nat :| Moment(s0, run[..last], i, k);
        MomentStays(s0, run, i, k);
      } else {
        MomentNow(s0, run, i, QExec(s0, run[..last]));
      }
    }
  }
}
