/** What the answer of a call means for the history of the queue, over every run: an enqueue that answers
    Stored has put its argument in under exactly one ticket, which it drew itself, and one that answers Full or
    Closed gives its argument back and has put in nothing; a dequeue that answers an item has read exactly that
    one, and one that answers None has read nothing. */
module BoundedCalls {
  import opened Ring
  import opened RingInvariant
  import opened RingTheorems
  import opened BoundedMachine
  import opened BoundedInvariant
  import opened BoundedTheorems
  import opened BoundedFifo
  import opened BoundedSolo
  import opened BoundedAnswers

  // ---------------------------------------------------------------- the tickets of a thread

  /** Since s0, thread i has put an item in with ticket t, which it drew since then. */
  ghost predicate Put<T>(s0: Queue<T>, s: Queue<T>, i: nat, t: nat) {
    t in s.values && t !in s0.values && t in s.alloc.log.enqBy && s.alloc.log.enqBy[t] == i
  }

  ghost predicate PutNothing<T>(s0: Queue<T>, s: Queue<T>, i: nat) {
    forall t: nat :: !Put(s0, s, i, t)
  }

  ghost predicate PutOnly<T>(s0: Queue<T>, s: Queue<T>, i: nat, t: nat, item: T) {
    && Put(s0, s, i, t) && s.values[t] == item && s0.alloc.tail <= t
    && forall u: nat :: Put(s0, s, i, u) ==> u == t
  }

  /** Tail tickets have owners that do not change, and new ones are those drawn. */
  ghost predicate OwnersGrow(a: Ring, b: Ring, k: nat) {
    && a.tail <= b.tail
    && (b.log.enqBy == a.log.enqBy || b.log.enqBy == a.log.enqBy[a.tail := k])
  }

  lemma EnqueueOwners(a: Ring, k: nat, weak: bool)
    requires a.Wf() && k < |a.pcs| && InEnqueue(a.pcs[k])
    ensures OwnersGrow(a, StepThread(a, k, weak), k)
  {
  }

  lemma DequeueOwners(a: Ring, k: nat, weak: bool)
    requires a.Wf() && k < |a.pcs| && !InEnqueue(a.pcs[k])
    ensures StepThread(a, k, weak).log.enqBy == a.log.enqBy
  {
    var pc := a.pcs[k];
    if pc.DeqLoad? {
      assert StepThread(a, k, weak) == StepDeqLoad(a, k, pc.h, pc.attempt);
    } else if pc.DeqTake? {
      assert StepThread(a, k, weak) == StepDeqTake(a, k, pc.h, pc.e);
    } else if pc.DeqCas? {
      assert StepThread(a, k, weak) == StepDeqCas(a, k, weak, pc.h, pc.attempt, pc.e, pc.new');
    }
  }

  lemma StepOwners(a: Ring, k: nat, weak: bool)
    requires a.Wf() && Sound(a) && k < |a.pcs|
    ensures OwnersGrow(a, StepThread(a, k, weak), k)
  {
    Disclose(a);
    KeepStep(a, k, weak);
    if InEnqueue(a.pcs[k]) { EnqueueOwners(a, k, weak); } else { DequeueOwners(a, k, weak); }
  }

  /** What a step of thread k does to the history: it may put one item in, with a ticket that it holds. */
  ghost predicate Notes<T>(s: Queue<T>, r: Queue<T>, k: nat) {
    && OwnersGrow(s.alloc, r.alloc, k)
    && (r.values == s.values || PutsItem(s, r, k))
  }

  ghost predicate PutsItem<T>(s: Queue<T>, r: Queue<T>, k: nat) {
    && k < |s.pcs| && k < |s.alloc.pcs| && k < |r.alloc.pcs|
    && s.pcs[k].PutAlloc? && s.alloc.pcs[k].EnqCas? && r.alloc.pcs[k].EnqThreshold?
    && r.values == s.values[s.alloc.pcs[k].t := s.pcs[k].item]
  }

  lemma ValuesOfPut<T>(s: Queue<T>, k: nat, weak: bool)
    requires s.Wf() && k < |s.pcs| && !s.pcs[k].PutAlloc?
    requires s.pcs[k].PutCount? || s.pcs[k].PutFull? || s.pcs[k].PutFree? || s.pcs[k].PutWrite?
    ensures DoStep(s, k, weak).values == s.values
  {
  }

  lemma ValuesOfAlloc<T>(s: Queue<T>, k: nat, weak: bool)
    requires s.Wf() && k < |s.pcs| && s.pcs[k].PutAlloc?
    ensures DoStep(s, k, weak).values == s.values || PutsItem(s, DoStep(s, k, weak), k)
  {
    var pc := s.pcs[k];
    assert DoStep(s, k, weak) == DoPutAlloc(s, k, weak, pc.item, pc.fin, pc.size, pc.pos);
  }

  lemma ValuesOfRest<T>(s: Queue<T>, k: nat, weak: bool)
    requires s.Wf() && k < |s.pcs| && !s.pcs[k].PutAlloc?
    requires !(s.pcs[k].PutCount? || s.pcs[k].PutFull? || s.pcs[k].PutFree? || s.pcs[k].PutWrite?)
    ensures DoStep(s, k, weak).values == s.values
  {
  }

  lemma ValuesOfStep<T>(s: Queue<T>, k: nat, weak: bool)
    requires s.Wf() && k < |s.pcs|
    ensures DoStep(s, k, weak).values == s.values || PutsItem(s, DoStep(s, k, weak), k)
  {
    var pc := s.pcs[k];
    if pc.PutAlloc? {
      ValuesOfAlloc(s, k, weak);
    } else if pc.PutCount? || pc.PutFull? || pc.PutFree? || pc.PutWrite? {
      ValuesOfPut(s, k, weak);
    } else {
      ValuesOfRest(s, k, weak);
    }
  }

  lemma StepNotes<T>(s: Queue<T>, owner: seq<Place>, k: nat, weak: bool)
    requires QInv(s, owner) && k < |s.pcs|
    ensures Notes(s, DoStep(s, k, weak), k)
  {
    assert Coupled(s, k);
    StepMoves(s, k, weak);
    StepOwners(s.alloc, k, weak);
    ValuesOfStep(s, k, weak);
  }

  lemma HeldTail(a: Ring, k: nat)
    requires a.Wf() && Sound(a) && k < |a.pcs| && a.pcs[k].EnqCas?
    ensures var t := a.pcs[k].t; t !in a.log.inserted && t in a.log.enqBy && a.log.enqBy[t] == k
  {
    Disclose(a);
    assert PcOk(a, k);
  }

  /** Tickets in the history have been drawn. */
  lemma OldTickets<T>(s: Queue<T>, owner: seq<Place>)
    requires QInv(s, owner)
    ensures forall t: nat :: t in s.values ==> t < s.alloc.tail && t in s.alloc.log.inserted
  {
    Disclose(s.alloc);
  }

  lemma PutStays<T>(s0: Queue<T>, s: Queue<T>, r: Queue<T>, owner: seq<Place>, i: nat, k: nat)
    requires QInv(s, owner) && Notes(s, r, k) && (i != k || r.values == s.values)
    ensures forall t: nat :: Put(s0, r, i, t) <==> Put(s0, s, i, t)
  {
    OldTickets(s, owner);
    if r.values != s.values { HeldTail(s.alloc, k); }
  }

  lemma PutNew<T>(s0: Queue<T>, s: Queue<T>, r: Queue<T>, owner: seq<Place>, i: nat)
    requires QInv(s, owner) && Notes(s, r, i) && PutsItem(s, r, i) && PutNothing(s0, s, i)
    requires s.alloc.pcs[i].t !in s0.values && s0.alloc.tail <= s.alloc.pcs[i].t
    ensures PutOnly(s0, r, i, s.alloc.pcs[i].t, s.pcs[i].item)
  {
    OldTickets(s, owner);
    HeldTail(s.alloc, i);
    var t := s.alloc.pcs[i].t;
    forall u: nat | Put(s0, r, i, u) ensures u == t { assert u != t ==> Put(s0, s, i, u); }
  }

  // ---------------------------------------------------------------- an enqueue

  /** What the enqueue of `item` that thread i began in state s0 has done, by where the thread stands. */
  ghost predicate PutSoFar<T>(s0: Queue<T>, s: Queue<T>, i: nat, item: T) {
    && s.Wf() && i < |s.pcs| && s0.alloc.tail <= s.alloc.tail && (forall t: nat :: t in s0.values ==> t in s.values)
    && match s.pcs[i]
       case QIdle => true
       case PutCount(v, _) => v == item && PutNothing(s0, s, i)
       case PutFull(v) => v == item && PutNothing(s0, s, i)
       case PutFree(v, _, _) => v == item && PutNothing(s0, s, i)
       case PutWrite(v, _, _, _) => v == item && PutNothing(s0, s, i)
       case PutAlloc(v, _, _, _) => v == item && AllocSoFar(s0, s, i, item)
       case PutUncount(v, _) => v == item && PutNothing(s0, s, i)
       case PutReadBack(v, _) => v == item && PutNothing(s0, s, i)
       case PutRelease(v, _) => v == item && PutNothing(s0, s, i)
       case PutSeal => exists t: nat :: PutOnly(s0, s, i, t, item)
       case PutDone(Stored) => exists t: nat :: PutOnly(s0, s, i, t, item)
       case PutDone(Full(v)) => v == item && PutNothing(s0, s, i)
       case PutDone(Closed(v)) => v == item && PutNothing(s0, s, i)
       case _ => false
  }

  ghost predicate AllocSoFar<T>(s0: Queue<T>, s: Queue<T>, i: nat, item: T)
    requires s.Wf() && i < |s.pcs|
  {
    var pc := s.alloc.pcs[i];
    && (forall t: nat :: HasTicket(pc, t) ==> s0.alloc.tail <= t)
    && (NotIn(pc) || pc.EnqErr? ==> PutNothing(s0, s, i))
    && (pc.EnqThreshold? || pc.EnqStore? || pc.EnqOk? ==> PutOnly(s0, s, i, pc.t, item))
  }

  /** What another thread does changes nothing of it. */
  lemma OtherPut<T>(s0: Queue<T>, s: Queue<T>, r: Queue<T>, owner: seq<Place>, i: nat, k: nat, item: T)
    requires QInv(s, owner) && PutSoFar(s0, s, i, item) && r.Wf() && Untouched(s, r, i) && Notes(s, r, k) && i != k
    ensures PutSoFar(s0, r, i, item)
  {
    PutStays(s0, s, r, owner, i, k);
    forall t: nat | PutOnly(s0, s, i, t, item) ensures PutOnly(s0, r, i, t, item) {
      KeepsItem(s0, s, r, owner, i, k, t);
    }
  }

  lemma KeepsItem<T>(s0: Queue<T>, s: Queue<T>, r: Queue<T>, owner: seq<Place>, i: nat, k: nat, t: nat)
    requires QInv(s, owner) && Notes(s, r, k) && Put(s0, s, i, t)
    ensures t in r.values && r.values[t] == s.values[t]
  {
    OldTickets(s, owner);
    if r.values != s.values { HeldTail(s.alloc, k); }
  }

  /** A step of the thread itself that puts nothing in. */
  lemma PlainPut<T>(s0: Queue<T>, s: Queue<T>, r: Queue<T>, owner: seq<Place>, i: nat)
    requires QInv(s, owner) && Notes(s, r, i) && r.values == s.values
    ensures PutNothing(s0, s, i) ==> PutNothing(s0, r, i)
    ensures forall t: nat, item: T :: PutOnly(s0, s, i, t, item) ==> PutOnly(s0, r, i, t, item)
  {
    PutStays(s0, s, r, owner, i, i);
  }

  lemma EnterMoves<T>(s0: Queue<T>, s: Queue<T>, r: Queue<T>, i: nat, weak: bool, item: T)
    requires s.Wf() && PutSoFar(s0, s, i, item) && r == DoStep(s, i, weak) && s0.alloc.tail <= r.alloc.tail
    requires s.pcs[i].PutCount? || s.pcs[i].PutFull? || s.pcs[i].PutFree? || s.pcs[i].PutWrite?
    requires s.pcs[i].PutWrite? ==> s.pcs[i].pos < s.cap
    requires PutNothing(s0, s, i) ==> PutNothing(s0, r, i)
    ensures PutSoFar(s0, r, i, item)
  {
  }

  lemma EnterStep<T>(s0: Queue<T>, s: Queue<T>, owner: seq<Place>, i: nat, weak: bool, item: T)
    requires QInv(s, owner) && PutSoFar(s0, s, i, item)
    requires s.pcs[i].PutCount? || s.pcs[i].PutFull? || s.pcs[i].PutFree? || s.pcs[i].PutWrite?
    ensures PutSoFar(s0, DoStep(s, i, weak), i, item)
  {
    StepNotes(s, owner, i, weak);
    PlainPut(s0, s, DoStep(s, i, weak), owner, i);
    assert HeldBy(s, i).Some? ==> HeldBy(s, i).value < s.cap;
    EnterMoves(s0, s, DoStep(s, i, weak), i, weak, item);
  }

  lemma LeaveStep<T>(s0: Queue<T>, s: Queue<T>, owner: seq<Place>, i: nat, weak: bool, item: T)
    requires QInv(s, owner) && PutSoFar(s0, s, i, item)
    requires s.pcs[i].PutUncount? || s.pcs[i].PutReadBack? || s.pcs[i].PutRelease?
    ensures PutSoFar(s0, DoStep(s, i, weak), i, item)
  {
    assert Coupled(s, i);
    StepNotes(s, owner, i, weak);
    PlainPut(s0, s, DoStep(s, i, weak), owner, i);
    if s.pcs[i].PutReadBack? {
      CellFilled(s, i, owner);
      assert WrittenBy(s, i) == Some(item);
    } else {
      NotRefused(s, i, owner);
    }
  }

  lemma SealStep<T>(s0: Queue<T>, s: Queue<T>, owner: seq<Place>, i: nat, weak: bool, item: T)
    requires QInv(s, owner) && PutSoFar(s0, s, i, item) && s.pcs[i].PutSeal?
    ensures PutSoFar(s0, DoStep(s, i, weak), i, item)
  {
    StepNotes(s, owner, i, weak);
    PlainPut(s0, s, DoStep(s, i, weak), owner, i);
    var t: nat :| PutOnly(s0, s, i, t, item);
    assert PutOnly(s0, DoStep(s, i, weak), i, t, item);
  }

  /** The return of the enqueue into the alloc ring. */
  lemma AllocReturn<T>(s0: Queue<T>, s: Queue<T>, owner: seq<Place>, i: nat, weak: bool, item: T)
    requires QInv(s, owner) && PutSoFar(s0, s, i, item) && s.pcs[i].PutAlloc?
    requires s.alloc.pcs[i].EnqOk? || s.alloc.pcs[i].EnqErr?
    ensures PutSoFar(s0, DoStep(s, i, weak), i, item)
  {
    StepNotes(s, owner, i, weak);
    PlainPut(s0, s, DoStep(s, i, weak), owner, i);
    if s.alloc.pcs[i].EnqOk? { assert PutOnly(s0, DoStep(s, i, weak), i, s.alloc.pcs[i].t, item); }
  }

  /** A step of the enqueue into the alloc ring, by where it stands. */
  lemma InOrOut(a: Ring, i: nat, weak: bool)
    requires a.Wf() && i < |a.pcs| && InEnqueue(a.pcs[i])
    ensures var pc := StepThread(a, i, weak).pcs[i];
            && (a.pcs[i].EnqThreshold? || a.pcs[i].EnqStore? ==>
                  (pc.EnqStore? || pc.EnqOk?) && pc.t == a.pcs[i].t)
            && (NotIn(a.pcs[i]) ==> NotIn(pc) || pc.EnqErr? || (a.pcs[i].EnqCas? && pc.EnqThreshold?))
            && (a.pcs[i].EnqCas? && pc.EnqThreshold? ==> pc.t == a.pcs[i].t)
  {
  }

  lemma AllocGoesOn<T>(s0: Queue<T>, s: Queue<T>, r: Queue<T>, owner: seq<Place>, i: nat, item: T)
    requires QInv(s, owner) && PutSoFar(s0, s, i, item) && s.pcs[i].PutAlloc? && Notes(s, r, i) && r.Wf()
    requires i < |r.pcs| && InEnqueue(s.alloc.pcs[i]) && Flow(s.alloc, s.alloc.pcs[i], r.alloc.pcs[i])
    requires var a, b := s.alloc.pcs[i], r.alloc.pcs[i];
             && (a.EnqThreshold? || a.EnqStore? ==> (b.EnqStore? || b.EnqOk?) && b.t == a.t)
             && (NotIn(a) ==> NotIn(b) || b.EnqErr? || (a.EnqCas? && b.EnqThreshold?))
             && (a.EnqCas? && b.EnqThreshold? ==> b.t == a.t)
    requires s.alloc.pcs[i].EnqCas? && r.alloc.pcs[i].EnqThreshold? <==> r.values != s.values
    ensures AllocSoFar(s0, r, i, item)
  {
    if r.values == s.values {
      PlainPut(s0, s, r, owner, i);
    } else {
      OldTickets(s, owner);
      HeldTail(s.alloc, i);
      assert HasTicket(s.alloc.pcs[i], s.alloc.pcs[i].t);
      PutNew(s0, s, r, owner, i);
    }
  }

  lemma NewValue<T>(s: Queue<T>, owner: seq<Place>, i: nat, weak: bool)
    requires QInv(s, owner) && i < |s.pcs| && s.pcs[i].PutAlloc? && InEnqueue(s.alloc.pcs[i])
    ensures var r := DoStep(s, i, weak);
            && r.alloc == StepThread(s.alloc, i, weak) && r.pcs == s.pcs
            && (s.alloc.pcs[i].EnqCas? && r.alloc.pcs[i].EnqThreshold? <==> r.values != s.values)
  {
    OldTickets(s, owner);
    if s.alloc.pcs[i].EnqCas? { HeldTail(s.alloc, i); }
  }

  lemma AllocMoves<T>(s0: Queue<T>, s: Queue<T>, owner: seq<Place>, i: nat, weak: bool, item: T)
    requires QInv(s, owner) && PutSoFar(s0, s, i, item) && s.pcs[i].PutAlloc? && InEnqueue(s.alloc.pcs[i])
    ensures PutSoFar(s0, DoStep(s, i, weak), i, item)
  {
    StepNotes(s, owner, i, weak);
    NewValue(s, owner, i, weak);
    InOrOut(s.alloc, i, weak);
    Edge(s.alloc, i, weak);
    AllocGoesOn(s0, s, DoStep(s, i, weak), owner, i, item);
  }

  lemma OwnPut<T>(s0: Queue<T>, s: Queue<T>, owner: seq<Place>, i: nat, weak: bool, item: T)
    requires QInv(s, owner) && PutSoFar(s0, s, i, item)
    ensures PutSoFar(s0, DoStep(s, i, weak), i, item)
  {
    var pc := s.pcs[i];
    assert Coupled(s, i);
    if pc.PutCount? || pc.PutFull? || pc.PutFree? || pc.PutWrite? {
      EnterStep(s0, s, owner, i, weak, item);
    } else if pc.PutUncount? || pc.PutReadBack? || pc.PutRelease? {
      LeaveStep(s0, s, owner, i, weak, item);
    } else if pc.PutSeal? {
      SealStep(s0, s, owner, i, weak, item);
    } else if pc.PutAlloc? {
      if s.alloc.pcs[i].EnqOk? || s.alloc.pcs[i].EnqErr? {
        AllocReturn(s0, s, owner, i, weak, item);
      } else {
        AllocMoves(s0, s, owner, i, weak, item);
      }
    }
  }

  // ---------------------------------------------------------------- every action

  /** Thread i makes no call. */
  predicate NoCall<T>(a: QAction<T>, i: nat) { a.i == i ==> a.QStep? || a.QReturn? }

  lemma PutAction<T>(s0: Queue<T>, s: Queue<T>, owner: seq<Place>, i: nat, a: QAction<T>, item: T)
    requires QInv(s, owner) && PutSoFar(s0, s, i, item) && NoCall(a, i)
    ensures PutSoFar(s0, QApply(s, a), i, item)
  {
    if a.i < |s.pcs| {
      if a.i != i {
        OtherAction(s, owner, i, a);
        OtherPut(s0, s, QApply(s, a), owner, i, a.i, item);
      } else if a.QStep? {
        OwnPut(s0, s, owner, i, a.weak, item);
      }
    }
  }

  lemma OtherCall<T>(s: Queue<T>, i: nat, a: QAction<T>)
    requires s.Wf() && i < |s.pcs| && a.i < |s.pcs| && a.i != i && !a.QStep?
    ensures Untouched(s, QApply(s, a), i) && Notes(s, QApply(s, a), a.i) && Reading(s, QApply(s, a), a.i)
  {
  }

  lemma OtherAction<T>(s: Queue<T>, owner: seq<Place>, i: nat, a: QAction<T>)
    requires QInv(s, owner) && i < |s.pcs| && a.i < |s.pcs| && a.i != i
    ensures Untouched(s, QApply(s, a), i) && Notes(s, QApply(s, a), a.i) && Reading(s, QApply(s, a), a.i)
  {
    if a.QStep? {
      StepNotes(s, owner, a.i, a.weak);
      StepReads(s, owner, a.i, a.weak);
      StepByOther(s, a.i, a.weak, i);
    } else {
      OtherCall(s, i, a);
    }
  }

  lemma {:induction false} PutRun<T>(s0: Queue<T>, s: Queue<T>, owner: seq<Place>, i: nat, run: seq<QAction<T>>,
                                     item: T)
    requires QInv(s, owner) && PutSoFar(s0, s, i, item)
    requires forall j :: 0 <= j < |run| ==> NoCall(run[j], i)
    ensures PutSoFar(s0, QExec(s, run), i, item)
    decreases run
  {
    if run != [] {
      PutAction(s0, s, owner, i, run[0], item);
      var owner' := KeepQAction(s, run[0], owner);
      PutRun(s0, QApply(s, run[0]), owner', i, run[1..], item);
    }
  }

  /** In every run that begins with an enqueue of thread i and holds no other call of it: when the thread stands
      at the answer Stored, the call has drawn exactly one ticket under which an item was put in, and that item
      is its argument; when it stands at Full or Closed, the answer is its argument and it has put in nothing. */
  lemma PutMeans<T(!new)>(s: Queue<T>, i: nat, item: T, fin: bool, run: seq<QAction<T>>)
    requires QReachable(s) && s.Wf() && i < |s.pcs| && s.pcs[i].QIdle?
    requires forall j :: 0 <= j < |run| ==> NoCall(run[j], i)
    ensures var r := QExec(s, [CallPut(i, item, fin)] + run);
            && (r.pcs[i] == PutDone(Stored) ==> exists t: nat :: PutOnly(s, r, i, t, item))
            && (forall v :: r.pcs[i] == PutDone(Full(v)) || r.pcs[i] == PutDone(Closed(v)) ==>
                              v == item && PutNothing(s, r, i))
            && (r.pcs[i].QIdle? || Puts(r.pcs[i]))
  {
    var owner := QReachableInv(s);
    var s1 := s.To(i, PutCount(item, fin));
    QExecCons(s, CallPut(i, item, fin), run);
    KeepIdling(s, i, PutCount(item, fin), owner);
    PutRun(s, s1, owner, i, run, item);
  }

  /** The thread is in an enqueue, or at its answer. */
  predicate Puts<T>(pc: QPc<T>) {
    pc.PutCount? || pc.PutFull? || pc.PutFree? || pc.PutWrite? || pc.PutAlloc? || pc.PutUncount? || pc.PutReadBack?
    || pc.PutRelease? || pc.PutSeal? || pc.PutDone?
  }

  // ---------------------------------------------------------------- what a thread has read

  /** Since s0, thread i has read an item with ticket h, which it drew. */
  ghost predicate Got<T>(s0: Queue<T>, s: Queue<T>, i: nat, h: nat) {
    h in s.returned && h !in s0.returned && h < |s.alloc.log.deqBy| && s.alloc.log.deqBy[h] == i
  }

  ghost predicate GotNothing<T>(s0: Queue<T>, s: Queue<T>, i: nat) {
    forall h: nat :: !Got(s0, s, i, h)
  }

  ghost predicate GotOnly<T>(s0: Queue<T>, s: Queue<T>, i: nat, h: nat, item: T) {
    && Got(s0, s, i, h) && s.returned[h] == item && h in s.values && s.values[h] == item && s0.alloc.head <= h
    && forall u: nat :: Got(s0, s, i, u) ==> u == h
  }

  /** What a step of thread k does to the history of reads: it may read one item, with a ticket that it holds. */
  ghost predicate Reading<T>(s: Queue<T>, r: Queue<T>, k: nat) {
    && s.alloc.head <= r.alloc.head && s.alloc.log.deqBy <= r.alloc.log.deqBy
    && (forall t: nat :: t in s.values ==> t in r.values && r.values[t] == s.values[t])
    && (r.returned == s.returned || ReadsItem(s, r, k))
  }

  ghost predicate ReadsItem<T>(s: Queue<T>, r: Queue<T>, k: nat) {
    && k < |s.pcs| && s.pcs[k].GetRead? && s.Filled(s.pcs[k].pos)
    && r.returned == s.returned[s.pcs[k].h := s.cells[s.pcs[k].pos].value]
  }

  lemma SlotTaker(a: Ring, k: nat, weak: bool)
    requires a.Wf() && k < |a.pcs| && (a.pcs[k].DeqLoad? || a.pcs[k].DeqTake? || a.pcs[k].DeqCas?)
    ensures StepThread(a, k, weak).head == a.head && StepThread(a, k, weak).log.deqBy == a.log.deqBy
  {
    var pc := a.pcs[k];
    if pc.DeqLoad? {
      assert StepThread(a, k, weak) == StepDeqLoad(a, k, pc.h, pc.attempt);
    } else if pc.DeqTake? {
      assert StepThread(a, k, weak) == StepDeqTake(a, k, pc.h, pc.e);
    } else {
      assert StepThread(a, k, weak) == StepDeqCas(a, k, weak, pc.h, pc.attempt, pc.e, pc.new');
    }
  }

  lemma StepTakers(a: Ring, k: nat, weak: bool)
    requires a.Wf() && k < |a.pcs|
    ensures a.head <= StepThread(a, k, weak).head && a.log.deqBy <= StepThread(a, k, weak).log.deqBy
  {
    if a.pcs[k].DeqLoad? || a.pcs[k].DeqTake? || a.pcs[k].DeqCas? { SlotTaker(a, k, weak); }
  }

  lemma ReturnedOfStep<T>(s: Queue<T>, k: nat, weak: bool)
    requires s.Wf() && k < |s.pcs|
    ensures DoStep(s, k, weak).returned == s.returned || ReadsItem(s, DoStep(s, k, weak), k)
  {
  }

  lemma StepReads<T>(s: Queue<T>, owner: seq<Place>, k: nat, weak: bool)
    requires QInv(s, owner) && k < |s.pcs|
    ensures Reading(s, DoStep(s, k, weak), k)
  {
    assert Coupled(s, k);
    StepMoves(s, k, weak);
    StepTakers(s.alloc, k, weak);
    ReturnedOfStep(s, k, weak);
    StepNotes(s, owner, k, weak);
    OldTickets(s, owner);
    if DoStep(s, k, weak).values != s.values { HeldTail(s.alloc, k); }
  }

  lemma OldReads<T>(s: Queue<T>, owner: seq<Place>)
    requires QInv(s, owner)
    ensures forall h: nat :: h in s.returned ==>
              h < |s.alloc.log.deqBy| && h in s.values && s.returned[h] == s.values[h]
  {
    Disclose(s.alloc);
  }

  /** The thread holds ticket h, and its item is in the cell. */
  lemma HeldItem<T>(s: Queue<T>, owner: seq<Place>, k: nat)
    requires QInv(s, owner) && k < |s.pcs| && s.pcs[k].GetRead?
    ensures var h := s.pcs[k].h;
            && h !in s.returned && h < |s.alloc.log.deqBy| && s.alloc.log.deqBy[h] == k
            && s.Filled(s.pcs[k].pos) && h in s.values && s.cells[s.pcs[k].pos].value == s.values[h]
  {
    CellFilled(s, k, owner);
    assert TakenBy(s, k) == Some(s.pcs[k].h) && Lies(s, s.pcs[k].pos, s.pcs[k].h);
  }

  lemma GotStays<T>(s0: Queue<T>, s: Queue<T>, r: Queue<T>, owner: seq<Place>, i: nat, k: nat)
    requires QInv(s, owner) && Reading(s, r, k) && (i != k || r.returned == s.returned)
    ensures forall h: nat :: Got(s0, r, i, h) <==> Got(s0, s, i, h)
    ensures forall h: nat, item: T :: GotOnly(s0, s, i, h, item) ==> GotOnly(s0, r, i, h, item)
  {
    OldReads(s, owner);
    if r.returned != s.returned { HeldItem(s, owner, k); }
  }

  // ---------------------------------------------------------------- a dequeue

  /** The head ticket of the dequeue that the thread is in. */
  predicate HasHead(pc: Pc, h: nat) { InFlight(pc, h) || (pc.DeqSome? && pc.h == h) }

  ghost predicate GetSoFar<T>(s0: Queue<T>, s: Queue<T>, i: nat) {
    && s.Wf() && i < |s.pcs| && s0.alloc.head <= s.alloc.head && (forall h: nat :: h in s0.returned ==> h in s.returned)
    && match s.pcs[i]
       case QIdle => true
       case GetAlloc =>
         GotNothing(s0, s, i) && forall h: nat :: HasHead(s.alloc.pcs[i], h) ==> s0.alloc.head <= h
       case GetUncount(h, _) => GotNothing(s0, s, i) && s0.alloc.head <= h
       case GetRead(h, _) => GotNothing(s0, s, i) && s0.alloc.head <= h
       case GetRelease(v, _) => exists h: nat :: GotOnly(s0, s, i, h, v)
       case GetDone(Some(v)) => exists h: nat :: GotOnly(s0, s, i, h, v)
       case GetDone(None) => GotNothing(s0, s, i)
       case _ => false
  }

  lemma OtherGet<T>(s0: Queue<T>, s: Queue<T>, r: Queue<T>, owner: seq<Place>, i: nat, k: nat)
    requires QInv(s, owner) && GetSoFar(s0, s, i) && r.Wf() && Untouched(s, r, i) && Reading(s, r, k) && i != k
    ensures GetSoFar(s0, r, i)
  {
    GotStays(s0, s, r, owner, i, k);
  }

  lemma HeadOfSlotStep(a: Ring, i: nat, weak: bool)
    requires a.Wf() && i < |a.pcs| && (a.pcs[i].DeqLoad? || a.pcs[i].DeqTake? || a.pcs[i].DeqCas?)
    ensures forall h: nat :: HasHead(StepThread(a, i, weak).pcs[i], h) ==> HasHead(a.pcs[i], h)
  {
    var pc := a.pcs[i];
    if pc.DeqLoad? {
      assert StepThread(a, i, weak) == StepDeqLoad(a, i, pc.h, pc.attempt);
    } else if pc.DeqTake? {
      assert StepThread(a, i, weak) == StepDeqTake(a, i, pc.h, pc.e);
    } else {
      assert StepThread(a, i, weak) == StepDeqCas(a, i, weak, pc.h, pc.attempt, pc.e, pc.new');
    }
  }

  lemma HeadOfOtherStep(a: Ring, i: nat, weak: bool)
    requires a.Wf() && i < |a.pcs| && !a.pcs[i].DeqLoad? && !a.pcs[i].DeqTake? && !a.pcs[i].DeqCas?
    requires !InEnqueue(a.pcs[i])
    ensures forall h: nat :: HasHead(StepThread(a, i, weak).pcs[i], h) ==> HasHead(a.pcs[i], h) || h == a.head
  {
  }

  /** A step draws the next head ticket, or none. */
  lemma HeadStep(a: Ring, i: nat, weak: bool)
    requires a.Wf() && i < |a.pcs| && !InEnqueue(a.pcs[i])
    ensures forall h: nat :: HasHead(StepThread(a, i, weak).pcs[i], h) ==> HasHead(a.pcs[i], h) || h == a.head
  {
    if a.pcs[i].DeqLoad? || a.pcs[i].DeqTake? || a.pcs[i].DeqCas? {
      HeadOfSlotStep(a, i, weak);
    } else {
      HeadOfOtherStep(a, i, weak);
    }
  }

  lemma AllocGetStep<T>(s0: Queue<T>, s: Queue<T>, owner: seq<Place>, i: nat, weak: bool)
    requires QInv(s, owner) && GetSoFar(s0, s, i) && s.pcs[i].GetAlloc?
    ensures GetSoFar(s0, DoStep(s, i, weak), i)
  {
    StepReads(s, owner, i, weak);
    GotStays(s0, s, DoStep(s, i, weak), owner, i, i);
    assert Coupled(s, i);
    HeadStep(s.alloc, i, weak);
    if s.alloc.pcs[i].DeqSome? { assert HasHead(s.alloc.pcs[i], s.alloc.pcs[i].h); }
  }

  lemma ReadStep<T>(s0: Queue<T>, s: Queue<T>, owner: seq<Place>, i: nat, weak: bool)
    requires QInv(s, owner) && GetSoFar(s0, s, i) && s.pcs[i].GetRead?
    ensures GetSoFar(s0, DoStep(s, i, weak), i)
  {
    var r, h := DoStep(s, i, weak), s.pcs[i].h;
    HeldItem(s, owner, i);
    assert r == DoGetRead(s, i, h, s.pcs[i].pos);
    StepReads(s, owner, i, weak);
    OldReads(s, owner);
    forall u: nat | Got(s0, r, i, u) ensures u == h { assert u != h ==> Got(s0, s, i, u); }
    assert GotOnly(s0, r, i, h, s.values[h]);
  }

  lemma UncountStep<T>(s0: Queue<T>, s: Queue<T>, owner: seq<Place>, i: nat, weak: bool)
    requires QInv(s, owner) && GetSoFar(s0, s, i) && s.pcs[i].GetUncount?
    ensures GetSoFar(s0, DoStep(s, i, weak), i)
  {
    StepReads(s, owner, i, weak);
    GotStays(s0, s, DoStep(s, i, weak), owner, i, i);
    assert DoStep(s, i, weak) == DoGetUncount(s, i, s.pcs[i].h, s.pcs[i].pos);
  }

  lemma ReleaseStep<T>(s0: Queue<T>, s: Queue<T>, owner: seq<Place>, i: nat, weak: bool)
    requires QInv(s, owner) && GetSoFar(s0, s, i) && s.pcs[i].GetRelease?
    ensures GetSoFar(s0, DoStep(s, i, weak), i)
  {
    StepReads(s, owner, i, weak);
    GotStays(s0, s, DoStep(s, i, weak), owner, i, i);
    NotRefused(s, i, owner);
    assert DoStep(s, i, weak) == DoRelease(s, i, weak, GetDone(Some(s.pcs[i].item)));
  }

  lemma GetAction<T>(s0: Queue<T>, s: Queue<T>, owner: seq<Place>, i: nat, a: QAction<T>)
    requires QInv(s, owner) && GetSoFar(s0, s, i) && NoCall(a, i)
    ensures GetSoFar(s0, QApply(s, a), i)
  {
    if a.i < |s.pcs| {
      if a.i != i {
        OtherAction(s, owner, i, a);
        OtherGet(s0, s, QApply(s, a), owner, i, a.i);
      } else if a.QStep? {
        var pc := s.pcs[i];
        if pc.GetAlloc? {
          AllocGetStep(s0, s, owner, i, a.weak);
        } else if pc.GetRead? {
          ReadStep(s0, s, owner, i, a.weak);
        } else if pc.GetUncount? {
          UncountStep(s0, s, owner, i, a.weak);
        } else if pc.GetRelease? {
          ReleaseStep(s0, s, owner, i, a.weak);
        }
      }
    }
  }

  lemma {:induction false} GetRun<T>(s0: Queue<T>, s: Queue<T>, owner: seq<Place>, i: nat, run: seq<QAction<T>>)
    requires QInv(s, owner) && GetSoFar(s0, s, i)
    requires forall j :: 0 <= j < |run| ==> NoCall(run[j], i)
    ensures GetSoFar(s0, QExec(s, run), i)
    decreases run
  {
    if run != [] {
      GetAction(s0, s, owner, i, run[0]);
      var owner' := KeepQAction(s, run[0], owner);
      GetRun(s0, QApply(s, run[0]), owner', i, run[1..]);
    }
  }

  lemma GetBegins<T>(s: Queue<T>, i: nat)
    requires s.Wf() && i < |s.pcs|
    ensures GetSoFar(s, s.(alloc := BeginDequeue(s.alloc, i)).To(i, GetAlloc), i)
  {
  }

  /** In every run that begins with a dequeue of thread i and holds no other call of it: when the thread stands
      at an item as its answer, the call has drawn exactly one ticket with which an item was read, and the
      answer is the item that was put in with it; when it stands at None, it has read nothing. */
  lemma GetMeans<T(!new)>(s: Queue<T>, i: nat, run: seq<QAction<T>>)
    requires QReachable(s) && s.Wf() && i < |s.pcs| && s.pcs[i].QIdle?
    requires forall j :: 0 <= j < |run| ==> NoCall(run[j], i)
    ensures var r := QExec(s, [CallGet(i)] + run);
            && (forall v :: r.pcs[i] == GetDone(Some(v)) ==> exists h: nat :: GotOnly(s, r, i, h, v))
            && (r.pcs[i] == GetDone(None) ==> GotNothing(s, r, i))
  {
    var owner := QReachableInv(s);
    var s1 := s.(alloc := BeginDequeue(s.alloc, i)).To(i, GetAlloc);
    QExecCons(s, CallGet(i), run);
    KeepCallGet(s, i, owner);
    GetBegins(s, i);
    GetRun(s, s1, owner, i, run);
  }
}
