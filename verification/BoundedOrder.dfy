/** How far apart head and tail are in the two rings of a bounded queue, and that the threshold always
    admits every entry: in the free ring for any number of threads, and in the alloc ring for as many as
    the capacity and one more. */
module BoundedOrder {
  import opened Counting
  import opened Ring
  import opened RingInvariant
  import opened RingTheorems
  import opened RingEffects
  import opened RingSolo
  import opened RingOrder
  import opened RingCredit
  import opened BoundedMachine
  import opened BoundedInvariant
  import opened BoundedTheorems
  import opened BoundedFifo

  // ---------------------------------------------------------------- one index, one place

  lemma FreeInserters<T>(s: Queue<T>, owner: seq<Place>, i: nat, x: nat)
    requires QInv(s, owner) && i < |s.pcs| && WillInsert(s.free.pcs[i], x)
    ensures x < s.cap && owner[x] == Held(i)
  {
    assert Coupled(s, i);
    assert HeldBy(s, i) == Some(x);
  }

  lemma AllocInserters<T>(s: Queue<T>, owner: seq<Place>, i: nat, x: nat)
    requires QInv(s, owner) && i < |s.pcs| && WillInsert(s.alloc.pcs[i], x)
    ensures x < s.cap && owner[x] == Held(i)
  {
    assert Coupled(s, i);
    assert HeldBy(s, i) == Some(x);
  }

  lemma FreeDistinct<T>(s: Queue<T>, owner: seq<Place>)
    requires QInv(s, owner)
    ensures Distinct(s.free)
  {
    forall i: nat, k: nat, x: nat | i < |s.pcs| && k < |s.pcs| && WillInsert(s.free.pcs[i], x) && i != k
      ensures !WillInsert(s.free.pcs[k], x)
    {
      FreeInserters(s, owner, i, x);
      if WillInsert(s.free.pcs[k], x) { FreeInserters(s, owner, k, x); }
    }
    forall j: nat, i: nat, x: nat | j < s.free.N() && i < |s.pcs| && s.free.slots[j].entry == Some(x)
      ensures !WillInsert(s.free.pcs[i], x)
    {
      if WillInsert(s.free.pcs[i], x) { FreeInserters(s, owner, i, x); }
    }
  }

  lemma AllocDistinct<T>(s: Queue<T>, owner: seq<Place>)
    requires QInv(s, owner)
    ensures Distinct(s.alloc)
  {
    forall i: nat, k: nat, x: nat | i < |s.pcs| && k < |s.pcs| && WillInsert(s.alloc.pcs[i], x) && i != k
      ensures !WillInsert(s.alloc.pcs[k], x)
    {
      AllocInserters(s, owner, i, x);
      if WillInsert(s.alloc.pcs[k], x) { AllocInserters(s, owner, k, x); }
    }
    forall j: nat, i: nat, x: nat | j < s.alloc.N() && i < |s.pcs| && s.alloc.slots[j].entry == Some(x)
      ensures !WillInsert(s.alloc.pcs[i], x)
    {
      if WillInsert(s.alloc.pcs[i], x) { AllocInserters(s, owner, i, x); }
    }
  }

  // ---------------------------------------------------------------- how many dequeuers there are

  function FullFlags<T>(s: Queue<T>): seq<bool> {
    seq(|s.pcs|, i requires 0 <= i < |s.pcs| => s.pcs[i].PutFull?)
  }

  /** Apart from those that are about to take it back, no more than the capacity have been counted. */
  ghost predicate Capped<T>(s: Queue<T>) {
    s.used - Trues(FullFlags(s)) <= s.cap
  }

  /** Thread i has moved, and if it took the counter up it was below the capacity, or gives it back. */
  ghost predicate Counts<T>(s: Queue<T>, r: Queue<T>, i: nat) {
    && i < |s.pcs| && |r.pcs| == |s.pcs| && r.pcs == s.pcs[i := r.pcs[i]] && r.cap == s.cap
    && (|| r.used - s.used <= One(r.pcs[i].PutFull?) - One(s.pcs[i].PutFull?)
        || (r.used <= s.cap && !s.pcs[i].PutFull?))
  }

  lemma CappedMove<T>(s: Queue<T>, r: Queue<T>, i: nat)
    requires Capped(s) && Counts(s, r, i)
    ensures Capped(r)
  {
    TruesUpdate(FullFlags(s), i, r.pcs[i].PutFull?);
    assert FullFlags(r) == FullFlags(s)[i := r.pcs[i].PutFull?];
  }

  lemma EnterCounts<T>(s: Queue<T>, i: nat, weak: bool)
    requires s.Wf() && i < |s.pcs| && (s.pcs[i].PutCount? || s.pcs[i].PutFull? || s.pcs[i].PutFree?)
    ensures Counts(s, DoStep(s, i, weak), i)
  {
  }

  lemma PutCounts<T>(s: Queue<T>, i: nat, weak: bool)
    requires s.Wf() && i < |s.pcs|
    requires s.pcs[i].PutWrite? || s.pcs[i].PutAlloc? || s.pcs[i].PutUncount? || s.pcs[i].PutReadBack?
    ensures Counts(s, DoStep(s, i, weak), i)
  {
  }

  lemma RestCounts<T>(s: Queue<T>, i: nat, weak: bool)
    requires s.Wf() && i < |s.pcs|
    requires s.pcs[i].PutRelease? || s.pcs[i].GetRelease? || s.pcs[i].PutSeal?
    ensures Counts(s, DoStep(s, i, weak), i)
  {
  }

  lemma GetCounts<T>(s: Queue<T>, i: nat, weak: bool)
    requires s.Wf() && i < |s.pcs| && (s.pcs[i].GetAlloc? || s.pcs[i].GetUncount? || s.pcs[i].GetRead?)
    ensures Counts(s, DoStep(s, i, weak), i)
  {
  }

  lemma StepCounts<T>(s: Queue<T>, i: nat, weak: bool)
    requires s.Wf() && i < |s.pcs|
    ensures Counts(s, DoStep(s, i, weak), i)
  {
    var pc := s.pcs[i];
    if pc.PutCount? || pc.PutFull? || pc.PutFree? {
      EnterCounts(s, i, weak);
    } else if pc.PutWrite? || pc.PutAlloc? || pc.PutUncount? || pc.PutReadBack? {
      PutCounts(s, i, weak);
    } else if pc.PutRelease? || pc.GetRelease? || pc.PutSeal? {
      RestCounts(s, i, weak);
    } else if pc.GetAlloc? || pc.GetUncount? || pc.GetRead? {
      GetCounts(s, i, weak);
    }
  }

  lemma CappedAction<T>(s: Queue<T>, a: QAction<T>)
    requires s.Wf() && Capped(s)
    ensures Capped(QApply(s, a))
  {
    if a.i < |s.pcs| {
      if a.QStep? { StepCounts(s, a.i, a.weak); }
      CappedMove(s, QApply(s, a), a.i);
    }
  }

  /** So no more than the capacity take from the free ring at a time. */
  lemma FewTakers<T>(s: Queue<T>, owner: seq<Place>)
    requires QInv(s, owner) && Capped(s)
    ensures Trues(FlightFlags(s.free)) <= s.cap
  {
    forall i: nat | i < |s.pcs|
      ensures FlightFlags(s.free)[i] ==> CountFlags(s)[i] && !FullFlags(s)[i]
      ensures FullFlags(s)[i] ==> CountFlags(s)[i]
    {
      assert Coupled(s, i);
    }
    TruesApart(FlightFlags(s.free), FullFlags(s), CountFlags(s));
  }

  /** While one thread enqueues, at most all others dequeue. */
  lemma FewGetters(s: Ring, i: nat)
    requires i < |s.pcs| && !IsInFlight(s.pcs[i])
    ensures Trues(FlightFlags(s)) < |s.pcs|
  {
    TruesUpdate(FlightFlags(s), i, true);
    TruesBound(FlightFlags(s)[i := true]);
  }

  // ---------------------------------------------------------------- every move of a ring

  lemma MoveTidy(s: Ring, own: map<nat, nat>, i: nat, weak: bool, m: Move) returns (own': map<nat, nat>)
    requires s.Wf() && Sound(s) && Tidy(s, own) && Distinct(s) && i < |s.pcs| && Possible(s, i, m)
    ensures Tidy(Moved(s, i, weak, m), own')
  {
    own' := own;
    match m
    case Stay =>
    case Begin(x) => PlainTidy(s, own, i, BeginEnqueue(s, i, x).pcs[i]);
    case Search => PlainTidy(s, own, i, DeqCheck);
    case Run => own' := StepTidy(s, own, i, weak);
    case End => PlainTidy(s, own, i, Idle);
    case Seal => if s.finalizable { SealTidy(s, own); }
  }

  lemma MovePaid(s: Ring, i: nat, weak: bool, m: Move)
    requires Near(s) && Sound(s) && Paid(s) && i < |s.pcs| && Possible(s, i, m)
    requires s.pcs[i].EnqThreshold? || s.pcs[i].EnqStore? ==> Trues(FlightFlags(s)) <= s.half
    ensures Paid(Moved(s, i, weak, m))
  {
    match m
    case Stay =>
    case Begin(x) => PlainPaid(s, i, BeginEnqueue(s, i, x).pcs[i]);
    case Search => PlainPaid(s, i, DeqCheck);
    case Run => StepPaid(s, i, weak);
    case End => PlainPaid(s, i, Idle);
    case Seal =>
      var r := Moved(s, i, weak, m);
      assert FlightFlags(r) == FlightFlags(s);
      forall t: nat | Unsettled(s, t) ensures Unsettled(r, t) {
        var k: nat :| k < |s.pcs| && (s.pcs[k].EnqThreshold? || s.pcs[k].EnqStore?) && s.pcs[k].t == t;
        assert (r.pcs[k].EnqThreshold? || r.pcs[k].EnqStore?) && r.pcs[k].t == t;
      }
  }

  // ---------------------------------------------------------------- every action of the queue

  /** Both rings are in order; all entries of the free ring are paid for, and those of the alloc ring if
      there are at most as many threads as the capacity and one more. */
  ghost predicate InOrder<T>(s: Queue<T>, free: map<nat, nat>, alloc: map<nat, nat>) {
    && Capped(s) && Tidy(s.free, free) && Paid(s.free) && Tidy(s.alloc, alloc)
    && (|s.pcs| <= s.cap + 1 ==> Paid(s.alloc))
  }

  lemma FreeOrder<T>(s: Queue<T>, owner: seq<Place>, free: map<nat, nat>, i: nat, weak: bool, m: Move)
    returns (free': map<nat, nat>)
    requires QInv(s, owner) && Capped(s) && Tidy(s.free, free) && Paid(s.free) && i < |s.pcs|
    requires Possible(s.free, i, m)
    ensures Tidy(Moved(s.free, i, weak, m), free') && Paid(Moved(s.free, i, weak, m))
  {
    FreeDistinct(s, owner);
    FewTakers(s, owner);
    free' := MoveTidy(s.free, free, i, weak, m);
    MovePaid(s.free, i, weak, m);
  }

  lemma AllocOrder<T>(s: Queue<T>, owner: seq<Place>, alloc: map<nat, nat>, i: nat, weak: bool, m: Move)
    returns (alloc': map<nat, nat>)
    requires QInv(s, owner) && Tidy(s.alloc, alloc) && i < |s.pcs| && Possible(s.alloc, i, m)
    requires |s.pcs| <= s.cap + 1 ==> Paid(s.alloc)
    ensures Tidy(Moved(s.alloc, i, weak, m), alloc')
    ensures |s.pcs| <= s.cap + 1 ==> Paid(Moved(s.alloc, i, weak, m))
  {
    AllocDistinct(s, owner);
    alloc' := MoveTidy(s.alloc, alloc, i, weak, m);
    if |s.pcs| <= s.cap + 1 {
      if s.alloc.pcs[i].EnqThreshold? || s.alloc.pcs[i].EnqStore? { FewGetters(s.alloc, i); }
      MovePaid(s.alloc, i, weak, m);
    }
  }

  lemma KeepInOrder<T>(s: Queue<T>, a: QAction<T>, owner: seq<Place>, free: map<nat, nat>, alloc: map<nat, nat>)
    returns (free': map<nat, nat>, alloc': map<nat, nat>)
    requires QInv(s, owner) && InOrder(s, free, alloc)
    ensures InOrder(QApply(s, a), free', alloc')
  {
    free', alloc' := free, alloc;
    CappedAction(s, a);
    if a.i < |s.pcs| {
      assert Coupled(s, a.i);
      if a.QStep? {
        StepMoves(s, a.i, a.weak);
        free' := FreeOrder(s, owner, free, a.i, a.weak, FreeMoveOf(s, a.i));
        alloc' := AllocOrder(s, owner, alloc, a.i, a.weak, AllocMoveOf(s, a.i));
      } else if a.CallGet? && s.pcs[a.i].QIdle? {
        alloc' := AllocOrder(s, owner, alloc, a.i, false, Search);
      }
    }
  }

  lemma {:induction false} InOrderRun<T>(s: Queue<T>, run: seq<QAction<T>>, owner: seq<Place>, free: map<nat, nat>,
                                         alloc: map<nat, nat>)
    returns (free': map<nat, nat>, alloc': map<nat, nat>)
    requires QInv(s, owner) && InOrder(s, free, alloc)
    ensures InOrder(QExec(s, run), free', alloc')
    decreases run
  {
    free', alloc' := free, alloc;
    if run != [] {
      var owner' := KeepQAction(s, run[0], owner);
      free', alloc' := KeepInOrder(s, run[0], owner, free, alloc);
      free', alloc' := InOrderRun(QApply(s, run[0]), run[1..], owner', free', alloc');
    }
  }

  lemma NewInOrder<T>(cap: nat, sealable: bool, threads: nat)
    requires cap >= 1
    ensures InOrder(NewQueue<T>(cap, sealable, threads), map[], map[])
  {
    var s := NewQueue<T>(cap, sealable, threads);
    EmptyInv(cap, sealable, threads);
    FullInv(cap, sealable, threads);
    Enclose(s.free);
    Enclose(s.alloc);
    EmptyOrderly(cap, sealable, threads);
    FullOrderly(cap, sealable, threads);
    OrderlyNear(s.free, map[]);
    OrderlyNear(s.alloc, map[]);
    FullPaid(cap, sealable, threads);
  }

  lemma ReachableInOrder<T(!new)>(s: Queue<T>) returns (free: map<nat, nat>, alloc: map<nat, nat>)
    requires QReachable(s)
    ensures InOrder(s, free, alloc)
  {
    var cap, sealable, threads, run: seq<QAction<T>> :| QReachedBy(s, cap, sealable, threads, run);
    var s0 := NewQueue<T>(cap, sealable, threads);
    var owner := NewQueueInv<T>(cap, sealable, threads);
    NewInOrder<T>(cap, sealable, threads);
    free, alloc := InOrderRun(s0, run, owner, map[], map[]);
  }

  // ---------------------------------------------------------------- the results

  /** In no reachable state is tail ahead of head by more than the number of slots, except that enqueues which
      a finalized alloc ring refuses go on drawing tickets; no entry is ever further ahead than that. */
  lemma TailBound<T(!new)>(s: Queue<T>)
    requires QReachable(s)
    ensures s.free.tail <= s.free.head + 2 * s.cap
    ensures !s.alloc.finalized ==> s.alloc.tail <= s.alloc.head + 2 * s.cap
    ensures forall t :: t in s.alloc.log.inserted ==> t < s.alloc.head + 2 * s.cap
  {
    var owner := QReachableInv(s);
    var free, alloc := ReachableInOrder(s);
  }

  /** In every reachable state the threshold of the free ring admits every entry, and still does after every
      dequeuer in flight has taken it down by one; the only exceptions are entries whose own enqueue has not
      seen to the threshold yet.  The same holds of the alloc ring, if there are at most as many threads as
      the capacity and one more. */
  lemma ThresholdIsEnough<T(!new)>(s: Queue<T>, t: nat)
    requires QReachable(s)
    ensures Ahead(s.free, t) ==> Unsettled(s.free, t) || PaidTo(s.free, t)
    ensures |s.pcs| <= s.cap + 1 && Ahead(s.alloc, t) ==> Unsettled(s.alloc, t) || PaidTo(s.alloc, t)
  {
    var free, alloc := ReachableInOrder(s);
  }
}
