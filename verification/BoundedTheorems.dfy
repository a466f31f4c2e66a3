/** What the bounded queue guarantees in every interleaving of any number of threads. */
module BoundedTheorems {
  import opened Counting
  import opened Ring
  import opened RingInvariant
  import opened RingEffects
  import opened RingSolo
  import opened BoundedMachine
  import opened BoundedInvariant

  // ---------------------------------------------------------------- calls and returns of ring operations

  lemma KeepBegin(s: Ring, i: nat, x: nat)
    requires s.Wf() && Sound(s) && i < |s.pcs| && s.pcs[i].Idle?
    ensures Sound(BeginEnqueue(s, i, x))
  {
    Disclose(s);
    Local(s, BeginEnqueue(s, i, x), i);
    Enclose(BeginEnqueue(s, i, x));
  }

  lemma KeepBeginDequeue(s: Ring, i: nat)
    requires s.Wf() && Sound(s) && i < |s.pcs| && s.pcs[i].Idle?
    ensures Sound(BeginDequeue(s, i))
  {
    Disclose(s);
    Local(s, BeginDequeue(s, i), i);
    Enclose(BeginDequeue(s, i));
  }

  lemma KeepReturn(s: Ring, i: nat)
    requires s.Wf() && Sound(s) && i < |s.pcs| && Returned(s.pcs[i])
    ensures Sound(s.To(i, Idle))
  {
    Disclose(s);
    Local(s, s.To(i, Idle), i);
    Enclose(s.To(i, Idle));
  }

  lemma KeepSeal(s: Ring)
    requires s.Wf() && Sound(s)
    ensures Sound(s.(finalized := true))
  {
    var r := s.(finalized := true);
    Disclose(s);
    SlotsStay(s, r);
    forall i: nat | i < |r.pcs| ensures PcOk(r, i) { assert PcOk(s, i); }
    Enclose(r);
  }

  // ---------------------------------------------------------------- the steps of enqueue_cycle

  lemma KeepPutCount<T>(s: Queue<T>, i: nat, item: T, fin: bool, owner: seq<Place>)
    requires QInv(s, owner) && i < |s.pcs| && s.pcs[i] == PutCount(item, fin)
    ensures QInv(DoPutCount(s, i, item, fin), owner)
  {
    assert Coupled(s, i);
    if s.used >= s.cap {
      Plain(s, DoPutCount(s, i, item, fin), i, owner);
    } else {
      KeepPutBegin(s, i, item, fin, owner);
    }
  }

  lemma KeepPutBegin<T>(s: Queue<T>, i: nat, item: T, fin: bool, owner: seq<Place>)
    requires QInv(s, owner) && i < |s.pcs| && s.pcs[i] == PutCount(item, fin) && s.used < s.cap
    ensures QInv(DoPutCount(s, i, item, fin), owner)
  {
    assert Coupled(s, i);
    KeepBeginDequeue(s.free, i);
    Plain(s, DoPutCount(s, i, item, fin), i, owner);
  }

  lemma KeepPutFull<T>(s: Queue<T>, i: nat, item: T, owner: seq<Place>)
    requires QInv(s, owner) && i < |s.pcs| && s.pcs[i] == PutFull(item)
    ensures QInv(DoPutFull(s, i, item), owner)
  {
    assert Coupled(s, i);
    Plain(s, DoPutFull(s, i, item), i, owner);
  }

  lemma PutFreeReturns<T>(s: Queue<T>, i: nat, weak: bool, item: T, fin: bool, size: int, owner: seq<Place>)
    requires QInv(s, owner) && i < |s.pcs| && s.pcs[i] == PutFree(item, fin, size)
    requires s.free.pcs[i].DeqNone? || s.free.pcs[i].DeqSome?
    ensures QInv(DoPutFree(s, i, weak, item, fin, size), owner)
  {
    assert Coupled(s, i);
    KeepReturn(s.free, i);
    var pc := if s.free.pcs[i].DeqNone? then PutFull(item) else PutWrite(item, fin, size, s.free.pcs[i].x);
    Plain(s, s.(free := s.free.To(i, Idle)).To(i, pc), i, owner);
  }

  lemma KeepPutFree<T>(s: Queue<T>, i: nat, weak: bool, item: T, fin: bool, size: int, owner: seq<Place>)
    returns (owner': seq<Place>)
    requires QInv(s, owner) && i < |s.pcs| && s.pcs[i] == PutFree(item, fin, size)
    ensures QInv(DoPutFree(s, i, weak, item, fin, size), owner')
  {
    if s.free.pcs[i].DeqNone? || s.free.pcs[i].DeqSome? {
      PutFreeReturns(s, i, weak, item, fin, size, owner);
      owner' := owner;
    } else {
      assert Coupled(s, i);
      var g := StepDoes(s.free, i, weak);
      owner' := FreeMove(s, StepThread(s.free, i, weak), i, g, owner);
    }
  }

  lemma KeepPutWrite<T>(s: Queue<T>, i: nat, item: T, fin: bool, size: int, pos: nat, owner: seq<Place>)
    requires QInv(s, owner) && i < |s.pcs| && s.pcs[i] == PutWrite(item, fin, size, pos)
    ensures QInv(DoPutWrite(s, i, item, fin, size, pos), owner)
  {
    assert Coupled(s, i);
    assert HeldBy(s, i) == Some(pos);
    KeepBegin(s.alloc, i, pos);
    CellMove(s, DoPutWrite(s, i, item, fin, size, pos), i, pos, owner);
  }

  lemma PutAllocReturns<T>(s: Queue<T>, i: nat, pc: QPc<T>, owner: seq<Place>)
    requires QInv(s, owner) && i < |s.pcs| && s.pcs[i].PutAlloc?
    requires if s.alloc.pcs[i].EnqOk? then pc == PutSeal || pc == PutDone(Stored)
             else s.alloc.pcs[i].EnqErr? && pc == PutUncount(s.pcs[i].item, s.pcs[i].pos)
    ensures QInv(s.(alloc := s.alloc.To(i, Idle)).To(i, pc), owner)
  {
    assert Coupled(s, i);
    KeepReturn(s.alloc, i);
    Plain(s, s.(alloc := s.alloc.To(i, Idle)).To(i, pc), i, owner);
  }

  lemma KeepPutAlloc<T>(s: Queue<T>, i: nat, weak: bool, item: T, fin: bool, size: int, pos: nat, owner: seq<Place>)
    returns (owner': seq<Place>)
    requires QInv(s, owner) && i < |s.pcs| && s.pcs[i] == PutAlloc(item, fin, size, pos)
    ensures QInv(DoPutAlloc(s, i, weak, item, fin, size, pos), owner')
  {
    if s.alloc.pcs[i].EnqOk? || s.alloc.pcs[i].EnqErr? {
      PutAllocReturns(s, i, DoPutAlloc(s, i, weak, item, fin, size, pos).pcs[i], owner);
      owner' := owner;
    } else {
      var g := StepDoes(s.alloc, i, weak);
      owner' := KeepAllocStep(s, StepThread(s.alloc, i, weak), i, g, owner);
    }
  }

  lemma KeepAllocStep<T>(s: Queue<T>, a: Ring, i: nat, g: Effect, owner: seq<Place>) returns (owner': seq<Place>)
    requires QInv(s, owner) && i < |s.pcs| && s.pcs[i].PutAlloc? && Does(s.alloc, a, i, g)
    ensures QInv(AllocStep(s, i, a, s.pcs[i].item), owner')
  {
    assert Coupled(s, i);
    AllocKind(s, a, i, g);
    if g.Insertion? {
      owner' := AllocInsertion(s, a, i, g.t, g.x, owner);
    } else {
      AllocQuiet(s, a, i, owner);
      owner' := owner;
      assert !(s.alloc.pcs[i].EnqCas? && a.pcs[i].EnqThreshold?);
    }
  }

  lemma KeepPutUncount<T>(s: Queue<T>, i: nat, item: T, pos: nat, owner: seq<Place>)
    requires QInv(s, owner) && i < |s.pcs| && s.pcs[i] == PutUncount(item, pos)
    ensures QInv(DoPutUncount(s, i, item, pos), owner)
  {
    assert Coupled(s, i);
    Plain(s, DoPutUncount(s, i, item, pos), i, owner);
  }

  /** A thread between the write of a cell and its read finds its item there. */
  lemma CellFilled<T>(s: Queue<T>, i: nat, owner: seq<Place>)
    requires QInv(s, owner) && i < |s.pcs| && HeldBy(s, i).Some? && HoldsItem(s.pcs[i])
    ensures s.Filled(HeldBy(s, i).value)
  {
    assert owner[HeldBy(s, i).value] == Held(i);
  }

  lemma KeepPutReadBack<T>(s: Queue<T>, i: nat, item: T, pos: nat, owner: seq<Place>)
    requires QInv(s, owner) && i < |s.pcs| && s.pcs[i] == PutReadBack(item, pos)
    ensures QInv(DoPutReadBack(s, i, pos), owner)
  {
    assert Coupled(s, i);
    CellFilled(s, i, owner);
    KeepBegin(s.free, i, pos);
    CellMove(s, DoPutReadBack(s, i, pos), i, pos, owner);
  }

  /** The free ring never refuses an index: it is in range, and only the allocated ring is ever sealed. */
  lemma NeverRefused<T>(s: Queue<T>, i: nat, owner: seq<Place>)
    requires QInv(s, owner) && i < |s.pcs| && (s.pcs[i].PutRelease? || s.pcs[i].GetRelease?)
    ensures !s.free.pcs[i].EnqErr?
  {
    assert Coupled(s, i);
    assert HeldBy(s, i).Some? ==> HeldBy(s, i).value < s.cap;
    if s.free.pcs[i].EnqErr? { SoundError(s.free, i); }
  }

  lemma ReleaseReturns<T>(s: Queue<T>, i: nat, done: QPc<T>, owner: seq<Place>)
    requires QInv(s, owner) && i < |s.pcs| && (s.pcs[i].PutRelease? || s.pcs[i].GetRelease?)
    requires (done.PutDone? || done.GetDone?) && s.free.pcs[i].EnqOk?
    ensures QInv(s.(free := s.free.To(i, Idle)).To(i, done), owner)
  {
    assert Coupled(s, i);
    KeepReturn(s.free, i);
    Plain(s, s.(free := s.free.To(i, Idle)).To(i, done), i, owner);
  }

  lemma KeepRelease<T>(s: Queue<T>, i: nat, weak: bool, done: QPc<T>, owner: seq<Place>) returns (owner': seq<Place>)
    requires QInv(s, owner) && i < |s.pcs| && (s.pcs[i].PutRelease? || s.pcs[i].GetRelease?)
    requires done.PutDone? || done.GetDone?
    ensures QInv(DoRelease(s, i, weak, done), owner')
  {
    NeverRefused(s, i, owner);
    if s.free.pcs[i].EnqOk? {
      ReleaseReturns(s, i, done, owner);
      owner' := owner;
    } else {
      var g := StepDoes(s.free, i, weak);
      owner' := FreeMove(s, StepThread(s.free, i, weak), i, g, owner);
    }
  }

  lemma KeepPutSeal<T>(s: Queue<T>, i: nat, owner: seq<Place>)
    requires QInv(s, owner) && i < |s.pcs| && s.pcs[i] == PutSeal
    ensures QInv(DoPutSeal(s, i), owner)
  {
    assert Coupled(s, i);
    KeepSeal(s.alloc);
    Plain(s, DoPutSeal(s, i), i, owner);
  }

  // ---------------------------------------------------------------- the steps of dequeue

  lemma GetAllocMoves<T>(s: Queue<T>, i: nat)
    requires s.Wf() && i < |s.pcs| && s.pcs[i] == GetAlloc && Coupled(s, i)
    requires s.alloc.pcs[i].DeqNone? || s.alloc.pcs[i].DeqSome?
    ensures var r := DoGetAlloc(s, i, false);
            && Only(s, r, i) && SameEntries(s, r) && Coupled(r, i)
            && r.free == s.free && r.alloc == s.alloc.To(i, Idle)
            && HeldBy(r, i) == HeldBy(s, i) && TakenBy(r, i) == TakenBy(s, i) && WrittenBy(r, i) == WrittenBy(s, i)
            && (HeldBy(s, i).Some? ==> HoldsItem(r.pcs[i]) == HoldsItem(s.pcs[i]))
            && r.cells == s.cells && r.values == s.values && r.returned == s.returned
            && r.used - s.used == (if Counted(r, i) then 1 else 0) - (if Counted(s, i) then 1 else 0)
  {
  }

  lemma GetAllocReturns<T>(s: Queue<T>, i: nat, owner: seq<Place>)
    requires QInv(s, owner) && i < |s.pcs| && s.pcs[i] == GetAlloc
    requires s.alloc.pcs[i].DeqNone? || s.alloc.pcs[i].DeqSome?
    ensures QInv(DoGetAlloc(s, i, false), owner)
  {
    assert Coupled(s, i);
    KeepReturn(s.alloc, i);
    GetAllocMoves(s, i);
    Plain(s, DoGetAlloc(s, i, false), i, owner);
  }

  lemma KeepGetAlloc<T>(s: Queue<T>, i: nat, weak: bool, owner: seq<Place>) returns (owner': seq<Place>)
    requires QInv(s, owner) && i < |s.pcs| && s.pcs[i] == GetAlloc
    ensures QInv(DoGetAlloc(s, i, weak), owner')
  {
    if s.alloc.pcs[i].DeqNone? || s.alloc.pcs[i].DeqSome? {
      GetAllocReturns(s, i, owner);
      owner' := owner;
      assert DoGetAlloc(s, i, weak) == DoGetAlloc(s, i, false);
    } else {
      assert Coupled(s, i);
      var g := StepDoes(s.alloc, i, weak);
      owner' := KeepGetStep(s, StepThread(s.alloc, i, weak), i, g, owner);
    }
  }

  lemma KeepGetStep<T>(s: Queue<T>, a: Ring, i: nat, g: Effect, owner: seq<Place>) returns (owner': seq<Place>)
    requires QInv(s, owner) && i < |s.pcs| && s.pcs[i].GetAlloc? && Searching(s.alloc.pcs[i]) && Does(s.alloc, a, i, g)
    ensures QInv(s.(alloc := a), owner')
  {
    assert Coupled(s, i);
    AllocKind(s, a, i, g);
    if g.Removal? {
      owner' := AllocRemoval(s, a, i, g.h, g.x, owner);
    } else {
      AllocQuiet(s, a, i, owner);
      owner' := owner;
    }
  }

  lemma KeepGetUncount<T>(s: Queue<T>, i: nat, h: nat, pos: nat, owner: seq<Place>)
    requires QInv(s, owner) && i < |s.pcs| && s.pcs[i] == GetUncount(h, pos)
    ensures QInv(DoGetUncount(s, i, h, pos), owner)
  {
    assert Coupled(s, i);
    Plain(s, DoGetUncount(s, i, h, pos), i, owner);
  }

  lemma GetReadMoves<T>(s: Queue<T>, i: nat, h: nat, pos: nat)
    requires s.Wf() && i < |s.pcs| && s.pcs[i] == GetRead(h, pos) && Coupled(s, i) && s.Filled(pos) && pos < s.cap
    ensures var r := DoGetRead(s, i, h, pos);
            && Only(s, r, i) && SameEntries(s, r) && r.alloc == s.alloc && r.free == BeginEnqueue(s.free, i, pos)
            && r.values == s.values && r.used == s.used && !Counted(s, i) && !Counted(r, i)
            && TakenBy(r, i).None? && TakenBy(s, i) == Some(h)
            && r.returned == s.returned[h := s.cells[pos].value]
            && (pos < s.free.half ==> Coupled(r, i)) && CellChange(s, r, i, pos)
  {
  }

  lemma KeepGetRead<T>(s: Queue<T>, i: nat, h: nat, pos: nat, owner: seq<Place>)
    requires QInv(s, owner) && i < |s.pcs| && s.pcs[i] == GetRead(h, pos)
    ensures QInv(DoGetRead(s, i, h, pos), owner)
  {
    assert Coupled(s, i);
    CellFilled(s, i, owner);
    KeepBegin(s.free, i, pos);
    GetReadMoves(s, i, h, pos);
    CellMove(s, DoGetRead(s, i, h, pos), i, pos, owner);
  }

  // ---------------------------------------------------------------- every action

  lemma KeepPut<T>(s: Queue<T>, i: nat, weak: bool, owner: seq<Place>) returns (owner': seq<Place>)
    requires QInv(s, owner) && i < |s.pcs|
    requires s.pcs[i].PutCount? || s.pcs[i].PutFull? || s.pcs[i].PutFree? || s.pcs[i].PutWrite? || s.pcs[i].PutAlloc?
    ensures QInv(DoStep(s, i, weak), owner')
  {
    owner' := owner;
    match s.pcs[i]
    case PutCount(item, fin) => KeepPutCount(s, i, item, fin, owner);
    case PutFull(item) => KeepPutFull(s, i, item, owner);
    case PutFree(item, fin, size) => owner' := KeepPutFree(s, i, weak, item, fin, size, owner);
    case PutWrite(item, fin, size, pos) => KeepPutWrite(s, i, item, fin, size, pos, owner);
    case PutAlloc(item, fin, size, pos) => owner' := KeepPutAlloc(s, i, weak, item, fin, size, pos, owner);
  }

  lemma KeepRefusal<T>(s: Queue<T>, i: nat, weak: bool, owner: seq<Place>) returns (owner': seq<Place>)
    requires QInv(s, owner) && i < |s.pcs|
    requires s.pcs[i].PutUncount? || s.pcs[i].PutReadBack? || s.pcs[i].PutSeal?
    ensures QInv(DoStep(s, i, weak), owner')
  {
    var pc := s.pcs[i];
    owner' := owner;
    if pc.PutUncount? {
      assert DoStep(s, i, weak) == DoPutUncount(s, i, pc.item, pc.pos);
      KeepPutUncount(s, i, pc.item, pc.pos, owner);
    } else if pc.PutReadBack? {
      assert DoStep(s, i, weak) == DoPutReadBack(s, i, pc.pos);
      KeepPutReadBack(s, i, pc.item, pc.pos, owner);
    } else {
      assert DoStep(s, i, weak) == DoPutSeal(s, i);
      KeepPutSeal(s, i, owner);
    }
  }

  lemma KeepReleaseStep<T>(s: Queue<T>, i: nat, weak: bool, owner: seq<Place>) returns (owner': seq<Place>)
    requires QInv(s, owner) && i < |s.pcs| && (s.pcs[i].PutRelease? || s.pcs[i].GetRelease?)
    ensures QInv(DoStep(s, i, weak), owner')
  {
    var done := if s.pcs[i].PutRelease? then PutDone(Closed(s.pcs[i].item)) else GetDone(Some(s.pcs[i].item));
    assert DoStep(s, i, weak) == DoRelease(s, i, weak, done);
    owner' := KeepRelease(s, i, weak, done, owner);
  }

  lemma KeepGet<T>(s: Queue<T>, i: nat, weak: bool, owner: seq<Place>) returns (owner': seq<Place>)
    requires QInv(s, owner) && i < |s.pcs| && (s.pcs[i].GetAlloc? || s.pcs[i].GetUncount? || s.pcs[i].GetRead?)
    ensures QInv(DoStep(s, i, weak), owner')
  {
    owner' := owner;
    if s.pcs[i].GetAlloc? {
      assert DoStep(s, i, weak) == DoGetAlloc(s, i, weak);
      owner' := KeepGetAlloc(s, i, weak, owner);
    } else if s.pcs[i].GetUncount? {
      assert DoStep(s, i, weak) == DoGetUncount(s, i, s.pcs[i].h, s.pcs[i].pos);
      KeepGetUncount(s, i, s.pcs[i].h, s.pcs[i].pos, owner);
    } else {
      assert DoStep(s, i, weak) == DoGetRead(s, i, s.pcs[i].h, s.pcs[i].pos);
      KeepGetRead(s, i, s.pcs[i].h, s.pcs[i].pos, owner);
    }
  }

  lemma KeepCallGet<T>(s: Queue<T>, i: nat, owner: seq<Place>)
    requires QInv(s, owner) && i < |s.pcs| && s.pcs[i].QIdle?
    ensures QInv(s.(alloc := BeginDequeue(s.alloc, i)).To(i, GetAlloc), owner)
  {
    assert Coupled(s, i);
    KeepBeginDequeue(s.alloc, i);
    Plain(s, s.(alloc := BeginDequeue(s.alloc, i)).To(i, GetAlloc), i, owner);
  }

  lemma KeepIdling<T>(s: Queue<T>, i: nat, pc: QPc<T>, owner: seq<Place>)
    requires QInv(s, owner) && i < |s.pcs| && (s.pcs[i].QIdle? || s.pcs[i].PutDone? || s.pcs[i].GetDone?)
    requires pc.QIdle? || pc.PutCount?
    ensures QInv(s.To(i, pc), owner)
  {
    assert Coupled(s, i);
    Plain(s, s.To(i, pc), i, owner);
  }

  lemma KeepCall<T>(s: Queue<T>, a: QAction<T>, owner: seq<Place>)
    requires QInv(s, owner) && !a.QStep?
    ensures QInv(QApply(s, a), owner)
  {
    var r := QApply(s, a);
    if a.i < |s.pcs| && r != s {
      if a.CallGet? {
        KeepCallGet(s, a.i, owner);
      } else {
        KeepIdling(s, a.i, r.pcs[a.i], owner);
      }
    }
  }

  lemma KeepQAction<T>(s: Queue<T>, a: QAction<T>, owner: seq<Place>) returns (owner': seq<Place>)
    requires QInv(s, owner)
    ensures QInv(QApply(s, a), owner')
  {
    owner' := owner;
    if !a.QStep? {
      KeepCall(s, a, owner);
    } else if a.i < |s.pcs| {
      var pc := s.pcs[a.i];
      if pc.PutCount? || pc.PutFull? || pc.PutFree? || pc.PutWrite? || pc.PutAlloc? {
        owner' := KeepPut(s, a.i, a.weak, owner);
      } else if pc.PutUncount? || pc.PutReadBack? || pc.PutSeal? {
        owner' := KeepRefusal(s, a.i, a.weak, owner);
      } else if pc.PutRelease? || pc.GetRelease? {
        owner' := KeepReleaseStep(s, a.i, a.weak, owner);
      } else if pc.GetAlloc? || pc.GetUncount? || pc.GetRead? {
        owner' := KeepGet(s, a.i, a.weak, owner);
      }
    }
  }

  lemma {:induction false} QInvRun<T>(s: Queue<T>, run: seq<QAction<T>>, owner: seq<Place>) returns (owner': seq<Place>)
    requires QInv(s, owner)
    ensures QInv(QExec(s, run), owner')
    decreases run
  {
    if run == [] {
      owner' := owner;
    } else {
      var mid := KeepQAction(s, run[0], owner);
      owner' := QInvRun(QApply(s, run[0]), run[1..], mid);
    }
  }

  lemma NewQueueInv<T>(cap: nat, sealable: bool, threads: nat) returns (owner: seq<Place>)
    requires cap >= 1
    ensures QInv(NewQueue<T>(cap, sealable, threads), owner)
  {
    var s := NewQueue<T>(cap, sealable, threads);
    FullInv(cap, sealable, threads);
    EmptyInv(cap, sealable, threads);
    Enclose(s.free);
    Enclose(s.alloc);
    owner := seq(cap, (x: nat) => InFree(x));
    TruesBound(LiveFlags(s.alloc));
    TruesBound(CountFlags(s));
    forall x: nat | x < s.cap ensures PlaceOk(s, owner[x], x) {}
  }

  // ---------------------------------------------------------------- reachable queues

  ghost predicate QReachable<T(!new)>(s: Queue<T>) {
    exists cap, sealable, threads, run: seq<QAction<T>> :: QReachedBy(s, cap, sealable, threads, run)
  }

  ghost predicate QReachedBy<T>(s: Queue<T>, cap: nat, sealable: bool, threads: nat, run: seq<QAction<T>>) {
    cap >= 1 && s == QExec(NewQueue(cap, sealable, threads), run)
  }

  lemma QReachableInv<T(!new)>(s: Queue<T>) returns (owner: seq<Place>)
    requires QReachable(s)
    ensures QInv(s, owner)
  {
    var cap, sealable, threads, run: seq<QAction<T>> :| QReachedBy(s, cap, sealable, threads, run);
    owner := NewQueueInv<T>(cap, sealable, threads);
    owner := QInvRun(NewQueue(cap, sealable, threads), run, owner);
  }

  // ---------------------------------------------------------------- index ownership

  /** Every index below the capacity is, at every moment, in exactly one place: a slot of the free ring,
      a slot of the allocated ring, or the hands of one thread; and no other index is anywhere. */
  lemma IndexOwnership<T(!new)>(s: Queue<T>, x: nat)
    requires QReachable(s)
    ensures s.Wf()
    ensures x < s.cap ==> exists p :: PlaceOk(s, p, x)
    ensures forall p, q :: PlaceOk(s, p, x) && PlaceOk(s, q, x) ==> p == q && x < s.cap
  {
    var owner := QReachableInv(s);
    if x < s.cap { assert PlaceOk(s, owner[x], x); }
    forall p, q | PlaceOk(s, p, x) && PlaceOk(s, q, x) ensures p == q && x < s.cap {
      assert owner[x] == p && owner[x] == q;
    }
  }

  /** A thread that accesses a cell has it for itself.  It writes only cells that are empty, and reads
      only cells that hold an item, at an index that no other thread holds. */
  lemma ExclusiveCells<T(!new)>(s: Queue<T>, i: nat)
    requires QReachable(s) && i < |s.pcs|
    requires s.pcs[i].PutWrite? || s.pcs[i].PutReadBack? || s.pcs[i].GetRead?
    ensures var pos := s.pcs[i].pos;
            && s.Wf() && pos < s.cap && (s.Filled(pos) <==> !s.pcs[i].PutWrite?)
            && (forall k: nat :: k < |s.pcs| && HeldBy(s, k) == Some(pos) ==> k == i)
  {
    var owner := QReachableInv(s);
    assert HeldBy(s, i) == Some(s.pcs[i].pos) && owner[s.pcs[i].pos] == Held(i);
  }

  lemma NotRefused<T>(s: Queue<T>, i: nat, owner: seq<Place>)
    requires QInv(s, owner) && i < |s.pcs|
    ensures !s.free.pcs[i].EnqErr?
  {
    assert Coupled(s, i);
    if s.pcs[i].PutRelease? || s.pcs[i].GetRelease? { NeverRefused(s, i, owner); }
  }

  lemma RefusedIfSealed<T>(s: Queue<T>, i: nat, owner: seq<Place>)
    requires QInv(s, owner) && i < |s.pcs| && s.alloc.pcs[i].EnqErr?
    ensures s.alloc.pcs[i].error == QueueFinalized && s.alloc.finalized
  {
    assert Coupled(s, i);
    assert HeldBy(s, i).Some? ==> HeldBy(s, i).value < s.cap;
    SoundError(s.alloc, i);
  }

  /** No operation ever reaches undefined behaviour or a panic, and a ring refuses an index only because
      the allocated ring was sealed. */
  lemma NeverUndefined<T(!new)>(s: Queue<T>, i: nat)
    requires QReachable(s) && i < |s.pcs|
    ensures s.pcs[i] != Undefined && i < |s.alloc.pcs| && i < |s.free.pcs|
    ensures !s.free.pcs[i].EnqErr?
    ensures s.alloc.pcs[i].EnqErr? ==> s.alloc.pcs[i].error == QueueFinalized && s.alloc.finalized
  {
    var owner := QReachableInv(s);
    NotRefused(s, i, owner);
    if s.alloc.pcs[i].EnqErr? { RefusedIfSealed(s, i, owner); }
    assert Coupled(s, i);
  }

  // ---------------------------------------------------------------- the counter

  /** `used` is the number of allocated entries, plus the enqueues between increment and outcome, plus
      the dequeues between taking an index and decrement; so no decrement takes it below zero. */
  lemma UsedCounts<T(!new)>(s: Queue<T>, i: nat)
    requires QReachable(s) && i < |s.pcs|
    ensures s.Wf() && s.used == Live(s.alloc) + Trues(CountFlags(s))
    ensures s.pcs[i].PutFull? || s.pcs[i].PutUncount? || s.pcs[i].GetUncount? ==> s.used >= 1
  {
    var owner := QReachableInv(s);
    if Counted(s, i) {
      TruesUpdate(CountFlags(s), i, false);
    }
  }

  function FilledFlags<T>(s: Queue<T>): seq<bool> {
    seq(|s.cells|, x requires 0 <= x < |s.cells| => s.cells[x].Some?)
  }

  lemma {:induction false} FirstOnly(flags: seq<bool>, n: nat)
    requires n <= |flags| && forall x: nat :: n <= x < |flags| ==> !flags[x]
    ensures Trues(flags) <= n
    decreases n
  {
    if n == 0 {
      TruesBound(flags);
    } else {
      FirstOnly(flags[1..], n - 1);
    }
  }

  /** At most `capacity` items are stored. */
  lemma NeverOverfull<T(!new)>(s: Queue<T>)
    requires QReachable(s)
    ensures Trues(FilledFlags(s)) <= s.cap
  {
    var owner := QReachableInv(s);
    FirstOnly(FilledFlags(s), s.cap);
  }

  // ---------------------------------------------------------------- items

  /** A dequeuer reads exactly the argument of the enqueue that had its ticket, once: the ticket has not
      been used for a read before.  A refused enqueue reads back its own argument. */
  lemma ItemsComeBack<T(!new)>(s: Queue<T>, i: nat)
    requires QReachable(s) && i < |s.pcs|
    ensures s.Wf()
    ensures s.pcs[i].GetRead? ==>
              var h, pos := s.pcs[i].h, s.pcs[i].pos;
              && h in s.values && h !in s.returned
              && DoStep(s, i, false).pcs[i] == GetRelease(s.values[h], pos)
              && DoStep(s, i, false).returned == s.returned[h := s.values[h]]
    ensures s.pcs[i].PutReadBack? ==>
              DoStep(s, i, false).pcs[i] == PutRelease(s.pcs[i].item, s.pcs[i].pos)
  {
    var owner := QReachableInv(s);
    if s.pcs[i].GetRead? || s.pcs[i].PutReadBack? {
      CellFilled(s, i, owner);
      if s.pcs[i].GetRead? {
        var h := s.pcs[i].h;
        assert TakenBy(s, i) == Some(h) && Lies(s, s.pcs[i].pos, h);
        assert DoStep(s, i, false) == DoGetRead(s, i, h, s.pcs[i].pos);
      } else {
        assert WrittenBy(s, i) == Some(s.pcs[i].item);
        assert DoStep(s, i, false) == DoPutReadBack(s, i, s.pcs[i].pos);
      }
    }
  }

  /** What dequeues have read so far, ticket by ticket, is what enqueues have put in. */
  lemma ReturnedAreStored<T(!new)>(s: Queue<T>, h: nat)
    requires QReachable(s) && h in s.returned
    ensures h in s.values && s.returned[h] == s.values[h] && h in s.alloc.log.taken
  {
    var owner := QReachableInv(s);
  }
}
