/** Operations of the bounded queue that run alone: what an enqueue or a dequeue makes of the queue, and
    exactly when a dequeue answers None. */
module BoundedSolo {
  import opened Counting
  import opened Ring
  import opened RingInvariant
  import opened RingTheorems
  import opened RingSolo
  import opened BoundedMachine
  import opened BoundedInvariant
  import opened BoundedTheorems
  import opened BoundedFifo

  /** k steps of thread i, none of which fails spuriously. */
  function QAlone<T>(i: nat, k: nat): seq<QAction<T>> {
    if k == 0 then [] else [QStep(i, false)] + QAlone(i, k - 1)
  }

  /** The state after them. */
  function QSolo<T>(s: Queue<T>, i: nat, k: nat): (r: Queue<T>)
    requires s.Wf() && i < |s.pcs|
    ensures SameSize(s, r)
    decreases k
  {
    if k == 0 then s else QSolo(DoStep(s, i, false), i, k - 1)
  }

  lemma QExecCons<T>(s: Queue<T>, a: QAction<T>, run: seq<QAction<T>>)
    requires s.Wf()
    ensures QExec(s, [a] + run) == QExec(QApply(s, a), run)
  {
    assert ([a] + run)[1..] == run;
  }

  lemma {:induction false} QExecAppend<T>(s: Queue<T>, run: seq<QAction<T>>, more: seq<QAction<T>>)
    requires s.Wf()
    ensures QExec(s, run + more) == QExec(QExec(s, run), more)
    decreases run
  {
    if run == [] {
      assert run + more == more;
    } else {
      assert (run + more)[1..] == run[1..] + more;
      QExecAppend(QApply(s, run[0]), run[1..], more);
    }
  }

  lemma {:induction false} QSoloIsExec<T>(s: Queue<T>, i: nat, k: nat)
    requires s.Wf() && i < |s.pcs|
    ensures QExec(s, QAlone(i, k)) == QSolo(s, i, k)
    decreases k
  {
    if k > 0 {
      QExecCons(s, QStep(i, false), QAlone(i, k - 1));
      QSoloIsExec(DoStep(s, i, false), i, k - 1);
    }
  }

  lemma {:induction false} QSoloAppend<T>(s: Queue<T>, i: nat, k: nat, l: nat)
    requires s.Wf() && i < |s.pcs|
    ensures QSolo(s, i, k + l) == QSolo(QSolo(s, i, k), i, l)
    decreases k
  {
    if k > 0 { QSoloAppend(DoStep(s, i, false), i, k - 1, l); }
  }

  /** A call of thread i followed by k steps of it. */
  lemma QCall<T>(s: Queue<T>, a: QAction<T>, i: nat, k: nat)
    requires s.Wf() && i < |s.pcs|
    ensures QExec(s, [a] + QAlone(i, k)) == QSolo(QApply(s, a), i, k)
  {
    QExecCons(s, a, QAlone(i, k));
    QSoloIsExec(QApply(s, a), i, k);
  }

  ghost predicate SomeSteps<T>(s: Queue<T>, i: nat, r: Queue<T>) {
    s.Wf() && i < |s.pcs| && exists j: nat :: QSolo(s, i, j) == r
  }

  /** Thread i, running alone, brings s to r.  A closed box: a proof that only puts such steps together does
      not look inside. */
  ghost predicate Brings<T>(s: Queue<T>, i: nat, r: Queue<T>) {
    forall q: Queue<T> :: q == s ==> SomeSteps(q, i, r)
  }

  lemma BringsBy<T>(s: Queue<T>, i: nat, j: nat, r: Queue<T>)
    requires s.Wf() && i < |s.pcs| && QSolo(s, i, j) == r
    ensures Brings(s, i, r)
  {
    assert SomeSteps(s, i, r);
  }

  lemma BringsOne<T>(s: Queue<T>, i: nat, r: Queue<T>)
    requires s.Wf() && i < |s.pcs| && DoStep(s, i, false) == r
    ensures Brings(s, i, r)
  {
    assert QSolo(r, i, 0) == r;
    BringsBy(s, i, 1, r);
  }

  lemma BringsOn<T>(s: Queue<T>, i: nat, m: Queue<T>, r: Queue<T>)
    requires Brings(s, i, m) && Brings(m, i, r)
    ensures Brings(s, i, r)
  {
    assert SomeSteps(s, i, m) && SomeSteps(m, i, r);
    var j: nat :| QSolo(s, i, j) == m;
    var k: nat :| QSolo(m, i, k) == r;
    QSoloAppend(s, i, j, k);
    BringsBy(s, i, j + k, r);
  }

  lemma Steps<T>(s: Queue<T>, i: nat, r: Queue<T>) returns (j: nat)
    requires s.Wf() && i < |s.pcs| && Brings(s, i, r)
    ensures QSolo(s, i, j) == r
  {
    assert SomeSteps(s, i, r);
    j :| QSolo(s, i, j) == r;
  }

  // ---------------------------------------------------------------- steps inside a ring operation

  /** The thread is in an operation of the free ring. */
  predicate UsesFree<T>(pc: QPc<T>) { pc.PutFree? || pc.PutRelease? || pc.GetRelease? }

  lemma FreeStep<T>(s: Queue<T>, i: nat)
    requires s.Wf() && i < |s.pcs| && UsesFree(s.pcs[i]) && !Returned(s.free.pcs[i])
    ensures Brings(s, i, s.(free := StepThread(s.free, i, false)))
  {
    BringsOne(s, i, s.(free := StepThread(s.free, i, false)));
  }

  /** While the thread is in an operation of the free ring, its steps are steps of that ring, up to the return. */
  lemma {:induction false} FreeRuns<T>(s: Queue<T>, i: nat, k: nat)
    requires s.Wf() && i < |s.pcs| && UsesFree(s.pcs[i])
    ensures Brings(s, i, s.(free := Solo(s.free, i, k)))
    decreases k
  {
    if Returned(s.free.pcs[i]) || k == 0 {
      if k > 0 { SoloEnds(s.free, i, k); }
      Stays(s, i);
    } else {
      var s1 := s.(free := StepThread(s.free, i, false));
      FreeStep(s, i);
      FreeRuns(s1, i, k - 1);
      BringsOn(s, i, s1, s.(free := Solo(s1.free, i, k - 1)));
    }
  }

  lemma Stays<T>(s: Queue<T>, i: nat)
    requires s.Wf() && i < |s.pcs|
    ensures Brings(s, i, s)
  {
    BringsBy(s, i, 0, s);
  }

  lemma AllocGetStep<T>(s: Queue<T>, i: nat)
    requires s.Wf() && i < |s.pcs| && s.pcs[i].GetAlloc? && !Returned(s.alloc.pcs[i])
    ensures Brings(s, i, s.(alloc := StepThread(s.alloc, i, false)))
  {
    BringsOne(s, i, s.(alloc := StepThread(s.alloc, i, false)));
  }

  lemma {:induction false} AllocGets<T>(s: Queue<T>, i: nat, k: nat)
    requires s.Wf() && i < |s.pcs| && s.pcs[i].GetAlloc?
    ensures Brings(s, i, s.(alloc := Solo(s.alloc, i, k)))
    decreases k
  {
    if Returned(s.alloc.pcs[i]) || k == 0 {
      if k > 0 { SoloEnds(s.alloc, i, k); }
      Stays(s, i);
    } else {
      var s1 := s.(alloc := StepThread(s.alloc, i, false));
      AllocGetStep(s, i);
      AllocGets(s1, i, k - 1);
      BringsOn(s, i, s1, s.(alloc := Solo(s1.alloc, i, k - 1)));
    }
  }

  /** The enqueue has put its index in, with ticket t. */
  predicate In(pc: Pc, t: nat) { (pc.EnqThreshold? || pc.EnqStore? || pc.EnqOk?) && pc.t == t }

  predicate NotIn(pc: Pc) { pc.EnqTicket? || pc.EnqLoad? || pc.EnqHead? || pc.EnqFinal? || pc.EnqCas? }

  lemma InStep(s: Ring, i: nat)
    requires s.Wf() && i < |s.pcs|
    ensures var pc := StepThread(s, i, false).pcs[i];
            && (forall t: nat :: In(s.pcs[i], t) ==> In(pc, t))
            && (NotIn(s.pcs[i]) ==>
                  NotIn(pc) || pc.EnqErr? || (s.pcs[i].EnqCas? && pc.EnqThreshold? && In(pc, s.pcs[i].t)))
  {
  }

  lemma {:induction false} InStays(s: Ring, i: nat, k: nat, t: nat)
    requires s.Wf() && i < |s.pcs| && In(s.pcs[i], t)
    ensures In(Solo(s, i, k).pcs[i], t)
    decreases k
  {
    if k > 0 {
      InStep(s, i);
      InStays(StepThread(s, i, false), i, k - 1, t);
    }
  }

  lemma AllocPutStep<T>(s: Queue<T>, i: nat)
    requires s.Wf() && i < |s.pcs| && s.pcs[i].PutAlloc? && !Returned(s.alloc.pcs[i])
    ensures Brings(s, i, AllocStep(s, i, StepThread(s.alloc, i, false), s.pcs[i].item))
  {
    BringsOne(s, i, AllocStep(s, i, StepThread(s.alloc, i, false), s.pcs[i].item));
  }

  /** After the insertion the steps are steps of the alloc ring. */
  lemma {:induction false} AllocSettles<T>(s: Queue<T>, i: nat, k: nat, t: nat)
    requires s.Wf() && i < |s.pcs| && s.pcs[i].PutAlloc? && In(s.alloc.pcs[i], t)
    ensures Brings(s, i, s.(alloc := Solo(s.alloc, i, k)))
    decreases k
  {
    if s.alloc.pcs[i].EnqOk? || k == 0 {
      if k > 0 { SoloEnds(s.alloc, i, k); }
      Stays(s, i);
    } else {
      var s1 := s.(alloc := StepThread(s.alloc, i, false));
      InStep(s.alloc, i);
      AllocPutStep(s, i);
      AllocSettles(s1, i, k - 1, t);
      BringsOn(s, i, s1, s.(alloc := Solo(s1.alloc, i, k - 1)));
    }
  }

  /** The whole enqueue into the alloc ring: the history notes the item under the ticket. */
  lemma {:induction false} AllocPuts<T>(s: Queue<T>, i: nat, k: nat, x: nat, t: nat)
    requires s.Wf() && i < |s.pcs| && s.pcs[i].PutAlloc? && NotIn(s.alloc.pcs[i])
    requires Solo(s.alloc, i, k).pcs[i] == EnqOk(x, t)
    ensures Brings(s, i, s.(alloc := Solo(s.alloc, i, k), values := s.values[t := s.pcs[i].item]))
    decreases k
  {
    var a := StepThread(s.alloc, i, false);
    InStep(s.alloc, i);
    AllocPutStep(s, i);
    var s1 := AllocStep(s, i, a, s.pcs[i].item);
    var r := s.(alloc := Solo(s.alloc, i, k), values := s.values[t := s.pcs[i].item]);
    if NotIn(a.pcs[i]) {
      AllocPuts(s1, i, k - 1, x, t);
      BringsOn(s, i, s1, r);
    } else if a.pcs[i].EnqErr? {
      SoloEnds(a, i, k - 1);
    } else {
      InStays(a, i, k - 1, s.alloc.pcs[i].t);
      AllocSettles(s1, i, k - 1, t);
      BringsOn(s, i, s1, r);
    }
  }

  // ---------------------------------------------------------------- whole operations

  lemma Counts<T>(s: Queue<T>, i: nat)
    requires s.Wf() && i < |s.pcs| && s.pcs[i].PutCount? && s.used < s.cap
    ensures Brings(s, i, s.(used := s.used + 1, free := BeginDequeue(s.free, i))
                          .To(i, PutFree(s.pcs[i].item, s.pcs[i].fin, s.used)))
  {
    BringsOne(s, i, DoPutCount(s, i, s.pcs[i].item, s.pcs[i].fin));
  }

  lemma TakesFree<T>(s: Queue<T>, i: nat, k: nat, f: Ring, h: nat, x: nat)
    requires s.Wf() && i < |s.pcs| && s.pcs[i].PutFree? && f == Solo(s.free, i, k) && f.pcs[i] == DeqSome(h, x)
    ensures Brings(s, i, s.(free := f.To(i, Idle)).To(i, PutWrite(s.pcs[i].item, s.pcs[i].fin, s.pcs[i].size, x)))
  {
    FreeRuns(s, i, k);
    var s1 := s.(free := f);
    BringsOne(s1, i, DoPutFree(s1, i, false, s.pcs[i].item, s.pcs[i].fin, s.pcs[i].size));
    BringsOn(s, i, s1, s.(free := f.To(i, Idle)).To(i, PutWrite(s.pcs[i].item, s.pcs[i].fin, s.pcs[i].size, x)));
  }

  lemma Writes<T>(s: Queue<T>, i: nat)
    requires s.Wf() && i < |s.pcs| && s.pcs[i].PutWrite? && s.pcs[i].pos < |s.cells|
    ensures var pos := s.pcs[i].pos;
            Brings(s, i, s.(cells := s.cells[pos := Some(s.pcs[i].item)], alloc := BeginEnqueue(s.alloc, i, pos))
                          .To(i, PutAlloc(s.pcs[i].item, s.pcs[i].fin, s.pcs[i].size, pos)))
  {
    BringsOne(s, i, DoPutWrite(s, i, s.pcs[i].item, s.pcs[i].fin, s.pcs[i].size, s.pcs[i].pos));
  }

  /** The alloc ring as an enqueue leaves it that was told to finalize (`fin`) and found `size` items. */
  function Finish<T>(s: Queue<T>, fin: bool, size: int, a: Ring): Ring {
    if fin && size + 1 >= s.cap && a.finalizable then a.(finalized := true) else a
  }

  lemma Seals<T>(s: Queue<T>, i: nat)
    requires s.Wf() && i < |s.pcs| && s.pcs[i].PutSeal?
    ensures Brings(s, i, s.(alloc := Finish(s, true, s.cap, s.alloc)).To(i, PutDone(Stored)))
  {
    BringsOne(s, i, DoPutSeal(s, i));
  }

  lemma PutsIntoAlloc<T>(s: Queue<T>, i: nat, k: nat, a: Ring, x: nat, t: nat)
    requires s.Wf() && i < |s.pcs| && s.pcs[i].PutAlloc? && NotIn(s.alloc.pcs[i])
    requires a == Solo(s.alloc, i, k) && a.pcs[i] == EnqOk(x, t)
    ensures var r := Finish(s, s.pcs[i].fin, s.pcs[i].size, a.To(i, Idle));
            Brings(s, i, s.(alloc := r, values := s.values[t := s.pcs[i].item]).To(i, PutDone(Stored)))
  {
    var item, fin, size := s.pcs[i].item, s.pcs[i].fin, s.pcs[i].size;
    AllocPuts(s, i, k, x, t);
    var s1 := s.(alloc := a, values := s.values[t := item]);
    var s2 := DoPutAlloc(s1, i, false, item, fin, size, s.pcs[i].pos);
    BringsOne(s1, i, s2);
    BringsOn(s, i, s1, s2);
    var s3 := s.(alloc := Finish(s, fin, size, a.To(i, Idle)), values := s.values[t := item]).To(i, PutDone(Stored));
    if fin && size + 1 >= s.cap {
      Seals(s2, i);
      assert s2.(alloc := Finish(s2, true, s2.cap, s2.alloc)).To(i, PutDone(Stored)) == s3 by {
        assert s2.To(i, PutDone(Stored)).pcs == s3.pcs;
      }
      BringsOn(s, i, s2, s3);
    }
  }

  /** An enqueue that finds the index x and puts it in with ticket t: `f` and `a` are what it makes of the
      two rings. */
  function AfterPut<T>(s: Queue<T>, i: nat, item: T, x: nat, t: nat, f: Ring, a: Ring): Queue<T>
    requires i < |s.pcs| && i < |f.pcs| && i < |a.pcs| && x < |s.cells|
  {
    s.(used := s.used + 1, cells := s.cells[x := Some(item)], values := s.values[t := item],
       free := f.To(i, Idle), alloc := a.To(i, Idle)).To(i, PutDone(Stored))
  }

  lemma PutAlone<T>(s: Queue<T>, i: nat, k1: nat, k2: nat, f: Ring, a: Ring, h: nat, x: nat, t: nat)
    requires s.Wf() && i < |s.pcs| && s.pcs[i].PutCount? && s.used < s.cap && x < s.cap
    requires f == Solo(BeginDequeue(s.free, i), i, k1) && f.pcs[i] == DeqSome(h, x)
    requires a == Solo(BeginEnqueue(s.alloc, i, x), i, k2) && a.pcs[i] == EnqOk(x, t)
    ensures Brings(s, i, AfterPut(s, i, s.pcs[i].item, x, t, f, Finish(s, s.pcs[i].fin, s.used, a)))
  {
    var item, fin, size := s.pcs[i].item, s.pcs[i].fin, s.used;
    var s3 := BeforeAlloc(s, i, f, x);
    AtAlloc(s, i, k1, f, h, x);
    var s4 := s3.(alloc := Finish(s3, fin, size, a.To(i, Idle)), values := s.values[t := item]).To(i, PutDone(Stored));
    PutsIntoAlloc(s3, i, k2, a, x, t);
    BringsOn(s, i, s3, s4);
    assert s4.pcs == s.To(i, PutDone(Stored)).pcs;
  }

  /** The enqueue has taken index x, written its item, and is about to enqueue the index. */
  function BeforeAlloc<T>(s: Queue<T>, i: nat, f: Ring, x: nat): Queue<T>
    requires i < |s.pcs| && i < |f.pcs| && i < |s.alloc.pcs| && x < |s.cells| && s.pcs[i].PutCount?
  {
    s.(used := s.used + 1, free := f.To(i, Idle), cells := s.cells[x := Some(s.pcs[i].item)],
       alloc := BeginEnqueue(s.alloc, i, x)).To(i, PutAlloc(s.pcs[i].item, s.pcs[i].fin, s.used, x))
  }

  lemma AtAlloc<T>(s: Queue<T>, i: nat, k1: nat, f: Ring, h: nat, x: nat)
    requires s.Wf() && i < |s.pcs| && s.pcs[i].PutCount? && s.used < s.cap && x < s.cap
    requires f == Solo(BeginDequeue(s.free, i), i, k1) && f.pcs[i] == DeqSome(h, x)
    ensures Brings(s, i, BeforeAlloc(s, i, f, x))
  {
    var item, fin, size := s.pcs[i].item, s.pcs[i].fin, s.used;
    var s1 := s.(used := size + 1, free := BeginDequeue(s.free, i)).To(i, PutFree(item, fin, size));
    Counts(s, i);
    var s2 := s1.(free := f.To(i, Idle)).To(i, PutWrite(item, fin, size, x));
    TakesFree(s1, i, k1, f, h, x);
    var s3 := s2.(cells := s.cells[x := Some(item)], alloc := BeginEnqueue(s.alloc, i, x))
               .To(i, PutAlloc(item, fin, size, x));
    Writes(s2, i);
    BringsOn(s, i, s1, s2);
    BringsOn(s, i, s2, s3);
    assert s3.pcs == s.To(i, PutAlloc(item, fin, size, x)).pcs;
  }

  lemma TakesAlloc<T>(s: Queue<T>, i: nat, k: nat, a: Ring, h: nat, x: nat)
    requires s.Wf() && i < |s.pcs| && s.pcs[i].GetAlloc? && a == Solo(s.alloc, i, k) && a.pcs[i] == DeqSome(h, x)
    ensures Brings(s, i, s.(alloc := a.To(i, Idle)).To(i, GetUncount(h, x)))
  {
    AllocGets(s, i, k);
    var s1 := s.(alloc := a);
    BringsOne(s1, i, DoGetAlloc(s1, i, false));
    BringsOn(s, i, s1, s.(alloc := a.To(i, Idle)).To(i, GetUncount(h, x)));
  }

  lemma Uncounts<T>(s: Queue<T>, i: nat)
    requires s.Wf() && i < |s.pcs| && s.pcs[i].GetUncount?
    ensures Brings(s, i, s.(used := s.used - 1).To(i, GetRead(s.pcs[i].h, s.pcs[i].pos)))
  {
    BringsOne(s, i, DoGetUncount(s, i, s.pcs[i].h, s.pcs[i].pos));
  }

  lemma Reads<T>(s: Queue<T>, i: nat)
    requires s.Wf() && i < |s.pcs| && s.pcs[i].GetRead? && s.Filled(s.pcs[i].pos)
    ensures var pos := s.pcs[i].pos;
            var item := s.cells[pos].value;
            Brings(s, i, s.(cells := s.cells[pos := None], returned := s.returned[s.pcs[i].h := item],
                            free := BeginEnqueue(s.free, i, pos)).To(i, GetRelease(item, pos)))
  {
    BringsOne(s, i, DoGetRead(s, i, s.pcs[i].h, s.pcs[i].pos));
  }

  lemma GivesFree<T>(s: Queue<T>, i: nat, k: nat, f: Ring, x: nat, t: nat)
    requires s.Wf() && i < |s.pcs| && s.pcs[i].GetRelease? && f == Solo(s.free, i, k) && f.pcs[i] == EnqOk(x, t)
    ensures Brings(s, i, s.(free := f.To(i, Idle)).To(i, GetDone(Some(s.pcs[i].item))))
  {
    FreeRuns(s, i, k);
    var s1, item := s.(free := f), s.pcs[i].item;
    BringsOne(s1, i, DoRelease(s1, i, false, GetDone(Some(item))));
    BringsOn(s, i, s1, s.(free := f.To(i, Idle)).To(i, GetDone(Some(item))));
  }

  /** A dequeue that finds the item under index x, which has ticket h. */
  function AfterGet<T>(s: Queue<T>, i: nat, item: T, h: nat, x: nat, f: Ring, a: Ring): Queue<T>
    requires i < |s.pcs| && i < |f.pcs| && i < |a.pcs| && x < |s.cells|
  {
    s.(used := s.used - 1, cells := s.cells[x := None], returned := s.returned[h := item],
       free := f.To(i, Idle), alloc := a.To(i, Idle)).To(i, GetDone(Some(item)))
  }

  lemma GetAlone<T>(s: Queue<T>, i: nat, k1: nat, k2: nat, f: Ring, a: Ring, h: nat, x: nat, t: nat)
    requires s.Wf() && i < |s.pcs| && s.pcs[i].GetAlloc? && s.Filled(x)
    requires a == Solo(s.alloc, i, k1) && a.pcs[i] == DeqSome(h, x)
    requires f == Solo(BeginEnqueue(s.free, i, x), i, k2) && f.pcs[i] == EnqOk(x, t)
    ensures Brings(s, i, AfterGet(s, i, s.cells[x].value, h, x, f, a))
  {
    var item := s.cells[x].value;
    var s1 := s.(alloc := a.To(i, Idle)).To(i, GetUncount(h, x));
    TakesAlloc(s, i, k1, a, h, x);
    var s2 := s1.(used := s.used - 1).To(i, GetRead(h, x));
    Uncounts(s1, i);
    var s3 := s2.(cells := s.cells[x := None], returned := s.returned[h := item], free := BeginEnqueue(s.free, i, x))
               .To(i, GetRelease(item, x));
    Reads(s2, i);
    var s4 := s3.(free := f.To(i, Idle)).To(i, GetDone(Some(item)));
    GivesFree(s3, i, k2, f, x, t);
    BringsOn(s, i, s1, s2);
    BringsOn(s, i, s2, s3);
    BringsOn(s, i, s3, s4);
    assert s4.pcs == s.To(i, GetDone(Some(item))).pcs;
  }

  // ---------------------------------------------------------------- runs

  ghost predicate SomeRun<T(!new)>(s: Queue<T>, r: Queue<T>) {
    s.Wf() && exists run: seq<QAction<T>> :: QExec(s, run) == r
  }

  /** Some run leads from s to r; a closed box. */
  ghost predicate Leads<T(!new)>(s: Queue<T>, r: Queue<T>) {
    forall q: Queue<T> :: q == s ==> SomeRun(q, r)
  }

  lemma LeadsBy<T(!new)>(s: Queue<T>, run: seq<QAction<T>>, r: Queue<T>)
    requires s.Wf() && QExec(s, run) == r
    ensures Leads(s, r)
  {
    assert SomeRun(s, r);
  }

  lemma LeadsOn<T(!new)>(s: Queue<T>, m: Queue<T>, r: Queue<T>)
    requires Leads(s, m) && Leads(m, r)
    ensures Leads(s, r)
  {
    assert SomeRun(s, m) && SomeRun(m, r);
    var a: seq<QAction<T>> :| QExec(s, a) == m;
    var b: seq<QAction<T>> :| QExec(m, b) == r;
    QExecAppend(s, a, b);
    LeadsBy(s, a + b, r);
  }

  lemma LeadsOne<T(!new)>(s: Queue<T>, a: QAction<T>, r: Queue<T>)
    requires s.Wf() && QApply(s, a) == r
    ensures Leads(s, r)
  {
    QExecCons(s, a, []);
    LeadsBy(s, [a] + [], r);
  }

  /** A call of thread i, and what the thread then does alone. */
  lemma LeadsCall<T(!new)>(s: Queue<T>, a: QAction<T>, i: nat, r: Queue<T>)
    requires s.Wf() && i < |s.pcs| && Brings(QApply(s, a), i, r)
    ensures Leads(s, r)
  {
    var k := Steps(QApply(s, a), i, r);
    QExecCons(s, a, QAlone(i, k));
    QSoloIsExec(QApply(s, a), i, k);
    LeadsBy(s, [a] + QAlone(i, k), r);
  }

  lemma LeadsReturn<T(!new)>(s: Queue<T>, i: nat)
    requires s.Wf() && i < |s.pcs| && (s.pcs[i].PutDone? || s.pcs[i].GetDone?)
    ensures Leads(s, s.To(i, QIdle))
  {
    LeadsOne(s, QReturn(i), s.To(i, QIdle));
  }

  // ---------------------------------------------------------------- what a dequeue answers

  /** Twice as many slots as indices: some slot of the free ring is empty. */
  lemma FreeHasRoom<T>(s: Queue<T>, owner: seq<Place>)
    requires QInv(s, owner)
    ensures Live(s.free) < s.free.N()
  {
    TruesBound(LiveFlags(s.free));
    if Live(s.free) == s.free.N() {
      forall j: nat | j < s.free.N() ensures s.free.slots[j].entry.Some? { AllLive(s.free, j); }
      var indices := seq(s.free.N(), j requires 0 <= j < s.free.N() => s.free.slots[j].entry.value);
      var all := seq(s.cap, _ => true);
      forall j: nat, k: nat | j < k < |indices| ensures indices[j] != indices[k] {
        assert owner[indices[j]] == InFree(j) && owner[indices[k]] == InFree(k);
      }
      Pigeons(all, indices);
      TruesBound(all);
    }
  }

  /** What a dequeue running alone from s answers: the item of the first ticket still to be drawn, if the
      threshold of the alloc ring admits that ticket, and otherwise None. */
  function Item<T>(s: Queue<T>): Option<T>
    requires forall t :: t in s.alloc.log.inserted && t !in s.alloc.log.taken ==> t in s.values
  {
    match FirstEntry(s.alloc.log.inserted, s.alloc.log.taken, s.alloc.head, s.alloc.tail)
    case None => None
    case Some(t) => if t - s.alloc.head <= s.alloc.threshold then Some(s.values[t]) else None
  }

  lemma GetNothing<T>(s: Queue<T>, i: nat, k: nat)
    requires s.Wf() && i < |s.pcs| && s.pcs[i].GetAlloc? && Solo(s.alloc, i, k).pcs[i].DeqNone?
    ensures Brings(s, i, s.(alloc := Solo(s.alloc, i, k).To(i, Idle)).To(i, GetDone(None)))
  {
    var a := Solo(s.alloc, i, k);
    AllocGets(s, i, k);
    BringsOne(s.(alloc := a), i, DoGetAlloc(s.(alloc := a), i, false));
    BringsOn(s, i, s.(alloc := a), s.(alloc := a.To(i, Idle)).To(i, GetDone(None)));
  }

  /** The index goes back: the free ring has room, and takes it. */
  lemma GivesBack<T(!new)>(s: Queue<T>, owner: seq<Place>, i: nat, x: nat) returns (k: nat, t: nat)
    requires QInv(s, owner) && Reachable(s.free) && i < |s.pcs| && x < s.cap
    requires forall j: nat :: j < |s.pcs| ==> s.pcs[j].QIdle?
    ensures Solo(BeginEnqueue(s.free, i, x), i, k).pcs[i] == EnqOk(x, t)
  {
    FreeHasRoom(s, owner);
    forall j: nat | j < |s.pcs| ensures s.free.pcs[j].Idle? { assert Coupled(s, j); }
    var d := EnqueueReady(s.free, i, x);
    k, t := FromTicket(BeginEnqueue(s.free, i, x), i, x, d);
  }

  /** Every ticket with an entry has its item, in the cell of its index. */
  ghost predicate Stocked<T>(s: Queue<T>) {
    forall t :: t in s.alloc.log.inserted && t !in s.alloc.log.taken ==>
      && t in s.values && s.alloc.log.inserted[t] < s.cap
      && s.Filled(s.alloc.log.inserted[t]) && s.cells[s.alloc.log.inserted[t]] == Some(s.values[t])
  }

  lemma IsStocked<T>(s: Queue<T>, owner: seq<Place>)
    requires QInv(s, owner)
    ensures Stocked(s)
  {
    forall t | t in s.alloc.log.inserted && t !in s.alloc.log.taken
      ensures Lies(s, s.alloc.log.inserted[t], t) && s.alloc.log.inserted[t] < s.cap
    {
      SoundLive(s.alloc, t);
    }
  }

  lemma AnswerNone<T>(s: Queue<T>, s1: Queue<T>, i: nat, k: nat) returns (r: Queue<T>)
    requires s.Wf() && Stocked(s) && i < |s.pcs| && s1 == s.(alloc := BeginDequeue(s.alloc, i)).To(i, GetAlloc)
    requires Solo(s1.alloc, i, k).pcs[i] == Answer(s.alloc) == DeqNone
    ensures Brings(s1, i, r) && i < |r.pcs| && r.pcs[i] == GetDone(Item(s))
  {
    GetNothing(s1, i, k);
    r := s1.(alloc := Solo(s1.alloc, i, k).To(i, Idle)).To(i, GetDone(None));
  }

  lemma AnswerSome<T>(s: Queue<T>, s1: Queue<T>, i: nat, k: nat, k2: nat, t: nat) returns (r: Queue<T>)
    requires s.Wf() && Stocked(s) && i < |s.pcs| && s1 == s.(alloc := BeginDequeue(s.alloc, i)).To(i, GetAlloc)
    requires Solo(s1.alloc, i, k).pcs[i] == Answer(s.alloc) && Answer(s.alloc).DeqSome?
    requires var x := Answer(s.alloc).x; Solo(BeginEnqueue(s.free, i, x), i, k2).pcs[i] == EnqOk(x, t)
    ensures Brings(s1, i, r) && i < |r.pcs| && r.pcs[i] == GetDone(Item(s))
  {
    var h, x := Answer(s.alloc).h, Answer(s.alloc).x;
    var a, f := Solo(s1.alloc, i, k), Solo(BeginEnqueue(s.free, i, x), i, k2);
    GetAlone(s1, i, k, k2, f, a, h, x, t);
    r := AfterGet(s1, i, s.cells[x].value, h, x, f, a);
  }

  lemma AnswerOf<T(!new)>(s: Queue<T>, s1: Queue<T>, owner: seq<Place>, i: nat, k: nat) returns (r: Queue<T>)
    requires QInv(s, owner) && Stocked(s) && Reachable(s.free) && i < |s.pcs|
    requires forall j: nat :: j < |s.pcs| ==> s.pcs[j].QIdle?
    requires s1 == s.(alloc := BeginDequeue(s.alloc, i)).To(i, GetAlloc)
    requires Solo(s1.alloc, i, k).pcs[i] == Answer(s.alloc)
    ensures Brings(s1, i, r) && i < |r.pcs| && r.pcs[i] == GetDone(Item(s))
  {
    if Answer(s.alloc).DeqNone? {
      r := AnswerNone(s, s1, i, k);
    } else {
      var k2, t := GivesBack(s, owner, i, Answer(s.alloc).x);
      r := AnswerSome(s, s1, i, k, k2, t);
    }
  }

  /** With no operation in flight, a dequeue running alone answers the item of the first ticket that is
      still to be drawn if the threshold admits that ticket, and None if not, or if there is no item. */
  lemma LoneGet<T(!new)>(s: Queue<T>, i: nat) returns (k: nat)
    requires QReachable(s) && i < |s.pcs|
    requires forall j: nat :: j < |s.pcs| ==> s.pcs[j].QIdle?
    ensures s.Wf() && Stocked(s)
    ensures QExec(s, [CallGet(i)] + QAlone(i, k)).pcs[i] == GetDone(Item(s))
  {
    var owner := QReachableInv(s);
    RingsReachable(s);
    IsStocked(s, owner);
    assert Coupled(s, i);
    var s1 := s.(alloc := BeginDequeue(s.alloc, i)).To(i, GetAlloc);
    assert QApply(s, CallGet(i)) == s1;
    var k1 := SoloAnswers(s.alloc, i);
    var r := AnswerOf(s, s1, owner, i, k1);
    k := Steps(s1, i, r);
    QCall(s, CallGet(i), i, k);
  }
}
