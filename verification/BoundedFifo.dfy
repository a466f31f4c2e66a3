/** The two rings of a bounded queue run as rings: every theorem about rings holds of them.  From
    this, first-in-first-out order of the queue in real time. */
module BoundedFifo {
  import opened Ring
  import opened RingInvariant
  import opened RingTheorems
  import opened BoundedMachine
  import opened BoundedInvariant
  import opened BoundedTheorems

  lemma ApplyStep(s: Ring, i: nat, weak: bool)
    requires s.Wf() && i < |s.pcs|
    ensures Apply(s, Step(i, weak)) == StepThread(s, i, weak)
  {
  }

  /** What a step of the queue does to one of its rings: nothing, a call, a step, a return or the seal. */
  datatype Move = Stay | Begin(x: nat) | Search | Run | End | Seal

  function Moved(s: Ring, i: nat, weak: bool, m: Move): Ring
    requires s.Wf() && i < |s.pcs|
  {
    match m
    case Stay => s
    case Begin(x) => BeginEnqueue(s, i, x)
    case Search => BeginDequeue(s, i)
    case Run => StepThread(s, i, weak)
    case End => s.To(i, Idle)
    case Seal => if s.finalizable then s.(finalized := true) else s
  }

  predicate Possible(s: Ring, i: nat, m: Move)
    requires i < |s.pcs|
  {
    match m
    case Begin(_) => s.pcs[i].Idle?
    case Search => s.pcs[i].Idle?
    case End => Returned(s.pcs[i])
    case _ => true
  }

  lemma MoveIsRun(s: Ring, i: nat, weak: bool, m: Move) returns (run: seq<Action>)
    requires s.Wf() && i < |s.pcs| && Possible(s, i, m)
    ensures Exec(s, run) == Moved(s, i, weak, m)
  {
    if m.Stay? {
      run := [];
    } else if m.Run? {
      run := [Step(i, weak)];
      ExecOne(s, run[0]);
      ApplyStep(s, i, weak);
    } else {
      run := [match m case Begin(x) => CallEnqueue(i, x) case Search => CallDequeue(i)
              case End => Return(i) case _ => Finalize];
      ExecOne(s, run[0]);
    }
  }

  /** The moves that a step of thread i makes on the free and on the allocated ring. */
  function FreeMoveOf<T>(s: Queue<T>, i: nat): Move
    requires s.Wf() && i < |s.pcs|
  {
    var pc := s.free.pcs[i];
    match s.pcs[i]
    case PutCount(_, _) => if s.used >= s.cap then Stay else Search
    case PutFree(_, _, _) => if pc.DeqNone? || pc.DeqSome? then End else Run
    case PutReadBack(_, pos) => if s.Filled(pos) then Begin(pos) else Stay
    case PutRelease(_, _) => if pc.EnqOk? then End else if pc.EnqErr? then Stay else Run
    case GetRead(_, pos) => if s.Filled(pos) then Begin(pos) else Stay
    case GetRelease(_, _) => if pc.EnqOk? then End else if pc.EnqErr? then Stay else Run
    case _ => Stay
  }

  function AllocMoveOf<T>(s: Queue<T>, i: nat): Move
    requires s.Wf() && i < |s.pcs|
  {
    var pc := s.alloc.pcs[i];
    match s.pcs[i]
    case PutWrite(_, _, _, pos) => if pos < |s.cells| then Begin(pos) else Stay
    case PutAlloc(_, _, _, _) => if pc.EnqOk? || pc.EnqErr? then End else Run
    case PutSeal => Seal
    case GetAlloc => if pc.DeqNone? || pc.DeqSome? then End else Run
    case _ => Stay
  }

  ghost predicate Follows<T>(s: Queue<T>, i: nat, weak: bool, free: Move, alloc: Move)
    requires s.Wf() && i < |s.pcs|
  {
    && DoStep(s, i, weak).free == Moved(s.free, i, weak, free) && Possible(s.free, i, free)
    && DoStep(s, i, weak).alloc == Moved(s.alloc, i, weak, alloc) && Possible(s.alloc, i, alloc)
  }

  lemma FreeMoves<T>(s: Queue<T>, i: nat, weak: bool)
    requires s.Wf() && i < |s.pcs| && Coupled(s, i)
    requires s.pcs[i].PutCount? || s.pcs[i].PutFree? || s.pcs[i].PutReadBack? || s.pcs[i].PutRelease?
          || s.pcs[i].GetRead? || s.pcs[i].GetRelease?
    ensures Follows(s, i, weak, FreeMoveOf(s, i), Stay)
  {
  }

  lemma AllocMoves<T>(s: Queue<T>, i: nat, weak: bool)
    requires s.Wf() && i < |s.pcs| && Coupled(s, i)
    requires s.pcs[i].PutWrite? || s.pcs[i].PutAlloc? || s.pcs[i].PutSeal? || s.pcs[i].GetAlloc?
    ensures Follows(s, i, weak, Stay, AllocMoveOf(s, i))
  {
  }

  lemma StepMoves<T>(s: Queue<T>, i: nat, weak: bool)
    requires s.Wf() && i < |s.pcs| && Coupled(s, i)
    ensures Follows(s, i, weak, FreeMoveOf(s, i), AllocMoveOf(s, i))
  {
    var pc := s.pcs[i];
    if pc.PutCount? || pc.PutFree? || pc.PutReadBack? || pc.PutRelease? || pc.GetRead? || pc.GetRelease? {
      FreeMoves(s, i, weak);
    } else if pc.PutWrite? || pc.PutAlloc? || pc.PutSeal? || pc.GetAlloc? {
      AllocMoves(s, i, weak);
    }
  }

  lemma ActionRuns<T>(s: Queue<T>, a: QAction<T>, owner: seq<Place>) returns (free: seq<Action>, alloc: seq<Action>)
    requires QInv(s, owner)
    ensures Exec(s.free, free) == QApply(s, a).free && Exec(s.alloc, alloc) == QApply(s, a).alloc
  {
    free, alloc := [], [];
    if a.i < |s.pcs| {
      assert Coupled(s, a.i);
      if a.QStep? {
        StepMoves(s, a.i, a.weak);
        free := MoveIsRun(s.free, a.i, a.weak, FreeMoveOf(s, a.i));
        alloc := MoveIsRun(s.alloc, a.i, a.weak, AllocMoveOf(s, a.i));
      } else if a.CallGet? && s.pcs[a.i].QIdle? {
        alloc := MoveIsRun(s.alloc, a.i, false, Search);
      }
    }
  }

  /** A run of the queue is, on each of its rings, a run of that ring. */
  lemma {:induction false} QueueRuns<T>(s: Queue<T>, run: seq<QAction<T>>, owner: seq<Place>)
    returns (free: seq<Action>, alloc: seq<Action>)
    requires QInv(s, owner)
    ensures Exec(s.free, free) == QExec(s, run).free && Exec(s.alloc, alloc) == QExec(s, run).alloc
    decreases run
  {
    if run == [] {
      free, alloc := [], [];
    } else {
      var free1, alloc1 := ActionRuns(s, run[0], owner);
      var mid := KeepQAction(s, run[0], owner);
      var free2, alloc2 := QueueRuns(QApply(s, run[0]), run[1..], mid);
      ExecAppend(s.free, free1, free2);
      ExecAppend(s.alloc, alloc1, alloc2);
      free, alloc := free1 + free2, alloc1 + alloc2;
    }
  }

  /** So all theorems about reachable rings hold of both rings of a reachable queue. */
  lemma RingsReachable<T(!new)>(s: Queue<T>)
    requires QReachable(s)
    ensures Reachable(s.free) && Reachable(s.alloc)
  {
    var cap, sealable, threads, run: seq<QAction<T>> :| QReachedBy(s, cap, sealable, threads, run);
    var owner := NewQueueInv<T>(cap, sealable, threads);
    var free, alloc := QueueRuns(NewQueue(cap, sealable, threads), run, owner);
    assert ReachedBy(s.free, true, cap, sealable, threads, free);
    assert ReachedBy(s.alloc, false, cap, sealable, threads, alloc);
  }

  /** Real-time order of the queue.  An item was stored with ticket ta before thread j began its next
      call, which then got ticket tb.  Whenever the second item has been read, the ticket of the first has
      been drawn, and the first has been taken or the thread that drew its ticket is about to take it. */
  lemma QueueFifo<T(!new)>(s: Queue<T>, mid: seq<QAction<T>>, rest: seq<QAction<T>>, j: nat, ta: nat, tb: nat)
    requires QReachable(s) && s.Wf() && ta in s.values && j < |s.pcs| && s.pcs[j].QIdle?
    requires HasTicket(QExec(s, mid).alloc.pcs[j], tb)
    ensures ta < tb
    ensures var z := QExec(QExec(s, mid), rest);
            tb in z.returned ==>
              && tb < z.alloc.head
              && (ta in z.alloc.log.taken || exists k: nat :: k < |z.alloc.pcs| && InLoop(z.alloc.pcs[k], ta))
  {
    var owner := QReachableInv(s);
    RingsReachable(s);
    assert Coupled(s, j);
    var r := QExec(s, mid);
    var z := QExec(r, rest);
    var free1, alloc1 := QueueRuns(s, mid, owner);
    var owner1 := QInvRun(s, mid, owner);
    var free2, alloc2 := QueueRuns(r, rest, owner1);
    RealTimeFifo(s.alloc, alloc1, alloc2, j, ta, tb);
    var owner2 := QInvRun(r, rest, owner1);
  }
}
