/** Progress of the bounded queue.  A thread that is anywhere in an operation, while all others are stopped
    anywhere in theirs, and that now runs alone: it returns, and what it answers is determined by the state. */
module BoundedProgress {
  import opened Counting
  import opened Ring
  import opened RingInvariant
  import opened RingTheorems
  import opened RingEffects
  import opened RingSolo
  import opened RingProgress
  import opened RingAdmission
  import opened BoundedMachine
  import opened BoundedInvariant
  import opened BoundedTheorems
  import opened BoundedSolo

  // ---------------------------------------------------------------- the answer

  /** What an enqueue answers that has an index. */
  function WithIndex<T>(s: Queue<T>, item: T): PutResult<T> {
    if Sealed(s.alloc) then Closed(item) else Stored
  }

  /** What an enqueue answers that stands at pc of the dequeue of the free ring. */
  function WithCount<T>(s: Queue<T>, pc: Pc, item: T): PutResult<T> {
    if Resume(s.free, pc).DeqSome? then WithIndex(s, item) else Full(item)
  }

  /** What a dequeue answers that stands at pc of the dequeue of the alloc ring. */
  function ItemOf<T>(s: Queue<T>, pc: Pc): Option<T> {
    match Resume(s.alloc, pc)
    case DeqSome(h, _) => if h in s.values then Some(s.values[h]) else None
    case _ => None
  }

  /** What a dequeue answers that has taken the entry of ticket h. */
  function WithTicket<T>(s: Queue<T>, h: nat): QPc<T> { GetDone(if h in s.values then Some(s.values[h]) else None) }

  /** The answer of a thread, from where it stands. */
  function Outcome<T>(s: Queue<T>, i: nat): QPc<T>
    requires s.Wf() && i < |s.pcs|
  {
    match s.pcs[i]
    case PutCount(item, _) => PutDone(if s.used >= s.cap then Full(item) else WithCount(s, DeqCheck, item))
    case PutFull(item) => PutDone(Full(item))
    case PutFree(item, _, _) => PutDone(WithCount(s, s.free.pcs[i], item))
    case PutWrite(item, _, _, _) => PutDone(WithIndex(s, item))
    case PutAlloc(item, _, _, _) =>
      var pc := s.alloc.pcs[i];
      PutDone(if pc.EnqOk? || PastSeal(s.alloc, pc) then Stored
              else if pc.EnqErr? then Closed(item) else WithIndex(s, item))
    case PutUncount(item, _) => PutDone(Closed(item))
    case PutReadBack(item, _) => PutDone(Closed(item))
    case PutRelease(item, _) => PutDone(Closed(item))
    case PutSeal => PutDone(Stored)
    case GetAlloc => GetDone(ItemOf(s, s.alloc.pcs[i]))
    case GetUncount(h, _) => WithTicket(s, h)
    case GetRead(h, _) => WithTicket(s, h)
    case GetRelease(item, _) => GetDone(Some(item))
    case pc => pc
  }

  /** Thread i, running alone, answers `answer`. */
  ghost predicate Answers<T>(s: Queue<T>, i: nat, r: Queue<T>, answer: QPc<T>) {
    Brings(s, i, r) && i < |r.pcs| && r.pcs[i] == answer
  }

  lemma AnswersOn<T>(s: Queue<T>, i: nat, m: Queue<T>, r: Queue<T>, answer: QPc<T>)
    requires Brings(s, i, m) && Answers(m, i, r, answer)
    ensures Answers(s, i, r, answer)
  {
    BringsOn(s, i, m, r);
  }

  lemma BringsInv<T>(s: Queue<T>, i: nat, m: Queue<T>, owner: seq<Place>) returns (owner': seq<Place>)
    requires QInv(s, owner) && i < |s.pcs| && Brings(s, i, m)
    ensures QInv(m, owner') && |m.pcs| == |s.pcs|
  {
    var k := Steps(s, i, m);
    QSoloIsExec(s, i, k);
    owner' := QInvRun(s, QAlone(i, k), owner);
  }

  // ---------------------------------------------------------------- room in the alloc ring

  lemma AllocHasRoom<T>(s: Queue<T>, owner: seq<Place>)
    requires QInv(s, owner)
    ensures Live(s.alloc) < s.alloc.N()
  {
    TruesBound(LiveFlags(s.alloc));
    if Live(s.alloc) == s.alloc.N() {
      forall j: nat | j < s.alloc.N() ensures s.alloc.slots[j].entry.Some? { AllLive(s.alloc, j); }
      var indices := seq(s.alloc.N(), j requires 0 <= j < s.alloc.N() => s.alloc.slots[j].entry.value);
      var all := seq(s.cap, _ => true);
      forall j: nat, k: nat | j < k < |indices| ensures indices[j] != indices[k] {
        assert owner[indices[j]] == InAlloc(j) && owner[indices[k]] == InAlloc(k);
      }
      Pigeons(all, indices);
      TruesBound(all);
    }
  }

  // ---------------------------------------------------------------- giving an index back

  /** Where a release leads. */
  function Done<T>(pc: QPc<T>): QPc<T> {
    match pc
    case PutRelease(item, _) => PutDone(Closed(item))
    case GetRelease(item, _) => GetDone(Some(item))
    case _ => pc
  }

  lemma ReleaseEnds<T>(s: Queue<T>, i: nat, k: nat, f: Ring)
    requires s.Wf() && i < |s.pcs| && (s.pcs[i].PutRelease? || s.pcs[i].GetRelease?)
    requires f == Solo(s.free, i, k) && f.pcs[i].EnqOk?
    ensures Brings(s, i, s.(free := f.To(i, Idle)).To(i, Done(s.pcs[i])))
  {
    FreeRuns(s, i, k);
    var s1 := s.(free := f);
    BringsOne(s1, i, DoRelease(s1, i, false, Done(s.pcs[i])));
    BringsOn(s, i, s1, s.(free := f.To(i, Idle)).To(i, Done(s.pcs[i])));
  }

  /** The free ring takes the index back. */
  lemma TakesBack<T>(s: Queue<T>, owner: seq<Place>, i: nat) returns (k: nat)
    requires QInv(s, owner) && i < |s.pcs| && (s.pcs[i].PutRelease? || s.pcs[i].GetRelease?)
    ensures Solo(s.free, i, k).pcs[i].EnqOk?
  {
    assert Coupled(s, i);
    NotRefused(s, i, owner);
    k := 0;
    if !s.free.pcs[i].EnqOk? {
      FreeHasRoom(s, owner);
      k := EnqueueEnds(s.free, i);
    }
  }

  lemma FromRelease<T>(s: Queue<T>, owner: seq<Place>, i: nat) returns (r: Queue<T>)
    requires QInv(s, owner) && i < |s.pcs| && (s.pcs[i].PutRelease? || s.pcs[i].GetRelease?)
    ensures Answers(s, i, r, Done(s.pcs[i])) && r == s.(free := r.free).To(i, Done(s.pcs[i]))
  {
    var k := TakesBack(s, owner, i);
    var f := Solo(s.free, i, k);
    ReleaseEnds(s, i, k, f);
    r := s.(free := f.To(i, Idle)).To(i, Done(s.pcs[i]));
  }

  // ---------------------------------------------------------------- a dequeue

  /** The item in the cell is the one that was stored with the ticket. */
  lemma ReadsItem<T>(s: Queue<T>, owner: seq<Place>, i: nat)
    requires QInv(s, owner) && i < |s.pcs| && s.pcs[i].GetRead?
    ensures s.Filled(s.pcs[i].pos) && WithTicket(s, s.pcs[i].h) == GetDone(s.cells[s.pcs[i].pos])
  {
    CellFilled(s, i, owner);
    assert TakenBy(s, i) == Some(s.pcs[i].h) && Lies(s, s.pcs[i].pos, s.pcs[i].h);
  }

  lemma FromRead<T>(s: Queue<T>, owner: seq<Place>, i: nat) returns (r: Queue<T>)
    requires QInv(s, owner) && i < |s.pcs| && s.pcs[i].GetRead?
    ensures Answers(s, i, r, WithTicket(s, s.pcs[i].h))
  {
    ReadsItem(s, owner, i);
    var m := DoGetRead(s, i, s.pcs[i].h, s.pcs[i].pos);
    Reads(s, i);
    var owner' := BringsInv(s, i, m, owner);
    r := FromRelease(m, owner', i);
    AnswersOn(s, i, m, r, WithTicket(s, s.pcs[i].h));
  }

  lemma FromUncount<T>(s: Queue<T>, owner: seq<Place>, i: nat) returns (r: Queue<T>)
    requires QInv(s, owner) && i < |s.pcs| && s.pcs[i].GetUncount?
    ensures Answers(s, i, r, WithTicket(s, s.pcs[i].h))
  {
    var m := DoGetUncount(s, i, s.pcs[i].h, s.pcs[i].pos);
    Uncounts(s, i);
    var owner' := BringsInv(s, i, m, owner);
    r := FromRead(m, owner', i);
    AnswersOn(s, i, m, r, WithTicket(s, s.pcs[i].h));
  }

  lemma AllocAnswers<T>(s: Queue<T>, owner: seq<Place>, i: nat) returns (k: nat)
    requires QInv(s, owner) && i < |s.pcs| && s.pcs[i].GetAlloc?
    ensures Solo(s.alloc, i, k).pcs[i] == Resume(s.alloc, s.alloc.pcs[i])
    ensures Resume(s.alloc, s.alloc.pcs[i]).DeqSome? || Resume(s.alloc, s.alloc.pcs[i]).DeqNone?
  {
    assert Coupled(s, i);
    k := 0;
    if InDequeue(s.alloc.pcs[i]) { k := DequeueEnds(s.alloc, i); }
  }

  /** The answer that the dequeue of the alloc ring comes to. */
  function Reply<T>(s: Queue<T>, pc: Pc): QPc<T> {
    if pc.DeqSome? then WithTicket(s, pc.h) else GetDone(None)
  }

  lemma ReplyIsOutcome<T>(s: Queue<T>, i: nat)
    requires s.Wf() && i < |s.pcs| && s.pcs[i].GetAlloc?
    ensures Outcome(s, i) == Reply(s, Resume(s.alloc, s.alloc.pcs[i]))
  {
  }

  lemma FromGet<T>(s: Queue<T>, owner: seq<Place>, i: nat) returns (r: Queue<T>)
    requires QInv(s, owner) && i < |s.pcs| && s.pcs[i].GetAlloc?
    ensures Answers(s, i, r, Outcome(s, i))
  {
    var k := AllocAnswers(s, owner, i);
    r := FromReply(s, owner, i, k, Solo(s.alloc, i, k));
    ReplyIsOutcome(s, i);
  }

  lemma FromReply<T>(s: Queue<T>, owner: seq<Place>, i: nat, k: nat, a: Ring) returns (r: Queue<T>)
    requires QInv(s, owner) && i < |s.pcs| && s.pcs[i].GetAlloc? && a == Solo(s.alloc, i, k)
    requires a.pcs[i].DeqSome? || a.pcs[i].DeqNone?
    ensures Answers(s, i, r, Reply(s, a.pcs[i]))
  {
    if a.pcs[i].DeqNone? {
      r := FromNothing(s, i, k);
    } else {
      r := FromTaken(s, owner, i, k, a, a.pcs[i].h, a.pcs[i].x);
    }
  }

  lemma FromNothing<T>(s: Queue<T>, i: nat, k: nat) returns (r: Queue<T>)
    requires s.Wf() && i < |s.pcs| && s.pcs[i].GetAlloc? && Solo(s.alloc, i, k).pcs[i].DeqNone?
    ensures Answers(s, i, r, GetDone(None))
  {
    GetNothing(s, i, k);
    r := s.(alloc := Solo(s.alloc, i, k).To(i, Idle)).To(i, GetDone(None));
  }

  lemma FromTaken<T>(s: Queue<T>, owner: seq<Place>, i: nat, k: nat, a: Ring, h: nat, x: nat) returns (r: Queue<T>)
    requires QInv(s, owner) && i < |s.pcs| && s.pcs[i].GetAlloc? && a == Solo(s.alloc, i, k)
    requires a.pcs[i] == DeqSome(h, x)
    ensures Answers(s, i, r, WithTicket(s, h))
  {
    TakesAlloc(s, i, k, a, h, x);
    var m := s.(alloc := a.To(i, Idle)).To(i, GetUncount(h, x));
    var owner' := BringsInv(s, i, m, owner);
    r := FromUncount(m, owner', i);
    AnswersOn(s, i, m, r, WithTicket(s, h));
  }

  // ---------------------------------------------------------------- an enqueue that is refused

  lemma FromReadBack<T>(s: Queue<T>, owner: seq<Place>, i: nat) returns (r: Queue<T>)
    requires QInv(s, owner) && i < |s.pcs| && s.pcs[i].PutReadBack?
    ensures Answers(s, i, r, PutDone(Closed(s.pcs[i].item)))
  {
    CellFilled(s, i, owner);
    assert WrittenBy(s, i) == Some(s.pcs[i].item);
    var m := DoPutReadBack(s, i, s.pcs[i].pos);
    BringsOne(s, i, m);
    var owner' := BringsInv(s, i, m, owner);
    r := FromRelease(m, owner', i);
    AnswersOn(s, i, m, r, PutDone(Closed(s.pcs[i].item)));
  }

  lemma FromPutUncount<T>(s: Queue<T>, owner: seq<Place>, i: nat) returns (r: Queue<T>)
    requires QInv(s, owner) && i < |s.pcs| && s.pcs[i].PutUncount?
    ensures Answers(s, i, r, PutDone(Closed(s.pcs[i].item)))
  {
    var m := DoPutUncount(s, i, s.pcs[i].item, s.pcs[i].pos);
    BringsOne(s, i, m);
    var owner' := BringsInv(s, i, m, owner);
    r := FromReadBack(m, owner', i);
    AnswersOn(s, i, m, r, PutDone(Closed(s.pcs[i].item)));
  }

  lemma FromSeal<T>(s: Queue<T>, i: nat) returns (r: Queue<T>)
    requires s.Wf() && i < |s.pcs| && s.pcs[i].PutSeal?
    ensures Answers(s, i, r, PutDone(Stored))
  {
    r := DoPutSeal(s, i);
    BringsOne(s, i, r);
  }

  lemma FromFull<T>(s: Queue<T>, i: nat) returns (r: Queue<T>)
    requires s.Wf() && i < |s.pcs| && s.pcs[i].PutFull?
    ensures Answers(s, i, r, PutDone(Full(s.pcs[i].item)))
  {
    r := DoPutFull(s, i, s.pcs[i].item);
    BringsOne(s, i, r);
  }

  // ---------------------------------------------------------------- the enqueue into the alloc ring

  /** While the thread is in it, its steps are steps of that ring, and may note the item in the history. */
  lemma {:induction false} AllocRuns<T>(s: Queue<T>, i: nat, k: nat) returns (r: Queue<T>)
    requires s.Wf() && i < |s.pcs| && s.pcs[i].PutAlloc?
    ensures Brings(s, i, r) && r == s.(alloc := Solo(s.alloc, i, k), values := r.values)
    decreases k
  {
    if Returned(s.alloc.pcs[i]) || k == 0 {
      if k > 0 { SoloEnds(s.alloc, i, k); }
      Stays(s, i);
      r := s;
    } else {
      var m := AllocStep(s, i, StepThread(s.alloc, i, false), s.pcs[i].item);
      AllocPutStep(s, i);
      r := AllocRuns(m, i, k - 1);
      BringsOn(s, i, m, r);
    }
  }

  lemma AllocTakes<T>(s: Queue<T>, owner: seq<Place>, i: nat) returns (k: nat)
    requires QInv(s, owner) && i < |s.pcs| && s.pcs[i].PutAlloc?
    ensures var a := Solo(s.alloc, i, k);
            if Outcome(s, i) == PutDone(Stored) then a.pcs[i].EnqOk? else a.pcs[i].EnqErr?
    ensures Outcome(s, i) == PutDone(Stored) || Outcome(s, i) == PutDone(Closed(s.pcs[i].item))
  {
    assert Coupled(s, i);
    k := 0;
    if InEnqueue(s.alloc.pcs[i]) {
      AllocHasRoom(s, owner);
      k := EnqueueEnds(s.alloc, i);
    }
  }

  lemma FromPutAlloc<T>(s: Queue<T>, owner: seq<Place>, i: nat) returns (r: Queue<T>)
    requires QInv(s, owner) && i < |s.pcs| && s.pcs[i].PutAlloc?
    ensures Answers(s, i, r, Outcome(s, i))
  {
    var k := AllocTakes(s, owner, i);
    var m := AllocRuns(s, i, k);
    var owner' := BringsInv(s, i, m, owner);
    r := FromAllocEnd(m, owner', i);
    AnswersOn(s, i, m, r, Outcome(s, i));
  }

  lemma FromAllocEnd<T>(s: Queue<T>, owner: seq<Place>, i: nat) returns (r: Queue<T>)
    requires QInv(s, owner) && i < |s.pcs| && s.pcs[i].PutAlloc? && (s.alloc.pcs[i].EnqOk? || s.alloc.pcs[i].EnqErr?)
    ensures Answers(s, i, r, PutDone(if s.alloc.pcs[i].EnqOk? then Stored else Closed(s.pcs[i].item)))
  {
    var answer := PutDone(if s.alloc.pcs[i].EnqOk? then Stored else Closed(s.pcs[i].item));
    var m := DoPutAlloc(s, i, false, s.pcs[i].item, s.pcs[i].fin, s.pcs[i].size, s.pcs[i].pos);
    BringsOne(s, i, m);
    if m.pcs[i].PutSeal? {
      r := FromSeal(m, i);
      AnswersOn(s, i, m, r, answer);
    } else if m.pcs[i].PutUncount? {
      var owner' := BringsInv(s, i, m, owner);
      r := FromPutUncount(m, owner', i);
      AnswersOn(s, i, m, r, answer);
    } else {
      r := m;
    }
  }

  // ---------------------------------------------------------------- the dequeue of the free ring

  lemma FromWrite<T>(s: Queue<T>, owner: seq<Place>, i: nat) returns (r: Queue<T>)
    requires QInv(s, owner) && i < |s.pcs| && s.pcs[i].PutWrite?
    ensures Answers(s, i, r, Outcome(s, i))
  {
    assert HeldBy(s, i) == Some(s.pcs[i].pos);
    var m := DoPutWrite(s, i, s.pcs[i].item, s.pcs[i].fin, s.pcs[i].size, s.pcs[i].pos);
    Writes(s, i);
    var owner' := BringsInv(s, i, m, owner);
    r := FromPutAlloc(m, owner', i);
    AnswersOn(s, i, m, r, Outcome(s, i));
  }

  lemma FreeAnswers<T>(s: Queue<T>, owner: seq<Place>, i: nat) returns (k: nat)
    requires QInv(s, owner) && i < |s.pcs| && s.pcs[i].PutFree?
    ensures Solo(s.free, i, k).pcs[i] == Resume(s.free, s.free.pcs[i])
    ensures Resume(s.free, s.free.pcs[i]).DeqSome? || Resume(s.free, s.free.pcs[i]).DeqNone?
  {
    assert Coupled(s, i);
    k := 0;
    if InDequeue(s.free.pcs[i]) { k := DequeueEnds(s.free, i); }
  }

  lemma FromFree<T>(s: Queue<T>, owner: seq<Place>, i: nat) returns (r: Queue<T>)
    requires QInv(s, owner) && i < |s.pcs| && s.pcs[i].PutFree?
    ensures Answers(s, i, r, Outcome(s, i))
  {
    var k := FreeAnswers(s, owner, i);
    FreeRuns(s, i, k);
    var m := s.(free := Solo(s.free, i, k));
    var owner' := BringsInv(s, i, m, owner);
    r := FromFreeEnd(m, owner', i);
    AnswersOn(s, i, m, r, Outcome(s, i));
  }

  lemma FromFreeEnd<T>(s: Queue<T>, owner: seq<Place>, i: nat) returns (r: Queue<T>)
    requires QInv(s, owner) && i < |s.pcs| && s.pcs[i].PutFree? && (s.free.pcs[i].DeqSome? || s.free.pcs[i].DeqNone?)
    ensures var item := s.pcs[i].item;
            Answers(s, i, r, PutDone(if s.free.pcs[i].DeqSome? then WithIndex(s, item) else Full(item)))
  {
    var item := s.pcs[i].item;
    var answer := PutDone(if s.free.pcs[i].DeqSome? then WithIndex(s, item) else Full(item));
    var m := DoPutFree(s, i, false, s.pcs[i].item, s.pcs[i].fin, s.pcs[i].size);
    BringsOne(s, i, m);
    if s.free.pcs[i].DeqSome? {
      var owner' := BringsInv(s, i, m, owner);
      r := FromWrite(m, owner', i);
    } else {
      r := FromFull(m, i);
    }
    AnswersOn(s, i, m, r, answer);
  }

  lemma FromCount<T>(s: Queue<T>, owner: seq<Place>, i: nat) returns (r: Queue<T>)
    requires QInv(s, owner) && i < |s.pcs| && s.pcs[i].PutCount?
    ensures Answers(s, i, r, Outcome(s, i))
  {
    var m := DoPutCount(s, i, s.pcs[i].item, s.pcs[i].fin);
    BringsOne(s, i, m);
    if s.used >= s.cap {
      r := FromFull(m, i);
    } else {
      var owner' := BringsInv(s, i, m, owner);
      r := FromFree(m, owner', i);
    }
    AnswersOn(s, i, m, r, Outcome(s, i));
  }

  // ---------------------------------------------------------------- the result

  lemma PutEnds<T>(s: Queue<T>, owner: seq<Place>, i: nat) returns (r: Queue<T>)
    requires QInv(s, owner) && i < |s.pcs|
    requires s.pcs[i].PutCount? || s.pcs[i].PutFull? || s.pcs[i].PutFree? || s.pcs[i].PutWrite? || s.pcs[i].PutAlloc?
    ensures Answers(s, i, r, Outcome(s, i))
  {
    var pc := s.pcs[i];
    if pc.PutCount? {
      r := FromCount(s, owner, i);
    } else if pc.PutFull? {
      r := FromFull(s, i);
    } else if pc.PutFree? {
      r := FromFree(s, owner, i);
    } else if pc.PutWrite? {
      r := FromWrite(s, owner, i);
    } else {
      r := FromPutAlloc(s, owner, i);
    }
  }

  lemma RefusalEnds<T>(s: Queue<T>, owner: seq<Place>, i: nat) returns (r: Queue<T>)
    requires QInv(s, owner) && i < |s.pcs|
    requires s.pcs[i].PutUncount? || s.pcs[i].PutReadBack? || s.pcs[i].PutRelease? || s.pcs[i].PutSeal?
    ensures Answers(s, i, r, Outcome(s, i))
  {
    var pc := s.pcs[i];
    if pc.PutUncount? {
      r := FromPutUncount(s, owner, i);
    } else if pc.PutReadBack? {
      r := FromReadBack(s, owner, i);
    } else if pc.PutRelease? {
      r := FromRelease(s, owner, i);
    } else {
      r := FromSeal(s, i);
    }
  }

  lemma GetEnds<T>(s: Queue<T>, owner: seq<Place>, i: nat) returns (r: Queue<T>)
    requires QInv(s, owner) && i < |s.pcs|
    requires s.pcs[i].GetAlloc? || s.pcs[i].GetUncount? || s.pcs[i].GetRead? || s.pcs[i].GetRelease?
    ensures Answers(s, i, r, Outcome(s, i))
  {
    var pc := s.pcs[i];
    if pc.GetAlloc? {
      r := FromGet(s, owner, i);
    } else if pc.GetUncount? {
      r := FromUncount(s, owner, i);
    } else if pc.GetRead? {
      r := FromRead(s, owner, i);
    } else {
      r := FromRelease(s, owner, i);
    }
  }

  predicate Working<T>(pc: QPc<T>) { !pc.QIdle? && !pc.PutDone? && !pc.GetDone? }

  lemma OperationEnds<T>(s: Queue<T>, owner: seq<Place>, i: nat) returns (r: Queue<T>)
    requires QInv(s, owner) && i < |s.pcs| && Working(s.pcs[i])
    ensures Answers(s, i, r, Outcome(s, i))
  {
    var pc := s.pcs[i];
    assert Coupled(s, i);
    if pc.PutCount? || pc.PutFull? || pc.PutFree? || pc.PutWrite? || pc.PutAlloc? {
      r := PutEnds(s, owner, i);
    } else if pc.PutUncount? || pc.PutReadBack? || pc.PutRelease? || pc.PutSeal? {
      r := RefusalEnds(s, owner, i);
    } else {
      r := GetEnds(s, owner, i);
    }
  }

  /** No operation can be kept from returning by threads that have stopped: in every reachable state, a thread
      anywhere in an operation that runs alone returns, and `Outcome` says what it answers. */
  lemma OperationReturns<T(!new)>(s: Queue<T>, i: nat) returns (k: nat)
    requires QReachable(s) && s.Wf() && i < |s.pcs| && Working(s.pcs[i])
    ensures QExec(s, QAlone(i, k)).pcs[i] == Outcome(s, i)
    ensures Outcome(s, i).PutDone? || Outcome(s, i).GetDone?
  {
    var owner := QReachableInv(s);
    assert Coupled(s, i);
    var r := OperationEnds(s, owner, i);
    k := Steps(s, i, r);
    QSoloIsExec(s, i, k);
  }
}
