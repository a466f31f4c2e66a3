/** The same in the bounded queue: an item that was stored, by an enqueue that has returned, and that no
    dequeue finds. */
module BoundedHidden {
  import opened Tickets
  import opened Ring
  import opened RingInvariant
  import opened RingSolo
  import opened RingHidden
  import opened BoundedMachine
  import opened BoundedTheorems
  import opened BoundedSolo
  import opened BoundedDrop

  // ---------------------------------------------------------------- the free ring

  /** A free ring at rest, whose entries are those of the tickets from head to tail. */
  ghost predicate FreeOk(f: Ring) {
    && f.Wf() && Sound(f) && !f.finalized && f.threshold >= 0 && f.head <= f.tail <= f.head + f.half
    && (forall i: nat :: i < |f.pcs| ==> f.pcs[i].Idle?)
    && (forall t: nat :: f.head <= t < f.tail ==> t in f.log.inserted)
  }

  lemma FirstFree(f: Ring)
    requires FreeOk(f) && f.head < f.tail
    ensures Ahead(f, f.head) && f.log.inserted[f.head] < f.half
  {
    Disclose(f);
  }

  lemma FreeTake(f: Ring, i: nat)
    requires FreeOk(f) && f.head < f.tail && i < |f.pcs|
    ensures f.head in f.log.inserted && f.log.inserted[f.head] < f.half
    ensures var r := Solo(BeginDequeue(f, i), i, 4);
            && r.pcs[i] == DeqSome(f.head, f.log.inserted[f.head]) && FreeOk(r.To(i, Idle))
            && r.head == f.head + 1 && r.tail == f.tail
  {
    FirstFree(f);
    DequeueAlone(f, i);
    CallSound(Solo(BeginDequeue(f, i), i, 4), Return(i));
  }

  /** The slot of ticket tail is empty. */
  lemma FreeRoom(f: Ring)
    requires FreeOk(f)
    ensures f.At(f.tail).entry.None?
  {
    Disclose(f);
    var j := Pos(f.tail, f.N());
    assert SlotOk(f, j);
    if f.slots[j].entry.Some? {
      var u := Ticket(f.slots[j].cycle, j, f.N());
      PosOfTicket(f.slots[j].cycle, j, f.N());
      SameSlotApart(u, f.tail, f.N());
    }
  }

  lemma FreeGive(f: Ring, i: nat, x: nat) returns (k: nat)
    requires FreeOk(f) && f.tail < f.head + f.half && i < |f.pcs| && x < f.half
    ensures var r := Solo(BeginEnqueue(f, i, x), i, k);
            && r.pcs[i] == EnqOk(x, f.tail) && FreeOk(r.To(i, Idle))
            && r.head == f.head && r.tail == f.tail + 1
  {
    FreeRoom(f);
    CallSound(f, CallEnqueue(i, x));
    var s1 := BeginEnqueue(f, i, x);
    var t;
    k, t := FromTicket(s1, i, x, 0);
    SoloStays(s1, i, k);
    SoloSound(s1, i, k);
    CallSound(Solo(s1, i, k), Return(i));
  }

  // ---------------------------------------------------------------- the run

  /** Threads 0, ..., m - 1 are dequeues that have found the queue empty and are about to take the threshold
      down; all others are idle, and no item is there. */
  ghost predicate QWaiting<T(!new)>(s: Queue<T>, m: nat) {
    && s.Wf() && s.used == 0 && Waiting(s.alloc, m) && FreeOk(s.free) && s.free.head < s.free.tail
    && (forall i: nat :: i < m ==> s.pcs[i].GetAlloc?)
    && (forall i: nat :: m <= i < |s.pcs| ==> s.pcs[i].QIdle?)
  }

  lemma QOneWaits<T(!new)>(s: Queue<T>, m: nat) returns (r: Queue<T>)
    requires QWaiting(s, m) && m < |s.pcs| && s.alloc.threshold >= 0
    ensures Leads(s, r) && QWaiting(r, m + 1) && SameSize(s, r) && r.alloc.threshold == s.alloc.threshold
  {
    var k := OneWaits(s.alloc, m);
    var s1 := s.(alloc := BeginDequeue(s.alloc, m)).To(m, GetAlloc);
    assert QApply(s, CallGet(m)) == s1;
    AllocGets(s1, m, k);
    r := s1.(alloc := Solo(s1.alloc, m, k));
    LeadsCall(s, CallGet(m), m, r);
  }

  lemma {:induction false} QAllWait<T(!new)>(s: Queue<T>, m: nat, n: nat) returns (r: Queue<T>)
    requires QWaiting(s, m) && m <= n <= |s.pcs| && s.alloc.threshold >= 0
    ensures Leads(s, r) && QWaiting(r, n) && SameSize(s, r) && r.alloc.threshold == s.alloc.threshold
    decreases n - m
  {
    if m == n {
      LeadsBy(s, [], s);
      r := s;
    } else {
      var s1 := QOneWaits(s, m);
      r := QAllWait(s1, m + 1, n);
      LeadsOn(s, s1, r);
    }
  }

  /** The item is stored under ticket t and index x, by an enqueue that has returned. */
  ghost predicate QHidden<T(!new)>(s: Queue<T>, m: nat, t: nat, x: nat, item: T) {
    && s.Wf() && Hidden(s.alloc, m, t, x)
    && t in s.values && s.values[t] == item && x < s.cap && s.cells[x] == Some(item)
    && (forall i: nat :: i < m ==> s.pcs[i].GetAlloc?)
    && (forall i: nat :: m <= i < |s.pcs| ==> s.pcs[i].QIdle?)
  }

  lemma QPutComes<T(!new)>(s: Queue<T>, m: nat, item: T) returns (r: Queue<T>, x: nat)
    requires QWaiting(s, m) && m < |s.pcs|
    ensures Leads(s, r) && QHidden(r, m, s.alloc.tail, x, item) && SameSize(s, r) && r.used == 1
    ensures r.alloc.threshold == Threshold3(s.cap) && !r.alloc.finalized
    ensures r.alloc.head == s.alloc.head && r.alloc.tail == s.alloc.tail + 1
    ensures FreeOk(r.free) && r.free.head == s.free.head + 1 && r.free.tail == s.free.tail
  {
    var t, h := s.alloc.tail, s.free.head;
    FreeTake(s.free, m);
    x := s.free.log.inserted[h];
    var k := EnqueueReturned(s.alloc, m, x);
    var f, a := Solo(BeginDequeue(s.free, m), m, 4), Solo(BeginEnqueue(s.alloc, m, x), m, k);
    PutRun(s, m, item, 4, k, f, a, h, x, t);
    r := AfterPut(s, m, item, x, t, f, a).To(m, QIdle);
    assert r == s.(used := 1, cells := s.cells[x := Some(item)], values := s.values[t := item],
                   free := f.To(m, Idle), alloc := a.To(m, Idle)) by {
      assert r.pcs == s.pcs;
    }
  }

  lemma PutRun<T(!new)>(s: Queue<T>, m: nat, item: T, k1: nat, k2: nat, f: Ring, a: Ring, h: nat, x: nat, t: nat)
    requires s.Wf() && m < |s.pcs| && s.pcs[m].QIdle? && s.used < s.cap && x < s.cap
    requires f == Solo(BeginDequeue(s.free, m), m, k1) && f.pcs[m] == DeqSome(h, x)
    requires a == Solo(BeginEnqueue(s.alloc, m, x), m, k2) && a.pcs[m] == EnqOk(x, t)
    ensures Leads(s, AfterPut(s, m, item, x, t, f, a).To(m, QIdle))
  {
    var s1 := s.To(m, PutCount(item, false));
    assert QApply(s, CallPut(m, item, false)) == s1;
    PutAlone(s1, m, k1, k2, f, a, h, x, t);
    var s2 := AfterPut(s1, m, item, x, t, f, a);
    LeadsCall(s, CallPut(m, item, false), m, s2);
    LeadsReturn(s2, m);
    LeadsOn(s, s2, s2.To(m, QIdle));
    assert s2.To(m, QIdle).pcs == AfterPut(s, m, item, x, t, f, a).To(m, QIdle).pcs;
  }

  lemma QGetComes<T(!new)>(s: Queue<T>, t: nat, x: nat, item: T) returns (r: Queue<T>)
    requires QHidden(s, 0, t, x, item) && |s.pcs| > 0 && s.used == 1
    requires s.alloc.head == t && s.alloc.tail == t + 1 && s.alloc.threshold >= 0 && !s.alloc.finalized
    requires FreeOk(s.free) && s.free.tail < s.free.head + s.cap
    ensures Leads(s, r) && QWaiting(r, 0) && SameSize(s, r) && r.alloc.threshold == s.alloc.threshold
  {
    DequeueReturned(s.alloc, t, x);
    var k := FreeGive(s.free, 0, x);
    var a, f := Solo(BeginDequeue(s.alloc, 0), 0, 4), Solo(BeginEnqueue(s.free, 0, x), 0, k);
    GetRun(s, 0, item, 4, k, f, a, t, x, s.free.tail);
    r := AfterGet(s, 0, item, t, x, f, a).To(0, QIdle);
    assert r == s.(used := 0, cells := s.cells[x := None], returned := s.returned[t := item],
                   free := f.To(0, Idle), alloc := a.To(0, Idle)) by {
      assert r.pcs == s.pcs;
    }
  }

  lemma GetRun<T(!new)>(s: Queue<T>, m: nat, item: T, k1: nat, k2: nat, f: Ring, a: Ring, h: nat, x: nat, t: nat)
    requires s.Wf() && m < |s.pcs| && s.pcs[m].QIdle? && x < |s.cells| && s.cells[x] == Some(item)
    requires a == Solo(BeginDequeue(s.alloc, m), m, k1) && a.pcs[m] == DeqSome(h, x)
    requires f == Solo(BeginEnqueue(s.free, m, x), m, k2) && f.pcs[m] == EnqOk(x, t)
    ensures Leads(s, AfterGet(s, m, item, h, x, f, a).To(m, QIdle))
  {
    var s1 := s.(alloc := BeginDequeue(s.alloc, m)).To(m, GetAlloc);
    assert QApply(s, CallGet(m)) == s1;
    GetAlone(s1, m, k1, k2, f, a, h, x, t);
    var s2 := AfterGet(s1, m, item, h, x, f, a);
    LeadsCall(s, CallGet(m), m, s2);
    LeadsReturn(s2, m);
    LeadsOn(s, s2, s2.To(m, QIdle));
    assert s2.To(m, QIdle).pcs == AfterGet(s, m, item, h, x, f, a).To(m, QIdle).pcs;
  }

  /** One enqueue and one dequeue of a new queue. */
  lemma QPrelude<T(!new)>(cap: nat, sealable: bool, threads: nat, item: T) returns (r: Queue<T>)
    requires cap >= 1 && threads >= 1
    ensures var s := NewQueue<T>(cap, sealable, threads);
            Leads(s, r) && QWaiting(r, 0) && SameSize(s, r) && r.alloc.threshold == Threshold3(cap)
  {
    var s := NewQueue<T>(cap, sealable, threads);
    EmptyInv(cap, sealable, threads);
    FullInv(cap, sealable, threads);
    Enclose(s.alloc);
    Enclose(s.free);
    var s1, x := QPutComes(s, 0, item);
    r := QGetComes(s1, 0, x, item);
    LeadsOn(s, s1, r);
  }

  lemma QOneReturns<T(!new)>(s: Queue<T>, i: nat) returns (r: Queue<T>)
    requires s.Wf() && Sound(s.alloc) && i < |s.pcs| && s.pcs[i].GetAlloc? && s.alloc.pcs[i].DeqEmpty?
    ensures Leads(s, r) && Sound(r.alloc)
    ensures r == s.(alloc := s.alloc.(threshold := s.alloc.threshold - 1).To(i, Idle)).To(i, QIdle)
  {
    var a := OneReturns(s.alloc, i);
    var s1 := s.(alloc := StepDeqEmpty(s.alloc, i));
    var s2 := s1.(alloc := s1.alloc.To(i, Idle)).To(i, GetDone(None));
    LeadsOne(s, QStep(i, false), s1);
    LeadsOne(s1, QStep(i, false), s2);
    LeadsReturn(s2, i);
    LeadsOn(s, s1, s2);
    r := s2.To(i, QIdle);
    LeadsOn(s, s2, r);
    assert s2.alloc == a;
    assert r.pcs == s.To(i, QIdle).pcs;
  }

  lemma {:induction false} QAllReturn<T(!new)>(s: Queue<T>, m: nat, t: nat, x: nat, item: T) returns (r: Queue<T>)
    requires QHidden(s, m, t, x, item) && m <= |s.pcs|
    ensures Leads(s, r) && QHidden(r, 0, t, x, item) && SameSize(s, r) && r.alloc.threshold == s.alloc.threshold - m
    decreases m
  {
    if m == 0 {
      LeadsBy(s, [], s);
      r := s;
    } else {
      var s1 := QOneReturns(s, m - 1);
      r := QAllReturn(s1, m - 1, t, x, item);
      LeadsOn(s, s1, r);
    }
  }

  // ---------------------------------------------------------------- the result

  /** A dequeue of thread i, running alone, answers None. */
  ghost predicate GetsNone<T(!new)>(s: Queue<T>, i: nat)
    requires s.Wf() && i < |s.pcs|
  {
    exists k: nat :: QExec(s, [CallGet(i)] + QAlone(i, k)).pcs[i] == GetDone(None)
  }

  lemma UsedUpQueue<T(!new)>(cap: nat, sealable: bool, item: T) returns (s: Queue<T>, t: nat, x: nat)
    requires cap >= 1
    ensures var s0 := NewQueue<T>(cap, sealable, 3 * cap + 1);
            Leads(s0, s) && SameSize(s0, s) && QHidden(s, 0, t, x, item) && s.alloc.threshold == -1
  {
    var s0 := NewQueue<T>(cap, sealable, 3 * cap + 1);
    var s1 := QPrelude(cap, sealable, 3 * cap + 1, item);
    var s2 := QAllWait(s1, 0, 3 * cap);
    var s3;
    s3, x := QPutComes(s2, 3 * cap, item);
    t := s2.alloc.tail;
    s := QAllReturn(s3, 3 * cap, t, x, item);
    LeadsOn(s0, s1, s2);
    LeadsOn(s0, s2, s3);
    LeadsOn(s0, s3, s);
  }

  lemma AnswersNone<T(!new)>(s: Queue<T>, i: nat)
    requires QReachable(s) && s.Wf() && i < |s.pcs| && s.alloc.threshold < 0
    requires forall j: nat :: j < |s.pcs| ==> s.pcs[j].QIdle?
    ensures GetsNone(s, i)
  {
    var k := LoneGet(s, i);
    assert QExec(s, [CallGet(i)] + QAlone(i, k)).pcs[i] == GetDone(None);
  }

  /** For every capacity, 3 * capacity + 1 threads can bring a new bounded queue to a state with no operation
      in flight and an item in it, whose enqueue has returned, in which the threshold admits no ticket: every
      dequeue answers None. */
  lemma LostItem<T(!new)>(cap: nat, sealable: bool, item: T) returns (s: Queue<T>, t: nat, x: nat)
    requires cap >= 1
    ensures QReachable(s) && s.Wf() && s.cap == cap && |s.pcs| == 3 * cap + 1
    ensures forall i: nat :: i < |s.pcs| ==> s.pcs[i].QIdle?
    ensures t in s.values && s.values[t] == item && t !in s.returned && x < cap && s.cells[x] == Some(item)
    ensures LiveAt(s.alloc, t, x)
    ensures forall i: nat :: i < |s.pcs| ==> GetsNone(s, i)
  {
    s, t, x := UsedUpQueue(cap, sealable, item);
    IsReachable(s, cap, sealable, 3 * cap + 1);
    SoundLive(s.alloc, t);
    if t in s.returned { ReturnedAreStored(s, t); }
    forall i: nat | i < |s.pcs| ensures GetsNone(s, i) { AnswersNone(s, i); }
  }

  /** In that state, a drop reaches no ticket: it ends at its first dequeue, and the item is never dropped. */
  lemma LeakedItem<T(!new)>(cap: nat, sealable: bool, item: T) returns (s: Queue<T>, t: nat, x: nat)
    requires cap >= 1
    ensures QReachable(s) && s.Wf() && s.cap == cap && |s.pcs| == 3 * cap + 1
    ensures forall i: nat :: i < |s.pcs| ==> s.pcs[i].QIdle?
    ensures Entry(s.alloc.log.inserted, s.alloc.log.taken, t) && s.alloc.log.inserted[t] == x
    ensures t in s.values && s.values[t] == item && x < cap && s.cells[x] == Some(item)
    ensures DropTickets(s) == [] && t in Entries(s.alloc.log.inserted, s.alloc.log.taken, s.alloc.head, s.alloc.tail)
  {
    s, t, x := UsedUpQueue(cap, sealable, item);
    IsReachable(s, cap, sealable, 3 * cap + 1);
    DropsAllIff(s, 0);
  }

  lemma IsReachable<T(!new)>(s: Queue<T>, cap: nat, sealable: bool, threads: nat)
    requires cap >= 1 && Leads(NewQueue<T>(cap, sealable, threads), s)
    ensures QReachable(s)
  {
    var s0 := NewQueue<T>(cap, sealable, threads);
    assert SomeRun(s0, s);
    var run: seq<QAction<T>> :| QExec(s0, run) == s;
    assert QReachedBy(s, cap, sealable, threads, run);
  }
}
