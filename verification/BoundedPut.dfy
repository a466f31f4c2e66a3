/** What an enqueue of the bounded queue does that runs alone, with no operation in flight, whatever any number
    of threads did before: exactly when it stores its item, finds the queue full or finds it closed; exactly
    when it finalizes the queue; and that a refusal leaves everything as it was. */
module BoundedPut {
  import opened Tickets
  import opened Counting
  import opened Ring
  import opened RingInvariant
  import opened RingTheorems
  import opened RingSolo
  import opened RingAdmission
  import opened RingCredit
  import opened BoundedMachine
  import opened BoundedInvariant
  import opened BoundedTheorems
  import opened BoundedFifo
  import opened BoundedSolo
  import opened BoundedOrder
  import opened BoundedProgress
  import opened BoundedAnswers

  // ---------------------------------------------------------------- the two rings

  /** When fewer items than the capacity are stored, some index is in the free ring. */
  lemma FreeEntry<T>(s: Queue<T>, owner: seq<Place>)
    requires QInv(s, owner) && AtRest(s) && s.used < s.cap
    ensures Live(s.free) > 0
  {
    RingsAtRest(s, owner);
    if x: nat :| x < s.cap && owner[x].InFree? {
      assert PlaceOk(s, owner[x], x);
      TruesBound(LiveFlags(s.free));
      assert LiveFlags(s.free)[owner[x].j];
    } else {
      forall x: nat | x < s.cap ensures owner[x].InAlloc? { assert PlaceOk(s, owner[x], x); }
      var slots := seq<nat>(s.cap, x requires 0 <= x < s.cap => owner[x].j);
      forall x | 0 <= x < |slots| ensures slots[x] < s.alloc.N() && s.alloc.slots[slots[x]].entry == Some(x) {
        assert PlaceOk(s, owner[x], x);
      }
      Pigeons(LiveFlags(s.alloc), slots);
    }
  }

  lemma FindsFree<T>(s: Queue<T>, owner: seq<Place>, i: nat) returns (k: nat, h: nat, x: nat)
    requires QInv(s, owner) && AtRest(s) && s.used < s.cap && Paid(s.free) && i < |s.pcs|
    ensures Solo(BeginDequeue(s.free, i), i, k).pcs[i] == DeqSome(h, x) && x < s.cap && s.cells[x] == None
  {
    RingsAtRest(s, owner);
    FreeEntry(s, owner);
    FirstAdmitted(s.free);
    k := SoloAnswers(s.free, i);
    h := Answer(s.free).h;
    x := Answer(s.free).x;
    EmptyCell(s, owner, h);
  }

  /** The cell of a free index is empty. */
  lemma EmptyCell<T>(s: Queue<T>, owner: seq<Place>, t: nat)
    requires QInv(s, owner) && t in s.free.log.inserted && t !in s.free.log.taken
    ensures s.free.log.inserted[t] < s.cap && s.cells[s.free.log.inserted[t]] == None
  {
    SoundLive(s.free, t);
    var x := s.free.log.inserted[t];
    assert owner[x] == InFree(Pos(t, s.free.N()));
  }

  /** The alloc ring has room for the index, and takes it if it is not finalized. */
  lemma FindsRoom<T(!new)>(s: Queue<T>, owner: seq<Place>, i: nat, x: nat) returns (k: nat, t: nat)
    requires QInv(s, owner) && AtRest(s) && s.used < s.cap && !s.alloc.finalized && Reachable(s.alloc)
    requires i < |s.pcs| && x < s.cap
    ensures var a := Solo(BeginEnqueue(s.alloc, i, x), i, k);
            a.pcs[i] == EnqOk(x, t) && s.alloc.tail <= t && a.finalized == s.alloc.finalized
  {
    RingsAtRest(s, owner);
    var d := EnqueueReady(s.alloc, i, x);
    k, t := FromTicket(BeginEnqueue(s.alloc, i, x), i, x, d);
    SoloStays(BeginEnqueue(s.alloc, i, x), i, k);
  }

  /** A finalized one refuses it. */
  lemma FindsSealed<T>(s: Queue<T>, owner: seq<Place>, i: nat, x: nat) returns (k: nat)
    requires QInv(s, owner) && AtRest(s) && Sealed(s.alloc) && i < |s.pcs| && x < s.cap
    ensures var a := Solo(BeginEnqueue(s.alloc, i, x), i, k); Untaken(s.alloc, a) && Refused(s.alloc, a, i, x)
  {
    RingsAtRest(s, owner);
    AllocHasRoom(s, owner);
    k := CallEnds(s.alloc, i, x);
    CallThenSolo(s.alloc, CallEnqueue(i, x), i, k);
    assert Apply(s.alloc, CallEnqueue(i, x)) == BeginEnqueue(s.alloc, i, x);
  }

  // ---------------------------------------------------------------- the run of a refusal

  /** An enqueue into the alloc ring that is refused notes nothing in the history. */
  lemma {:induction false} AllocRefuses<T>(s: Queue<T>, i: nat, k: nat)
    requires s.Wf() && i < |s.pcs| && s.pcs[i].PutAlloc? && (NotIn(s.alloc.pcs[i]) || s.alloc.pcs[i].EnqErr?)
    requires Solo(s.alloc, i, k).pcs[i].EnqErr?
    ensures Brings(s, i, s.(alloc := Solo(s.alloc, i, k)))
    decreases k
  {
    if s.alloc.pcs[i].EnqErr? {
      SoloEnds(s.alloc, i, k);
      Stays(s, i);
    } else {
      var a := StepThread(s.alloc, i, false);
      InStep(s.alloc, i);
      if !NotIn(a.pcs[i]) && !a.pcs[i].EnqErr? { InStays(a, i, k - 1, s.alloc.pcs[i].t); }
      AllocPutStep(s, i);
      AllocRefuses(s.(alloc := a), i, k - 1);
      BringsOn(s, i, s.(alloc := a), s.(alloc := Solo(s.alloc, i, k)));
    }
  }

  /** The refused enqueue stands before the release of its index, with its item in hand. */
  function BeforeRelease<T>(s: Queue<T>, i: nat, item: T, f: Ring, a: Ring, x: nat): Queue<T>
    requires i < |s.pcs| && i < |f.pcs| && i < |a.pcs|
  {
    s.(free := BeginEnqueue(f.To(i, Idle), i, x), alloc := a.To(i, Idle)).To(i, PutRelease(item, x))
  }

  lemma TakesItemBack<T>(s: Queue<T>, i: nat, a: Ring)
    requires s.Wf() && i < |s.pcs| && s.pcs[i].PutAlloc? && SameShape(s.alloc, a) && a.pcs[i].EnqErr?
    requires s.pcs[i].pos < |s.cells| && s.cells[s.pcs[i].pos] == Some(s.pcs[i].item)
    ensures var item, x := s.pcs[i].item, s.pcs[i].pos;
            Brings(s.(alloc := a), i, s.(used := s.used - 1, cells := s.cells[x := None],
                                         free := BeginEnqueue(s.free, i, x), alloc := a.To(i, Idle))
                                       .To(i, PutRelease(item, x)))
  {
    var item, x := s.pcs[i].item, s.pcs[i].pos;
    var m1 := s.(alloc := a);
    var m2 := s.(alloc := a.To(i, Idle)).To(i, PutUncount(item, x));
    var m3 := s.(used := s.used - 1, alloc := a.To(i, Idle)).To(i, PutReadBack(item, x));
    BringsOne(m1, i, DoPutAlloc(m1, i, false, item, s.pcs[i].fin, s.pcs[i].size, x));
    BringsOne(m2, i, DoPutUncount(m2, i, item, x));
    assert DoPutUncount(m2, i, item, x) == m3 by { assert m2.To(i, PutReadBack(item, x)).pcs == m3.pcs; }
    var m4 := DoPutReadBack(m3, i, x);
    BringsOne(m3, i, m4);
    BringsOn(m1, i, m2, m3);
    BringsOn(m1, i, m3, m4);
    assert m4.pcs == s.To(i, PutRelease(item, x)).pcs;
  }

  lemma ComesToRelease<T>(s: Queue<T>, i: nat, k1: nat, k2: nat, f: Ring, a: Ring, h: nat, x: nat)
    requires s.Wf() && i < |s.pcs| && s.pcs[i].PutCount? && s.used < s.cap && x < s.cap && s.cells[x] == None
    requires f == Solo(BeginDequeue(s.free, i), i, k1) && f.pcs[i] == DeqSome(h, x)
    requires a == Solo(BeginEnqueue(s.alloc, i, x), i, k2) && a.pcs[i].EnqErr? && x < s.alloc.half
    ensures Brings(s, i, BeforeRelease(s, i, s.pcs[i].item, f, a, x))
  {
    var m1 := BeforeAlloc(s, i, f, x);
    AtAlloc(s, i, k1, f, h, x);
    AllocRefuses(m1, i, k2);
    var m2 := m1.(alloc := a);
    BringsOn(s, i, m1, m2);
    TakesItemBack(m1, i, a);
    var r := BeforeRelease(s, i, s.pcs[i].item, f, a, x);
    assert r == m1.(used := m1.used - 1, cells := m1.cells[x := None], free := BeginEnqueue(m1.free, i, x),
                    alloc := a.To(i, Idle)).To(i, PutRelease(s.pcs[i].item, x)) by {
      assert m1.cells[x := None] == s.cells;
      assert m1.To(i, PutRelease(s.pcs[i].item, x)).pcs == r.pcs;
    }
    BringsOn(s, i, m2, r);
  }

  // ---------------------------------------------------------------- what is left

  predicate Quiet<T>(s: Queue<T>) {
    forall j: nat :: j < |s.pcs| ==> s.pcs[j].QIdle? || s.pcs[j].PutDone?
  }

  function FreeIndices(f: Ring): set<nat> {
    set j: nat | j < |f.slots| && f.slots[j].entry.Some? :: f.slots[j].entry.value
  }

  /** The free indices are those that no thread holds and that are not in the alloc ring. */
  lemma FreeIsRest<T>(s: Queue<T>, owner: seq<Place>, x: nat)
    requires QInv(s, owner) && Quiet(s)
    ensures x in FreeIndices(s.free)
       <==> x < s.cap && forall j: nat :: j < s.alloc.N() ==> s.alloc.slots[j].entry != Some(x)
  {
    if x < s.cap {
      assert PlaceOk(s, owner[x], x);
      if owner[x].InFree? {
        assert s.free.slots[owner[x].j].entry.Some? && s.free.slots[owner[x].j].entry.value == x;
      }
    }
    if j: nat :| j < |s.free.slots| && s.free.slots[j].entry == Some(x) { assert owner[x] == InFree(j); }
  }

  lemma SameFree<T>(s: Queue<T>, owner: seq<Place>, r: Queue<T>, owner': seq<Place>)
    requires QInv(s, owner) && Quiet(s) && QInv(r, owner') && Quiet(r) && r.cap == s.cap
    requires r.alloc.slots == s.alloc.slots
    ensures FreeIndices(r.free) == FreeIndices(s.free)
  {
    forall x: nat ensures x in FreeIndices(r.free) <==> x in FreeIndices(s.free) {
      FreeIsRest(s, owner, x);
      FreeIsRest(r, owner', x);
    }
  }

  /** Nothing that another thread could notice has changed, but for tickets drawn. */
  ghost predicate Unchanged<T>(s: Queue<T>, r: Queue<T>) {
    && r.used == s.used && r.cells == s.cells && r.values == s.values && r.returned == s.returned
    && r.alloc.slots == s.alloc.slots && r.alloc.head == s.alloc.head && r.alloc.threshold == s.alloc.threshold
    && r.alloc.log.inserted == s.alloc.log.inserted && r.alloc.log.taken == s.alloc.log.taken
    && r.alloc.finalized == s.alloc.finalized && FreeIndices(r.free) == FreeIndices(s.free)
  }

  // ---------------------------------------------------------------- the three answers

  lemma Refuses<T>(s: Queue<T>, i: nat)
    requires s.Wf() && i < |s.pcs| && s.pcs[i].PutCount? && s.used >= s.cap
    ensures Brings(s, i, s.To(i, PutDone(Full(s.pcs[i].item))))
  {
    var s1 := DoPutCount(s, i, s.pcs[i].item, s.pcs[i].fin);
    BringsOne(s, i, s1);
    BringsOne(s1, i, DoPutFull(s1, i, s1.pcs[i].item));
    BringsOn(s, i, s1, DoPutFull(s1, i, s1.pcs[i].item));
    assert DoPutFull(s1, i, s1.pcs[i].item) == s.To(i, PutDone(Full(s.pcs[i].item)));
  }

  /** The item is stored under the new ticket t, and the queue is finalized if it was to be and is full. */
  ghost predicate StoredAs<T>(s: Queue<T>, r: Queue<T>, item: T, fin: bool, t: nat) {
    && r.used == s.used + 1 && t !in s.values && r.values == s.values[t := item]
    && (r.alloc.finalized <==> fin && s.alloc.finalizable && s.used + 1 >= s.cap)
  }

  lemma Accepts<T(!new)>(s: Queue<T>, owner: seq<Place>, i: nat, item: T, fin: bool)
    returns (r: Queue<T>, t: nat)
    requires QInv(s, owner) && AtRest(s) && s.used < s.cap && Paid(s.free) && i < |s.pcs|
    requires !s.alloc.finalized && Reachable(s.alloc)
    ensures Answers(s.To(i, PutCount(item, fin)), i, r, PutDone(Stored)) && StoredAs(s, r, item, fin, t)
  {
    var k1, h, x := FindsFree(s, owner, i);
    var k2;
    k2, t := FindsRoom(s, owner, i, x);
    var s1 := s.To(i, PutCount(item, fin));
    var f, a := Solo(BeginDequeue(s.free, i), i, k1), Solo(BeginEnqueue(s.alloc, i, x), i, k2);
    PutAlone(s1, i, k1, k2, f, a, h, x, t);
    r := AfterPut(s1, i, item, x, t, f, Finish(s1, fin, s1.used, a));
    NewTicket(s, owner, t);
  }

  lemma NewTicket<T>(s: Queue<T>, owner: seq<Place>, t: nat)
    requires QInv(s, owner) && s.alloc.tail <= t
    ensures t !in s.values
  {
    Disclose(s.alloc);
  }

  lemma ClosesBy<T>(s: Queue<T>, owner: seq<Place>, i: nat, k1: nat, k2: nat, f: Ring, a: Ring, h: nat, x: nat)
    returns (r: Queue<T>, owner': seq<Place>)
    requires QInv(s, owner) && i < |s.pcs| && s.pcs[i].PutCount? && s.used < s.cap && x < s.cap && s.cells[x] == None
    requires f == Solo(BeginDequeue(s.free, i), i, k1) && f.pcs[i] == DeqSome(h, x)
    requires a == Solo(BeginEnqueue(s.alloc, i, x), i, k2) && a.pcs[i].EnqErr?
    ensures Answers(s, i, r, PutDone(Closed(s.pcs[i].item))) && QInv(r, owner')
    ensures r == s.(free := r.free, alloc := a.To(i, Idle)).To(i, PutDone(Closed(s.pcs[i].item)))
  {
    var item := s.pcs[i].item;
    ComesToRelease(s, i, k1, k2, f, a, h, x);
    var m := BeforeRelease(s, i, item, f, a, x);
    owner' := BringsInv(s, i, m, owner);
    r := FromRelease(m, owner', i);
    owner' := BringsInv(m, i, r, owner');
    AnswersOn(s, i, m, r, PutDone(Closed(item)));
    assert r.pcs == s.To(i, PutDone(Closed(item))).pcs;
  }

  lemma Closes<T>(s: Queue<T>, owner: seq<Place>, i: nat, item: T, fin: bool) returns (r: Queue<T>)
    requires QInv(s, owner) && AtRest(s) && s.used < s.cap && Paid(s.free) && i < |s.pcs| && Sealed(s.alloc)
    ensures Answers(s.To(i, PutCount(item, fin)), i, r, PutDone(Closed(item))) && Unchanged(s, r)
  {
    var k1, h, x := FindsFree(s, owner, i);
    var k2 := FindsSealed(s, owner, i, x);
    var s1 := s.To(i, PutCount(item, fin));
    KeepIdling(s, i, PutCount(item, fin), owner);
    var f, a := Solo(BeginDequeue(s.free, i), i, k1), Solo(BeginEnqueue(s.alloc, i, x), i, k2);
    var owner';
    r, owner' := ClosesBy(s1, owner, i, k1, k2, f, a, h, x);
    SameFree(s, owner, r, owner');
  }

  /** With no operation in flight, whatever any number of threads did before, an enqueue running alone finds the
      queue full if `cap` items are stored, and otherwise closed if it is finalized; if neither, it stores its
      item, and finalizes the queue if and only if it was told to and has filled the last place.  A refusal
      gives the same item back and changes nothing else. */
  lemma LonePut<T(!new)>(s: Queue<T>, i: nat, item: T, fin: bool) returns (k: nat, t: nat)
    requires QReachable(s) && s.Wf() && i < |s.pcs| && AtRest(s)
    ensures var r := QExec(s, [CallPut(i, item, fin)] + QAlone(i, k));
            if s.used >= s.cap then r.pcs[i] == PutDone(Full(item)) && Unchanged(s, r)
            else if s.alloc.finalized then r.pcs[i] == PutDone(Closed(item)) && Unchanged(s, r)
            else r.pcs[i] == PutDone(Stored) && StoredAs(s, r, item, fin, t)
  {
    var owner := QReachableInv(s);
    var free, alloc := ReachableInOrder(s);
    RingsReachable(s);
    var s1 := s.To(i, PutCount(item, fin));
    assert QApply(s, CallPut(i, item, fin)) == s1;
    var r: Queue<T>;
    t := 0;
    if s.used >= s.cap {
      Refuses(s1, i);
      r := s1.To(i, PutDone(Full(item)));
    } else if s.alloc.finalized {
      r := Closes(s, owner, i, item, fin);
    } else {
      r, t := Accepts(s, owner, i, item, fin);
    }
    k := Steps(s1, i, r);
    QCall(s, CallPut(i, item, fin), i, k);
  }
}
