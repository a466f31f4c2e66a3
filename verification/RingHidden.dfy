/** An entry that no dequeue finds: with three times as many dequeuers as the ring has places, an enqueue can
    return, and no operation be in flight, and yet the threshold admit no ticket. */
module RingHidden {
  import opened Tickets
  import opened Ring
  import opened RingInvariant
  import opened RingTheorems
  import opened RingSolo

  /** Threads 0, ..., m - 1 have found the ring empty and are about to take the threshold down; all
      others are idle; head and tail have met. */
  ghost predicate Waiting(s: Ring, m: nat) {
    && s.Wf() && Sound(s) && m <= |s.pcs| && !s.finalized && s.head == s.tail
    && (forall i: nat :: i < m ==> s.pcs[i].DeqEmpty?)
    && (forall i: nat :: m <= i < |s.pcs| ==> s.pcs[i].Idle?)
  }

  lemma CallSound(s: Ring, a: Action)
    requires s.Wf() && Sound(s)
    ensures Sound(Apply(s, a))
  {
    Disclose(s);
    KeepAction(s, a);
    Enclose(Apply(s, a));
  }

  lemma PullsUp(s: Ring, i: nat, h: nat)
    requires s.Wf() && i < |s.pcs| && s.pcs[i] == DeqTail(h) && s.tail <= h + 1
    ensures var r := Solo(s, i, 2);
            r.pcs[i].DeqEmpty? && r.head == s.head && r.tail == h + 1 && r.threshold == s.threshold
  {
    var s1 := StepDeqTail(s, i, h);
    StepOnce(s, s1, i, 2);
    StepOnce(s1, StepCatchCas(s1, i, false, h, s.tail, h + 1), i, 1);
  }

  lemma NothingAhead(s: Ring)
    requires s.Wf() && Sound(s) && s.tail <= s.head
    ensures s.At(s.head).cycle != Cycle(s.head, s.N())
  {
    Disclose(s);
    HeadSlot(s);
  }

  /** A dequeuer that draws the ticket at which head and tail meet finds nothing, and pulls tail up. */
  lemma FindsNothing(s: Ring, i: nat) returns (k: nat)
    requires s.Wf() && Sound(s) && i < |s.pcs| && s.pcs[i] == DeqTicket && s.head == s.tail
    ensures var r := Solo(s, i, k);
            r.pcs[i].DeqEmpty? && r.head == r.tail == s.head + 1 && r.threshold == s.threshold
  {
    var h, s1 := s.head, StepDeqTicket(s, i);
    NothingAhead(s);
    k := FromDeqLoad(s1, i, h, 0);
    PullsUp(Solo(s1, i, k), i, h);
    SoloAppend(s1, i, k, 2);
    k := k + 3;
    StepOnce(s, s1, i, k);
  }

  /** The same from the call on. */
  lemma CallFindsNothing(s: Ring, i: nat) returns (k: nat)
    requires s.Wf() && Sound(s) && i < |s.pcs| && s.pcs[i].Idle? && s.head == s.tail && s.threshold >= 0
    ensures var r := Solo(BeginDequeue(s, i), i, k);
            && Sound(r) && r.pcs[i].DeqEmpty? && r.head == r.tail == s.head + 1 && r.threshold == s.threshold
  {
    var s1 := BeginDequeue(s, i);
    var s2 := StepDeqCheck(s1, i);
    BothSound(s, i);
    k := FindsNothing(s2, i);
    SoloSound(s2, i, k);
    k := k + 1;
    StepOnce(s1, s2, i, k);
  }

  lemma OneWaits(s: Ring, m: nat) returns (k: nat)
    requires Waiting(s, m) && m < |s.pcs| && s.threshold >= 0
    ensures var r := Solo(BeginDequeue(s, m), m, k); Waiting(r, m + 1) && r.threshold == s.threshold
  {
    k := CallFindsNothing(s, m);
    SoloStays(BeginDequeue(s, m), m, k);
  }

  lemma {:induction false} AllWait(s: Ring, m: nat, n: nat) returns (run: seq<Action>)
    requires Waiting(s, m) && m <= n <= |s.pcs| && s.threshold >= 0
    ensures var r := Exec(s, run); Waiting(r, n) && r.threshold == s.threshold
    decreases n - m
  {
    run := [];
    if m < n {
      var k := OneWaits(s, m);
      var first := [CallDequeue(m)] + Alone(m, k);
      CallThenSolo(s, CallDequeue(m), m, k);
      var rest := AllWait(Solo(BeginDequeue(s, m), m, k), m + 1, n);
      ExecAppend(s, first, rest);
      run := first + rest;
    }
  }

  // ---------------------------------------------------------------- an enqueue in between

  /** Threads 0, ..., m - 1 are still about to take the threshold down, but an enqueue has come and gone:
      the entry of ticket t is in the ring, and nobody has drawn its ticket. */
  ghost predicate Hidden(s: Ring, m: nat, t: nat, x: nat) {
    && s.Wf() && Sound(s) && m <= |s.pcs| && Ahead(s, t) && s.log.inserted[t] == x
    && (forall i: nat :: i < m ==> s.pcs[i].DeqEmpty?)
    && (forall i: nat :: m <= i < |s.pcs| ==> s.pcs[i].Idle?)
  }

  lemma NothingThere(s: Ring, m: nat)
    requires Waiting(s, m)
    ensures s.At(s.tail).entry.None?
  {
    Disclose(s);
    var j := Pos(s.tail, s.N());
    assert SlotOk(s, j);
  }

  lemma NotYetTaken(s: Ring, t: nat)
    requires s.Wf() && Sound(s) && s.head <= t
    ensures t !in s.log.taken
  {
    Disclose(s);
  }

  /** The enqueue of thread m alone, up to its return. */
  lemma EnqueueAlone(s: Ring, m: nat, x: nat) returns (k: nat)
    requires Waiting(s, m) && m < |s.pcs| && x < s.half
    ensures var r := Solo(BeginEnqueue(s, m, x), m, k);
            && Inserted(s, r, m, x, s.tail) && r.finalized == s.finalized && Sound(r) && s.tail !in r.log.taken
            && forall j: nat :: j < |s.pcs| && j != m ==> r.pcs[j] == s.pcs[j]
  {
    NothingThere(s, m);
    CallSound(s, CallEnqueue(m, x));
    var s1 := BeginEnqueue(s, m, x);
    var t;
    k, t := FromTicket(s1, m, x, 0);
    SoloStays(s1, m, k);
    SoloSound(s1, m, k);
    NotYetTaken(Solo(s1, m, k), t);
  }

  /** A whole operation of thread i. */
  lemma Operation(s: Ring, a: Action, i: nat, k: nat) returns (run: seq<Action>)
    requires s.Wf() && i < |s.pcs| && Returned(Solo(Apply(s, a), i, k).pcs[i])
    ensures Exec(s, run) == Solo(Apply(s, a), i, k).To(i, Idle)
  {
    CallThenSolo(s, a, i, k);
    run := [a] + Alone(i, k);
    ExecAppend(s, run, [Return(i)]);
    ExecOne(Exec(s, run), Return(i));
    run := run + [Return(i)];
  }

  /** What the ring is like after the return of the enqueue. */
  ghost predicate Enqueued(s: Ring, r: Ring, m: nat, x: nat) {
    && SameShape(s, r) && Hidden(r, m, s.tail, x) && r.threshold == Threshold3(s.half)
    && !r.finalized && r.head == s.head && r.tail == s.tail + 1
  }

  lemma EnqueueReturned(s: Ring, m: nat, x: nat) returns (k: nat)
    requires Waiting(s, m) && m < |s.pcs| && x < s.half
    ensures var r := Solo(BeginEnqueue(s, m, x), m, k);
            r.pcs[m] == EnqOk(x, s.tail) && Enqueued(s, r.To(m, Idle), m, x)
  {
    k := EnqueueAlone(s, m, x);
    CallSound(Solo(BeginEnqueue(s, m, x), m, k), Return(m));
  }

  lemma EnqueueComes(s: Ring, m: nat, x: nat) returns (run: seq<Action>)
    requires Waiting(s, m) && m < |s.pcs| && x < s.half
    ensures Enqueued(s, Exec(s, run), m, x)
  {
    var k := EnqueueReturned(s, m, x);
    run := Operation(s, CallEnqueue(m, x), m, k);
  }

  // ---------------------------------------------------------------- the threshold goes down

  lemma {:induction false} AllReturn(s: Ring, m: nat, t: nat, x: nat) returns (run: seq<Action>)
    requires Hidden(s, m, t, x)
    ensures var r := Exec(s, run); Hidden(r, 0, t, x) && r.threshold == s.threshold - m
    decreases m
  {
    run := [];
    if m > 0 {
      var i := m - 1;
      var s2 := OneReturns(s, i);
      var first := [Step(i, false)] + [Return(i)];
      var rest := AllReturn(s2, i, t, x);
      ExecAppend(s, first, rest);
      run := first + rest;
    }
  }

  lemma OneReturns(s: Ring, i: nat) returns (r: Ring)
    requires s.Wf() && Sound(s) && i < |s.pcs| && s.pcs[i].DeqEmpty?
    ensures r == s.(threshold := s.threshold - 1).To(i, Idle) && Sound(r)
    ensures Exec(s, [Step(i, false)] + [Return(i)]) == r
  {
    var s1 := StepDeqEmpty(s, i);
    r := s1.To(i, Idle);
    assert Apply(s, Step(i, false)) == s1 && Apply(s1, Return(i)) == r;
    ExecCons(s, Step(i, false), [Return(i)]);
    ExecOne(s1, Return(i));
    CallSound(s, Step(i, false));
    CallSound(s1, Return(i));
    assert r == s.(threshold := s.threshold - 1).To(i, Idle);
  }

  // ---------------------------------------------------------------- the result

  lemma TakesLive(s: Ring, i: nat, x: nat)
    requires s.Wf() && i < |s.pcs| && s.pcs[i] == DeqTicket && LiveAt(s, s.head, x)
    ensures var r := Solo(s, i, 3);
            && r.pcs[i] == DeqSome(s.head, x) && r.head == s.head + 1 && r.tail == s.tail
            && r.threshold == s.threshold && r.log.inserted == s.log.inserted
  {
    var h, s1 := s.head, StepDeqTicket(s, i);
    var s2 := StepDeqLoad(s1, i, h, 0);
    StepOnce(s, s1, i, 3);
    StepOnce(s1, s2, i, 2);
    FromDeqTake(s2, i, h, s.At(h));
  }

  /** A dequeue takes the entry of ticket head. */
  lemma DequeueAlone(s: Ring, i: nat)
    requires s.Wf() && Sound(s) && i < |s.pcs| && s.pcs[i].Idle? && Ahead(s, s.head) && s.threshold >= 0
    ensures var r := Solo(BeginDequeue(s, i), i, 4);
            && r.pcs[i] == DeqSome(s.head, s.log.inserted[s.head]) && Sound(r)
            && r.head == s.head + 1 && r.tail == s.tail && r.threshold == s.threshold
            && r.log.inserted == s.log.inserted
            && r.finalized == s.finalized && forall j: nat :: j < |s.pcs| && j != i ==> r.pcs[j] == s.pcs[j]
  {
    var s1 := BeginDequeue(s, i);
    var s2 := StepDeqCheck(s1, i);
    BothSound(s, i);
    SoloSound(s2, i, 3);
    SoundLive(s2, s2.head);
    TakesLive(s2, i, s.log.inserted[s.head]);
    StepOnce(s1, s2, i, 4);
    SoloStays(s1, i, 4);
  }

  /** It was the only entry, and after the return of the dequeue head and tail have met. */
  lemma DequeueReturned(s: Ring, t: nat, x: nat)
    requires Hidden(s, 0, t, x) && |s.pcs| > 0 && s.head == t && s.tail == t + 1 && !s.finalized && s.threshold >= 0
    ensures var r := Solo(BeginDequeue(s, 0), 0, 4);
            r.pcs[0] == DeqSome(t, x) && Waiting(r.To(0, Idle), 0) && r.threshold == s.threshold
  {
    DequeueAlone(s, 0);
    CallSound(Solo(BeginDequeue(s, 0), 0, 4), Return(0));
  }

  lemma DequeueComes(s: Ring, t: nat, x: nat) returns (run: seq<Action>)
    requires Hidden(s, 0, t, x) && |s.pcs| > 0 && s.head == t && s.tail == t + 1 && !s.finalized && s.threshold >= 0
    ensures var r := Exec(s, run); Waiting(r, 0) && r.threshold == s.threshold
  {
    DequeueReturned(s, t, x);
    run := Operation(s, CallDequeue(0), 0, 4);
  }

  /** One enqueue and one dequeue bring an empty ring to the start. */
  lemma Prelude(half: nat, finalizable: bool, threads: nat) returns (run: seq<Action>)
    requires half >= 1 && threads >= 1
    ensures var r := Exec(EmptyRing(half, finalizable, threads), run); Waiting(r, 0) && r.threshold == Threshold3(half)
  {
    var s := EmptyRing(half, finalizable, threads);
    EmptyInv(half, finalizable, threads);
    Enclose(s);
    run := EnqueueComes(s, 0, 0);
    var more := DequeueComes(Exec(s, run), 0, 0);
    ExecAppend(s, run, more);
    run := run + more;
  }

  /** For every capacity, a run of 3 * capacity + 1 threads: all operations have returned, the entry of
      ticket t is there, and the threshold is used up. */
  lemma UsedUp(half: nat, finalizable: bool, x: nat) returns (run: seq<Action>, t: nat)
    requires half >= 1 && x < half
    ensures var s := Exec(EmptyRing(half, finalizable, 3 * half + 1), run);
            Hidden(s, 0, t, x) && s.threshold == -1
  {
    var s0 := EmptyRing(half, finalizable, 3 * half + 1);
    var run1 := Prelude(half, finalizable, 3 * half + 1);
    var s1 := Exec(s0, run1);
    var run2 := AllWait(s1, 0, 3 * half);
    var s2 := Exec(s1, run2);
    var run3 := EnqueueComes(s2, 3 * half, x);
    var s3 := Exec(s2, run3);
    t := s2.tail;
    var run4 := AllReturn(s3, 3 * half, t, x);
    ExecAppend(s0, run1, run2);
    ExecAppend(s0, run1 + run2, run3);
    ExecAppend(s0, run1 + run2 + run3, run4);
    run := run1 + run2 + run3 + run4;
  }

  /** A dequeue of thread i, running alone, answers None. */
  ghost predicate FindsNone(s: Ring, i: nat)
    requires s.Wf() && i < |s.pcs|
  {
    exists k: nat :: Exec(s, [CallDequeue(i)] + Alone(i, k)).pcs[i].DeqNone?
  }

  /** For every capacity, 3 * capacity + 1 threads can bring the ring to a state with no operation in
      flight and an entry x, whose enqueue has returned, in which the condition of NoneIff holds of every
      thread: every dequeue answers None. */
  lemma NoneThoughNotEmpty(half: nat, finalizable: bool, x: nat) returns (run: seq<Action>, t: nat)
    requires half >= 1 && x < half
    ensures var s := Exec(EmptyRing(half, finalizable, 3 * half + 1), run);
            && s.Wf() && |s.pcs| == 3 * half + 1 && (forall i: nat :: i < |s.pcs| ==> s.pcs[i].Idle?)
            && LiveAt(s, t, x) && s.head <= t
            && (forall i: nat :: i < |s.pcs| ==> FindsNone(s, i))
  {
    run, t := UsedUp(half, finalizable, x);
    var s := Exec(EmptyRing(half, finalizable, 3 * half + 1), run);
    assert ReachedBy(s, false, half, finalizable, 3 * half + 1, run);
    SoundLive(s, t);
    forall i: nat | i < |s.pcs| ensures FindsNone(s, i) {
      var k, first := NoneIff(s, i, Pos(t, s.N()));
      assert Exec(s, [CallDequeue(i)] + Alone(i, k)).pcs[i].DeqNone?;
    }
  }
}
