/** A ring that starts full: the words written directly are, word for word, those that enqueueing
    0, 1, ..., 2^order - 1 into an empty ring leaves behind. */
module FullInit {
  import opened Bitwise
  import opened Ring
  import opened Words
  import opened RingTheorems
  import opened RingSolo
  import opened WordRing

  lemma {:induction false} Pow2Order(a: nat, b: nat)
    requires a <= b
    ensures Pow2(a) <= Pow2(b)
  {
    if a < b { Pow2Order(a, b - 1); }
  }

  /** lfring_map(i, 2^k) of a position below 2^k */
  lemma MapBelow(i: nat, k: nat)
    requires k <= MAX_ORDER + 1 && i < Pow2(k)
    ensures 0 < Pow2(k) < TICKETS && RingMap(i, Pow2(k)) == i
  {
    ModulusIsPow2();
    assert Pow2(64) == 4 * Pow2(62) && Pow2(62) == 2 * Pow2(61);
    Pow2Order(k, 61);
    AndOnes(k, i);
  }

  lemma InitAt(i: nat, order: nat)
    requires order <= MAX_ORDER && i < Pow2(order + 1)
    ensures 0 < Pow2(order) < Pow2(order + 1) < MODULUS && RingMap(i, Pow2(order + 1)) == i
    ensures i < Pow2(order) ==> RingMap(i, Pow2(order)) == i && Pow2(order + 1) + i < MODULUS
  {
    MapBelow(i, order + 1);
    MapBelow(0, order);
    if i < Pow2(order) {
      MapBelow(i, order);
      FullDecodes(order, i);
    }
  }

  /** initialize_atomic_array_full */
  method InitializeFull(buffer: array<Word>, order: nat)
    requires order <= MAX_ORDER && buffer.Length == Pow2(order + 1)
    modifies buffer
    ensures buffer[..] == FullWords(order)
  {
    var half, n := Pow2(order), Pow2(order + 1);
    var i := 0;
    while i != half
      invariant 0 <= i <= half
      invariant forall j :: 0 <= j < i ==> buffer[j] == n + j
    {
      InitAt(i, order);
      buffer[RingMap(i, n)] := n + RingMap(i, half);
      i := i + 1;
    }
    while i != n
      invariant half <= i <= n
      invariant forall j :: 0 <= j < half ==> buffer[j] == n + j
      invariant forall j :: half <= j < i ==> buffer[j] == MODULUS - 1
    {
      InitAt(i, order);
      buffer[RingMap(i, n)] := MODULUS - 1;
      i := i + 1;
    }
    assert forall j :: 0 <= j < n ==> buffer[..][j] == FullWords(order)[j];
  }

  // ---------------------------------------------------------------- enqueueing instead

  /** One thread's enqueue of x, with m steps in between.  Six are enough in every case, and a finished
      thread stays put. */
  function EnqueueActions(x: nat, m: nat): seq<Action> {
    [CallEnqueue(0, x)] + (Alone(0, m) + [Return(0)])
  }

  /** The enqueues of 0, 1, ..., k - 1. */
  function FillActions(k: nat, m: nat): seq<Action> {
    if k == 0 then [] else FillActions(k - 1, m) + EnqueueActions(k - 1, m)
  }

  /** Thread 0 took the tickets 0, 1, ..., k - 1. */
  function FirstThread(k: nat): map<nat, nat> {
    if k == 0 then map[] else FirstThread(k - 1)[k - 1 := 0]
  }

  /** The empty ring after k of them. */
  function Filled(half: nat, finalizable: bool, k: nat): Ring {
    Ring(half, finalizable, false, 0, k, if k == 0 then -1 else Threshold3(half),
         seq(2 * half, (j: nat) => if j < k then Slot(0, true, Some(j)) else Slot(-1, true, None)),
         [Idle],
         EMPTY_HISTORY.(enqBy := FirstThread(k), inserted := FirstEntries(k)))
  }

  /** The first of m steps leads to r. */
  lemma StepTo(s: Ring, r: Ring, m: nat)
    requires s.Wf() && |s.pcs| == 1 == |r.pcs| && m > 0
    requires StepThread(s, 0, false) == r.(pcs := s.pcs[0 := r.pcs[0]])
    ensures r.Wf() && Solo(s, 0, m) == Solo(r, 0, m - 1)
  {
    assert s.pcs[0 := r.pcs[0]] == r.pcs;
  }

  lemma {:induction false} StaysDone(s: Ring, m: nat)
    requires s.Wf() && |s.pcs| == 1 && s.pcs[0].EnqOk?
    ensures Solo(s, 0, m) == s
  {
    if m > 0 {
      StepTo(s, s, m);
      StaysDone(s, m - 1);
    }
  }

  /** The slot is empty, safe and of an earlier cycle; a finalizable ring looks at its flag as well. */
  lemma Look(s: Ring, x: nat, m: nat)
    requires m >= 2 && s.Wf() && s.pcs == [EnqLoad(x, x)] && x < s.half
    requires s.slots[x] == Slot(-1, true, None) && !s.finalized
    ensures Solo(s, 0, m)
         == Solo(s.(pcs := [EnqCas(x, x, s.slots[x])]), 0, if s.finalizable then m - 2 else m - 1)
  {
    var ready := s.(pcs := [EnqCas(x, x, s.slots[x])]);
    if s.finalizable {
      var flag := s.(pcs := [EnqFinal(x, x, s.slots[x])]);
      StepTo(s, flag, m);
      StepTo(flag, ready, m - 1);
    } else {
      StepTo(s, ready, m);
    }
  }

  /** From the ticket to the compare-exchange. */
  lemma Approach(s: Ring, x: nat, m: nat)
    requires m >= 3 && s.Wf() && s.pcs == [EnqTicket(x)] && s.tail == x < s.half && s.slots[x] == Slot(-1, true, None)
    requires !s.finalized
    ensures Solo(s, 0, m)
         == Solo(s.(tail := x + 1, log := s.log.(enqBy := s.log.enqBy[x := 0]), pcs := [EnqCas(x, x, s.slots[x])]),
                 0, if s.finalizable then m - 3 else m - 2)
  {
    var s1 := s.(tail := x + 1, log := s.log.(enqBy := s.log.enqBy[x := 0]), pcs := [EnqLoad(x, x)]);
    StepTo(s, s1, m);
    Look(s1, x, m - 1);
  }

  lemma Store(s: Ring, x: nat, m: nat)
    requires s.Wf() && s.pcs == [EnqStore(x, x)] && m >= 1
    ensures Solo(s, 0, m) == s.(threshold := Threshold3(s.half), pcs := [EnqOk(x, x)])
  {
    var done := s.(threshold := Threshold3(s.half), pcs := [EnqOk(x, x)]);
    StepTo(s, done, m);
    StaysDone(done, m - 1);
  }

  /** The threshold is brought to its top. */
  lemma Settle(s: Ring, x: nat, m: nat)
    requires s.Wf() && s.pcs == [EnqThreshold(x, x)] && m >= 2
    ensures Solo(s, 0, m) == s.(threshold := Threshold3(s.half), pcs := [EnqOk(x, x)])
  {
    if s.threshold != Threshold3(s.half) {
      var s1 := s.(pcs := [EnqStore(x, x)]);
      StepTo(s, s1, m);
      Store(s1, x, m - 1);
    } else {
      var done := s.(pcs := [EnqOk(x, x)]);
      StepTo(s, done, m);
      StaysDone(done, m - 1);
    }
  }

  /** From the compare-exchange to the end. */
  lemma Complete(s: Ring, x: nat, m: nat)
    requires s.Wf() && x < s.half && s.pcs == [EnqCas(x, x, s.slots[x])] && m >= 3
    ensures Solo(s, 0, m)
         == s.(slots := s.slots[x := Slot(0, true, Some(x))], threshold := Threshold3(s.half),
               log := s.log.(inserted := s.log.inserted[x := x]), pcs := [EnqOk(x, x)])
  {
    var s1 := s.(slots := s.slots[x := Slot(0, true, Some(x))], log := s.log.(inserted := s.log.inserted[x := x]),
                 pcs := [EnqThreshold(x, x)]);
    StepTo(s, s1, m);
    Settle(s1, x, m - 1);
  }

  lemma EnqueueNext(half: nat, finalizable: bool, k: nat, m: nat)
    requires k < half && m >= 6
    ensures Exec(Filled(half, finalizable, k), EnqueueActions(k, m)) == Filled(half, finalizable, k + 1)
  {
    var s, next := Filled(half, finalizable, k), Filled(half, finalizable, k + 1);
    var called := s.(pcs := [EnqTicket(k)]);
    ExecCons(s, CallEnqueue(0, k), Alone(0, m) + [Return(0)]);
    assert Apply(s, CallEnqueue(0, k)) == called;
    ExecAppend(called, Alone(0, m), [Return(0)]);
    SoloIsExec(called, 0, m);
    Approach(called, k, m);
    var ready := called.(tail := k + 1, log := s.log.(enqBy := next.log.enqBy), pcs := [EnqCas(k, k, s.slots[k])]);
    assert s.log.enqBy[k := 0] == next.log.enqBy;
    Complete(ready, k, if finalizable then m - 3 else m - 2);
    assert s.slots[k := Slot(0, true, Some(k))] == next.slots;
    var done := next.(pcs := [EnqOk(k, k)]);
    ExecCons(done, Return(0), []);
    assert Apply(done, Return(0)) == next;
  }

  lemma {:induction false} FilledBy(half: nat, finalizable: bool, k: nat, m: nat)
    requires 1 <= half && k <= half && m >= 6
    ensures Exec(Filled(half, finalizable, 0), FillActions(k, m)) == Filled(half, finalizable, k)
  {
    if k > 0 {
      FilledBy(half, finalizable, k - 1, m);
      ExecAppend(Filled(half, finalizable, 0), FillActions(k - 1, m), EnqueueActions(k - 1, m));
      EnqueueNext(half, finalizable, k - 1, m);
    }
  }

  /** For every order: enqueueing all indices into an empty ring leaves, word for word, the ring that
      starts full, with the same head, tail and threshold. */
  lemma FullIsFilled(order: nat, finalizable: bool, m: nat)
    requires order <= MAX_ORDER && m >= 6
    ensures WExec(WEmpty(order, finalizable, 1), FillActions(Pow2(order), m)) == WFull(order, finalizable, 1)
  {
    var half, run := Pow2(order), FillActions(Pow2(order), m);
    var w, full := WExec(WEmpty(order, finalizable, 1), run), WFull(order, finalizable, 1);
    var s := Exec(Initial(false, half, finalizable, 1), run);
    assert s == Filled(half, finalizable, half) by {
      FilledBy(half, finalizable, half, m);
      assert EmptyRing(half, finalizable, 1) == Filled(half, finalizable, 0);
    }
    MapBelow(0, order);
    WordsRefineRecords(false, order, finalizable, 1, run);
    FullAbs(order, finalizable, 1);
    SameWords(w, full, s.log, FullRing(half, finalizable, 1).log);
  }

  /** A word ring is known by its records, if its one thread is idle. */
  lemma SameWords(v: WordRing, w: WordRing, log: History, log': History)
    requires v.Wf() && w.Wf() && v.order == w.order
    requires Abs(v, log) == Abs(w, log').(log := log) && w.pcs == [WIdle]
    ensures v == w
  {
    forall j | 0 <= j < |v.words| ensures v.words[j] == w.words[j] {
      DecodeInjective(v.words[j], w.words[j], v.order);
      assert Abs(v, log).slots[j] == Abs(w, log').slots[j];
    }
    assert Abs(v, log).pcs[0] == Abs(w, log').pcs[0] == Idle;
  }
}
