/** Progress: whatever holes and unsafe slots earlier concurrency left behind, an enqueue that
    runs alone inserts. */
module RingSolo {
  import opened Tickets
  import opened Ring
  import opened RingInvariant
  import opened RingTheorems
  import opened Counting

  function LiveFlags(s: Ring): seq<bool> {
    seq(|s.slots|, j requires 0 <= j < |s.slots| => s.slots[j].entry.Some?)
  }

  /** The number of entries in the ring. */
  function Live(s: Ring): nat { Trues(LiveFlags(s)) }

  /** k steps of thread i, none of which fails spuriously. */
  function Alone(i: nat, k: nat): seq<Action> {
    if k == 0 then [] else [Step(i, false)] + Alone(i, k - 1)
  }

  /** The state after them. */
  function Solo(s: Ring, i: nat, k: nat): (r: Ring)
    requires s.Wf() && i < |s.pcs|
    ensures SameShape(s, r)
    decreases k
  {
    if k == 0 then s else Solo(StepThread(s, i, false), i, k - 1)
  }

  lemma {:induction false} SoloIsExec(s: Ring, i: nat, k: nat)
    requires s.Wf() && i < |s.pcs|
    ensures Exec(s, Alone(i, k)) == Solo(s, i, k)
    decreases k
  {
    if k > 0 {
      ExecCons(s, Step(i, false), Alone(i, k - 1));
      SoloIsExec(StepThread(s, i, false), i, k - 1);
    }
  }

  lemma {:induction false} SoloAppend(s: Ring, i: nat, k: nat, l: nat)
    requires s.Wf() && i < |s.pcs|
    ensures Solo(s, i, k + l) == Solo(Solo(s, i, k), i, l)
    decreases k
  {
    if k > 0 { SoloAppend(StepThread(s, i, false), i, k - 1, l); }
  }

  /** The first of k steps leads to r. */
  lemma StepOnce(s: Ring, r: Ring, i: nat, k: nat)
    requires s.Wf() && i < |s.pcs| && k > 0 && StepThread(s, i, false) == r
    ensures Solo(s, i, k) == Solo(r, i, k - 1)
  {
  }

  lemma StepSound(s: Ring, i: nat)
    requires Sound(s) && s.Wf() && i < |s.pcs|
    ensures Sound(StepThread(s, i, false))
  {
    Disclose(s);
    KeepStep(s, i, false);
    Enclose(StepThread(s, i, false));
  }

  lemma {:induction false} SoloSound(s: Ring, i: nat, k: nat)
    requires Sound(s) && s.Wf() && i < |s.pcs|
    ensures Sound(Solo(s, i, k))
    decreases k
  {
    if k > 0 {
      StepSound(s, i);
      SoloSound(StepThread(s, i, false), i, k - 1);
    }
  }

  lemma {:induction false} SoloStays(s: Ring, i: nat, k: nat)
    requires s.Wf() && i < |s.pcs|
    ensures var r := Solo(s, i, k);
            && r.finalized == s.finalized
            && forall j: nat :: j < |s.pcs| && j != i ==> r.pcs[j] == s.pcs[j]
    decreases k
  {
    if k > 0 {
      var r := StepThread(s, i, false);
      assert OnlyThread(s, r, i);
      SoloStays(r, i, k - 1);
    }
  }

  /** Among live + 1 consecutive tickets there is one with an empty slot. */
  lemma EmptySlotAhead(s: Ring, t: nat) returns (d: nat)
    requires s.Wf() && Live(s) < s.N()
    ensures d <= Live(s) && s.At(t + d).entry.None?
  {
    var at: seq<nat> := [];
    d := 0;
    while s.At(t + d).entry.Some?
      invariant d == |at| <= Live(s)
      invariant forall k :: 0 <= k < d ==> at[k] == Pos(t + k, s.N()) && LiveFlags(s)[at[k]]
      decreases Live(s) - d
    {
      at := at + [Pos(t + d, s.N())];
      d := d + 1;
      forall k, l | 0 <= k < l < d ensures at[k] != at[l] {
        if at[k] == at[l] { SameSlotApart(t + k, t + l, s.N()); }
      }
      Pigeons(LiveFlags(s), at);
    }
  }

  /** An empty slot ahead of head and tail is of an earlier cycle than the ticket. */
  lemma EmptySlotIsOld(s: Ring, t: nat)
    requires Sound(s) && s.Wf() && s.head <= t && s.At(t).entry.None?
    ensures s.At(t).cycle < Cycle(t, s.N())
  {
    Disclose(s);
    var j := Pos(t, s.N());
    assert SlotOk(s, j);
    if s.At(t).cycle >= 0 {
      PosOfTicket(s.At(t).cycle, j, s.N());
      CycleOrder(Ticket(s.At(t).cycle, j, s.N()), t, s.N());
    }
  }

  ghost predicate Inserted(s: Ring, r: Ring, i: nat, x: nat, t: nat) {
    && SameShape(s, r) && i < |r.pcs| && r.pcs[i] == EnqOk(x, t)
    && r.tail == t + 1 && r.head == s.head && r.threshold == Threshold3(s.half)
    && r.log.inserted == s.log.inserted[t := x]
  }

  lemma FromThreshold(s: Ring, i: nat, x: nat, t: nat) returns (k: nat)
    requires s.Wf() && i < |s.pcs| && s.pcs[i] == EnqThreshold(x, t)
    ensures k <= 2
    ensures var r := Solo(s, i, k); r == s.(threshold := Threshold3(s.half)).To(i, EnqOk(x, t))
  {
    var s1 := StepEnqThreshold(s, i, x, t);
    k := 0;
    if s1.pcs[i].EnqStore? {
      StepOnce(s1, StepEnqStore(s1, i, x, t), i, 1);
      k := 1;
    }
    k := k + 1;
    StepOnce(s, s1, i, k);
  }

  lemma FromCas(s: Ring, i: nat, x: nat, t: nat, e: Slot) returns (k: nat)
    requires s.Wf() && i < |s.pcs| && s.pcs[i] == EnqCas(x, t, e) && s.At(t) == e && s.tail == t + 1
    ensures k <= 3 && Inserted(s, Solo(s, i, k), i, x, t)
  {
    var s1 := StepEnqCas(s, i, false, x, t, e);
    k := FromThreshold(s1, i, x, t);
    k := k + 1;
    StepOnce(s, s1, i, k);
  }

  lemma FromAdmitted(s: Ring, i: nat, x: nat, t: nat, e: Slot) returns (k: nat)
    requires s.Wf() && i < |s.pcs| && s.pcs[i] == Admitted(s, x, t, e) && s.At(t) == e && s.tail == t + 1
    requires s.finalizable ==> !s.finalized
    ensures k <= 4 && Inserted(s, Solo(s, i, k), i, x, t)
  {
    if s.finalizable {
      var s1 := StepEnqFinal(s, i, x, t, e);
      k := FromCas(s1, i, x, t, e);
      k := k + 1;
      StepOnce(s, s1, i, k);
    } else {
      k := FromCas(s, i, x, t, e);
    }
  }

  lemma FromLoad(s: Ring, i: nat, x: nat, t: nat) returns (k: nat)
    requires s.Wf() && i < |s.pcs| && s.pcs[i] == EnqLoad(x, t) && s.tail == t + 1 && s.head <= t
    requires s.At(t).entry.None? && s.At(t).cycle < Cycle(t, s.N())
    requires s.finalizable ==> !s.finalized
    ensures k <= 6 && Inserted(s, Solo(s, i, k), i, x, t)
  {
    var e := s.At(t);
    var s1 := StepEnqLoad(s, i, x, t);
    if e.safe {
      k := FromAdmitted(s1, i, x, t, e);
    } else {
      var s2 := StepEnqHead(s1, i, x, t, e);
      k := FromAdmitted(s2, i, x, t, e);
      k := k + 1;
      StepOnce(s1, s2, i, k);
    }
    k := k + 1;
    StepOnce(s, s1, i, k);
  }

  lemma {:induction false} FromTicket(s: Ring, i: nat, x: nat, d: nat) returns (k: nat, t: nat)
    requires Sound(s) && s.Wf() && i < |s.pcs| && s.pcs[i] == EnqTicket(x) && s.head <= s.tail
    requires s.At(s.tail + d).entry.None?
    requires s.finalizable ==> !s.finalized
    ensures s.tail <= t <= s.tail + d && k <= 2 * d + 7
    ensures Inserted(s, Solo(s, i, k), i, x, t)
    decreases d
  {
    t := s.tail;
    var s1 := StepEnqTicket(s, i, x);
    if s.At(t).entry.None? {
      EmptySlotIsOld(s, t);
      k := FromLoad(s1, i, x, t);
      k := k + 1;
      StepOnce(s, s1, i, k);
    } else {
      var s2 := StepEnqLoad(s1, i, x, t);
      StepSound(s, i);
      StepSound(s1, i);
      k, t := FromTicket(s2, i, x, d - 1);
      StepOnce(s1, s2, i, k + 1);
      k := k + 2;
      StepOnce(s, s1, i, k);
    }
  }

  /** From any state that any run reaches with no operation in flight and a slot without an entry, an
      enqueue running alone on a ring that is not finalized draws at most live + 1 tickets and inserts. */
  lemma SoloEnqueue(s: Ring, i: nat, x: nat) returns (k: nat, t: nat)
    requires Reachable(s) && i < |s.pcs| && x < s.half
    requires forall j: nat :: j < |s.pcs| ==> s.pcs[j].Idle?
    requires Live(s) < s.N()
    requires s.finalizable ==> !s.finalized
    ensures s.Wf() && s.tail <= t <= s.tail + Live(s) && k <= 2 * Live(s) + 7
    ensures Inserted(s, Exec(s, [CallEnqueue(i, x)] + Alone(i, k)), i, x, t)
  {
    var d := EnqueueReady(s, i, x);
    var s1 := BeginEnqueue(s, i, x);
    k, t := FromTicket(s1, i, x, d);
    CallThenSolo(s, CallEnqueue(i, x), i, k);
    assert Apply(s, CallEnqueue(i, x)) == s1;
  }

  /** A call of thread i followed by k steps of it. */
  lemma CallThenSolo(s: Ring, a: Action, i: nat, k: nat)
    requires s.Wf() && i < |s.pcs|
    ensures Exec(s, [a] + Alone(i, k)) == Solo(Apply(s, a), i, k)
  {
    ExecCons(s, a, Alone(i, k));
    SoloIsExec(Apply(s, a), i, k);
  }

  lemma EnqueueReady(s: Ring, i: nat, x: nat) returns (d: nat)
    requires Reachable(s) && i < |s.pcs| && x < s.half
    requires forall j: nat :: j < |s.pcs| ==> s.pcs[j].Idle?
    requires Live(s) < s.N()
    ensures s.Wf() && Sound(BeginEnqueue(s, i, x)) && s.head <= s.tail
    ensures d <= Live(s) && s.At(s.tail + d).entry.None?
  {
    ReachableInv(s);
    CatchUpBound(s);
    d := EmptySlotAhead(s, s.tail);
    KeepAction(s, CallEnqueue(i, x));
    Enclose(BeginEnqueue(s, i, x));
  }

  /** Every slot holds an entry, and thread i is looking for one that does not. */
  ghost predicate Stuck(s: Ring, i: nat) {
    && s.Wf() && i < |s.pcs| && (s.pcs[i].EnqTicket? || s.pcs[i].EnqLoad?)
    && forall j: nat :: j < s.N() ==> s.slots[j].entry.Some?
  }

  lemma {:induction false} StuckForever(s: Ring, i: nat, k: nat)
    requires Stuck(s, i)
    ensures Stuck(Solo(s, i, k), i)
    decreases k
  {
    if k > 0 { StuckForever(StepThread(s, i, false), i, k - 1); }
  }

  lemma AllLive(s: Ring, j: nat)
    requires s.Wf() && Live(s) == s.N() && j < s.N()
    ensures s.slots[j].entry.Some?
  {
    if s.slots[j].entry.None? {
      TruesUpdate(LiveFlags(s), j, true);
      TruesBound(LiveFlags(s)[j := true]);
    }
  }

  /** With no operation in flight, an enqueue running alone on a ring that is not finalized returns if and
      only if some slot holds no entry; otherwise it draws tickets forever. */
  lemma LoneEnqueue(s: Ring, i: nat, x: nat)
    requires Reachable(s) && i < |s.pcs| && x < s.half
    requires forall j: nat :: j < |s.pcs| ==> s.pcs[j].Idle?
    requires s.finalizable ==> !s.finalized
    ensures s.Wf()
    ensures (exists k: nat :: Returned(Exec(s, [CallEnqueue(i, x)] + Alone(i, k)).pcs[i])) <==> Live(s) < s.N()
  {
    ReachableInv(s);
    TruesBound(LiveFlags(s));
    if Live(s) < s.N() {
      var k, t := SoloEnqueue(s, i, x);
      assert Returned(Exec(s, [CallEnqueue(i, x)] + Alone(i, k)).pcs[i]);
    } else {
      var s1 := BeginEnqueue(s, i, x);
      forall j: nat | j < s.N() ensures s1.slots[j].entry.Some? { AllLive(s, j); }
      forall k: nat ensures !Returned(Exec(s, [CallEnqueue(i, x)] + Alone(i, k)).pcs[i]) {
        StuckForever(s1, i, k);
        CallThenSolo(s, CallEnqueue(i, x), i, k);
      }
    }
  }

  // ---------------------------------------------------------------- one round of a dequeue

  /** The counters, the threshold and the insertions are as before. */
  ghost predicate SameCounters(s: Ring, r: Ring) {
    && SameShape(s, r) && r.Wf() && r.head == s.head && r.tail == s.tail && r.threshold == s.threshold
    && r.log.inserted == s.log.inserted
  }

  /** Thread i has taken what it loaded from the slot of ticket h. */
  ghost predicate Consumed(s: Ring, r: Ring, i: nat, h: nat, e: Slot)
    requires i < |r.pcs|
  {
    var x := IndexBits(s, e);
    x >= 0 && r.pcs[i] == DeqSome(h, x) && r.log.taken == s.log.taken[h := x]
  }

  /** What the loop at the slot of ticket h comes to: the entry, if the slot is of the ticket's cycle, and
      otherwise nothing. */
  ghost predicate SlotDone(s: Ring, r: Ring, i: nat, h: nat)
    requires s.Wf() && i < |r.pcs|
  {
    && SameCounters(s, r)
    && if s.At(h).cycle == Cycle(h, s.N()) then Consumed(s, r, i, h, s.At(h))
       else r.pcs[i] == DeqTail(h) && r.log.taken == s.log.taken
  }

  /** A dequeuer that is about to write to the slot, and runs alone, is done with it. */
  lemma FromDeqCas(s: Ring, i: nat, h: nat, attempt: nat, e: Slot, new': Slot)
    requires s.Wf() && i < |s.pcs| && s.pcs[i] == DeqCas(h, attempt, e, new') && s.At(h) == e
    ensures var r := Solo(s, i, 1); SameCounters(s, r) && r.pcs[i] == DeqTail(h) && r.log.taken == s.log.taken
  {
    StepOnce(s, StepDeqCas(s, i, false, h, attempt, e, new'), i, 1);
  }

  lemma FromDeqTake(s: Ring, i: nat, h: nat, e: Slot)
    requires s.Wf() && i < |s.pcs| && s.pcs[i] == DeqTake(h, e)
    ensures var r := Solo(s, i, 1); SameCounters(s, r) && Consumed(s, r, i, h, e)
  {
    StepOnce(s, StepDeqTake(s, i, h, e), i, 1);
  }

  /** The loop at one slot ends: it is left after at most ten more looks at it. */
  lemma {:induction false} FromDeqLoad(s: Ring, i: nat, h: nat, attempt: nat) returns (k: nat)
    requires s.Wf() && i < |s.pcs| && s.pcs[i] == DeqLoad(h, attempt)
    ensures k <= (if attempt <= 10 then 12 - attempt else 2) && SlotDone(s, Solo(s, i, k), i, h)
    decreases if attempt <= 10 then 11 - attempt else 0
  {
    var s1 := StepDeqLoad(s, i, h, attempt);
    k := 0;
    if s1.pcs[i].DeqLoad? {
      k := FromDeqLoad(s1, i, h, attempt + 1);
    } else {
      k := FromDecision(s, s1, i, h, attempt);
    }
    k := k + 1;
    StepOnce(s, s1, i, k);
  }

  /** Before it advances an empty slot of an earlier cycle, a dequeuer has looked at it eleven times: ten
      times it waits for the enqueuer. */
  lemma {:induction false} TenMoreLooks(s: Ring, i: nat, h: nat, attempt: nat)
    requires s.Wf() && i < |s.pcs| && s.pcs[i] == DeqLoad(h, attempt) && attempt <= 10
    requires s.At(h).entry.None? && s.At(h).cycle < Cycle(h, s.N())
    ensures var e := s.At(h);
            Solo(s, i, 11 - attempt) == s.To(i, DeqCas(h, 11, e, Slot(Cycle(h, s.N()), e.safe, None)))
    decreases 10 - attempt
  {
    var s1 := StepDeqLoad(s, i, h, attempt);
    if attempt < 10 { TenMoreLooks(s1, i, h, attempt + 1); }
    StepOnce(s, s1, i, 11 - attempt);
  }

  /** The loop does not go round again. */
  lemma FromDecision(s: Ring, s1: Ring, i: nat, h: nat, attempt: nat) returns (k: nat)
    requires s.Wf() && i < |s.pcs| && s1 == StepDeqLoad(s, i, h, attempt) && !s1.pcs[i].DeqLoad?
    ensures k <= 1 && SlotDone(s, Solo(s1, i, k), i, h)
  {
    assert SameCounters(s, s1) && s1.slots == s.slots && s1.log.taken == s.log.taken;
    k := 0;
    if s1.pcs[i].DeqTake? {
      FromDeqTake(s1, i, h, s1.pcs[i].e);
      k := 1;
    } else if s1.pcs[i].DeqCas? {
      FromDeqCas(s1, i, h, s1.pcs[i].attempt, s1.pcs[i].e, s1.pcs[i].new');
      k := 1;
    }
  }

  /** The round of ticket h was in vain, and the threshold went down by one; a next round begins unless
      the tail test failed or the threshold was used up. */
  ghost predicate InVain(s: Ring, r: Ring, i: nat, h: nat) {
    && SameShape(s, r) && r.Wf() && i < |r.pcs| && r.head == s.head && r.threshold == s.threshold - 1
    && r.log.inserted == s.log.inserted && r.log.taken == s.log.taken
    && (s.tail > h + 1 ==> r.tail == s.tail)
    && r.pcs[i] == if s.tail <= h + 1 || s.threshold <= 0 then DeqNone else DeqTicket
  }

  lemma FromDeqTail(s: Ring, i: nat, h: nat) returns (k: nat)
    requires s.Wf() && i < |s.pcs| && s.pcs[i] == DeqTail(h)
    ensures k <= 3 && InVain(s, Solo(s, i, k), i, h)
  {
    var s1 := StepDeqTail(s, i, h);
    if s.tail <= h + 1 {
      var s2 := StepCatchCas(s1, i, false, h, s.tail, h + 1);
      StepOnce(s2, StepDeqEmpty(s2, i), i, 1);
      StepOnce(s1, s2, i, 2);
      k := 3;
    } else {
      StepOnce(s1, StepDeqRound(s1, i), i, 1);
      k := 2;
    }
    StepOnce(s, s1, i, k);
  }

  /** One round: it takes the entry of ticket head, if the slot is of its cycle, and is in vain otherwise. */
  ghost predicate RoundDone(s: Ring, r: Ring, i: nat)
    requires s.Wf()
  {
    && SameShape(s, r) && r.Wf() && i < |r.pcs| && r.head == s.head + 1
    && if s.At(s.head).cycle == Cycle(s.head, s.N()) then
         && r.tail == s.tail && r.threshold == s.threshold && r.log.inserted == s.log.inserted
         && Consumed(s, r, i, s.head, s.At(s.head))
       else InVain(s.(head := s.head + 1), r, i, s.head)
  }

  lemma OneRound(s: Ring, i: nat) returns (k: nat)
    requires s.Wf() && i < |s.pcs| && s.pcs[i] == DeqTicket
    ensures k <= 16 && RoundDone(s, Solo(s, i, k), i)
  {
    var s1 := StepDeqTicket(s, i);
    k := AfterTicket(s, s1, i);
    k := k + 1;
    StepOnce(s, s1, i, k);
  }

  lemma AfterTicket(s: Ring, s1: Ring, i: nat) returns (k: nat)
    requires s.Wf() && i < |s.pcs| && s1 == StepDeqTicket(s, i)
    ensures k <= 15 && RoundDone(s, Solo(s1, i, k), i)
  {
    var k1 := FromDeqLoad(s1, i, s.head, 0);
    var s2 := Solo(s1, i, k1);
    var k2 := RestOfRound(s1, s2, i, s.head);
    WholeRound(s, s2, Solo(s2, i, k2), i);
    SoloAppend(s1, i, k1, k2);
    k := k1 + k2;
  }

  lemma WholeRound(s: Ring, s2: Ring, r: Ring, i: nat)
    requires s.Wf() && i < |s.pcs| && i < |s2.pcs| && SlotDone(StepDeqTicket(s, i), s2, i, s.head)
    requires if s.At(s.head).cycle == Cycle(s.head, s.N()) then r == s2
             else InVain(StepDeqTicket(s, i), r, i, s.head)
    ensures RoundDone(s, r, i)
  {
  }

  lemma RestOfRound(s: Ring, s1: Ring, i: nat, h: nat) returns (k: nat)
    requires s.Wf() && i < |s1.pcs| && SlotDone(s, s1, i, h)
    ensures k <= 3
    ensures var r := Solo(s1, i, k);
            if s.At(h).cycle == Cycle(h, s.N()) then r == s1 else InVain(s, r, i, h)
  {
    k := 0;
    if s1.pcs[i] == DeqTail(h) { k := FromDeqTail(s1, i, h); }
  }

  // ---------------------------------------------------------------- what a dequeue answers

  /** An entry whose ticket is still to be drawn. */
  predicate Ahead(s: Ring, t: nat) {
    t in s.log.inserted && t !in s.log.taken && s.head <= t
  }

  /** The first ticket from `from` on, and before `to`, of an entry that was put in and not taken. */
  function FirstEntry(inserted: map<nat, nat>, taken: map<nat, nat>, from: nat, to: nat): (t: Option<nat>)
    ensures t.Some? ==> from <= t.value < to && t.value in inserted && t.value !in taken
    decreases if from < to then to - from else 0
  {
    if from >= to then None
    else if from in inserted && from !in taken then Some(from)
    else FirstEntry(inserted, taken, from + 1, to)
  }

  /** What a dequeue running alone from state s answers: the first entry whose ticket is still to be drawn,
      if the threshold admits a round for that ticket, and otherwise None. */
  function Answer(s: Ring): Pc {
    match FirstEntry(s.log.inserted, s.log.taken, s.head, s.tail)
    case None => DeqNone
    case Some(t) => if t - s.head <= s.threshold then DeqSome(t, s.log.inserted[t]) else DeqNone
  }

  lemma {:induction false} FirstEntryIsFirst(inserted: map<nat, nat>, taken: map<nat, nat>, from: nat, to: nat, t: nat)
    requires from <= t < to && t in inserted && t !in taken
    ensures FirstEntry(inserted, taken, from, to).Some? && FirstEntry(inserted, taken, from, to).value <= t
    decreases if from < to then to - from else 0
  {
    if !(from in inserted && from !in taken) { FirstEntryIsFirst(inserted, taken, from + 1, to, t); }
  }

  lemma HeadSlot(s: Ring)
    requires Inv(s)
    ensures s.At(s.head).cycle == Cycle(s.head, s.N()) <==> Ahead(s, s.head)
    ensures Ahead(s, s.head) ==> s.head < s.tail && IndexBits(s, s.At(s.head)) == s.log.inserted[s.head]
  {
    TicketOfPos(s.head, s.N());
    assert SlotOk(s, Pos(s.head, s.N()));
    if Ahead(s, s.head) { assert LiveAt(s, s.head, s.log.inserted[s.head]); }
  }

  /** What the ring is like after the answer: the entry is taken, and every ticket before it has cost the
      threshold one. */
  ghost predicate Answered(s: Ring, r: Ring, i: nat) {
    && SameShape(s, r) && i < |r.pcs| && r.pcs[i] == Answer(s)
    && match Answer(s)
       case DeqSome(t, x) =>
         && r.head == t + 1 && r.tail == s.tail && r.threshold == s.threshold - (t - s.head)
         && r.log.inserted == s.log.inserted && r.log.taken == s.log.taken[t := x]
       case _ => r.log.inserted == s.log.inserted && r.log.taken == s.log.taken
  }

  /** One round and the answer of the rest of the call give the answer of the call. */
  lemma RoundAnswer(s: Ring, s1: Ring, r: Ring, i: nat)
    requires Sound(s) && s.Wf() && s.threshold >= 0 && RoundDone(s, s1, i)
    requires if s1.pcs[i].DeqTicket? then Answered(s1, r, i) else r == s1
    ensures Answered(s, r, i)
  {
    Disclose(s);
    HeadSlot(s);
  }

  /** The rest of a call, from the draw of a ticket on. */
  ghost predicate Ended(s: Ring, r: Ring, i: nat) {
    && SameShape(s, r) && i < |r.pcs| && (r.pcs[i].DeqSome? || r.pcs[i].DeqNone?)
    && s.head < r.head <= s.head + s.threshold + 1
  }

  lemma {:induction false} FromDeqTicket(s: Ring, i: nat) returns (k: nat)
    requires s.Wf() && i < |s.pcs| && s.pcs[i] == DeqTicket && s.threshold >= 0
    ensures k <= 16 * (s.threshold + 1) && Ended(s, Solo(s, i, k), i)
    decreases s.threshold
  {
    k := OneRound(s, i);
    var s1 := Solo(s, i, k);
    if s1.pcs[i].DeqTicket? {
      var l := FromDeqTicket(s1, i);
      SoloAppend(s, i, k, l);
      k := k + l;
    }
  }

  lemma {:induction false} AnswerFromTicket(s: Ring, i: nat) returns (k: nat)
    requires Sound(s) && s.Wf() && i < |s.pcs| && s.pcs[i] == DeqTicket && s.threshold >= 0
    ensures var r := Solo(s, i, k); Returned(r.pcs[i]) && Answered(s, r, i)
    decreases s.threshold
  {
    k := OneRound(s, i);
    var s1 := Solo(s, i, k);
    if s1.pcs[i].DeqTicket? {
      SoloSound(s, i, k);
      var l := AnswerFromTicket(s1, i);
      RoundAnswer(s, s1, Solo(s1, i, l), i);
      SoloAppend(s, i, k, l);
      k := k + l;
    } else {
      RoundAnswer(s, s1, s1, i);
    }
  }

  /** A thread that has returned stays put, so it does not matter how many steps are counted. */
  lemma {:induction false} SoloEnds(s: Ring, i: nat, k: nat)
    requires s.Wf() && i < |s.pcs| && Returned(s.pcs[i])
    ensures Solo(s, i, k) == s
    decreases k
  {
    if k > 0 { SoloEnds(s, i, k - 1); }
  }

  lemma SameEnd(s: Ring, i: nat, k: nat, l: nat)
    requires s.Wf() && i < |s.pcs| && Returned(Solo(s, i, k).pcs[i]) && Returned(Solo(s, i, l).pcs[i])
    ensures Solo(s, i, k) == Solo(s, i, l)
  {
    SoloAppend(s, i, k, l);
    SoloAppend(s, i, l, k);
    SoloEnds(Solo(s, i, k), i, l);
    SoloEnds(Solo(s, i, l), i, k);
  }

  /** From any state at all, with the other threads stopped anywhere in their operations, a dequeue running
      alone returns; it draws at most threshold + 1 tickets. */
  lemma SoloReturns(s: Ring, i: nat) returns (k: nat)
    requires s.Wf() && i < |s.pcs| && s.pcs[i].Idle?
    ensures var r := Solo(BeginDequeue(s, i), i, k);
            && SameShape(s, r) && (r.pcs[i].DeqSome? || r.pcs[i].DeqNone?)
            && (if s.threshold < 0 then r.head == s.head && k == 1
                else s.head < r.head <= s.head + s.threshold + 1 && k <= 16 * (s.threshold + 1) + 1)
  {
    var s1 := BeginDequeue(s, i);
    var s2 := StepDeqCheck(s1, i);
    k := 0;
    if s.threshold >= 0 { k := FromDeqTicket(s2, i); }
    k := k + 1;
    StepOnce(s1, s2, i, k);
  }

  lemma SoloAnswers(s: Ring, i: nat) returns (k: nat)
    requires Sound(s) && s.Wf() && i < |s.pcs| && s.pcs[i].Idle?
    ensures var r := Solo(BeginDequeue(s, i), i, k); Returned(r.pcs[i]) && Answered(s, r, i)
  {
    var s1 := BeginDequeue(s, i);
    var s2 := StepDeqCheck(s1, i);
    k := 0;
    if s.threshold >= 0 {
      BothSound(s, i);
      k := AnswerFromTicket(s2, i);
    }
    k := k + 1;
    StepOnce(s1, s2, i, k);
  }

  lemma BothSound(s: Ring, i: nat)
    requires Sound(s) && s.Wf() && i < |s.pcs| && s.pcs[i].Idle?
    ensures Sound(StepDeqCheck(BeginDequeue(s, i), i))
  {
    Disclose(s);
    var s1 := BeginDequeue(s, i);
    Local(s, s1, i);
    Local(s1, StepDeqCheck(s1, i), i);
    Enclose(StepDeqCheck(s1, i));
  }

  /** A dequeue running alone, with the other threads stopped anywhere in their operations, returns; it
      draws at most threshold + 1 tickets.  In a state that keeps the invariant it takes the first entry
      whose ticket is still to be drawn, if that ticket is among the next threshold + 1, and answers
      None otherwise. */
  lemma SoloDequeue(s: Ring, i: nat) returns (k: nat)
    requires s.Wf() && i < |s.pcs| && s.pcs[i].Idle?
    ensures var r := Exec(s, [CallDequeue(i)] + Alone(i, k));
            && SameShape(s, r) && (r.pcs[i].DeqSome? || r.pcs[i].DeqNone?)
            && (if s.threshold < 0 then r.head == s.head && k == 1
                else s.head < r.head <= s.head + s.threshold + 1 && k <= 16 * (s.threshold + 1) + 1)
            && (Inv(s) ==> Answered(s, r, i))
  {
    k := SoloReturns(s, i);
    assert Apply(s, CallDequeue(i)) == BeginDequeue(s, i);
    CallThenSolo(s, CallDequeue(i), i, k);
    if Inv(s) {
      Enclose(s);
      var l := SoloAnswers(s, i);
      SameEnd(BeginDequeue(s, i), i, k, l);
    }
  }

  /** With no operation in flight and an entry in the ring, a dequeue running alone answers None if and only
      if the threshold is less than the number of tickets that head is before the first entry; otherwise
      it takes that entry. */
  lemma NoneIff(s: Ring, i: nat, j: nat) returns (k: nat, t: nat)
    requires Reachable(s) && s.Wf() && i < |s.pcs|
    requires forall m: nat :: m < |s.pcs| ==> s.pcs[m].Idle?
    requires j < s.N() && s.slots[j].entry.Some?
    ensures Ahead(s, t) && LiveAt(s, t, s.log.inserted[t]) && forall u: nat :: Ahead(s, u) ==> t <= u
    ensures var r := Exec(s, [CallDequeue(i)] + Alone(i, k));
            && (r.pcs[i].DeqNone? <==> s.threshold < t - s.head)
            && (!r.pcs[i].DeqNone? ==> r.pcs[i] == DeqSome(t, s.log.inserted[t]))
  {
    ReachableInv(s);
    NoOrphan(s, j);
    FirstEntryIsFirst(s.log.inserted, s.log.taken, s.head, s.tail, Ticket(s.slots[j].cycle, j, s.N()));
    t := FirstEntry(s.log.inserted, s.log.taken, s.head, s.tail).value;
    forall u: nat | Ahead(s, u) ensures t <= u {
      FirstEntryIsFirst(s.log.inserted, s.log.taken, s.head, s.tail, u);
    }
    NothingLost(s, t);
    k := SoloDequeue(s, i);
  }
}
