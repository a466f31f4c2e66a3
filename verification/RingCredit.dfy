/** When the threshold is enough.  If no more dequeuers are in flight than half the slots whenever an enqueuer
    sets the threshold, then it always admits all tickets up to every entry, save those whose own enqueue has
    not set it yet. */
module RingCredit {
  import opened Counting
  import opened Ring
  import opened RingInvariant
  import opened RingTheorems
  import opened RingEffects
  import opened RingSolo
  import opened RingOrder

  /** An enqueuer is about to insert with ticket t. */
  ghost predicate AtCas(s: Ring, t: nat) {
    exists k: nat :: k < |s.pcs| && s.pcs[k].EnqCas? && s.pcs[k].t == t
  }

  /** Entries are less than a whole ring ahead of head, also those that can still come after finalization. */
  ghost predicate Near(s: Ring) {
    && s.Wf() && (s.finalized ==> s.finalizable)
    && (forall t: nat :: t in s.log.inserted || AtCas(s, t) ==> t < s.head + s.N())
  }

  /** In order as long as the ring is not finalized. */
  ghost predicate Tidy(s: Ring, own: map<nat, nat>) {
    Near(s) && (!s.finalized ==> Orderly(s, own))
  }

  lemma OrderlyNear(s: Ring, own: map<nat, nat>)
    requires Sound(s) && Orderly(s, own) && !s.finalized
    ensures Near(s)
  {
    Disclose(s);
    forall t: nat | t in s.log.inserted || AtCas(s, t) ensures t < s.head + s.N() {
      if t !in s.log.inserted {
        var k: nat :| k < |s.pcs| && s.pcs[k].EnqCas? && s.pcs[k].t == t;
        assert PcOk(s, k);
      }
    }
  }

  /** After finalization nobody gets as far as the compare-exchange any more. */
  lemma LastInsertions(s: Ring, i: nat, weak: bool)
    requires s.Wf() && Sound(s) && i < |s.pcs| && s.finalized && s.finalizable
    ensures var r := StepThread(s, i, weak);
            && s.head <= r.head && r.finalized
            && (r.pcs[i].EnqCas? ==> s.pcs[i].EnqCas? && s.pcs[i].t == r.pcs[i].t)
            && forall t :: t in r.log.inserted ==> t in s.log.inserted || (s.pcs[i].EnqCas? && s.pcs[i].t == t)
  {
    var pc, r := s.pcs[i], StepThread(s, i, weak);
    var f := StepDoes(s, i, weak);
    if InEnqueue(pc) && !pc.EnqTicket? {
      EnqueueNoDraw(s, i, weak);
    } else if pc.DeqLoad? || pc.DeqTake? || pc.DeqCas? {
      EdgeSlot(s, i, weak);
      SlotNoDraw(s, i, weak);
    }
  }

  lemma SealedNear(s: Ring, i: nat, weak: bool)
    requires Sound(s) && Near(s) && i < |s.pcs| && s.finalized
    ensures Near(StepThread(s, i, weak))
  {
    var r := StepThread(s, i, weak);
    LastInsertions(s, i, weak);
    forall t: nat | t in r.log.inserted || AtCas(r, t) ensures t < r.head + r.N() {
      if t in r.log.inserted && t !in s.log.inserted {
        assert AtCas(s, t);
      } else if t !in r.log.inserted {
        var k: nat :| k < |r.pcs| && r.pcs[k].EnqCas? && r.pcs[k].t == t;
        assert s.pcs[k].EnqCas? && s.pcs[k].t == t;
      }
    }
  }

  lemma StepTidy(s: Ring, own: map<nat, nat>, i: nat, weak: bool) returns (own': map<nat, nat>)
    requires s.Wf() && Sound(s) && Tidy(s, own) && Distinct(s) && i < |s.pcs|
    ensures Tidy(StepThread(s, i, weak), own')
  {
    var f := StepDoes(s, i, weak);
    own' := own;
    if s.finalized {
      SealedNear(s, i, weak);
    } else {
      own' := StepOrderly(s, own, i, weak);
      OrderlyNear(StepThread(s, i, weak), own');
    }
  }

  lemma PlainTidy(s: Ring, own: map<nat, nat>, i: nat, pc: Pc)
    requires Tidy(s, own) && i < |s.pcs|
    requires forall v: nat :: !Enqueuing(s.pcs[i], v) && !Enqueuing(pc, v)
    ensures Tidy(s.To(i, pc), own)
  {
    var r := s.To(i, pc);
    if !s.finalized { PlainOrderly(s, own, i, pc); }
    forall t: nat | AtCas(r, t) ensures AtCas(s, t) {
      var k: nat :| k < |r.pcs| && r.pcs[k].EnqCas? && r.pcs[k].t == t;
      assert Enqueuing(r.pcs[k], t) && k != i;
      assert s.pcs[k].EnqCas? && s.pcs[k].t == t;
    }
  }

  lemma SealTidy(s: Ring, own: map<nat, nat>)
    requires Tidy(s, own) && s.finalizable
    ensures Tidy(s.(finalized := true), own)
  {
    var r := s.(finalized := true);
    forall t: nat | AtCas(r, t) ensures AtCas(s, t) {
      var k: nat :| k < |r.pcs| && r.pcs[k].EnqCas? && r.pcs[k].t == t;
    }
  }

  // ---------------------------------------------------------------- the threshold

  /** The enqueuer that inserted with ticket t has not seen to the threshold yet. */
  ghost predicate Unsettled(s: Ring, t: nat) {
    exists k: nat :: k < |s.pcs| && (s.pcs[k].EnqThreshold? || s.pcs[k].EnqStore?) && s.pcs[k].t == t
  }

  /** Every ticket before t and every dequeuer in flight may cost the threshold one. */
  predicate PaidTo(s: Ring, t: nat) { Trues(FlightFlags(s)) + t - s.head <= s.threshold }

  ghost predicate Paid(s: Ring) {
    forall t: nat :: Ahead(s, t) ==> Unsettled(s, t) || PaidTo(s, t)
  }

  function One(b: bool): nat { if b then 1 else 0 }

  /** What most steps do: they may cost the threshold one, if a dequeuer leaves the flight with it. */
  ghost predicate Saves(s: Ring, r: Ring, i: nat)
    requires i < |s.pcs| && i < |r.pcs|
  {
    && r.threshold - s.threshold >= One(IsInFlight(r.pcs[i])) - One(IsInFlight(s.pcs[i])) - (r.head - s.head)
    && s.head <= r.head
    && (s.pcs[i].EnqThreshold? || s.pcs[i].EnqStore? ==>
          (r.pcs[i].EnqThreshold? || r.pcs[i].EnqStore?) && r.pcs[i].t == s.pcs[i].t)
  }

  lemma FlightMove(s: Ring, r: Ring, i: nat)
    requires i < |s.pcs| && OnlyThread(s, r, i)
    ensures Trues(FlightFlags(r))
         == Trues(FlightFlags(s)) - One(IsInFlight(s.pcs[i])) + One(IsInFlight(r.pcs[i]))
  {
    TruesUpdate(FlightFlags(s), i, IsInFlight(r.pcs[i]));
    assert FlightFlags(r) == FlightFlags(s)[i := IsInFlight(r.pcs[i])];
  }

  lemma StillUnsettled(s: Ring, r: Ring, i: nat, t: nat)
    requires i < |s.pcs| && OnlyThread(s, r, i) && Saves(s, r, i) && Unsettled(s, t)
    ensures Unsettled(r, t)
  {
    var k: nat :| k < |s.pcs| && (s.pcs[k].EnqThreshold? || s.pcs[k].EnqStore?) && s.pcs[k].t == t;
    assert (r.pcs[k].EnqThreshold? || r.pcs[k].EnqStore?) && r.pcs[k].t == t;
  }

  lemma PaidStays(s: Ring, r: Ring, i: nat)
    requires i < |s.pcs| && OnlyThread(s, r, i) && Saves(s, r, i) && Paid(s)
    requires forall t: nat :: Ahead(r, t) ==> Ahead(s, t) || Unsettled(r, t)
    ensures Paid(r)
  {
    FlightMove(s, r, i);
    forall t: nat | Ahead(r, t) ensures Unsettled(r, t) || PaidTo(r, t) {
      if Unsettled(s, t) { StillUnsettled(s, r, i, t); }
    }
  }

  /** An enqueuer that leaves the threshold at its highest value pays for all entries at once. */
  lemma PaidBySet(s: Ring)
    requires Near(s) && Trues(FlightFlags(s)) <= s.half && s.threshold == Threshold3(s.half)
    ensures Paid(s)
  {
  }

  predicate Settles(s: Ring, i: nat)
    requires i < |s.pcs|
  {
    s.pcs[i].EnqStore? || (s.pcs[i].EnqThreshold? && s.threshold == Threshold3(s.half))
  }

  lemma EnqueueSaves(s: Ring, i: nat, weak: bool)
    requires s.Wf() && i < |s.pcs| && InEnqueue(s.pcs[i]) && !Settles(s, i)
    ensures Saves(s, StepThread(s, i, weak), i)
  {
  }

  lemma SlotSaves(s: Ring, i: nat, weak: bool)
    requires s.Wf() && i < |s.pcs| && (s.pcs[i].DeqLoad? || s.pcs[i].DeqTake? || s.pcs[i].DeqCas?)
    ensures Saves(s, StepThread(s, i, weak), i)
  {
    var pc := s.pcs[i];
    if pc.DeqLoad? {
      assert StepThread(s, i, weak) == StepDeqLoad(s, i, pc.h, pc.attempt);
    } else if pc.DeqTake? {
      assert StepThread(s, i, weak) == StepDeqTake(s, i, pc.h, pc.e);
    } else {
      assert StepThread(s, i, weak) == StepDeqCas(s, i, weak, pc.h, pc.attempt, pc.e, pc.new');
    }
  }

  lemma OtherSaves(s: Ring, i: nat, weak: bool)
    requires s.Wf() && i < |s.pcs| && !InEnqueue(s.pcs[i])
    requires !s.pcs[i].DeqLoad? && !s.pcs[i].DeqTake? && !s.pcs[i].DeqCas?
    ensures Saves(s, StepThread(s, i, weak), i)
  {
  }

  lemma StepSaves(s: Ring, i: nat, weak: bool)
    requires s.Wf() && i < |s.pcs| && !Settles(s, i)
    ensures Saves(s, StepThread(s, i, weak), i)
  {
    var pc := s.pcs[i];
    if InEnqueue(pc) {
      EnqueueSaves(s, i, weak);
    } else if pc.DeqLoad? || pc.DeqTake? || pc.DeqCas? {
      SlotSaves(s, i, weak);
    } else {
      OtherSaves(s, i, weak);
    }
  }

  /** A new entry is unsettled. */
  lemma AheadStep(s: Ring, i: nat, weak: bool)
    requires s.Wf() && Sound(s) && i < |s.pcs| && s.head <= StepThread(s, i, weak).head
    ensures var r := StepThread(s, i, weak); forall t: nat :: Ahead(r, t) ==> Ahead(s, t) || Unsettled(r, t)
  {
    var r := StepThread(s, i, weak);
    var f := StepDoes(s, i, weak);
    if f.Insertion? {
      assert r.pcs[i].EnqThreshold? && r.pcs[i].t == f.t;
    }
  }

  lemma SetPaid(s: Ring, i: nat, weak: bool)
    requires Near(s) && i < |s.pcs| && Settles(s, i) && Trues(FlightFlags(s)) <= s.half
    ensures Paid(StepThread(s, i, weak))
  {
    var r := StepThread(s, i, weak);
    FlightMove(s, r, i);
    forall t: nat | AtCas(r, t) ensures AtCas(s, t) {
      var k: nat :| k < |r.pcs| && r.pcs[k].EnqCas? && r.pcs[k].t == t;
      assert s.pcs[k].EnqCas? && s.pcs[k].t == t;
    }
    PaidBySet(r);
  }

  /** Every step keeps all entries paid for, provided that an enqueuer which sees to the threshold finds no
      more dequeuers in flight than half the slots. */
  lemma StepPaid(s: Ring, i: nat, weak: bool)
    requires Near(s) && Sound(s) && Paid(s) && i < |s.pcs|
    requires s.pcs[i].EnqThreshold? || s.pcs[i].EnqStore? ==> Trues(FlightFlags(s)) <= s.half
    ensures Paid(StepThread(s, i, weak))
  {
    if Settles(s, i) {
      SetPaid(s, i, weak);
    } else {
      StepSaves(s, i, weak);
      AheadStep(s, i, weak);
      PaidStays(s, StepThread(s, i, weak), i);
    }
  }

  lemma PlainPaid(s: Ring, i: nat, pc: Pc)
    requires Paid(s) && i < |s.pcs| && !IsInFlight(pc) && !s.pcs[i].EnqThreshold? && !s.pcs[i].EnqStore?
    ensures Paid(s.To(i, pc))
  {
    PaidStays(s, s.To(i, pc), i);
  }

  lemma FullPaid(half: nat, finalizable: bool, threads: nat)
    requires half >= 1
    ensures Paid(FullRing(half, finalizable, threads))
  {
    TruesBound(FlightFlags(FullRing(half, finalizable, threads)));
  }
}
