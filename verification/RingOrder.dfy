/** How far tail gets ahead of head, and what that means for the threshold.  In a ring that is used as the
    bounded queue uses it, with every index at most once in the ring or on its way into it, the tickets
    between head and tail are at most as many as there are slots. */
module RingOrder {
  import opened Tickets
  import opened Counting
  import opened Ring
  import opened RingInvariant
  import opened RingTheorems
  import opened RingEffects

  /** The thread is going to insert x. */
  predicate WillInsert(pc: Pc, x: nat) {
    (pc.EnqTicket? || pc.EnqLoad? || pc.EnqHead? || pc.EnqFinal? || pc.EnqCas?) && pc.x == x
  }

  /** No index is twice in the ring or on its way into it. */
  ghost predicate Distinct(s: Ring)
    requires s.Wf()
  {
    && (forall j: nat, k: nat :: j < s.N() && k < s.N() && s.slots[j].entry.Some? && j != k ==>
          s.slots[j].entry != s.slots[k].entry)
    && (forall i: nat, k: nat, x: nat :: i < |s.pcs| && k < |s.pcs| && WillInsert(s.pcs[i], x) && i != k ==>
          !WillInsert(s.pcs[k], x))
    && (forall j: nat, i: nat, x: nat :: j < s.N() && i < |s.pcs| && s.slots[j].entry == Some(x) ==>
          !WillInsert(s.pcs[i], x))
  }

  // ---------------------------------------------------------------- tickets between head and tail

  /** Some enqueuer holds tail ticket u and has not inserted yet. */
  ghost predicate Drawn(s: Ring, u: nat) {
    exists i: nat :: i < |s.pcs| && Enqueuing(s.pcs[i], u)
  }

  /** Ticket u has failed because index x was in its slot.  Since then x is there, or has left and goes only
      to tickets after u. */
  ghost predicate Owns(s: Ring, u: nat, x: nat)
    requires s.Wf()
  {
    && (forall j: nat :: j < s.N() && s.slots[j].entry == Some(x) && s.slots[j].cycle >= 0 ==>
          var w := Ticket(s.slots[j].cycle, j, s.N());
          (j == Pos(u, s.N()) && w < u) || w > u)
    && (forall i: nat, v: nat :: i < |s.pcs| && Enqueuing(s.pcs[i], v) && s.pcs[i].x == x ==> v > u)
  }

  predicate InWindow(s: Ring, u: nat) { s.head <= u < s.tail }

  /** Every ticket between head and tail has an entry, is held by an enqueuer, or has failed because of an
      index that belongs to no other failed ticket; `own` says which. */
  ghost predicate Orderly(s: Ring, own: map<nat, nat>) {
    && s.Wf() && s.tail <= s.head + s.N()
    && (forall u: nat :: InWindow(s, u) ==> u in s.log.inserted || Drawn(s, u) || u in own)
    && (forall u: nat :: InWindow(s, u) && u in own ==> own[u] < s.half && Owns(s, u, own[u]))
    && (forall u: nat, v: nat :: InWindow(s, u) && InWindow(s, v) && u in own && v in own && u != v ==>
          own[u] != own[v])
  }

  // ---------------------------------------------------------------- how many there are

  /** The index that a ticket of the window stands for, plus `half` if the ticket has failed. */
  ghost function Code(s: Ring, own: map<nat, nat>, u: nat): nat
    requires Orderly(s, own) && InWindow(s, u)
  {
    if u in s.log.inserted then s.log.inserted[u]
    else if Drawn(s, u) then var i: nat :| i < |s.pcs| && Enqueuing(s.pcs[i], u); s.pcs[i].x
    else s.half + own[u]
  }

  /** What Code says of a ticket. */
  lemma CodeMeans(s: Ring, own: map<nat, nat>, u: nat)
    requires Sound(s) && Orderly(s, own) && InWindow(s, u)
    ensures var x := Code(s, own, u);
            && (u in s.log.inserted ==> x < s.half && LiveAt(s, u, x))
            && (u !in s.log.inserted && Drawn(s, u) ==>
                  x < s.half && exists i: nat :: i < |s.pcs| && Enqueuing(s.pcs[i], u) && s.pcs[i].x == x)
            && (u !in s.log.inserted && !Drawn(s, u) ==> u in own && x == s.half + own[u] < 2 * s.half)
  {
    Disclose(s);
    if u !in s.log.inserted && Drawn(s, u) {
      var i: nat :| i < |s.pcs| && Enqueuing(s.pcs[i], u) && s.pcs[i].x == Code(s, own, u);
      assert PcOk(s, i);
    }
  }

  /** Index x is in the slot of ticket u, or with the enqueuer of ticket u. */
  ghost predicate Stands(s: Ring, u: nat, x: nat)
    requires s.Wf()
  {
    LiveAt(s, u, x) || exists i: nat :: i < |s.pcs| && Enqueuing(s.pcs[i], u) && s.pcs[i].x == x
  }

  lemma StandsOnce(s: Ring, u: nat, v: nat, x: nat)
    requires s.Wf() && Distinct(s) && Stands(s, u, x) && Stands(s, v, x)
    ensures u == v
  {
    TicketOfPos(u, s.N());
    TicketOfPos(v, s.N());
    if LiveAt(s, u, x) {
      assert LiveAt(s, v, x);
    } else {
      var i: nat :| i < |s.pcs| && Enqueuing(s.pcs[i], u) && s.pcs[i].x == x;
      var k: nat :| k < |s.pcs| && Enqueuing(s.pcs[k], v) && s.pcs[k].x == x;
      assert WillInsert(s.pcs[i], x) && WillInsert(s.pcs[k], x);
    }
  }

  lemma CodesDiffer(s: Ring, own: map<nat, nat>, u: nat, v: nat)
    requires Sound(s) && Orderly(s, own) && Distinct(s) && InWindow(s, u) && InWindow(s, v) && u != v
    ensures Code(s, own, u) != Code(s, own, v)
  {
    CodeMeans(s, own, u);
    CodeMeans(s, own, v);
    if Code(s, own, u) == Code(s, own, v) < s.half { StandsOnce(s, u, v, Code(s, own, u)); }
  }

  lemma StandsNot(s: Ring, u: nat, i: nat, x: nat)
    requires s.Wf() && Distinct(s) && i < |s.pcs| && WillInsert(s.pcs[i], x) && !Enqueuing(s.pcs[i], u)
    ensures !Stands(s, u, x)
  {
    if k: nat :| k < |s.pcs| && Enqueuing(s.pcs[k], u) && s.pcs[k].x == x {
      assert WillInsert(s.pcs[k], x);
      assert false;
    }
  }

  lemma CodeIsNot(s: Ring, own: map<nat, nat>, u: nat, i: nat, x: nat)
    requires Sound(s) && Orderly(s, own) && Distinct(s) && InWindow(s, u)
    requires i < |s.pcs| && s.pcs[i] == EnqTicket(x) && x < s.half
    ensures Code(s, own, u) != x
  {
    CodeMeans(s, own, u);
    StandsNot(s, u, i, x);
  }

  ghost function Codes(s: Ring, own: map<nat, nat>): seq<nat>
    requires Orderly(s, own) && s.head <= s.tail
  {
    seq<nat>(s.tail - s.head, k requires 0 <= k < s.tail - s.head => Code(s, own, s.head + k))
  }

  /** While an enqueuer is about to draw a ticket, there are fewer tickets than slots. */
  lemma RoomForTicket(s: Ring, own: map<nat, nat>, i: nat, x: nat)
    requires Sound(s) && Orderly(s, own) && Distinct(s)
    requires i < |s.pcs| && s.pcs[i] == EnqTicket(x) && x < s.half
    ensures s.tail < s.head + s.N()
  {
    if s.head < s.tail {
      var codes := Codes(s, own);
      forall k | 0 <= k < |codes| ensures codes[k] < s.N() && codes[k] != x {
        CodeMeans(s, own, s.head + k);
        CodeIsNot(s, own, s.head + k, i, x);
      }
      forall k, l | 0 <= k < l < |codes| ensures codes[k] != codes[l] {
        CodesDiffer(s, own, s.head + k, s.head + l);
      }
      FewCodes(codes, s.N(), x);
    }
  }

  /** Different numbers below n, of which x is none, are less than n. */
  lemma FewCodes(codes: seq<nat>, n: nat, x: nat)
    requires x < n && forall k :: 0 <= k < |codes| ==> codes[k] < n && codes[k] != x
    requires forall k, l :: 0 <= k < l < |codes| ==> codes[k] != codes[l]
    ensures |codes| < n
  {
    var all := seq(n, _ => true);
    TruesUpdate(all, x, false);
    TruesBound(all);
    Pigeons(all[x := false], codes);
  }

  // ---------------------------------------------------------------- what a step leaves in order

  /** The entries of r are those of s, but for one that thread i has put in with its ticket. */
  ghost predicate EntriesFrom(s: Ring, r: Ring, i: nat)
    requires s.Wf() && i < |s.pcs|
  {
    && SameShape(s, r)
    && forall j: nat :: j < s.N() && r.slots[j].entry.Some? && r.slots[j].cycle >= 0 ==>
         || (r.slots[j].entry == s.slots[j].entry && r.slots[j].cycle == s.slots[j].cycle)
         || (Enqueuing(s.pcs[i], Ticket(r.slots[j].cycle, j, s.N())) && Some(s.pcs[i].x) == r.slots[j].entry)
  }

  /** Thread i draws no tail ticket, and holds no new one. */
  ghost predicate NoDraw(s: Ring, r: Ring, i: nat)
    requires i < |s.pcs| && i < |r.pcs|
  {
    && s.head <= r.head && r.tail == s.tail
    && (forall t :: t in s.log.inserted ==> t in r.log.inserted)
    && (forall v: nat :: Enqueuing(r.pcs[i], v) ==> Enqueuing(s.pcs[i], v) && r.pcs[i].x == s.pcs[i].x)
  }

  /** The ticket that thread i held is still held, or has been used, or has failed. */
  ghost predicate Accounted(s: Ring, r: Ring, i: nat, own: map<nat, nat>)
    requires i < |s.pcs| && i < |r.pcs|
  {
    forall v: nat :: InWindow(r, v) && Enqueuing(s.pcs[i], v) ==>
      Enqueuing(r.pcs[i], v) || v in r.log.inserted || v in own
  }

  lemma OwnsStays(s: Ring, r: Ring, i: nat, u: nat, x: nat)
    requires s.Wf() && i < |s.pcs| && OnlyThread(s, r, i) && EntriesFrom(s, r, i) && NoDraw(s, r, i) && Owns(s, u, x)
    ensures Owns(r, u, x)
  {
    forall k: nat, v: nat | k < |r.pcs| && Enqueuing(r.pcs[k], v) && r.pcs[k].x == x ensures v > u {
      assert Enqueuing(s.pcs[k], v) && s.pcs[k].x == x;
    }
  }

  lemma OrderlyStays(s: Ring, r: Ring, i: nat, own: map<nat, nat>)
    requires Orderly(s, own) && i < |s.pcs| && OnlyThread(s, r, i) && EntriesFrom(s, r, i) && NoDraw(s, r, i)
    requires Accounted(s, r, i, own)
    ensures Orderly(r, own)
  {
    forall u: nat | InWindow(r, u) ensures u in r.log.inserted || Drawn(r, u) || u in own {
      assert InWindow(s, u);
      if u !in s.log.inserted && u !in own {
        var k: nat :| k < |s.pcs| && Enqueuing(s.pcs[k], u);
        assert k != i ==> Enqueuing(r.pcs[k], u);
      }
    }
    forall u: nat | InWindow(r, u) && u in own ensures own[u] < r.half && Owns(r, u, own[u]) {
      OwnsStays(s, r, i, u, own[u]);
    }
  }

  /** The draw of a tail ticket. */
  lemma OrderlyDraw(s: Ring, i: nat, x: nat, own: map<nat, nat>)
    requires Orderly(s, own) && i < |s.pcs| && s.pcs[i] == EnqTicket(x) && s.tail < s.head + s.N()
    ensures Orderly(StepEnqTicket(s, i, x), Without(own, s.tail))
  {
    var r, own' := StepEnqTicket(s, i, x), Without(own, s.tail);
    forall u: nat | InWindow(r, u) ensures u in r.log.inserted || Drawn(r, u) || u in own' {
      if u == s.tail {
        assert Enqueuing(r.pcs[i], u);
      } else if u !in s.log.inserted && u !in own {
        var k: nat :| k < |s.pcs| && Enqueuing(s.pcs[k], u);
        assert Enqueuing(r.pcs[k], u);
      }
    }
    forall u: nat | InWindow(r, u) && u in own' ensures own'[u] < r.half && Owns(r, u, own'[u]) {
      assert Owns(s, u, own[u]);
    }
  }

  function Without(own: map<nat, nat>, u: nat): map<nat, nat> { map v | v in own && v != u :: own[v] }

  // ---------------------------------------------------------------- a ticket that fails

  /** When the slot test of ticket u fails, and head has not passed u, then the slot holds an entry of an
      earlier ticket that is overtaken by head. */
  lemma WhyFailed(s: Ring, i: nat, u: nat)
    requires Sound(s) && s.Wf() && s.tail <= s.head + s.N() && InWindow(s, u)
    requires i < |s.pcs| && s.pcs[i].EnqLoad? && s.pcs[i].t == u
    requires !(s.At(u).cycle < Cycle(u, s.N()) && s.At(u).entry.None?)
    ensures s.At(u).entry.Some? && s.At(u).entry.value < s.half && 0 <= s.At(u).cycle
    ensures Ticket(s.At(u).cycle, Pos(u, s.N()), s.N()) < s.head
  {
    Disclose(s);
    var j := Pos(u, s.N());
    assert SlotOk(s, j) && PcOk(s, i);
    if s.At(u).cycle >= 0 {
      var w := Ticket(s.At(u).cycle, j, s.N());
      PosOfTicket(s.At(u).cycle, j, s.N());
      if w < u {
        SameSlotApart(w, u, s.N());
      } else if w > u {
        SameSlotApart(u, w, s.N());
      }
      if w < u { CycleOrder(w, u, s.N()); } else if w > u { CycleOrder(u, w, s.N()); }
    }
  }

  lemma BurnOwns(s: Ring, i: nat, u: nat, y: nat)
    requires s.Wf() && Distinct(s) && InWindow(s, u) && s.At(u).entry == Some(y) && 0 <= s.At(u).cycle
    requires Ticket(s.At(u).cycle, Pos(u, s.N()), s.N()) < s.head
    ensures Owns(s, u, y)
  {
    if k: nat, v: nat :| k < |s.pcs| && Enqueuing(s.pcs[k], v) && s.pcs[k].x == y {
      assert WillInsert(s.pcs[k], y);
      assert false;
    }
  }

  /** No other ticket has failed because of the same index. */
  lemma BurnApart(s: Ring, own: map<nat, nat>, u: nat, y: nat, v: nat)
    requires Orderly(s, own) && InWindow(s, u) && s.At(u).entry == Some(y) && 0 <= s.At(u).cycle
    requires Ticket(s.At(u).cycle, Pos(u, s.N()), s.N()) < s.head
    requires InWindow(s, v) && v in own && v != u
    ensures own[v] != y
  {
    if own[v] == y {
      assert Owns(s, v, y);
      if v < u { SameSlotApart(v, u, s.N()); } else { SameSlotApart(u, v, s.N()); }
    }
  }

  lemma OrderlyBurn(s: Ring, own: map<nat, nat>, i: nat, u: nat) returns (own': map<nat, nat>)
    requires Sound(s) && Orderly(s, own) && Distinct(s) && InWindow(s, u)
    requires i < |s.pcs| && s.pcs[i].EnqLoad? && s.pcs[i].t == u
    requires !(s.At(u).cycle < Cycle(u, s.N()) && s.At(u).entry.None?)
    ensures Orderly(s, own') && u in own'
  {
    WhyFailed(s, i, u);
    var y := s.At(u).entry.value;
    own' := own[u := y];
    BurnOwns(s, i, u, y);
    forall v: nat, w: nat | InWindow(s, v) && InWindow(s, w) && v in own' && w in own' && v != w
      ensures own'[v] != own'[w]
    {
      if v == u { BurnApart(s, own, u, y, w); } else if w == u { BurnApart(s, own, u, y, v); }
    }
  }

  // ---------------------------------------------------------------- every step

  lemma EntriesOfStep(s: Ring, i: nat, weak: bool)
    requires s.Wf() && Sound(s) && i < |s.pcs|
    ensures EntriesFrom(s, StepThread(s, i, weak), i)
  {
    var f := StepDoes(s, i, weak);
    if f.Insertion? { TicketOfPos(f.t, s.N()); }
  }

  lemma EnqueueNoDraw(s: Ring, i: nat, weak: bool)
    requires s.Wf() && i < |s.pcs| && InEnqueue(s.pcs[i]) && !s.pcs[i].EnqTicket?
    ensures NoDraw(s, StepThread(s, i, weak), i)
  {
  }

  lemma SlotNoDraw(s: Ring, i: nat, weak: bool)
    requires s.Wf() && i < |s.pcs| && (s.pcs[i].DeqLoad? || s.pcs[i].DeqTake? || s.pcs[i].DeqCas?)
    ensures NoDraw(s, StepThread(s, i, weak), i)
  {
    EdgeSlot(s, i, weak);
    var pc := s.pcs[i];
    if pc.DeqLoad? {
      assert StepThread(s, i, weak) == StepDeqLoad(s, i, pc.h, pc.attempt);
    } else if pc.DeqTake? {
      assert StepThread(s, i, weak) == StepDeqTake(s, i, pc.h, pc.e);
    } else {
      assert StepThread(s, i, weak) == StepDeqCas(s, i, weak, pc.h, pc.attempt, pc.e, pc.new');
    }
  }

  lemma OtherNoDraw(s: Ring, i: nat, weak: bool)
    requires s.Wf() && i < |s.pcs| && !InEnqueue(s.pcs[i])
    requires !s.pcs[i].DeqLoad? && !s.pcs[i].DeqTake? && !s.pcs[i].DeqCas?
    requires s.pcs[i].CatchCas? ==> weak || s.tail != s.pcs[i].tl
    ensures NoDraw(s, StepThread(s, i, weak), i)
  {
  }

  lemma DequeueOrderly(s: Ring, own: map<nat, nat>, i: nat, weak: bool)
    requires s.Wf() && Sound(s) && Orderly(s, own) && i < |s.pcs| && !InEnqueue(s.pcs[i])
    requires s.pcs[i].CatchCas? ==> weak || s.tail != s.pcs[i].tl
    ensures Orderly(StepThread(s, i, weak), own)
  {
    var pc := s.pcs[i];
    EntriesOfStep(s, i, weak);
    if pc.DeqLoad? || pc.DeqTake? || pc.DeqCas? {
      SlotNoDraw(s, i, weak);
    } else {
      OtherNoDraw(s, i, weak);
    }
    OrderlyStays(s, StepThread(s, i, weak), i, own);
  }

  /** A catch-up leaves no ticket between head and tail. */
  lemma CatchUpOrderly(s: Ring, own: map<nat, nat>, i: nat)
    requires s.Wf() && Sound(s) && i < |s.pcs| && s.pcs[i].CatchCas? && s.tail == s.pcs[i].tl
    ensures Orderly(StepThread(s, i, false), own)
  {
    Disclose(s);
    assert PcOk(s, i);
  }

  lemma EnqueueAccounted(s: Ring, own: map<nat, nat>, i: nat, weak: bool)
    requires s.Wf() && i < |s.pcs| && InEnqueue(s.pcs[i]) && !s.pcs[i].EnqTicket? && !s.finalized
    requires s.pcs[i].EnqLoad? && InWindow(s, s.pcs[i].t) ==>
               s.pcs[i].t in own
               || (s.At(s.pcs[i].t).cycle < Cycle(s.pcs[i].t, s.N()) && s.At(s.pcs[i].t).entry.None?)
    ensures Accounted(s, StepThread(s, i, weak), i, own)
  {
  }

  lemma EnqueueOrderly(s: Ring, own: map<nat, nat>, i: nat, weak: bool) returns (own': map<nat, nat>)
    requires s.Wf() && Sound(s) && Orderly(s, own) && Distinct(s) && !s.finalized
    requires i < |s.pcs| && InEnqueue(s.pcs[i]) && !s.pcs[i].EnqTicket?
    ensures Orderly(StepThread(s, i, weak), own')
  {
    own' := own;
    var pc := s.pcs[i];
    if pc.EnqLoad? && InWindow(s, pc.t) && !(s.At(pc.t).cycle < Cycle(pc.t, s.N()) && s.At(pc.t).entry.None?) {
      own' := OrderlyBurn(s, own, i, pc.t);
    }
    EntriesOfStep(s, i, weak);
    EnqueueNoDraw(s, i, weak);
    EnqueueAccounted(s, own', i, weak);
    OrderlyStays(s, StepThread(s, i, weak), i, own');
  }

  lemma TicketOrderly(s: Ring, own: map<nat, nat>, i: nat) returns (own': map<nat, nat>)
    requires s.Wf() && Sound(s) && Orderly(s, own) && Distinct(s) && i < |s.pcs| && s.pcs[i].EnqTicket?
    ensures Orderly(StepThread(s, i, false), own')
  {
    var x := s.pcs[i].x;
    InRange(s, i);
    RoomForTicket(s, own, i, x);
    OrderlyDraw(s, i, x, own);
    own' := Without(own, s.tail);
  }

  lemma InRange(s: Ring, i: nat)
    requires Sound(s) && i < |s.pcs| && s.pcs[i].EnqTicket?
    ensures s.pcs[i].x < s.half
  {
    Disclose(s);
    assert PcOk(s, i);
  }

  /** Every step of a ring that is not finalized keeps order. */
  lemma StepOrderly(s: Ring, own: map<nat, nat>, i: nat, weak: bool) returns (own': map<nat, nat>)
    requires s.Wf() && Sound(s) && Orderly(s, own) && Distinct(s) && !s.finalized && i < |s.pcs|
    ensures Orderly(StepThread(s, i, weak), own')
  {
    own' := own;
    var pc := s.pcs[i];
    if pc.EnqTicket? {
      own' := TicketOrderly(s, own, i);
      assert StepThread(s, i, weak) == StepThread(s, i, false);
    } else if InEnqueue(pc) {
      own' := EnqueueOrderly(s, own, i, weak);
    } else if pc.CatchCas? && !weak && s.tail == pc.tl {
      CatchUpOrderly(s, own, i);
    } else {
      DequeueOrderly(s, own, i, weak);
    }
  }

  /** A call, or a return. */
  lemma PlainOrderly(s: Ring, own: map<nat, nat>, i: nat, pc: Pc)
    requires Orderly(s, own) && i < |s.pcs|
    requires forall v: nat :: !Enqueuing(s.pcs[i], v) && !Enqueuing(pc, v)
    ensures Orderly(s.To(i, pc), own)
  {
    OrderlyStays(s, s.To(i, pc), i, own);
  }

  lemma EmptyOrderly(half: nat, finalizable: bool, threads: nat)
    requires half >= 1
    ensures Orderly(EmptyRing(half, finalizable, threads), map[])
  {
  }

  lemma FullOrderly(half: nat, finalizable: bool, threads: nat)
    requires half >= 1
    ensures Orderly(FullRing(half, finalizable, threads), map[])
  {
  }
}
