/** The drop of a bounded queue, on whatever state concurrent use left behind: which items it drops, and
    exactly when it drops them all. */
module BoundedDrop {
  import opened Tickets
  import opened Ring
  import opened RingInvariant
  import opened RingSolo
  import opened BoundedMachine
  import opened BoundedInvariant
  import opened BoundedTheorems
  import opened BoundedSolo

  // ---------------------------------------------------------------- tickets

  predicate Entry(inserted: map<nat, nat>, taken: map<nat, nat>, t: nat) { t in inserted && t !in taken }

  /** The tickets from `from` on, and before `to`, that have an entry. */
  function Entries(inserted: map<nat, nat>, taken: map<nat, nat>, from: nat, to: nat): seq<nat>
    decreases if from < to then to - from else 0
  {
    if from >= to then []
    else (if Entry(inserted, taken, from) then [from] else []) + Entries(inserted, taken, from + 1, to)
  }

  /** How many of them have none. */
  function Holes(inserted: map<nat, nat>, taken: map<nat, nat>, from: nat, to: nat): nat
    decreases if from < to then to - from else 0
  {
    if from >= to then 0
    else (if Entry(inserted, taken, from) then 0 else 1) + Holes(inserted, taken, from + 1, to)
  }

  /** The tickets that are reached with a threshold of `budget`, of which every ticket without an entry
      costs one. */
  function Reached(inserted: map<nat, nat>, taken: map<nat, nat>, from: nat, to: nat, budget: int): seq<nat>
    decreases if from < to then to - from else 0
  {
    if from >= to || budget < 0 then []
    else if Entry(inserted, taken, from) then [from] + Reached(inserted, taken, from + 1, to, budget)
    else Reached(inserted, taken, from + 1, to, budget - 1)
  }

  lemma {:induction false} EntriesMember(inserted: map<nat, nat>, taken: map<nat, nat>, from: nat, to: nat, t: nat)
    ensures t in Entries(inserted, taken, from, to) <==> from <= t < to && Entry(inserted, taken, t)
    decreases if from < to then to - from else 0
  {
    if from < to { EntriesMember(inserted, taken, from + 1, to, t); }
  }

  lemma {:induction false} LastEntry(inserted: map<nat, nat>, taken: map<nat, nat>, from: nat, to: nat)
    requires Entries(inserted, taken, from, to) != []
    ensures var all := Entries(inserted, taken, from, to);
            from <= all[|all| - 1] < to && Entry(inserted, taken, all[|all| - 1])
    decreases if from < to then to - from else 0
  {
    if Entries(inserted, taken, from + 1, to) != [] {
      LastEntry(inserted, taken, from + 1, to);
    }
  }

  /** There is no entry, or the tickets without one before the last entry are at most the budget. */
  predicate Suffices(inserted: map<nat, nat>, taken: map<nat, nat>, from: nat, to: nat, budget: int) {
    var all := Entries(inserted, taken, from, to);
    all == [] || Holes(inserted, taken, from, all[|all| - 1]) <= budget
  }

  /** All entries are reached if and only if the budget suffices. */
  lemma {:induction false} AllReached(inserted: map<nat, nat>, taken: map<nat, nat>, from: nat, to: nat, budget: int)
    ensures var all := Entries(inserted, taken, from, to);
            Reached(inserted, taken, from, to, budget) == all <==> Suffices(inserted, taken, from, to, budget)
    decreases if from < to then to - from else 0
  {
    var all := Entries(inserted, taken, from, to);
    if from < to {
      var rest := Entries(inserted, taken, from + 1, to);
      if rest != [] { LastEntry(inserted, taken, from + 1, to); }
      if Entry(inserted, taken, from) {
        AllReached(inserted, taken, from + 1, to, budget);
        assert all == [from] + rest;
        assert all[1..] == rest;
        if budget >= 0 {
          assert Reached(inserted, taken, from, to, budget)[1..] == Reached(inserted, taken, from + 1, to, budget);
        }
      } else {
        AllReached(inserted, taken, from + 1, to, budget - 1);
      }
    }
  }

  lemma {:induction false} ReachedPart(inserted: map<nat, nat>, taken: map<nat, nat>, from: nat, to: nat, budget: int)
    ensures Reached(inserted, taken, from, to, budget) <= Entries(inserted, taken, from, to)
    decreases if from < to then to - from else 0
  {
    if from < to {
      ReachedPart(inserted, taken, from + 1, to, if Entry(inserted, taken, from) then budget else budget - 1);
    }
  }

  /** A ticket before `from` does not matter. */
  lemma {:induction false} ReachedLater(inserted: map<nat, nat>, taken: map<nat, nat>, from: nat, to: nat, budget: int,
                                        t: nat, x: nat)
    requires t < from
    ensures Reached(inserted, taken[t := x], from, to, budget) == Reached(inserted, taken, from, to, budget)
    decreases if from < to then to - from else 0
  {
    if from < to {
      ReachedLater(inserted, taken, from + 1, to, budget, t, x);
      ReachedLater(inserted, taken, from + 1, to, budget - 1, t, x);
    }
  }

  /** The first entry is the first ticket reached, if the budget admits it, and otherwise none is. */
  lemma {:induction false} ReachedFirst(inserted: map<nat, nat>, taken: map<nat, nat>, from: nat, to: nat, budget: int)
    ensures Reached(inserted, taken, from, to, budget)
         == match FirstEntry(inserted, taken, from, to)
            case None => []
            case Some(t) =>
              if t - from <= budget then [t] + Reached(inserted, taken, t + 1, to, budget - (t - from)) else []
    decreases if from < to then to - from else 0
  {
    if from < to && !Entry(inserted, taken, from) { ReachedFirst(inserted, taken, from + 1, to, budget - 1); }
  }

  // ---------------------------------------------------------------- one dequeue of the drop

  /** A dequeue of thread i alone, up to its return: the steps that it needs at most. */
  function LoneDequeue(s: Ring, i: nat): (r: Ring)
    requires s.Wf() && i < |s.pcs|
    ensures SameShape(s, r)
  {
    Solo(BeginDequeue(s, i), i, if s.threshold < 0 then 1 else 16 * (s.threshold + 1) + 1)
  }

  lemma LoneDequeueAnswers(s: Ring, i: nat)
    requires s.Wf() && Sound(s) && i < |s.pcs| && s.pcs[i].Idle?
    ensures var r := LoneDequeue(s, i); Returned(r.pcs[i]) && Answered(s, r, i) && Sound(r.To(i, Idle))
  {
    var most: nat := if s.threshold < 0 then 1 else 16 * (s.threshold + 1) + 1;
    var s1 := BeginDequeue(s, i);
    var k := SoloReturns(s, i);
    SoloAppend(s1, i, k, most - k);
    SoloEnds(Solo(s1, i, k), i, most - k);
    var l := SoloAnswers(s, i);
    SameEnd(s1, i, most, l);
    ReturnSound(s, i, most);
  }

  lemma ReturnSound(s: Ring, i: nat, k: nat)
    requires s.Wf() && Sound(s) && i < |s.pcs| && s.pcs[i].Idle? && Returned(Solo(BeginDequeue(s, i), i, k).pcs[i])
    ensures Sound(Solo(BeginDequeue(s, i), i, k).To(i, Idle))
  {
    KeepBeginDequeue(s, i);
    SoloSound(BeginDequeue(s, i), i, k);
    KeepReturn(Solo(BeginDequeue(s, i), i, k), i);
  }

  // ---------------------------------------------------------------- the drop

  /** The tickets whose items a drop reaches. */
  function DropTickets<T>(s: Queue<T>): seq<nat> {
    Reached(s.alloc.log.inserted, s.alloc.log.taken, s.alloc.head, s.alloc.tail, s.alloc.threshold)
  }

  /** What is left to do of a drop: every entry still has its item in a cell of its own. */
  ghost predicate Rest<T>(s: Queue<T>, a: Ring, cells: seq<Option<T>>) {
    forall t :: Entry(a.log.inserted, a.log.taken, t) ==>
      && t in s.values && a.log.inserted[t] < |cells| && cells[a.log.inserted[t]] == Some(s.values[t])
  }

  /** No two entries have the same index. */
  ghost predicate Apart(a: Ring) {
    forall t, u :: Entry(a.log.inserted, a.log.taken, t) && Entry(a.log.inserted, a.log.taken, u) && t != u ==>
      a.log.inserted[t] != a.log.inserted[u]
  }

  /** The drop has taken the entries of the tickets `got`, which leaves ring a and cells. */
  ghost predicate Dropping<T>(s: Queue<T>, a: Ring, got: seq<nat>, dropped: seq<T>, cells: seq<Option<T>>) {
    var ins, out := s.alloc.log.inserted, s.alloc.log.taken;
    && a.log.inserted == ins && |cells| == |s.cells| && Rest(s, a, cells) && Apart(a)
    && got + Reached(ins, a.log.taken, a.head, a.tail, a.threshold) == DropTickets(s)
    && Drops(s.values, got, dropped)
    && Gone(ins, out, a.log.taken, got, cells)
  }

  /** The dropped items are those of the tickets `got`, in order. */
  ghost predicate Drops<T>(values: map<nat, T>, got: seq<nat>, dropped: seq<T>) {
    |dropped| == |got| && (forall j :: 0 <= j < |got| ==> got[j] in values && dropped[j] == values[got[j]])
  }

  lemma DropsNext<T>(values: map<nat, T>, got: seq<nat>, dropped: seq<T>, t: nat)
    requires Drops(values, got, dropped) && t in values
    ensures Drops(values, got + [t], dropped + [values[t]])
  {
  }

  /** Of the entries that were not out, exactly those of `got` have been taken, and their cells are empty. */
  ghost predicate Gone<T>(ins: map<nat, nat>, out: map<nat, nat>, taken: map<nat, nat>, got: seq<nat>,
                          cells: seq<Option<T>>) {
    && (forall t :: t in taken <==> t in out || t in got)
    && (forall t :: t in got ==> Entry(ins, out, t) && ins[t] < |cells| && cells[ins[t]] == None)
  }

  lemma GoneNext<T>(ins: map<nat, nat>, out: map<nat, nat>, taken: map<nat, nat>, got: seq<nat>,
                    cells: seq<Option<T>>, t: nat, x: nat)
    requires Gone(ins, out, taken, got, cells) && Entry(ins, taken, t) && x == ins[t] < |cells|
    ensures Gone(ins, out, taken[t := x], got + [t], cells[x := None])
  {
  }

  lemma NextTickets(a: Ring, b: Ring, i: nat)
    requires Answered(a, b, i) && Answer(a).DeqSome?
    ensures var t := Answer(a).h;
            && a.head <= t < a.tail && Entry(a.log.inserted, a.log.taken, t) && Answer(a).x == a.log.inserted[t]
            && Reached(a.log.inserted, a.log.taken, a.head, a.tail, a.threshold)
               == [t] + Reached(b.log.inserted, b.log.taken, b.head, b.tail, b.threshold)
  {
    var t := Answer(a).h;
    ReachedFirst(a.log.inserted, a.log.taken, a.head, a.tail, a.threshold);
    ReachedLater(a.log.inserted, a.log.taken, t + 1, a.tail, b.threshold, t, Answer(a).x);
  }

  lemma NextRest<T>(s: Queue<T>, a: Ring, b: Ring, cells: seq<Option<T>>, t: nat, x: nat)
    requires Rest(s, a, cells) && Apart(a) && Entry(a.log.inserted, a.log.taken, t) && x == a.log.inserted[t] < |cells|
    requires b.log.inserted == a.log.inserted && b.log.taken == a.log.taken[t := x]
    ensures Rest(s, b, cells[x := None]) && Apart(b)
  {
    forall u | Entry(b.log.inserted, b.log.taken, u)
      ensures u in s.values && b.log.inserted[u] < |cells| && cells[x := None][b.log.inserted[u]] == Some(s.values[u])
    {
      assert Entry(a.log.inserted, a.log.taken, u);
    }
    forall u, v | Entry(b.log.inserted, b.log.taken, u) && Entry(b.log.inserted, b.log.taken, v) && u != v
      ensures b.log.inserted[u] != b.log.inserted[v]
    {
      assert Entry(a.log.inserted, a.log.taken, u) && Entry(a.log.inserted, a.log.taken, v);
    }
  }

  lemma DropOne<T>(s: Queue<T>, a: Ring, b: Ring, i: nat, got: seq<nat>, dropped: seq<T>, cells: seq<Option<T>>)
    requires Dropping(s, a, got, dropped, cells) && Answered(a, b, i) && Answer(a).DeqSome?
    ensures var t, x := Answer(a).h, Answer(a).x;
            && t in s.values && x < |cells| && cells[x] == Some(s.values[t]) && a.head <= t < a.tail
            && Dropping(s, b.To(i, Idle), got + [t], dropped + [s.values[t]], cells[x := None])
  {
    var t, x := Answer(a).h, Answer(a).x;
    NextTickets(a, b, i);
    NextRest(s, a, b.To(i, Idle), cells, t, x);
    GoneNext(s.alloc.log.inserted, s.alloc.log.taken, a.log.taken, got, cells, t, x);
    DropsNext(s.values, got, dropped, t);
    assert got + ([t] + Reached(b.log.inserted, b.log.taken, b.head, b.tail, b.threshold))
        == got + [t] + Reached(b.log.inserted, b.log.taken, b.head, b.tail, b.threshold);
  }

  lemma DropEnds<T>(s: Queue<T>, a: Ring, got: seq<nat>, dropped: seq<T>, cells: seq<Option<T>>)
    requires Dropping(s, a, got, dropped, cells) && Answer(a).DeqNone?
    ensures got == DropTickets(s)
    ensures forall t :: Entry(s.alloc.log.inserted, s.alloc.log.taken, t) ==>
              && s.alloc.log.inserted[t] < |cells| && t in s.values
              && cells[s.alloc.log.inserted[t]] == if t in got then None else Some(s.values[t])
  {
    ReachedFirst(a.log.inserted, a.log.taken, a.head, a.tail, a.threshold);
    forall t | Entry(s.alloc.log.inserted, s.alloc.log.taken, t) && t !in got
      ensures Entry(a.log.inserted, a.log.taken, t) {}
  }

  /** The drop of a queue, by a thread that has it for itself; the ring is in the state in which concurrent
      use left it.  The items of the tickets it reaches are dropped, each once and in order. */
  method DropAll<T>(s: Queue<T>, i: nat) returns (dropped: seq<T>, cells: seq<Option<T>>)
    requires s.Wf() && Sound(s.alloc) && i < |s.pcs| && s.alloc.pcs[i].Idle?
    requires Rest(s, s.alloc, s.cells) && Apart(s.alloc)
    ensures Drops(s.values, DropTickets(s), dropped)
    ensures |cells| == |s.cells|
    ensures forall t :: Entry(s.alloc.log.inserted, s.alloc.log.taken, t) ==>
              && s.alloc.log.inserted[t] < |cells| && t in s.values
              && cells[s.alloc.log.inserted[t]] == if t in DropTickets(s) then None else Some(s.values[t])
  {
    var alloc := s.alloc;
    ghost var got: seq<nat> := [];
    dropped, cells := [], s.cells;
    while true
      invariant alloc.Wf() && Sound(alloc) && i < |alloc.pcs| && alloc.pcs[i].Idle?
      invariant Dropping(s, alloc, got, dropped, cells)
      decreases alloc.tail - alloc.head
    {
      ghost var was := alloc;
      LoneDequeueAnswers(alloc, i);
      alloc := LoneDequeue(alloc, i);
      if alloc.pcs[i].DeqNone? {
        DropEnds(s, was, got, dropped, cells);
        return;
      }
      DropOne(s, was, alloc, i, got, dropped, cells);
      var inner := alloc.pcs[i].x;
      got := got + [alloc.pcs[i].h];
      alloc := alloc.To(i, Idle);
      dropped := dropped + [cells[inner].value];
      cells := cells[inner := None];
    }
  }

  // ---------------------------------------------------------------- queues at rest

  /** With no operation in flight, a drop can begin, and every entry is ahead of it. */
  lemma ReadyToDrop<T(!new)>(s: Queue<T>, i: nat)
    requires QReachable(s) && i < |s.pcs| && forall j: nat :: j < |s.pcs| ==> s.pcs[j].QIdle?
    ensures s.Wf() && Sound(s.alloc) && s.alloc.pcs[i].Idle? && Rest(s, s.alloc, s.cells) && Apart(s.alloc)
    ensures forall t: nat :: Entry(s.alloc.log.inserted, s.alloc.log.taken, t) ==> s.alloc.head <= t < s.alloc.tail
    ensures forall x: nat :: x < |s.cells| && s.cells[x].Some? ==>
              exists t :: Entry(s.alloc.log.inserted, s.alloc.log.taken, t) && s.alloc.log.inserted[t] == x
  {
    var owner := QReachableInv(s);
    IsStocked(s, owner);
    forall j: nat | j < |s.pcs| ensures s.alloc.pcs[j].Idle? { assert Coupled(s, j); }
    EntriesApart(s, owner);
    AllAhead(s.alloc);
    forall x: nat | x < |s.cells| && s.cells[x].Some?
      ensures exists t :: Entry(s.alloc.log.inserted, s.alloc.log.taken, t) && s.alloc.log.inserted[t] == x
    {
      assert Stores(s, owner[x]) && PlaceOk(s, owner[x], x);
      var t := TicketIn(s.alloc, owner[x].j);
    }
  }

  lemma EntriesApart<T>(s: Queue<T>, owner: seq<Place>)
    requires QInv(s, owner)
    ensures Apart(s.alloc)
  {
    forall t, u | Entry(s.alloc.log.inserted, s.alloc.log.taken, t) && Entry(s.alloc.log.inserted, s.alloc.log.taken, u)
                  && t != u
      ensures s.alloc.log.inserted[t] != s.alloc.log.inserted[u]
    {
      SoundLive(s.alloc, t);
      SoundLive(s.alloc, u);
      TicketOfPos(t, s.alloc.N());
      TicketOfPos(u, s.alloc.N());
      assert owner[s.alloc.log.inserted[t]] == InAlloc(Pos(t, s.alloc.N()));
      assert owner[s.alloc.log.inserted[u]] == InAlloc(Pos(u, s.alloc.N()));
    }
  }

  lemma AllAhead(a: Ring)
    requires a.Wf() && Sound(a) && forall j: nat :: j < |a.pcs| ==> a.pcs[j].Idle?
    ensures forall t: nat :: Entry(a.log.inserted, a.log.taken, t) ==> a.head <= t < a.tail
  {
    Disclose(a);
    forall t: nat | Entry(a.log.inserted, a.log.taken, t) ensures a.head <= t < a.tail {
      assert LiveAt(a, t, a.log.inserted[t]);
      TicketOfPos(t, a.N());
      assert SlotOk(a, Pos(t, a.N()));
    }
  }

  /** The ticket of the entry in slot j. */
  lemma TicketIn(a: Ring, j: nat) returns (t: nat)
    requires a.Wf() && Sound(a) && j < a.N() && a.slots[j].entry.Some?
    ensures Entry(a.log.inserted, a.log.taken, t) && a.slots[j].entry == Some(a.log.inserted[t])
  {
    Disclose(a);
    assert SlotOk(a, j);
    t := Ticket(a.slots[j].cycle, j, a.N());
  }

  /** With no operation in flight, the drop drops every item if and only if there is none, or the tickets
      without an entry between head and the last entry are at most the threshold of the alloc ring. */
  lemma DropsAllIff<T(!new)>(s: Queue<T>, i: nat)
    requires QReachable(s) && i < |s.pcs| && forall j: nat :: j < |s.pcs| ==> s.pcs[j].QIdle?
    ensures var ins, out := s.alloc.log.inserted, s.alloc.log.taken;
            var all := Entries(ins, out, s.alloc.head, s.alloc.tail);
            && DropTickets(s) <= all && (forall t :: Entry(ins, out, t) <==> t in all)
            && (DropTickets(s) == all <==> Suffices(ins, out, s.alloc.head, s.alloc.tail, s.alloc.threshold))
  {
    var ins, out := s.alloc.log.inserted, s.alloc.log.taken;
    ReadyToDrop(s, i);
    ReachedPart(ins, out, s.alloc.head, s.alloc.tail, s.alloc.threshold);
    AllReached(ins, out, s.alloc.head, s.alloc.tail, s.alloc.threshold);
    var all := Entries(ins, out, s.alloc.head, s.alloc.tail);
    forall t: nat ensures Entry(ins, out, t) <==> t in all {
      EntriesMember(ins, out, s.alloc.head, s.alloc.tail, t);
    }
  }
}
