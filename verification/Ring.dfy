/** The SCQ index ring as a step machine.

    Any number of threads work on one ring.  Every atomic load, store, fetch_add,
    fetch_or or compare-exchange of `enqueue`, `dequeue` and `catchup` is one step; the
    local computation up to the next atomic access belongs to the step before it.
    Memory is sequentially consistent.  `weak` on a step says that a
    compare_exchange_weak fails spuriously.  A slot is the record that its word encodes
    (Words.dfy relates the two), and tickets do not wrap. */
module Ring {
  import opened Tickets

  datatype Option<+T> = None | Some(value: T)

  /** A slot: the cycle it was last written for, its safe bit, and its index or ⊥ (None). */
  datatype Slot = Slot(cycle: int, safe: bool, entry: Option<nat>)

  datatype RingError = IndexLargerThanOrder | QueueFinalized

  /** Where a thread stands.  A step executes the atomic access that its counter names.
      `x` is the index being enqueued, `t` a tail ticket, `h` a head ticket, `e` the slot
      as it was last loaded. */
  datatype Pc =
    | Idle
      // enqueue
    | EnqTicket(x: nat)
    | EnqLoad(x: nat, t: nat)
    | EnqHead(x: nat, t: nat, e: Slot)
    | EnqFinal(x: nat, t: nat, e: Slot)
    | EnqCas(x: nat, t: nat, e: Slot)
    | EnqThreshold(x: nat, t: nat)
    | EnqStore(x: nat, t: nat)
    | EnqOk(x: nat, t: nat)
    | EnqErr(x: nat, error: RingError)
      // dequeue
    | DeqCheck
    | DeqTicket
    | DeqLoad(h: nat, attempt: nat)
    | DeqTake(h: nat, e: Slot)
    | DeqCas(h: nat, attempt: nat, e: Slot, new': Slot)
    | DeqTail(h: nat)
    | CatchCas(h: nat, tl: nat, hd: nat)
    | CatchHead(h: nat)
    | CatchTail(h: nat, hd: nat)
    | DeqEmpty(h: nat)
    | DeqRound(h: nat)
    | DeqSome(h: nat, x: nat)
    | DeqNone

  /** What happened so far; no step depends on it.  `deqBy[h]` is the thread that took head
      ticket h and `enqBy[t]` the one that took tail ticket t; `left` holds the head tickets
      whose thread has left its slot for good; `inserted` and `taken` map a ticket to the
      index that was put in, or taken out, with it. */
  datatype History = History(deqBy: seq<nat>, left: set<nat>, enqBy: map<nat, nat>,
                             inserted: map<nat, nat>, taken: map<nat, nat>)

  datatype Ring = Ring(half: nat, finalizable: bool, finalized: bool, head: nat, tail: nat,
                       threshold: int, slots: seq<Slot>, pcs: seq<Pc>, log: History)
  {
    function N(): nat { 2 * half }

    predicate Wf() { half >= 1 && |slots| == N() }

    /** The slot of ticket t. */
    function At(t: nat): Slot
      requires Wf()
    {
      slots[Pos(t, N())]
    }

    function To(i: nat, pc: Pc): Ring
      requires i < |pcs|
    {
      this.(pcs := pcs[i := pc])
    }

    function Write(t: nat, slot: Slot): Ring
      requires Wf()
    {
      this.(slots := slots[Pos(t, N()) := slot])
    }

    function Leave(h: nat): Ring {
      this.(log := log.(left := log.left + {h}))
    }
  }

  /** No action changes the size of a ring, its mode or the number of its threads. */
  predicate SameShape(s: Ring, r: Ring) {
    r.half == s.half && |r.slots| == |s.slots| && |r.pcs| == |s.pcs| && r.finalizable == s.finalizable
  }

  /** A step of thread i moves no other thread. */
  predicate OnlyThread(s: Ring, r: Ring, i: nat) {
    SameShape(s, r) && i < |s.pcs| && r.pcs == s.pcs[i := r.pcs[i]]
  }

  /** lfring_threshold3: three times the capacity, less one. */
  function Threshold3(half: nat): int { half + 2 * half - 1 }

  const EMPTY_HISTORY := History([], {}, map[], map[], map[])

  function EmptyRing(half: nat, finalizable: bool, threads: nat): Ring {
    Ring(half, finalizable, false, 0, 0, -1, seq(2 * half, _ => Slot(-1, true, None)),
         seq(threads, _ => Idle), EMPTY_HISTORY)
  }

  function FullRing(half: nat, finalizable: bool, threads: nat): Ring {
    Ring(half, finalizable, false, 0, half, Threshold3(half),
         seq(2 * half, (j: nat) => if j < half then Slot(0, true, Some(j)) else Slot(-1, true, None)),
         seq(threads, _ => Idle),
         EMPTY_HISTORY.(inserted := FirstEntries(half)))
  }

  /** Tickets 0, 1, ..., k - 1, each with its own number as index. */
  function FirstEntries(k: nat): (m: map<nat, nat>)
    ensures forall t: nat :: t in m <==> t < k
    ensures forall t: nat | t in m :: m[t] == t
  {
    if k == 0 then map[] else FirstEntries(k - 1)[k - 1 := k - 1]
  }

  // ---------------------------------------------------------------- enqueue

  function StepEnqTicket(s: Ring, i: nat, x: nat): (r: Ring)
    requires i < |s.pcs|
    ensures OnlyThread(s, r, i)
  {
    s.(tail := s.tail + 1, log := s.log.(enqBy := s.log.enqBy[s.tail := i])).To(i, EnqLoad(x, s.tail))
  }

  /** The slot and head tests passed: only a finalizable ring looks at its flag. */
  function Admitted(s: Ring, x: nat, t: nat, e: Slot): Pc {
    if s.finalizable then EnqFinal(x, t, e) else EnqCas(x, t, e)
  }

  function StepEnqLoad(s: Ring, i: nat, x: nat, t: nat): (r: Ring)
    requires s.Wf() && i < |s.pcs|
    ensures OnlyThread(s, r, i)
  {
    var e := s.At(t);
    s.To(i,
         if e.cycle < Cycle(t, s.N()) && e.entry.None? then
           if e.safe then Admitted(s, x, t, e) else EnqHead(x, t, e)
         else
           EnqTicket(x))
  }

  function StepEnqHead(s: Ring, i: nat, x: nat, t: nat, e: Slot): (r: Ring)
    requires i < |s.pcs|
    ensures OnlyThread(s, r, i)
  {
    s.To(i, if s.head <= t then Admitted(s, x, t, e) else EnqTicket(x))
  }

  function StepEnqFinal(s: Ring, i: nat, x: nat, t: nat, e: Slot): (r: Ring)
    requires i < |s.pcs|
    ensures OnlyThread(s, r, i)
  {
    s.To(i, if s.finalized then EnqErr(x, QueueFinalized) else EnqCas(x, t, e))
  }

  function StepEnqCas(s: Ring, i: nat, weak: bool, x: nat, t: nat, e: Slot): (r: Ring)
    requires s.Wf() && i < |s.pcs|
    ensures OnlyThread(s, r, i)
  {
    if !weak && s.At(t) == e then
      s.(log := s.log.(inserted := s.log.inserted[t := x]))
       .Write(t, Slot(Cycle(t, s.N()), true, Some(x)))
       .To(i, EnqThreshold(x, t))
    else
      s.To(i, EnqLoad(x, t))
  }

  function StepEnqThreshold(s: Ring, i: nat, x: nat, t: nat): (r: Ring)
    requires i < |s.pcs|
    ensures OnlyThread(s, r, i)
  {
    s.To(i, if s.threshold != Threshold3(s.half) then EnqStore(x, t) else EnqOk(x, t))
  }

  function StepEnqStore(s: Ring, i: nat, x: nat, t: nat): (r: Ring)
    requires i < |s.pcs|
    ensures OnlyThread(s, r, i)
  {
    s.(threshold := Threshold3(s.half)).To(i, EnqOk(x, t))
  }

  // ---------------------------------------------------------------- dequeue

  function StepDeqCheck(s: Ring, i: nat): (r: Ring)
    requires i < |s.pcs|
    ensures OnlyThread(s, r, i)
  {
    s.To(i, if s.threshold < 0 then DeqNone else DeqTicket)
  }

  function StepDeqTicket(s: Ring, i: nat): (r: Ring)
    requires i < |s.pcs|
    ensures OnlyThread(s, r, i)
  {
    s.(head := s.head + 1, log := s.log.(deqBy := s.log.deqBy + [i])).To(i, DeqLoad(s.head, 0))
  }

  function StepDeqLoad(s: Ring, i: nat, h: nat, attempt: nat): (r: Ring)
    requires s.Wf() && i < |s.pcs|
    ensures OnlyThread(s, r, i)
  {
    var e := s.At(h);
    var c := Cycle(h, s.N());
    if e.cycle == c then
      s.To(i, DeqTake(h, e))
    else if e.entry.Some? then
      // mark the slot unsafe, unless it is already, or is of a later cycle
      if e.safe && e.cycle < c then
        s.To(i, DeqCas(h, attempt, e, e.(safe := false)))
      else
        s.Leave(h).To(i, DeqTail(h))
    else if attempt + 1 <= 10 then
      s.To(i, DeqLoad(h, attempt + 1))
    else if e.cycle < c then
      // advance the empty slot to this cycle, keeping its safe bit
      s.To(i, DeqCas(h, attempt + 1, e, Slot(c, e.safe, None)))
    else
      s.Leave(h).To(i, DeqTail(h))
  }

  /** The index bits of a word; ⊥ reads as all ones. */
  function IndexBits(s: Ring, e: Slot): int {
    match e.entry case Some(x) => x case None => s.N() - 1
  }

  function StepDeqTake(s: Ring, i: nat, h: nat, e: Slot): (r: Ring)
    requires s.Wf() && i < |s.pcs|
    ensures OnlyThread(s, r, i)
  {
    var x := IndexBits(s, e);
    s.Leave(h)
     .(log := s.log.(left := s.log.left + {h}, taken := s.log.taken[h := x]))
     .Write(h, s.At(h).(entry := None))
     .To(i, DeqSome(h, x))
  }

  function StepDeqCas(s: Ring, i: nat, weak: bool, h: nat, attempt: nat, e: Slot, new': Slot): (r: Ring)
    requires s.Wf() && i < |s.pcs|
    ensures OnlyThread(s, r, i)
  {
    if !weak && s.At(h) == e then
      s.Leave(h).Write(h, new').To(i, DeqTail(h))
    else
      s.To(i, DeqLoad(h, attempt))
  }

  function StepDeqTail(s: Ring, i: nat, h: nat): (r: Ring)
    requires i < |s.pcs|
    ensures OnlyThread(s, r, i)
  {
    s.To(i, if s.tail <= h + 1 then CatchCas(h, s.tail, h + 1) else DeqRound(h))
  }

  function StepCatchCas(s: Ring, i: nat, weak: bool, h: nat, tl: nat, hd: nat): (r: Ring)
    requires i < |s.pcs|
    ensures OnlyThread(s, r, i)
  {
    if !weak && s.tail == tl then s.(tail := hd).To(i, DeqEmpty(h)) else s.To(i, CatchHead(h))
  }

  function StepCatchTail(s: Ring, i: nat, h: nat, hd: nat): (r: Ring)
    requires i < |s.pcs|
    ensures OnlyThread(s, r, i)
  {
    s.To(i, if s.tail >= hd then DeqEmpty(h) else CatchCas(h, s.tail, hd))
  }

  function StepDeqEmpty(s: Ring, i: nat): (r: Ring)
    requires i < |s.pcs|
    ensures OnlyThread(s, r, i)
  {
    s.(threshold := s.threshold - 1).To(i, DeqNone)
  }

  function StepDeqRound(s: Ring, i: nat): (r: Ring)
    requires i < |s.pcs|
    ensures OnlyThread(s, r, i)
  {
    s.(threshold := s.threshold - 1).To(i, if s.threshold <= 0 then DeqNone else DeqTicket)
  }

  /** One atomic step of thread i; a thread that is idle or has returned stays put. */
  function StepThread(s: Ring, i: nat, weak: bool): (r: Ring)
    requires s.Wf() && i < |s.pcs|
    ensures OnlyThread(s, r, i)
  {
    match s.pcs[i]
    case EnqTicket(x) => StepEnqTicket(s, i, x)
    case EnqLoad(x, t) => StepEnqLoad(s, i, x, t)
    case EnqHead(x, t, e) => StepEnqHead(s, i, x, t, e)
    case EnqFinal(x, t, e) => StepEnqFinal(s, i, x, t, e)
    case EnqCas(x, t, e) => StepEnqCas(s, i, weak, x, t, e)
    case EnqThreshold(x, t) => StepEnqThreshold(s, i, x, t)
    case EnqStore(x, t) => StepEnqStore(s, i, x, t)
    case DeqCheck => StepDeqCheck(s, i)
    case DeqTicket => StepDeqTicket(s, i)
    case DeqLoad(h, attempt) => StepDeqLoad(s, i, h, attempt)
    case DeqTake(h, e) => StepDeqTake(s, i, h, e)
    case DeqCas(h, attempt, e, new') => StepDeqCas(s, i, weak, h, attempt, e, new')
    case DeqTail(h) => StepDeqTail(s, i, h)
    case CatchCas(h, tl, hd) => StepCatchCas(s, i, weak, h, tl, hd)
    case CatchHead(h) => s.To(i, CatchTail(h, s.head))
    case CatchTail(h, hd) => StepCatchTail(s, i, h, hd)
    case DeqEmpty(_) => StepDeqEmpty(s, i)
    case DeqRound(_) => StepDeqRound(s, i)
    case _ => s
  }

  // ---------------------------------------------------------------- runs

  datatype Action =
    | CallEnqueue(i: nat, x: nat)
    | CallDequeue(i: nat)
    | Step(i: nat, weak: bool)
    | Return(i: nat)
    | Finalize

  predicate Returned(pc: Pc) {
    pc.EnqOk? || pc.EnqErr? || pc.DeqSome? || pc.DeqNone?
  }

  /** The calls: an index that the ring cannot hold is refused before any atomic access. */
  function BeginEnqueue(s: Ring, i: nat, x: nat): Ring
    requires i < |s.pcs|
  {
    s.To(i, if x >= s.half then EnqErr(x, IndexLargerThanOrder) else EnqTicket(x))
  }

  function BeginDequeue(s: Ring, i: nat): Ring
    requires i < |s.pcs|
  {
    s.To(i, DeqCheck)
  }

  /** One action of the machine; an action that is not possible changes nothing, so that
      every sequence of actions is a run. */
  function Apply(s: Ring, a: Action): (r: Ring)
    requires s.Wf()
    ensures SameShape(s, r)
  {
    match a
    case CallEnqueue(i, x) =>
      if i < |s.pcs| && s.pcs[i].Idle? then BeginEnqueue(s, i, x) else s
    case CallDequeue(i) => if i < |s.pcs| && s.pcs[i].Idle? then BeginDequeue(s, i) else s
    case Step(i, weak) => if i < |s.pcs| then StepThread(s, i, weak) else s
    case Return(i) => if i < |s.pcs| && Returned(s.pcs[i]) then s.To(i, Idle) else s
    case Finalize => if s.finalizable then s.(finalized := true) else s
  }

  /** The state after a run, given as its sequence of actions. */
  function Exec(s: Ring, run: seq<Action>): (r: Ring)
    requires s.Wf()
    ensures SameShape(s, r)
    decreases run
  {
    if run == [] then s else Exec(Apply(s, run[0]), run[1..])
  }

  lemma ExecCons(s: Ring, a: Action, run: seq<Action>)
    requires s.Wf()
    ensures Exec(s, [a] + run) == Exec(Apply(s, a), run)
  {
    assert ([a] + run)[1..] == run;
  }

  lemma ExecOne(s: Ring, a: Action)
    requires s.Wf()
    ensures Exec(s, [a]) == Apply(s, a)
  {
    assert [a] + [] == [a];
    ExecCons(s, a, []);
  }

  lemma {:induction false} ExecAppend(s: Ring, run: seq<Action>, more: seq<Action>)
    requires s.Wf()
    ensures Exec(s, run + more) == Exec(Exec(s, run), more)
    decreases run
  {
    if run == [] {
      assert run + more == more;
    } else {
      assert (run + more)[1..] == run[1..] + more;
      ExecAppend(Apply(s, run[0]), run[1..], more);
    }
  }
}
