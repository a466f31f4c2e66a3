/** The step machine again, this time on 64-bit words and with the bit operations of the code.
    Step by step it does what the machine on records does. */
module WordRing {
  import opened Bitwise
  import opened Tickets
  import opened Ring
  import opened Words
  import opened RingInvariant
  import opened RingTheorems

  datatype WPc =
    | WIdle
    | WEnqTicket(x: nat)
    | WEnqLoad(x: nat, t: Word)
    | WEnqHead(x: nat, t: Word, entry: Word)
    | WEnqFinal(x: nat, t: Word, entry: Word)
    | WEnqCas(x: nat, t: Word, entry: Word)
    | WEnqThreshold(x: nat, t: Word)
    | WEnqStore(x: nat, t: Word)
    | WEnqOk(x: nat, t: Word)
    | WEnqErr(x: nat, error: RingError)
    | WDeqCheck
    | WDeqTicket
    | WDeqLoad(h: Word, attempt: nat)
    | WDeqTake(h: Word, entry: Word)
    | WDeqCas(h: Word, attempt: nat, entry: Word, entryNew: Word)
    | WDeqTail(h: Word)
    | WCatchCas(h: Word, tl: Word, hd: Word)
    | WCatchHead(h: Word)
    | WCatchTail(h: Word, hd: Word)
    | WDeqEmpty(h: Word)
    | WDeqRound(h: Word)
    | WDeqSome(h: Word, x: nat)
    | WDeqNone

  datatype WordRing = WordRing(order: nat, finalizable: bool, finalized: bool, head: Word, tail: Word,
                               threshold: int, words: seq<Word>, pcs: seq<WPc>)
  {
    predicate Wf() { order <= MAX_ORDER && |words| == Pow2(order + 1) }

    /** n, the number of slots. */
    function Count(): Word
      requires order <= MAX_ORDER
    {
      Constants(order);
      Pow2(order + 1)
    }

    function Map(t: Word): nat
      requires Wf()
      ensures Map(t) < |words|
    {
      TicketMap(t, order);
      RingMap(t, Count())
    }

    function Modup(value: Word): Word
      requires order <= MAX_ORDER
    {
      Constants(order);
      ModUp(value, Count())
    }

    function To(i: nat, pc: WPc): WordRing
      requires i < |pcs|
    {
      this.(pcs := pcs[i := pc])
    }
  }

  function Next(counter: Word): Word { (counter + 1) % MODULUS }

  function WEmpty(order: nat, finalizable: bool, threads: nat): WordRing {
    WordRing(order, finalizable, false, 0, 0, -1, seq(Pow2(order + 1), _ => MODULUS - 1),
             seq(threads, _ => WIdle))
  }

  /** The contents that initialize_atomic_array_full stores. */
  function FullWords(order: nat): seq<Word>
    requires order <= MAX_ORDER
  {
    Constants(order);
    seq(Pow2(order + 1), (j: nat) => if j < Pow2(order) then Pow2(order + 1) + j else MODULUS - 1)
  }

  function WFull(order: nat, finalizable: bool, threads: nat): WordRing
    requires order <= MAX_ORDER
  {
    Constants(order);
    WordRing(order, finalizable, false, 0, Pow2(order), Threshold3(Pow2(order)), FullWords(order),
             seq(threads, _ => WIdle))
  }

  // ---------------------------------------------------------------- steps

  function WAdmitted(w: WordRing, x: nat, t: Word, entry: Word): WPc {
    if w.finalizable then WEnqFinal(x, t, entry) else WEnqCas(x, t, entry)
  }

  function WStepEnqLoad(w: WordRing, i: nat, x: nat, t: Word): WordRing
    requires w.Wf() && i < |w.pcs|
  {
    var tcycle := w.Modup(Shl1(t));
    var entry := w.words[w.Map(t)];
    var ecycle := w.Modup(entry);
    w.To(i,
         if SignedLess(ecycle, tcycle) && entry == ecycle then WAdmitted(w, x, t, entry)
         else if SignedLess(ecycle, tcycle) && entry == BitXor(ecycle, w.Count()) then WEnqHead(x, t, entry)
         else WEnqTicket(x))
  }

  /** tcycle ^ eidx, where eidx is the index with its bits inverted. */
  function InsertWord(w: WordRing, x: nat, t: Word): Word
    requires w.order <= MAX_ORDER
  {
    BitXor(w.Modup(Shl1(t)), BitXor(x % MODULUS, w.Count() - 1))
  }

  function WStepEnqCas(w: WordRing, i: nat, weak: bool, x: nat, t: Word, entry: Word): WordRing
    requires w.Wf() && i < |w.pcs|
  {
    if !weak && w.words[w.Map(t)] == entry then
      w.(words := w.words[w.Map(t) := InsertWord(w, x, t)]).To(i, WEnqThreshold(x, t))
    else
      w.To(i, WEnqLoad(x, t))
  }

  /** What a dequeuer does next, given the words it computes from the entry it loaded: `less`
      says that ecycle is before hcycle, `safeEntry` is entry | n, `unsafeEntry` is entry & !n,
      and `advanced` is hcycle ^ (!entry & n). */
  function Decide(h: Word, attempt: nat, entry: Word, ecycle: Word, hcycle: Word, less: bool,
                  safeEntry: Word, unsafeEntry: Word, advanced: Word): WPc {
    if ecycle == hcycle then WDeqTake(h, entry)
    else if safeEntry != ecycle then
      if entry != unsafeEntry && less then WDeqCas(h, attempt, entry, unsafeEntry) else WDeqTail(h)
    else if attempt + 1 <= 10 then WDeqLoad(h, attempt + 1)
    else if less then WDeqCas(h, attempt + 1, entry, advanced) else WDeqTail(h)
  }

  function WStepDeqLoad(w: WordRing, i: nat, h: Word, attempt: nat): WordRing
    requires w.Wf() && i < |w.pcs|
  {
    var n := w.Count();
    var hcycle := w.Modup(Shl1(h));
    var entry := w.words[w.Map(h)];
    var ecycle := w.Modup(entry);
    w.To(i, Decide(h, attempt, entry, ecycle, hcycle, SignedLess(ecycle, hcycle),
                   BitOr(entry, n), BitAnd(entry, BitNot(n)), BitXor(hcycle, BitAnd(BitNot(entry), n))))
  }

  function WStepDeqTake(w: WordRing, i: nat, h: Word, entry: Word): WordRing
    requires w.Wf() && i < |w.pcs|
  {
    var n := w.Count();
    w.(words := w.words[w.Map(h) := BitOr(w.words[w.Map(h)], n - 1)])
     .To(i, WDeqSome(h, BitAnd(entry, n - 1)))
  }

  function WStepDeqCas(w: WordRing, i: nat, weak: bool, h: Word, attempt: nat, entry: Word, entryNew: Word): WordRing
    requires w.Wf() && i < |w.pcs|
  {
    if !weak && w.words[w.Map(h)] == entry then
      w.(words := w.words[w.Map(h) := entryNew]).To(i, WDeqTail(h))
    else
      w.To(i, WDeqLoad(h, attempt))
  }

  function WStepThread(w: WordRing, i: nat, weak: bool): WordRing
    requires w.Wf() && i < |w.pcs|
  {
    match w.pcs[i]
    case WEnqTicket(x) => w.(tail := Next(w.tail)).To(i, WEnqLoad(x, w.tail))
    case WEnqLoad(x, t) => WStepEnqLoad(w, i, x, t)
    case WEnqHead(x, t, entry) =>
      w.To(i, if SignedLessEqual(w.head, t) then WAdmitted(w, x, t, entry) else WEnqTicket(x))
    case WEnqFinal(x, t, entry) =>
      w.To(i, if w.finalized then WEnqErr(x, QueueFinalized) else WEnqCas(x, t, entry))
    case WEnqCas(x, t, entry) => WStepEnqCas(w, i, weak, x, t, entry)
    case WEnqThreshold(x, t) =>
      w.To(i, if w.threshold != Threshold3(Pow2(w.order)) then WEnqStore(x, t) else WEnqOk(x, t))
    case WEnqStore(x, t) => w.(threshold := Threshold3(Pow2(w.order))).To(i, WEnqOk(x, t))
    case WDeqCheck => w.To(i, if w.threshold < 0 then WDeqNone else WDeqTicket)
    case WDeqTicket => w.(head := Next(w.head)).To(i, WDeqLoad(w.head, 0))
    case WDeqLoad(h, attempt) => WStepDeqLoad(w, i, h, attempt)
    case WDeqTake(h, entry) => WStepDeqTake(w, i, h, entry)
    case WDeqCas(h, attempt, entry, entryNew) => WStepDeqCas(w, i, weak, h, attempt, entry, entryNew)
    case WDeqTail(h) =>
      w.To(i, if SignedLessEqual(w.tail, Next(h)) then WCatchCas(h, w.tail, Next(h)) else WDeqRound(h))
    case WCatchCas(h, tl, hd) =>
      if !weak && w.tail == tl then w.(tail := hd).To(i, WDeqEmpty(h)) else w.To(i, WCatchHead(h))
    case WCatchHead(h) => w.To(i, WCatchTail(h, w.head))
    case WCatchTail(h, hd) =>
      w.To(i, if !SignedLess(w.tail, hd) then WDeqEmpty(h) else WCatchCas(h, w.tail, hd))
    case WDeqEmpty(h) => w.(threshold := w.threshold - 1).To(i, WDeqNone)
    case WDeqRound(h) =>
      w.(threshold := w.threshold - 1).To(i, if w.threshold <= 0 then WDeqNone else WDeqTicket)
    case _ => w
  }

  predicate WReturned(pc: WPc) { pc.WEnqOk? || pc.WEnqErr? || pc.WDeqSome? || pc.WDeqNone? }

  function WApply(w: WordRing, a: Action): (r: WordRing)
    requires w.Wf()
    ensures r.Wf() && r.order == w.order
  {
    match a
    case CallEnqueue(i, x) =>
      if i < |w.pcs| && w.pcs[i].WIdle? then
        w.To(i, if x >= Pow2(w.order) then WEnqErr(x, IndexLargerThanOrder) else WEnqTicket(x))
      else w
    case CallDequeue(i) => if i < |w.pcs| && w.pcs[i].WIdle? then w.To(i, WDeqCheck) else w
    case Step(i, weak) => if i < |w.pcs| then WStepThread(w, i, weak) else w
    case Return(i) => if i < |w.pcs| && WReturned(w.pcs[i]) then w.To(i, WIdle) else w
    case Finalize => if w.finalizable then w.(finalized := true) else w
  }

  function WExec(w: WordRing, run: seq<Action>): (r: WordRing)
    requires w.Wf()
    ensures r.Wf() && r.order == w.order
    decreases run
  {
    if run == [] then w else WExec(WApply(w, run[0]), run[1..])
  }

  // ---------------------------------------------------------------- the records behind the words

  function AbsPc(pc: WPc, o: nat): Pc
    requires o <= MAX_ORDER
  {
    match pc
    case WIdle => Idle
    case WEnqTicket(x) => EnqTicket(x)
    case WEnqLoad(x, t) => EnqLoad(x, t)
    case WEnqHead(x, t, entry) => EnqHead(x, t, Decode(entry, o))
    case WEnqFinal(x, t, entry) => EnqFinal(x, t, Decode(entry, o))
    case WEnqCas(x, t, entry) => EnqCas(x, t, Decode(entry, o))
    case WEnqThreshold(x, t) => EnqThreshold(x, t)
    case WEnqStore(x, t) => EnqStore(x, t)
    case WEnqOk(x, t) => EnqOk(x, t)
    case WEnqErr(x, error) => EnqErr(x, error)
    case WDeqCheck => DeqCheck
    case WDeqTicket => DeqTicket
    case WDeqLoad(h, attempt) => DeqLoad(h, attempt)
    case WDeqTake(h, entry) => DeqTake(h, Decode(entry, o))
    case WDeqCas(h, attempt, entry, entryNew) => DeqCas(h, attempt, Decode(entry, o), Decode(entryNew, o))
    case WDeqTail(h) => DeqTail(h)
    case WCatchCas(h, tl, hd) => CatchCas(h, tl, hd)
    case WCatchHead(h) => CatchHead(h)
    case WCatchTail(h, hd) => CatchTail(h, hd)
    case WDeqEmpty(h) => DeqEmpty(h)
    case WDeqRound(h) => DeqRound(h)
    case WDeqSome(h, x) => DeqSome(h, x)
    case WDeqNone => DeqNone
  }

  /** The record ring that a word ring stands for; a history belongs to records only. */
  function Abs(w: WordRing, log: History): Ring
    requires w.Wf()
  {
    Ring(Pow2(w.order), w.finalizable, w.finalized, w.head, w.tail, w.threshold,
         seq(|w.words|, j requires 0 <= j < |w.words| => Decode(w.words[j], w.order)),
         seq(|w.pcs|, i requires 0 <= i < |w.pcs| => AbsPc(w.pcs[i], w.order)),
         log)
  }

  lemma MinusOne(o: nat)
    requires o <= MAX_ORDER
    ensures Decode(MODULUS - 1, o) == Slot(-1, true, None)
  {
    NotSafe(o);
    BitValue(0, o + 1);
    BitValue(1, o + 1);
    DecodeJoin(o, Pow2(62 - o) - 1, 1, Ones(o));
  }

  lemma FullDecodes(o: nat, x: nat)
    requires o <= MAX_ORDER && x < Pow2(o)
    ensures Pow2(o + 1) + x < MODULUS && Decode(Pow2(o + 1) + x, o) == Slot(0, true, Some(x))
  {
    ShiftNext(0, o + 2);
    BitValue(1, o + 1);
    Constants(o);
    DecodeJoin(o, 0, 1, x);
  }

  /** The initial words stand for the initial records: -1 is cycle -1, safe, ⊥. */
  lemma EmptyAbs(order: nat, finalizable: bool, threads: nat)
    requires order <= MAX_ORDER
    ensures var s := EmptyRing(Pow2(order), finalizable, threads);
            Abs(WEmpty(order, finalizable, threads), s.log) == s
  {
    MinusOne(order);
    var s := EmptyRing(Pow2(order), finalizable, threads);
    var r := Abs(WEmpty(order, finalizable, threads), s.log);
    assert r.slots == s.slots && r.pcs == s.pcs;
  }

  lemma FullWord(order: nat, j: nat)
    requires order <= MAX_ORDER && j < Pow2(order + 1)
    ensures Decode(FullWords(order)[j], order)
         == if j < Pow2(order) then Slot(0, true, Some(j)) else Slot(-1, true, None)
  {
    if j < Pow2(order) { FullDecodes(order, j); } else { MinusOne(order); }
  }

  lemma FullSlots(order: nat, finalizable: bool, threads: nat, log: History)
    requires order <= MAX_ORDER
    ensures WFull(order, finalizable, threads).Wf()
    ensures Abs(WFull(order, finalizable, threads), log).slots == FullRing(Pow2(order), finalizable, threads).slots
  {
    var slots := FullRing(Pow2(order), finalizable, threads).slots;
    var r := Abs(WFull(order, finalizable, threads), log);
    forall j: nat | j < |slots| ensures r.slots[j] == slots[j] { FullWord(order, j); }
  }

  lemma FullAbs(order: nat, finalizable: bool, threads: nat)
    requires order <= MAX_ORDER
    ensures var s := FullRing(Pow2(order), finalizable, threads);
            WFull(order, finalizable, threads).Wf() && Abs(WFull(order, finalizable, threads), s.log) == s
  {
    var s := FullRing(Pow2(order), finalizable, threads);
    FullSlots(order, finalizable, threads, s.log);
    assert Abs(WFull(order, finalizable, threads), s.log).pcs == s.pcs;
  }

  // ---------------------------------------------------------------- simulation

  lemma AbsTo(w: WordRing, log: History, i: nat, pc: WPc)
    requires w.Wf() && i < |w.pcs|
    ensures Abs(w.To(i, pc), log) == Abs(w, log).To(i, AbsPc(pc, w.order))
  {
    assert Abs(w.To(i, pc), log).pcs == Abs(w, log).pcs[i := AbsPc(pc, w.order)];
  }

  lemma AbsWrite(w: WordRing, log: History, t: Word, word: Word)
    requires w.Wf()
    ensures w.Map(t) == Pos(t, Pow2(w.order + 1))
    ensures Abs(w.(words := w.words[w.Map(t) := word]), log) == Abs(w, log).Write(t, Decode(word, w.order))
    ensures Abs(w, log).At(t) == Decode(w.words[w.Map(t)], w.order)
  {
    TicketMap(t, w.order);
    assert Abs(w.(words := w.words[w.Map(t) := word]), log).slots
        == Abs(w, log).slots[w.Map(t) := Decode(word, w.order)];
  }

  /** Tickets below 2^62, and the invariant of the records. */
  ghost predicate Good(w: WordRing, log: History) {
    w.Wf() && w.head <= TICKETS && w.tail <= TICKETS && Inv(Abs(w, log))
  }

  /** What the simulation of thread i needs of its words and tickets. */
  ghost predicate Fits(w: WordRing, i: nat)
    requires w.Wf() && i < |w.pcs|
  {
    && w.head <= TICKETS && w.tail <= TICKETS
    && match w.pcs[i]
       case WEnqLoad(_, t) => t < TICKETS && InRange(w.words[w.Map(t)], w.order)
       case WEnqHead(_, t, _) => t < TICKETS
       case WEnqCas(x, t, _) => t < TICKETS && x < Pow2(w.order)
       case WDeqLoad(h, _) => h < TICKETS && InRange(w.words[w.Map(h)], w.order)
       case WDeqTail(h) => h < TICKETS
       case WCatchTail(_, hd) => hd <= TICKETS
       case _ => true
  }

  lemma GoodFits(w: WordRing, log: History, i: nat)
    requires Good(w, log) && i < |w.pcs|
    ensures Fits(w, i)
  {
    var s := Abs(w, log);
    assert PcOk(s, i);
    match w.pcs[i]
    case WEnqLoad(_, t) => AbsWrite(w, log, t, 0); assert SlotOk(s, w.Map(t));
    case WDeqLoad(h, _) => AbsWrite(w, log, h, 0); assert SlotOk(s, w.Map(h));
    case _ =>
  }

  lemma SimEnqLoad(w: WordRing, log: History, i: nat, x: nat, t: Word)
    requires w.Wf() && i < |w.pcs| && Fits(w, i) && w.pcs[i] == WEnqLoad(x, t)
    ensures Abs(WStepEnqLoad(w, i, x, t), log) == StepEnqLoad(Abs(w, log), i, x, t)
  {
    var s := Abs(w, log);
    var o := w.order;
    var entry, pc := w.words[w.Map(t)], WStepEnqLoad(w, i, x, t).pcs[i];
    AbsWrite(w, log, t, 0);
    assert AbsPc(pc, o) == StepEnqLoad(s, i, x, t).pcs[i] by {
      TicketParts(t, o);
      TicketKey(t, o);
      EnqueueTest(entry, o, Cycle(t, Pow2(o + 1)));
    }
    AbsTo(w, log, i, pc);
  }

  lemma SimInsertAt(w: WordRing, log: History, i: nat, x: nat, t: Word, word: Word)
    requires w.Wf() && i < |w.pcs|
    requires Decode(word, w.order) == Slot(Cycle(t, Pow2(w.order + 1)), true, Some(x))
    ensures var r := StepEnqCas(Abs(w, log), i, false, x, t, Abs(w, log).At(t));
            Abs(w.(words := w.words[w.Map(t) := word]).To(i, WEnqThreshold(x, t)), r.log) == r
  {
    var log' := log.(inserted := log.inserted[t := x]);
    AbsWrite(w, log', t, word);
    AbsTo(w.(words := w.words[w.Map(t) := word]), log', i, WEnqThreshold(x, t));
  }

  lemma InsertWordIs(w: WordRing, x: nat, t: Word, key: Word)
    requires w.order <= MAX_ORDER && x < MODULUS && key == w.Modup(Shl1(t))
    ensures Ones(w.order) < MODULUS && InsertWord(w, x, t) == BitXor(key, BitXor(x, Ones(w.order)))
  {
    assert x % MODULUS == x;
  }

  lemma InsertWordDecodes(w: WordRing, x: nat, t: Word)
    requires w.Wf() && t < TICKETS && x < Pow2(w.order)
    ensures Decode(InsertWord(w, x, t), w.order) == Slot(Cycle(t, Pow2(w.order + 1)), true, Some(x))
  {
    var o, c := w.order, Cycle(t, Pow2(w.order + 1));
    TicketParts(t, o);
    TicketKey(t, o);
    InsertDecodes(o, c, x);
    InsertWordIs(w, x, t, Key(o, c));
  }

  lemma SimInsert(w: WordRing, log: History, i: nat, x: nat, t: Word, entry: Word)
    requires w.Wf() && i < |w.pcs| && t < TICKETS && x < Pow2(w.order) && w.words[w.Map(t)] == entry
    ensures var r := StepEnqCas(Abs(w, log), i, false, x, t, Decode(entry, w.order));
            Abs(WStepEnqCas(w, i, false, x, t, entry), r.log) == r
  {
    InsertWordDecodes(w, x, t);
    AbsWrite(w, log, t, 0);
    SimInsertAt(w, log, i, x, t, InsertWord(w, x, t));
  }

  lemma SimEnqCas(w: WordRing, log: History, i: nat, weak: bool, x: nat, t: Word, entry: Word)
    requires w.Wf() && i < |w.pcs| && t < TICKETS && x < Pow2(w.order)
    ensures var r := StepEnqCas(Abs(w, log), i, weak, x, t, Decode(entry, w.order));
            Abs(WStepEnqCas(w, i, weak, x, t, entry), r.log) == r
  {
    DecodeInjective(w.words[w.Map(t)], entry, w.order);
    AbsWrite(w, log, t, 0);
    if !weak && w.words[w.Map(t)] == entry {
      SimInsert(w, log, i, x, t, entry);
    } else {
      AbsTo(w, log, i, WEnqLoad(x, t));
    }
  }

  /** The decision of a dequeuer that has loaded a slot. */
  lemma SameDecision(s: Ring, i: nat, o: nat, h: Word, attempt: nat, entry: Word, ecycle: Word, hcycle: Word,
                     less: bool, safeEntry: Word, unsafeEntry: Word, advanced: Word)
    requires o <= MAX_ORDER && s.Wf() && i < |s.pcs| && s.At(h) == Decode(entry, o)
    requires var e, c := Decode(entry, o), Cycle(h, s.N());
             && (less <==> e.cycle < c)
             && (ecycle == hcycle <==> e.cycle == c)
             && (safeEntry != ecycle <==> e.entry.Some?)
             && (entry == unsafeEntry <==> !e.safe)
             && Decode(unsafeEntry, o) == e.(safe := false)
             && Decode(advanced, o) == Slot(c, e.safe, None)
    ensures var pc := Decide(h, attempt, entry, ecycle, hcycle, less, safeEntry, unsafeEntry, advanced);
            AbsPc(pc, o) == StepDeqLoad(s, i, h, attempt).pcs[i]
  {
    var e := s.At(h);
    if e.cycle == Cycle(h, s.N()) {
    } else if e.entry.Some? {
      assert e.safe <==> entry != unsafeEntry;
    } else if attempt + 1 > 10 && less {
      assert Decode(advanced, o) == Slot(Cycle(h, s.N()), e.safe, None);
    }
  }

  lemma SimDeqLoad(w: WordRing, log: History, i: nat, h: Word, attempt: nat)
    requires w.Wf() && i < |w.pcs| && h < TICKETS && InRange(w.words[w.Map(h)], w.order)
    ensures var r := StepDeqLoad(Abs(w, log), i, h, attempt);
            Abs(WStepDeqLoad(w, i, h, attempt), r.log) == r
  {
    var entry, n := w.words[w.Map(h)], w.Count();
    var hcycle, ecycle := w.Modup(Shl1(h)), w.Modup(entry);
    AbsWrite(w, log, h, 0);
    TicketParts(h, w.order);
    TicketKey(h, w.order);
    var c := Cycle(h, Pow2(w.order + 1));
    DequeueTest(entry, w.order, c);
    UnsafeDecodes(entry, w.order);
    AdvanceDecodes(entry, w.order, c);
    SimDecision(w, log, i, h, attempt, entry, ecycle, hcycle, SignedLess(ecycle, hcycle),
                BitOr(entry, n), BitAnd(entry, BitNot(n)), BitXor(hcycle, BitAnd(BitNot(entry), n)));
  }

  lemma SimDecision(w: WordRing, log: History, i: nat, h: Word, attempt: nat, entry: Word, ecycle: Word,
                    hcycle: Word, less: bool, safeEntry: Word, unsafeEntry: Word, advanced: Word)
    requires w.Wf() && i < |w.pcs| && Abs(w, log).At(h) == Decode(entry, w.order)
    requires var e, c := Decode(entry, w.order), Cycle(h, Pow2(w.order + 1));
             && (less <==> e.cycle < c)
             && (ecycle == hcycle <==> e.cycle == c)
             && (safeEntry != ecycle <==> e.entry.Some?)
             && (entry == unsafeEntry <==> !e.safe)
             && Decode(unsafeEntry, w.order) == e.(safe := false)
             && Decode(advanced, w.order) == Slot(c, e.safe, None)
    ensures var pc := Decide(h, attempt, entry, ecycle, hcycle, less, safeEntry, unsafeEntry, advanced);
            var r := StepDeqLoad(Abs(w, log), i, h, attempt);
            Abs(w.To(i, pc), r.log) == r
  {
    var pc := Decide(h, attempt, entry, ecycle, hcycle, less, safeEntry, unsafeEntry, advanced);
    var r := StepDeqLoad(Abs(w, log), i, h, attempt);
    SameDecision(Abs(w, log), i, w.order, h, attempt, entry, ecycle, hcycle, less, safeEntry, unsafeEntry, advanced);
    AbsTo(w, r.log, i, pc);
  }

  lemma SimDeqTake(w: WordRing, log: History, i: nat, h: Word, entry: Word)
    requires w.Wf() && i < |w.pcs| && Fits(w, i) && w.pcs[i] == WDeqTake(h, entry)
    ensures var r := StepDeqTake(Abs(w, log), i, h, Decode(entry, w.order));
            Abs(WStepDeqTake(w, i, h, entry), r.log) == r
  {
    var s := Abs(w, log);
    var o := w.order;
    var r := StepDeqTake(s, i, h, Decode(entry, o));
    var word := BitOr(w.words[w.Map(h)], w.Count() - 1);
    var next := WDeqSome(h, BitAnd(entry, w.Count() - 1));
    assert AbsPc(next, o) == r.pcs[i] by { IndexDecodes(entry, o); }
    assert Decode(word, o) == Decode(w.words[w.Map(h)], o).(entry := None) by { ConsumeDecodes(w.words[w.Map(h)], o); }
    AbsWrite(w, r.log, h, word);
    AbsWrite(w, log, h, word);
    AbsTo(w.(words := w.words[w.Map(h) := word]), r.log, i, next);
  }

  lemma SimDeqCas(w: WordRing, log: History, i: nat, weak: bool, h: Word, attempt: nat, entry: Word, entryNew: Word)
    requires w.Wf() && i < |w.pcs| && Fits(w, i) && w.pcs[i] == WDeqCas(h, attempt, entry, entryNew)
    ensures var r := StepDeqCas(Abs(w, log), i, weak, h, attempt, Decode(entry, w.order), Decode(entryNew, w.order));
            Abs(WStepDeqCas(w, i, weak, h, attempt, entry, entryNew), r.log) == r
  {
    var s := Abs(w, log);
    var r := StepDeqCas(s, i, weak, h, attempt, Decode(entry, w.order), Decode(entryNew, w.order));
    DecodeInjective(w.words[w.Map(h)], entry, w.order);
    AbsWrite(w, log, h, entryNew);
    AbsWrite(w, r.log, h, entryNew);
    AbsTo(w.(words := w.words[w.Map(h) := entryNew]), r.log, i, WDeqTail(h));
    AbsTo(w, log, i, WDeqLoad(h, attempt));
  }

  /** The steps that touch no word: counters, flag and threshold. */
  lemma SimEnqueue(w: WordRing, log: History, i: nat, weak: bool)
    requires w.Wf() && i < |w.pcs| && Fits(w, i)
    requires w.pcs[i].WEnqHead? || w.pcs[i].WEnqFinal? || w.pcs[i].WEnqThreshold? || w.pcs[i].WEnqStore?
    ensures var r := StepThread(Abs(w, log), i, weak);
            Abs(WStepThread(w, i, weak), r.log) == r
  {
    var s := Abs(w, log);
    var v := WStepThread(w, i, weak);
    var r := StepThread(s, i, weak);
    if w.pcs[i].WEnqHead? { SmallOrder(w.head, w.pcs[i].t); }
    assert Abs(v, r.log).slots == s.slots;
    assert Abs(v, r.log).pcs == s.pcs[i := AbsPc(v.pcs[i], w.order)];
  }

  lemma SimTicket(w: WordRing, log: History, i: nat, weak: bool)
    requires w.Wf() && i < |w.pcs| && Fits(w, i)
    requires w.pcs[i].WEnqTicket? || w.pcs[i].WDeqCheck? || w.pcs[i].WDeqTicket?
    ensures var r := StepThread(Abs(w, log), i, weak);
            Abs(WStepThread(w, i, weak), r.log) == r
  {
    var s := Abs(w, log);
    var v := WStepThread(w, i, weak);
    var r := StepThread(s, i, weak);
    assert Abs(v, r.log).slots == s.slots;
    assert Abs(v, r.log).pcs == s.pcs[i := AbsPc(v.pcs[i], w.order)];
  }

  lemma SimTail(w: WordRing, log: History, i: nat, weak: bool)
    requires w.Wf() && i < |w.pcs| && Fits(w, i)
    requires w.pcs[i].WDeqTail?
    ensures var r := StepThread(Abs(w, log), i, weak);
            Abs(WStepThread(w, i, weak), r.log) == r
  {
    var s, h := Abs(w, log), w.pcs[i].h;
    assert s.pcs[i] == DeqTail(h);
    var next := if SignedLessEqual(w.tail, Next(h)) then WCatchCas(h, w.tail, Next(h)) else WDeqRound(h);
    assert WStepThread(w, i, weak) == w.To(i, next);
    assert StepThread(s, i, weak) == s.To(i, AbsPc(next, w.order)) by {
      SmallOrder(w.tail, h + 1);
    }
    AbsTo(w, log, i, next);
  }

  lemma SimThreshold(w: WordRing, log: History, i: nat, weak: bool)
    requires w.Wf() && i < |w.pcs| && Fits(w, i)
    requires w.pcs[i].WDeqEmpty? || w.pcs[i].WDeqRound?
    ensures var r := StepThread(Abs(w, log), i, weak);
            Abs(WStepThread(w, i, weak), r.log) == r
  {
    var s := Abs(w, log);
    var v := WStepThread(w, i, weak);
    var r := StepThread(s, i, weak);
    assert Abs(v, r.log).slots == s.slots;
    assert Abs(v, r.log).pcs == s.pcs[i := AbsPc(v.pcs[i], w.order)];
  }

  lemma SimCatch(w: WordRing, log: History, i: nat, weak: bool)
    requires w.Wf() && i < |w.pcs| && Fits(w, i)
    requires w.pcs[i].WCatchCas? || w.pcs[i].WCatchHead? || w.pcs[i].WCatchTail?
    ensures var r := StepThread(Abs(w, log), i, weak);
            Abs(WStepThread(w, i, weak), r.log) == r
  {
    var s := Abs(w, log);
    var v := WStepThread(w, i, weak);
    var r := StepThread(s, i, weak);
    if w.pcs[i].WCatchTail? { SmallOrder(w.tail, w.pcs[i].hd); }
    assert Abs(v, r.log).slots == s.slots;
    assert Abs(v, r.log).pcs == s.pcs[i := AbsPc(v.pcs[i], w.order)];
  }

  lemma SimSlot(w: WordRing, log: History, i: nat, weak: bool)
    requires w.Wf() && i < |w.pcs| && Fits(w, i)
    requires w.pcs[i].WEnqLoad? || w.pcs[i].WEnqCas? || w.pcs[i].WDeqLoad? || w.pcs[i].WDeqTake? || w.pcs[i].WDeqCas?
    ensures var r := StepThread(Abs(w, log), i, weak);
            Abs(WStepThread(w, i, weak), r.log) == r
  {
    var s := Abs(w, log);
    var r, v := StepThread(s, i, weak), WStepThread(w, i, weak);
    match w.pcs[i]
    case WEnqLoad(x, t) =>
      assert r == StepEnqLoad(s, i, x, t);
      SimEnqLoad(w, log, i, x, t);
    case WEnqCas(x, t, entry) =>
      assert r == StepEnqCas(s, i, weak, x, t, Decode(entry, w.order));
      SimEnqCas(w, log, i, weak, x, t, entry);
    case WDeqLoad(h, attempt) =>
      assert r == StepDeqLoad(s, i, h, attempt);
      SimDeqLoad(w, log, i, h, attempt);
    case WDeqTake(h, entry) =>
      assert r == StepDeqTake(s, i, h, Decode(entry, w.order));
      SimDeqTake(w, log, i, h, entry);
    case WDeqCas(h, attempt, entry, entryNew) =>
      assert r == StepDeqCas(s, i, weak, h, attempt, Decode(entry, w.order), Decode(entryNew, w.order));
      SimDeqCas(w, log, i, weak, h, attempt, entry, entryNew);
  }

  lemma SimFinalize(w: WordRing, log: History)
    requires w.Wf()
    ensures Abs(WApply(w, Finalize), Apply(Abs(w, log), Finalize).log) == Apply(Abs(w, log), Finalize)
  {
    var v := WApply(w, Finalize);
    assert Abs(v, log).slots == Abs(w, log).slots && Abs(v, log).pcs == Abs(w, log).pcs;
  }

  lemma SimCall(w: WordRing, log: History, a: Action)
    requires w.Wf() && (a.CallEnqueue? || a.CallDequeue?)
    ensures var r := Apply(Abs(w, log), a);
            Abs(WApply(w, a), r.log) == r
  {
    if a.i < |w.pcs| && w.pcs[a.i].WIdle? {
      var next := if a.CallDequeue? then WDeqCheck
                  else if a.x >= Pow2(w.order) then WEnqErr(a.x, IndexLargerThanOrder) else WEnqTicket(a.x);
      assert WApply(w, a) == w.To(a.i, next);
      AbsTo(w, log, a.i, next);
    }
  }

  lemma SimReturn(w: WordRing, log: History, i: nat)
    requires w.Wf()
    ensures var r := Apply(Abs(w, log), Return(i));
            Abs(WApply(w, Return(i)), r.log) == r
  {
    if i < |w.pcs| && WReturned(w.pcs[i]) {
      assert WApply(w, Return(i)) == w.To(i, WIdle);
      AbsTo(w, log, i, WIdle);
    }
  }

  /** One action on words is the same action on records. */
  lemma Simulation(w: WordRing, log: History, a: Action)
    requires Good(w, log)
    ensures var r := Apply(Abs(w, log), a);
            Abs(WApply(w, a), r.log) == r
  {
    if a.Finalize? {
      SimFinalize(w, log);
    } else if a.Return? {
      SimReturn(w, log, a.i);
    } else if !a.Step? {
      SimCall(w, log, a);
    } else if a.i < |w.pcs| {
      var pc := w.pcs[a.i];
      GoodFits(w, log, a.i);
      if pc.WEnqLoad? || pc.WEnqCas? || pc.WDeqLoad? || pc.WDeqTake? || pc.WDeqCas? {
        SimSlot(w, log, a.i, a.weak);
      } else if pc.WDeqTail? {
        SimTail(w, log, a.i, a.weak);
      } else if pc.WDeqEmpty? || pc.WDeqRound? {
        SimThreshold(w, log, a.i, a.weak);
      } else if pc.WCatchCas? || pc.WCatchHead? || pc.WCatchTail? {
        SimCatch(w, log, a.i, a.weak);
      } else if pc.WEnqHead? || pc.WEnqFinal? || pc.WEnqThreshold? || pc.WEnqStore? {
        SimEnqueue(w, log, a.i, a.weak);
      } else if pc.WEnqTicket? || pc.WDeqCheck? || pc.WDeqTicket? {
        SimTicket(w, log, a.i, a.weak);
      }
    }
  }

  lemma {:induction false} SimulationRun(w: WordRing, log: History, run: seq<Action>)
    requires w.Wf() && Inv(Abs(w, log))
    requires Exec(Abs(w, log), run).head <= TICKETS && Exec(Abs(w, log), run).tail <= TICKETS
    ensures Abs(WExec(w, run), Exec(Abs(w, log), run).log) == Exec(Abs(w, log), run)
    decreases run
  {
    CountersGrow(Abs(w, log), run);
    if run != [] {
      var r := Apply(Abs(w, log), run[0]);
      Simulation(w, log, run[0]);
      KeepAction(Abs(w, log), run[0]);
      SimulationRun(WApply(w, run[0]), r.log, run[1..]);
    }
  }

  /** From either initial state and for every order, any run of the word ring whose tickets stay
      below 2^62 passes through exactly the words that encode the records of the same run. */
  lemma WordsRefineRecords(full: bool, order: nat, finalizable: bool, threads: nat, run: seq<Action>)
    requires order <= MAX_ORDER
    requires var s := Exec(Initial(full, Pow2(order), finalizable, threads), run);
             s.head <= TICKETS && s.tail <= TICKETS
    ensures var w := if full then WFull(order, finalizable, threads) else WEmpty(order, finalizable, threads);
            var s := Exec(Initial(full, Pow2(order), finalizable, threads), run);
            w.Wf() && Abs(WExec(w, run), s.log) == s
  {
    EmptyAbs(order, finalizable, threads);
    FullAbs(order, finalizable, threads);
    InitialInv(full, Pow2(order), finalizable, threads);
    var w := if full then WFull(order, finalizable, threads) else WEmpty(order, finalizable, threads);
    SimulationRun(w, Initial(full, Pow2(order), finalizable, threads).log, run);
  }
}
