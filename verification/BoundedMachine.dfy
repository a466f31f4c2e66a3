/** The bounded queue as a step machine: a ring of free indices, a ring of allocated indices,
    the backing cells and the counter `used`, shared by any number of threads.  An operation
    of the queue runs the steps of the ring operations it calls. */
module BoundedMachine {
  import opened Ring

  datatype PutResult<T> = Stored | Full(item: T) | Closed(item: T)

  /** Where a thread stands in `enqueue_cycle` (Put) or `dequeue` (Get).  `fin` is the FINALIZE
      parameter; `size` is what the increment of `used` returned; `h` is the ticket with which
      an allocated index was taken.  Once the item is in its cell, `item` is only a record of the
      argument of the call.  Undefined stands for undefined behaviour or a panic. */
  datatype QPc<T> =
    | QIdle
    | PutCount(item: T, fin: bool)
    | PutFull(item: T)
    | PutFree(item: T, fin: bool, size: int)
    | PutWrite(item: T, fin: bool, size: int, pos: nat)
    | PutAlloc(item: T, fin: bool, size: int, pos: nat)
    | PutUncount(item: T, pos: nat)
    | PutReadBack(item: T, pos: nat)
    | PutRelease(item: T, pos: nat)
    | PutSeal
    | PutDone(result: PutResult<T>)
    | GetAlloc
    | GetUncount(h: nat, pos: nat)
    | GetRead(h: nat, pos: nat)
    | GetRelease(item: T, pos: nat)
    | GetDone(value: Option<T>)
    | Undefined

  /** `values` maps a ticket of the allocated ring to the argument of the call that inserted an index
      with it; `returned` maps it to the item that its dequeuer read from the cell. */
  datatype Queue<T> = Queue(cap: nat, free: Ring, alloc: Ring, cells: seq<Option<T>>, used: int,
                            pcs: seq<QPc<T>>, values: map<nat, T>, returned: map<nat, T>)
  {
    predicate Wf() {
      && cap >= 1 && free.Wf() && alloc.Wf() && free.half == cap && alloc.half == cap
      && |free.pcs| == |pcs| && |alloc.pcs| == |pcs| && |cells| >= cap
    }

    function To(i: nat, pc: QPc<T>): Queue<T>
      requires i < |pcs|
    {
      this.(pcs := pcs[i := pc])
    }

    /** The cell at an index holds an item. */
    predicate Filled(pos: nat) { pos < |cells| && cells[pos].Some? }
  }

  predicate SameSize<T>(s: Queue<T>, r: Queue<T>) {
    r.Wf() && r.cap == s.cap && |r.pcs| == |s.pcs| && |r.cells| == |s.cells|
  }

  /** A new queue; the allocated constructor makes twice as many cells as it needs. */
  function NewQueue<T>(cap: nat, sealable: bool, threads: nat): Queue<T> {
    Queue(cap, FullRing(cap, sealable, threads), EmptyRing(cap, sealable, threads),
          seq(2 * cap, _ => None), 0, seq(threads, _ => QIdle), map[], map[])
  }

  // ---------------------------------------------------------------- enqueue_cycle

  function DoPutCount<T>(s: Queue<T>, i: nat, item: T, fin: bool): (r: Queue<T>)
    requires s.Wf() && i < |s.pcs|
    ensures SameSize(s, r)
  {
    if s.used >= s.cap then
      s.(used := s.used + 1).To(i, PutFull(item))
    else
      s.(used := s.used + 1, free := BeginDequeue(s.free, i)).To(i, PutFree(item, fin, s.used))
  }

  function DoPutFull<T>(s: Queue<T>, i: nat, item: T): (r: Queue<T>)
    requires s.Wf() && i < |s.pcs|
    ensures SameSize(s, r)
  {
    s.(used := s.used - 1).To(i, PutDone(Full(item)))
  }

  function DoPutFree<T>(s: Queue<T>, i: nat, weak: bool, item: T, fin: bool, size: int): (r: Queue<T>)
    requires s.Wf() && i < |s.pcs|
    ensures SameSize(s, r)
  {
    if s.free.pcs[i].DeqNone? then
      s.(free := s.free.To(i, Idle)).To(i, PutFull(item))
    else if s.free.pcs[i].DeqSome? then
      s.(free := s.free.To(i, Idle)).To(i, PutWrite(item, fin, size, s.free.pcs[i].x))
    else
      s.(free := StepThread(s.free, i, weak))
  }

  function DoPutWrite<T>(s: Queue<T>, i: nat, item: T, fin: bool, size: int, pos: nat): (r: Queue<T>)
    requires s.Wf() && i < |s.pcs|
    ensures SameSize(s, r)
  {
    if pos < |s.cells| then
      s.(cells := s.cells[pos := Some(item)], alloc := BeginEnqueue(s.alloc, i, pos))
       .To(i, PutAlloc(item, fin, size, pos))
    else
      s.To(i, Undefined)
  }

  /** A step of the enqueue into the allocated ring; when the index goes in with ticket t, the
      history notes the argument of the call. */
  function AllocStep<T>(s: Queue<T>, i: nat, alloc: Ring, item: T): (r: Queue<T>)
    requires s.Wf() && i < |s.pcs| && SameShape(s.alloc, alloc)
    ensures SameSize(s, r)
  {
    if s.alloc.pcs[i].EnqCas? && alloc.pcs[i].EnqThreshold? then
      s.(alloc := alloc, values := s.values[s.alloc.pcs[i].t := item])
    else
      s.(alloc := alloc)
  }

  function DoPutAlloc<T>(s: Queue<T>, i: nat, weak: bool, item: T, fin: bool, size: int, pos: nat): (r: Queue<T>)
    requires s.Wf() && i < |s.pcs|
    ensures SameSize(s, r)
  {
    if s.alloc.pcs[i].EnqOk? then
      s.(alloc := s.alloc.To(i, Idle))
       .To(i, if fin && size + 1 >= s.cap then PutSeal else PutDone(Stored))
    else if s.alloc.pcs[i].EnqErr? then
      s.(alloc := s.alloc.To(i, Idle)).To(i, PutUncount(item, pos))
    else
      AllocStep(s, i, StepThread(s.alloc, i, weak), item)
  }

  function DoPutUncount<T>(s: Queue<T>, i: nat, item: T, pos: nat): (r: Queue<T>)
    requires s.Wf() && i < |s.pcs|
    ensures SameSize(s, r)
  {
    s.(used := s.used - 1).To(i, PutReadBack(item, pos))
  }

  function DoPutReadBack<T>(s: Queue<T>, i: nat, pos: nat): (r: Queue<T>)
    requires s.Wf() && i < |s.pcs|
    ensures SameSize(s, r)
  {
    if s.Filled(pos) then
      s.(cells := s.cells[pos := None], free := BeginEnqueue(s.free, i, pos))
       .To(i, PutRelease(s.cells[pos].value, pos))
    else
      s.To(i, Undefined)
  }

  /** Giving an index back to the free ring; `done` is where the operation goes then. */
  function DoRelease<T>(s: Queue<T>, i: nat, weak: bool, done: QPc<T>): (r: Queue<T>)
    requires s.Wf() && i < |s.pcs|
    ensures SameSize(s, r)
  {
    if s.free.pcs[i].EnqOk? then s.(free := s.free.To(i, Idle)).To(i, done)
    else if s.free.pcs[i].EnqErr? then s.To(i, Undefined)
    else s.(free := StepThread(s.free, i, weak))
  }

  function DoPutSeal<T>(s: Queue<T>, i: nat): (r: Queue<T>)
    requires s.Wf() && i < |s.pcs|
    ensures SameSize(s, r)
  {
    s.(alloc := if s.alloc.finalizable then s.alloc.(finalized := true) else s.alloc).To(i, PutDone(Stored))
  }

  // ---------------------------------------------------------------- dequeue

  function DoGetAlloc<T>(s: Queue<T>, i: nat, weak: bool): (r: Queue<T>)
    requires s.Wf() && i < |s.pcs|
    ensures SameSize(s, r)
  {
    if s.alloc.pcs[i].DeqNone? then
      s.(alloc := s.alloc.To(i, Idle)).To(i, GetDone(None))
    else if s.alloc.pcs[i].DeqSome? then
      s.(alloc := s.alloc.To(i, Idle)).To(i, GetUncount(s.alloc.pcs[i].h, s.alloc.pcs[i].x))
    else
      s.(alloc := StepThread(s.alloc, i, weak))
  }

  function DoGetUncount<T>(s: Queue<T>, i: nat, h: nat, pos: nat): (r: Queue<T>)
    requires s.Wf() && i < |s.pcs|
    ensures SameSize(s, r)
  {
    s.(used := s.used - 1).To(i, GetRead(h, pos))
  }

  function DoGetRead<T>(s: Queue<T>, i: nat, h: nat, pos: nat): (r: Queue<T>)
    requires s.Wf() && i < |s.pcs|
    ensures SameSize(s, r)
  {
    if s.Filled(pos) then
      s.(cells := s.cells[pos := None], returned := s.returned[h := s.cells[pos].value],
         free := BeginEnqueue(s.free, i, pos))
       .To(i, GetRelease(s.cells[pos].value, pos))
    else
      s.To(i, Undefined)
  }

  // ---------------------------------------------------------------- runs

  function DoStep<T>(s: Queue<T>, i: nat, weak: bool): (r: Queue<T>)
    requires s.Wf() && i < |s.pcs|
    ensures SameSize(s, r)
  {
    match s.pcs[i]
    case PutCount(item, fin) => DoPutCount(s, i, item, fin)
    case PutFull(item) => DoPutFull(s, i, item)
    case PutFree(item, fin, size) => DoPutFree(s, i, weak, item, fin, size)
    case PutWrite(item, fin, size, pos) => DoPutWrite(s, i, item, fin, size, pos)
    case PutAlloc(item, fin, size, pos) => DoPutAlloc(s, i, weak, item, fin, size, pos)
    case PutUncount(item, pos) => DoPutUncount(s, i, item, pos)
    case PutReadBack(_, pos) => DoPutReadBack(s, i, pos)
    case PutRelease(item, _) => DoRelease(s, i, weak, PutDone(Closed(item)))
    case PutSeal => DoPutSeal(s, i)
    case GetAlloc => DoGetAlloc(s, i, weak)
    case GetUncount(h, pos) => DoGetUncount(s, i, h, pos)
    case GetRead(h, pos) => DoGetRead(s, i, h, pos)
    case GetRelease(item, _) => DoRelease(s, i, weak, GetDone(Some(item)))
    case _ => s
  }

  datatype QAction<T> =
    | CallPut(i: nat, item: T, fin: bool)
    | CallGet(i: nat)
    | QStep(i: nat, weak: bool)
    | QReturn(i: nat)

  /** One action of the machine; one that is not possible changes nothing. */
  function QApply<T>(s: Queue<T>, a: QAction<T>): (r: Queue<T>)
    requires s.Wf()
    ensures SameSize(s, r)
  {
    if a.i >= |s.pcs| then s
    else
      match a
      case CallPut(i, item, fin) => if s.pcs[i].QIdle? then s.To(i, PutCount(item, fin)) else s
      case CallGet(i) =>
        if s.pcs[i].QIdle? then s.(alloc := BeginDequeue(s.alloc, i)).To(i, GetAlloc) else s
      case QStep(i, weak) => DoStep(s, i, weak)
      case QReturn(i) => if s.pcs[i].PutDone? || s.pcs[i].GetDone? then s.To(i, QIdle) else s
  }

  function QExec<T>(s: Queue<T>, run: seq<QAction<T>>): (r: Queue<T>)
    requires s.Wf()
    ensures SameSize(s, r)
    decreases run
  {
    if run == [] then s else QExec(QApply(s, run[0]), run[1..])
  }
}
