/** Every sequence of operations by one thread gets the answers that a plain queue of items gives. */
module Grind {
  import opened Ring
  import opened Bitwise
  import opened BoundedQueue
  import opened UnboundedQueue

  datatype Instr<T> = Put(item: T) | Get

  datatype Answer<T> = Accepted | Refused(item: T) | Got(item: T) | Nothing

  /** The plain queue: `limit` is its size, if it has one. */
  datatype Mock<T> = Mock(queue: seq<T>, limit: Option<nat>)

  function MockStep<T>(m: Mock<T>, op: Instr<T>): (Mock<T>, Answer<T>) {
    match op
    case Put(item) =>
      if m.limit.Some? && |m.queue| >= m.limit.value then (m, Refused(item))
      else (m.(queue := m.queue + [item]), Accepted)
    case Get =>
      if m.queue == [] then (m, Nothing) else (m.(queue := m.queue[1..]), Got(m.queue[0]))
  }

  function MockAnswers<T>(m: Mock<T>, ops: seq<Instr<T>>): seq<Answer<T>>
    decreases ops
  {
    if ops == [] then []
    else var (next, answer) := MockStep(m, ops[0]); [answer] + MockAnswers(next, ops[1..])
  }

  /** What the plain queue holds in the end. */
  function MockAfter<T>(m: Mock<T>, ops: seq<Instr<T>>): Mock<T>
    decreases ops
  {
    if ops == [] then m else MockAfter(MockStep(m, ops[0]).0, ops[1..])
  }

  /** The items that were accepted, and those that came out. */
  function Inputs<T>(ops: seq<Instr<T>>, answers: seq<Answer<T>>): seq<T>
    requires |ops| == |answers|
  {
    if ops == [] then []
    else (if ops[0].Put? && answers[0].Accepted? then [ops[0].item] else []) + Inputs(ops[1..], answers[1..])
  }

  function Outputs<T>(answers: seq<Answer<T>>): seq<T> {
    if answers == [] then [] else (if answers[0].Got? then [answers[0].item] else []) + Outputs(answers[1..])
  }

  lemma {:induction false} AnswerEach<T>(m: Mock<T>, ops: seq<Instr<T>>)
    ensures |MockAnswers(m, ops)| == |ops|
    decreases ops
  {
    if ops != [] { AnswerEach(MockStep(m, ops[0]).0, ops[1..]); }
  }

  /** What comes out, followed by what is left, is what was put in: same order, none lost, none twice. */
  lemma {:induction false} OutputsAreInputs<T>(m: Mock<T>, ops: seq<Instr<T>>)
    ensures |MockAnswers(m, ops)| == |ops|
    ensures Outputs(MockAnswers(m, ops)) + MockAfter(m, ops).queue == m.queue + Inputs(ops, MockAnswers(m, ops))
    decreases ops
  {
    AnswerEach(m, ops);
    if ops != [] {
      var (next, answer) := MockStep(m, ops[0]);
      OutputsAreInputs(next, ops[1..]);
      var rest := MockAnswers(next, ops[1..]);
      assert MockAnswers(m, ops)[1..] == rest;
      var ins := Inputs(ops[1..], rest);
      assert m.queue + Inputs(ops, MockAnswers(m, ops))
          == (if answer.Got? then [answer.item] else []) + (next.queue + ins);
    }
  }

  method AnswerBounded<T(0)>(queue: BoundedQueue<T>, op: Instr<T>) returns (answer: Answer<T>)
    requires queue.Valid() && !queue.alloc.finalized
    modifies queue.Repr()
    ensures queue.Valid() && !queue.alloc.finalized
    ensures var limit := Some(queue.Capacity());
            MockStep(Mock(old(queue.Contents()), limit), op) == (Mock(queue.Contents(), limit), answer)
  {
    match op
    case Put(item) =>
      var back := queue.Enqueue(item);
      return if back.None? then Accepted else Refused(back.value);
    case Get =>
      var r := queue.Dequeue();
      return if r.None? then Nothing else Got(r.value);
  }

  method GrindBounded<T(0)>(order: nat, ops: seq<Instr<T>>) returns (answers: seq<Answer<T>>)
    ensures answers == MockAnswers(Mock([], Some(Pow2(order))), ops)
  {
    ghost var limit := Some(Pow2(order));
    var queue := new BoundedQueue<T>.New(order, false);
    answers := [];
    for i := 0 to |ops|
      invariant queue.Valid() && !queue.alloc.finalized && fresh(queue.Repr()) && queue.Capacity() == Pow2(order)
      invariant answers + MockAnswers(Mock(queue.Contents(), limit), ops[i..]) == MockAnswers(Mock([], limit), ops)
    {
      assert ops[i..][1..] == ops[i + 1..];
      var answer := AnswerBounded(queue, ops[i]);
      answers := answers + [answer];
    }
  }

  method AnswerUnbounded<T(0)>(queue: UnboundedQueue<T>, op: Instr<T>) returns (answer: Answer<T>)
    requires queue.Valid()
    modifies queue.repr
    ensures queue.Valid() && fresh(queue.repr - old(queue.repr))
    ensures MockStep(Mock(old(queue.Contents()), None), op) == (Mock(queue.Contents(), None), answer)
  {
    match op
    case Put(item) =>
      queue.Enqueue(item);
      return Accepted;
    case Get =>
      var r := queue.Dequeue();
      return if r.None? then Nothing else Got(r.value);
  }

  method GrindUnbounded<T(0)>(segmentOrder: nat, ops: seq<Instr<T>>) returns (answers: seq<Answer<T>>)
    ensures answers == MockAnswers(Mock([], None), ops)
  {
    var queue := new UnboundedQueue<T>.New(segmentOrder);
    answers := [];
    for i := 0 to |ops|
      invariant queue.Valid() && fresh(queue.repr)
      invariant answers + MockAnswers(Mock(queue.Contents(), None), ops[i..]) == MockAnswers(Mock([], None), ops)
    {
      assert ops[i..][1..] == ops[i + 1..];
      var answer := AnswerUnbounded(queue, ops[i]);
      answers := answers + [answer];
    }
  }
}
