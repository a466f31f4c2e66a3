/** Positions of the ring.  Head and tail are counters that only grow; the value a
    fetch_add returns is a ticket.  In a ring of n slots, ticket t lives in slot
    Pos(t, n) and belongs to cycle Cycle(t, n).

    Both functions are written as repeated subtraction, which keeps the proofs about
    rings of arbitrary size in linear arithmetic; DivMod says that they are t / n and t % n. */
module Tickets {

  function Cycle(t: nat, n: nat): nat
    requires n > 0
  {
    if t < n then 0 else 1 + Cycle(t - n, n)
  }

  function Pos(t: nat, n: nat): (j: nat)
    requires n > 0
    ensures j < n
  {
    if t < n then t else Pos(t - n, n)
  }

  /** The ticket of slot j in a given cycle. */
  function Ticket(cycle: nat, j: nat, n: nat): nat {
    if cycle == 0 then j else n + Ticket(cycle - 1, j, n)
  }

  lemma {:induction false} DivMod(t: nat, n: nat)
    requires n > 0
    ensures Cycle(t, n) == t / n && Pos(t, n) == t % n
  {
    if t >= n {
      DivMod(t - n, n);
      assert t == n * ((t - n) / n + 1) + (t - n) % n;
      DivModUnique(t, n, (t - n) / n + 1, (t - n) % n);
    } else {
      DivModUnique(t, n, 0, t);
    }
  }

  lemma DivModUnique(t: int, n: int, q: int, r: int)
    requires 0 <= r < n && t == n * q + r
    ensures t / n == q && t % n == r
  {
    var q', r' := t / n, t % n;
    assert t == n * q' + r';
    if q < q' {
      MultiplesApart(n, q, q');
    } else if q' < q {
      MultiplesApart(n, q', q);
    }
  }

  lemma MultiplesApart(n: int, a: int, b: int)
    requires 0 < n && a < b
    ensures n * a + n <= n * b
  {
    assert n * b == n * a + n * (b - a);
    Grows(n, b - a);
  }

  lemma {:induction false} Grows(n: int, d: nat)
    requires 0 < n && 0 < d
    ensures n <= n * d
  {
    if d > 1 {
      Grows(n, d - 1);
      assert n * d == n * (d - 1) + n;
    }
  }

  lemma {:induction false} TicketOfPos(t: nat, n: nat)
    requires n > 0
    ensures Ticket(Cycle(t, n), Pos(t, n), n) == t
  {
    if t >= n { TicketOfPos(t - n, n); }
  }

  lemma {:induction false} PosOfTicket(cycle: nat, j: nat, n: nat)
    requires j < n
    ensures Cycle(Ticket(cycle, j, n), n) == cycle && Pos(Ticket(cycle, j, n), n) == j
  {
    if cycle > 0 { PosOfTicket(cycle - 1, j, n); }
  }

  /** Later tickets never belong to an earlier cycle, and two tickets of one slot are
      ordered as their cycles. */
  lemma {:induction false} CycleOrder(t: nat, u: nat, n: nat)
    requires n > 0 && t <= u
    ensures Cycle(t, n) <= Cycle(u, n)
    ensures Pos(t, n) == Pos(u, n) && t < u ==> Cycle(t, n) < Cycle(u, n)
  {
    if t >= n {
      CycleOrder(t - n, u - n, n);
    }
  }

  /** Tickets that share a slot are at least a whole ring apart. */
  lemma {:induction false} SameSlotApart(t: nat, u: nat, n: nat)
    requires n > 0 && t < u && Pos(t, n) == Pos(u, n)
    ensures t + n <= u
  {
    if t >= n { SameSlotApart(t - n, u - n, n); }
  }

  /** The next ticket belongs to the next slot. */
  lemma {:induction false} PosNext(t: nat, n: nat)
    requires n > 0
    ensures Pos(t + 1, n) == if Pos(t, n) + 1 == n then 0 else Pos(t, n) + 1
  {
    if t >= n { PosNext(t - n, n); }
  }

  /** The three laws, for all tickets, slots and cycles of a ring at once. */
  lemma Laws(n: nat)
    requires n > 0
    ensures forall t: nat {:trigger Pos(t, n)} :: Ticket(Cycle(t, n), Pos(t, n), n) == t
    ensures forall c: nat, j: nat {:trigger Ticket(c, j, n)} | j < n ::
              Cycle(Ticket(c, j, n), n) == c && Pos(Ticket(c, j, n), n) == j
    ensures forall t: nat, u: nat {:trigger Pos(t, n), Pos(u, n)} |
              Pos(t, n) == Pos(u, n) && t < u :: Cycle(t, n) < Cycle(u, n)
  {
    forall t: nat ensures Ticket(Cycle(t, n), Pos(t, n), n) == t { TicketOfPos(t, n); }
    forall c: nat, j: nat | j < n
      ensures Cycle(Ticket(c, j, n), n) == c && Pos(Ticket(c, j, n), n) == j
    {
      PosOfTicket(c, j, n);
    }
    forall t: nat, u: nat | Pos(t, n) == Pos(u, n) && t < u ensures Cycle(t, n) < Cycle(u, n) {
      CycleOrder(t, u, n);
    }
  }
}
