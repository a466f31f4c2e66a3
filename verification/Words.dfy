/** How a slot is packed into one 64-bit word, and what each bit operation of the ring does to it.

    A ring of order o has half = 2^o usable entries and n = 2^(o+1) slots.  From the low end a
    word holds o + 1 index bits, all ones for ⊥; the safe bit, of weight n; and the cycle in
    the remaining bits, read as a signed number. */
module Words {
  import opened Bitwise
  import opened Ring
  import opened Tickets

  /** 2^64; see ModulusIsPow2 and ModulusSplit. */
  const MODULUS: nat := 0x1_0000_0000_0000_0000
  const MAX_ORDER: nat := 60

  type Word = w: nat | w < MODULUS witness 0

  lemma ModulusIsPow2()
    ensures MODULUS == Pow2(64)
  {
    assert Pow2(2) == 4;
    assert Pow2(4) == 16;
    Pow2Add(4, 4);
    Pow2Add(8, 8);
    Pow2Add(16, 16);
    Pow2Add(32, 32);
  }

  /** The cycle bits of a word of a ring of order o start at bit o + 2. */
  lemma ModulusSplit(o: nat)
    requires o <= MAX_ORDER
    ensures MODULUS == Shift(Pow2(62 - o), o + 2)
  {
    ModulusIsPow2();
    ShiftOfPow2(62 - o, o + 2);
  }

  // ---------------------------------------------------------------- machine operations

  lemma GateFits(g: Gate, a: Word, b: Word)
    ensures Bits(g, a, b) < MODULUS
  {
    ModulusIsPow2();
    ShiftNext(0, 64);
    Blocks(g, 64, a, 0, a, b, 0, b);
  }

  function BitOr(a: Word, b: Word): Word { GateFits(Or, a, b); Bits(Or, a, b) }

  function BitAnd(a: Word, b: Word): Word { GateFits(And, a, b); Bits(And, a, b) }

  function BitXor(a: Word, b: Word): Word { GateFits(Xor, a, b); Bits(Xor, a, b) }

  function BitNot(a: Word): Word { MODULUS - 1 - a }

  /** a << 1; the top bit is lost. */
  function Shl1(a: Word): Word { (2 * a) % MODULUS }

  /** `as isize` */
  function AsSigned(a: Word): int {
    if a < MODULUS / 2 then a else a - MODULUS
  }

  /** Subtraction of isize values; it wraps. */
  function SignedSub(a: int, b: int): int {
    AsSigned((a - b) % MODULUS)
  }

  predicate SignedLess(a: Word, b: Word) { SignedSub(AsSigned(a), AsSigned(b)) < 0 }

  predicate SignedLessEqual(a: Word, b: Word) { SignedSub(AsSigned(a), AsSigned(b)) <= 0 }

  /** value | ((n << 1) - 1) */
  function ModUp(value: Word, n: Word): Word
    requires 0 < n && 2 * n <= MODULUS
  {
    BitOr(value, 2 * n - 1)
  }

  /** idx & (n - 1) */
  function RingMap(idx: Word, n: Word): Word
    requires 0 < n
  {
    BitAnd(idx, n - 1)
  }

  // ---------------------------------------------------------------- the layout of a word

  /** Safe bit b above index bits r. */
  function Tail(o: nat, b: nat, r: nat): nat { Shift(b, o + 1) + r }

  /** The word with cycle bits q, safe bit b and index bits r. */
  function Join(o: nat, q: nat, b: nat, r: nat): nat {
    Shift(q, o + 2) + Tail(o, b, r)
  }

  predicate Parts(o: nat, q: nat, b: nat, r: nat) {
    o <= MAX_ORDER && q < Pow2(62 - o) && b < 2 && r < Pow2(o + 1)
  }

  lemma BitValue(b: nat, k: nat)
    requires b < 2
    ensures Shift(b, k) == (if b == 1 then Pow2(k) else 0)
  {
    ShiftNext(0, k);
  }

  /** The cycle counts multiples of 4 * 2^o, the safe bit is worth n, and the index is what is left. */
  lemma JoinIsSum(o: nat, q: nat, b: nat, r: nat)
    ensures Join(o, q, b, r) == q * Pow2(o + 2) + b * Pow2(o + 1) + r
  {
    ShiftIsProduct(q, o + 2);
    ShiftIsProduct(b, o + 1);
  }

  lemma TailFits(o: nat, b: nat, r: nat)
    requires b < 2 && r < Pow2(o + 1)
    ensures Tail(o, b, r) < Pow2(o + 2)
  {
    BitValue(b, o + 1);
  }

  lemma JoinFits(o: nat, q: nat, b: nat, r: nat)
    requires Parts(o, q, b, r)
    ensures Join(o, q, b, r) < MODULUS
    ensures Tail(o, b, r) < Pow2(o + 2)
  {
    BitValue(b, o + 1);
    ShiftOrder(q, Pow2(62 - o), o + 2);
    ModulusSplit(o);
  }

  function Cycles(w: Word, o: nat): nat { High(w, o + 2) }

  function SafeBit(w: Word, o: nat): nat { High(Low(w, o + 2), o + 1) }

  function Index(w: Word, o: nat): nat { Low(Low(w, o + 2), o + 1) }

  lemma Split(w: Word, o: nat)
    requires o <= MAX_ORDER
    ensures Parts(o, Cycles(w, o), SafeBit(w, o), Index(w, o))
    ensures w == Join(o, Cycles(w, o), SafeBit(w, o), Index(w, o))
  {
    Apart(w, o + 2);
    Apart(Low(w, o + 2), o + 1);
    if Cycles(w, o) >= Pow2(62 - o) {
      ShiftOrder(Pow2(62 - o), Cycles(w, o), o + 2);
      ModulusSplit(o);
    }
    if SafeBit(w, o) >= 2 {
      ShiftOrder(2, SafeBit(w, o), o + 1);
      ShiftOrder(1, 2, o + 1);
      BitValue(1, o + 1);
    }
  }

  lemma JoinSplit(o: nat, q: nat, b: nat, r: nat)
    requires Parts(o, q, b, r)
    ensures Join(o, q, b, r) < MODULUS
    ensures var w: Word := Join(o, q, b, r); Cycles(w, o) == q && SafeBit(w, o) == b && Index(w, o) == r
  {
    JoinFits(o, q, b, r);
    Together(q, Tail(o, b, r), o + 2);
    Together(b, r, o + 1);
  }

  /** Bitwise operations act on the three parts separately. */
  lemma Combine(g: Gate, o: nat, w1: nat, q1: nat, b1: nat, r1: nat, w2: nat, q2: nat, b2: nat, r2: nat)
    requires Parts(o, q1, b1, r1) && Parts(o, q2, b2, r2)
    requires w1 == Join(o, q1, b1, r1) && w2 == Join(o, q2, b2, r2)
    ensures Bits(g, w1, w2) == Join(o, Bits(g, q1, q2), Bits(g, b1, b2), Bits(g, r1, r2))
  {
    TailFits(o, b1, r1);
    TailFits(o, b2, r2);
    CombineAt(g, o, w1, q1, b1, r1, Tail(o, b1, r1), w2, q2, b2, r2, Tail(o, b2, r2));
  }

  lemma CombineTo(g: Gate, o: nat, w1: nat, q1: nat, b1: nat, r1: nat, w2: nat, q2: nat, b2: nat, r2: nat,
                  q: nat, b: nat, r: nat)
    requires Parts(o, q1, b1, r1) && Parts(o, q2, b2, r2)
    requires w1 == Join(o, q1, b1, r1) && w2 == Join(o, q2, b2, r2)
    requires Bits(g, q1, q2) == q && Bits(g, b1, b2) == b && Bits(g, r1, r2) == r
    ensures Bits(g, w1, w2) == Join(o, q, b, r)
  {
    Combine(g, o, w1, q1, b1, r1, w2, q2, b2, r2);
  }

  lemma CombineAt(g: Gate, o: nat, w1: nat, q1: nat, b1: nat, r1: nat, t1: nat,
                  w2: nat, q2: nat, b2: nat, r2: nat, t2: nat)
    requires r1 < Pow2(o + 1) && r2 < Pow2(o + 1) && t1 < Pow2(o + 2) && t2 < Pow2(o + 2)
    requires t1 == Tail(o, b1, r1) && t2 == Tail(o, b2, r2)
    requires w1 == Shift(q1, o + 2) + t1 && w2 == Shift(q2, o + 2) + t2
    ensures Bits(g, w1, w2) == Join(o, Bits(g, q1, q2), Bits(g, b1, b2), Bits(g, r1, r2))
  {
    CombineTails(g, o, t1, b1, r1, t2, b2, r2);
    Blocks(g, o + 2, w1, q1, t1, w2, q2, t2);
  }

  lemma CombineTails(g: Gate, o: nat, t1: nat, b1: nat, r1: nat, t2: nat, b2: nat, r2: nat)
    requires r1 < Pow2(o + 1) && r2 < Pow2(o + 1)
    requires t1 == Tail(o, b1, r1) && t2 == Tail(o, b2, r2)
    ensures Bits(g, t1, t2) == Tail(o, Bits(g, b1, b2), Bits(g, r1, r2))
  {
    Blocks(g, o + 1, t1, b1, r1, t2, b2, r2);
  }

  lemma OneBit(g: Gate, b1: nat, b2: nat)
    requires b1 < 2 && b2 < 2
    ensures Bits(g, b1, b2) == (if Fires(g, b1 == 1, b2 == 1) then 1 else 0)
  {
    Unroll(g, 0, b1, 0, b2);
  }

  // ---------------------------------------------------------------- words and records

  /** The signed number that cycle bits stand for. */
  function SignedCycle(o: nat, q: nat): int
    requires o <= MAX_ORDER
  {
    if q < Pow2(61 - o) then q else q - Pow2(62 - o)
  }

  /** The record that a word stands for. */
  function Decode(w: Word, o: nat): Slot
    requires o <= MAX_ORDER
  {
    var q := Cycles(w, o);
    Slot(SignedCycle(o, q),
         SafeBit(w, o) == 1,
         if Index(w, o) == Pow2(o + 1) - 1 then None else Some(Index(w, o)))
  }

  /** The constants of the bit operations, taken apart. */
  lemma Constants(o: nat)
    requires o <= MAX_ORDER
    ensures Parts(o, 0, 1, Pow2(o + 1) - 1) && Parts(o, 0, 1, 0) && Parts(o, 0, 0, Pow2(o + 1) - 1)
    ensures Join(o, 0, 1, Pow2(o + 1) - 1) == 2 * Pow2(o + 1) - 1
    ensures Join(o, 0, 1, 0) == Pow2(o + 1)
    ensures Join(o, 0, 0, Pow2(o + 1) - 1) == Pow2(o + 1) - 1
    ensures 2 * Pow2(o + 1) <= MODULUS
  {
    BitValue(0, o + 1);
    BitValue(1, o + 1);
    BitValue(0, o + 2);
    JoinFits(o, 0, 1, Pow2(o + 1) - 1);
  }

  /** !n: everything but the safe bit. */
  lemma NotSafe(o: nat)
    requires o <= MAX_ORDER
    ensures Parts(o, Pow2(62 - o) - 1, 0, Pow2(o + 1) - 1)
    ensures Join(o, Pow2(62 - o) - 1, 0, Pow2(o + 1) - 1) == MODULUS - 1 - Pow2(o + 1)
  {
    BitValue(0, o + 1);
    ShiftNext(Pow2(62 - o) - 1, o + 2);
    ModulusSplit(o);
  }

  /** Different words are different records, so a compare-exchange on words is one on records. */
  lemma DecodeInjective(v: Word, w: Word, o: nat)
    requires o <= MAX_ORDER
    ensures Decode(v, o) == Decode(w, o) <==> v == w
  {
    Split(v, o);
    Split(w, o);
  }

  // ---------------------------------------------------------------- what each operation does

  /** n - 1: all index bits. */
  function Ones(o: nat): nat { Pow2(o + 1) - 1 }

  /** The comparison key of a cycle: safe, with all index bits set. */
  function Key(o: nat, q: nat): nat { Join(o, q, 1, Ones(o)) }

  /** modup(entry, n) keeps the cycle and forgets the rest. */
  lemma ModUpKey(w: Word, o: nat, q: nat, b: nat, r: nat)
    requires Parts(o, q, b, r) && w == Join(o, q, b, r)
    ensures 2 * Pow2(o + 1) <= MODULUS
    ensures ModUp(w, Pow2(o + 1)) == Key(o, q)
  {
    Constants(o);
    WithZero(q);
    OneBit(Or, b, 1);
    OrOnes(o + 1, r);
    CombineTo(Or, o, w, q, b, r, 2 * Pow2(o + 1) - 1, 0, 1, Ones(o),
              q, 1, Ones(o));
  }

  /** entry & !n clears the safe bit and keeps cycle and index. */
  lemma ClearSafe(w: Word, mask: Word, o: nat, q: nat, b: nat, r: nat)
    requires Parts(o, q, b, r) && w == Join(o, q, b, r)
    requires Parts(o, Pow2(62 - o) - 1, 0, Ones(o)) && mask == Join(o, Pow2(62 - o) - 1, 0, Ones(o))
    ensures BitAnd(w, mask) == Join(o, q, 0, r)
  {
    AndOnes(62 - o, q);
    OneBit(And, b, 0);
    AndOnes(o + 1, r);
    CombineTo(And, o, w, q, b, r, mask, Pow2(62 - o) - 1, 0, Ones(o), q, 0, r);
  }

  /** entry | n sets the safe bit. */
  lemma SetSafe(w: Word, o: nat, q: nat, b: nat, r: nat)
    requires Parts(o, q, b, r) && w == Join(o, q, b, r)
    ensures Pow2(o + 1) < MODULUS
    ensures BitOr(w, Pow2(o + 1)) == Join(o, q, 1, r)
  {
    Constants(o);
    WithZero(q);
    OneBit(Or, b, 1);
    WithZero(r);
    CombineTo(Or, o, w, q, b, r, Pow2(o + 1), 0, 1, 0,
              q, 1, r);
  }

  /** entry | (n - 1) makes the index ⊥ and keeps cycle and safe bit. */
  lemma ClearIndex(w: Word, o: nat, q: nat, b: nat, r: nat)
    requires Parts(o, q, b, r) && w == Join(o, q, b, r)
    ensures Ones(o) < MODULUS
    ensures BitOr(w, Ones(o)) == Join(o, q, b, Ones(o))
  {
    Constants(o);
    WithZero(q);
    OneBit(Or, b, 0);
    OrOnes(o + 1, r);
    CombineTo(Or, o, w, q, b, r, Ones(o), 0, 0, Ones(o),
              q, b, Ones(o));
  }

  lemma JustIndex(o: nat, r: nat)
    ensures Join(o, 0, 0, r) == r
  {
    BitValue(0, o + 1);
    BitValue(0, o + 2);
  }

  /** entry & (n - 1) reads the index. */
  lemma ReadIndex(w: Word, o: nat, q: nat, b: nat, r: nat)
    requires Parts(o, q, b, r) && w == Join(o, q, b, r)
    ensures Ones(o) < MODULUS
    ensures BitAnd(w, Ones(o)) == r
  {
    Constants(o);
    assert BitAnd(w, Ones(o)) == Join(o, 0, 0, r) by {
      WithZero(q);
      OneBit(And, b, 0);
      AndOnes(o + 1, r);
      CombineTo(And, o, w, q, b, r, Ones(o), 0, 0, Ones(o),
                0, 0, r);
    }
    JustIndex(o, r);
  }

  /** cycle ^ n is the same cycle, unsafe and ⊥. */
  lemma FlipSafe(o: nat, q: nat)
    requires Parts(o, q, 1, Ones(o))
    ensures Key(o, q) < MODULUS && Pow2(o + 1) < MODULUS
    ensures BitXor(Key(o, q), Pow2(o + 1)) == Join(o, q, 0, Ones(o))
  {
    Constants(o);
    JoinFits(o, q, 1, Ones(o));
    WithZero(q);
    OneBit(Xor, 1, 1);
    WithZero(Ones(o));
    CombineTo(Xor, o, Key(o, q), q, 1, Ones(o), Pow2(o + 1), 0, 1, 0,
              q, 0, Ones(o));
  }

  /** tcycle ^ (eidx ^ (n - 1)) is the cycle of the ticket, safe, with index eidx. */
  lemma InsertIndex(o: nat, q: nat, x: nat)
    requires Parts(o, q, 1, x)
    ensures Key(o, q) < MODULUS && Ones(o) < MODULUS && x < MODULUS
    ensures BitXor(Key(o, q), BitXor(x, Ones(o))) == Join(o, q, 1, x)
  {
    Constants(o);
    JoinFits(o, q, 1, Ones(o));
    XorOnes(o + 1, x);
    var y := Ones(o) - x;
    JustIndex(o, y);
    WithZero(q);
    OneBit(Xor, 1, 0);
    XorOnes(o + 1, y);
    Commutes(Xor, y, Ones(o));
    CombineTo(Xor, o, Key(o, q), q, 1, Ones(o), y, 0, 0, y,
              q, 1, x);
  }

  /** !entry inverts each part. */
  lemma Inverted(w: Word, o: nat, q: nat, b: nat, r: nat)
    requires Parts(o, q, b, r) && w == Join(o, q, b, r)
    ensures Parts(o, Pow2(62 - o) - 1 - q, 1 - b, Ones(o) - r)
    ensures BitNot(w) == Join(o, Pow2(62 - o) - 1 - q, 1 - b, Ones(o) - r)
  {
    var q' := Pow2(62 - o) - 1 - q;
    NotSafe(o);
    ShiftSum(q, q', o + 2);
    BitValue(b, o + 1);
    BitValue(1 - b, o + 1);
    BitValue(0, o + 1);
  }

  /** w & n is the safe bit of w alone. */
  lemma SelectSafe(o: nat, w: Word, q: nat, b: nat, r: nat, n: Word)
    requires Parts(o, q, b, r) && w == Join(o, q, b, r) && Parts(o, 0, 1, 0) && n == Join(o, 0, 1, 0)
    ensures BitAnd(w, n) == Join(o, 0, b, 0)
  {
    WithZero(q);
    OneBit(And, b, 1);
    WithZero(r);
    CombineTo(And, o, w, q, b, r, n, 0, 1, 0, 0, b, 0);
  }

  /** hcycle ^ (!entry & n): the new cycle, ⊥, with the safe bit of the entry. */
  lemma AdvanceKeepingSafe(o: nat, c: nat, key: Word, b: nat, bit: Word)
    requires Parts(o, c, 1, Ones(o)) && key == Key(o, c)
    requires b < 2 && Parts(o, 0, 1 - b, 0) && bit == Join(o, 0, 1 - b, 0)
    ensures BitXor(key, bit) == Join(o, c, b, Ones(o))
  {
    WithZero(c);
    OneBit(Xor, 1, 1 - b);
    WithZero(Ones(o));
    CombineTo(Xor, o, key, c, 1, Ones(o), bit, 0, 1 - b, 0, c, b, Ones(o));
  }

  // ---------------------------------------------------------------- tickets and comparisons

  /** 2^62.  Below it neither the shift of a ticket nor a signed comparison overflows. */
  const TICKETS: nat := 0x4000_0000_0000_0000

  lemma TicketsSplit(o: nat)
    requires o <= MAX_ORDER
    ensures TICKETS == Shift(Pow2(61 - o), o + 1) && 2 * TICKETS == Shift(Pow2(61 - o), o + 2)
  {
    ModulusSplit(o);
    ShiftSum(Pow2(61 - o), Pow2(61 - o), o + 2);
  }

  lemma {:induction false} TicketShift(c: nat, j: nat, k: nat)
    ensures Ticket(c, j, Pow2(k)) == Shift(c, k) + j
  {
    if c == 0 {
      ShiftNext(0, k);
    } else {
      TicketShift(c - 1, j, k);
      ShiftNext(c - 1, k);
    }
  }

  lemma TicketParts(t: nat, o: nat)
    requires o <= MAX_ORDER
    ensures t == Shift(Cycle(t, Pow2(o + 1)), o + 1) + Pos(t, Pow2(o + 1))
    ensures t < TICKETS ==> Cycle(t, Pow2(o + 1)) < Pow2(61 - o)
  {
    var c := Cycle(t, Pow2(o + 1));
    TicketOfPos(t, Pow2(o + 1));
    TicketShift(c, Pos(t, Pow2(o + 1)), o + 1);
    TicketsSplit(o);
    ShiftOrder(Pow2(61 - o), c, o + 1);
  }

  lemma ShiftedTicket(t: Word, o: nat) returns (b: nat, r: nat)
    requires o <= MAX_ORDER && t < TICKETS
    ensures Parts(o, Cycle(t, Pow2(o + 1)), b, r)
    ensures Shl1(t) == Join(o, Cycle(t, Pow2(o + 1)), b, r)
  {
    var p := Pos(t, Pow2(o + 1));
    TicketParts(t, o);
    Apart(2 * p, o + 1);
    b, r := High(2 * p, o + 1), Low(2 * p, o + 1);
    BitBelow(b, r, o);
  }

  /** modup(tail << 1, n) is the key of the ticket's cycle. */
  lemma TicketKey(t: Word, o: nat)
    requires o <= MAX_ORDER && t < TICKETS
    ensures 2 * Pow2(o + 1) <= MODULUS
    ensures ModUp(Shl1(t), Pow2(o + 1)) == Key(o, Cycle(t, Pow2(o + 1)))
  {
    var b, r := ShiftedTicket(t, o);
    ModUpKey(Shl1(t), o, Cycle(t, Pow2(o + 1)), b, r);
  }

  lemma BitBelow(b: nat, r: nat, o: nat)
    requires Shift(b, o + 1) + r < 2 * Pow2(o + 1)
    ensures b < 2
  {
    ShiftNext(0, o + 1);
    ShiftNext(1, o + 1);
    ShiftOrder(2, b, o + 1);
  }

  /** lfring_map(t, n) is the slot of the ticket. */
  lemma TicketMap(t: Word, o: nat)
    requires o <= MAX_ORDER
    ensures Pow2(o + 1) < MODULUS
    ensures RingMap(t, Pow2(o + 1)) == Pos(t, Pow2(o + 1))
  {
    Constants(o);
    var c, p := Cycle(t, Pow2(o + 1)), Pos(t, Pow2(o + 1));
    TicketParts(t, o);
    ShiftNext(0, o + 1);
    Blocks(And, o + 1, t, c, p, Ones(o), 0, Ones(o));
    WithZero(c);
    AndOnes(o + 1, p);
  }

  lemma SignedSubExact(a: int, b: int)
    requires -(MODULUS / 2) <= a - b < MODULUS / 2
    ensures SignedSub(a, b) == a - b
  {
    if a - b >= 0 {
      assert (a - b) % MODULUS == a - b;
    } else {
      assert (a - b) % MODULUS == a - b + MODULUS;
    }
  }

  /** Words below 2^63 compare as numbers. */
  lemma SmallOrder(a: Word, b: Word)
    requires a < MODULUS / 2 && b < MODULUS / 2
    ensures SignedLess(a, b) <==> a < b
    ensures SignedLessEqual(a, b) <==> a <= b
  {
    SignedSubExact(a, b);
  }

  lemma MinusOneFirst(a: Word)
    requires a < MODULUS / 2
    ensures SignedLess(MODULUS - 1, a)
  {
    SignedSubExact(-1, a);
  }

  /** The key of a cycle that a ticket can have is not negative. */
  lemma KeyBound(o: nat, c: nat)
    requires o <= MAX_ORDER && c < Pow2(61 - o)
    ensures Key(o, c) < MODULUS / 2
  {
    TicketsSplit(o);
    TailFits(o, 1, Ones(o));
    ShiftOrder(c, Pow2(61 - o), o + 2);
  }

  lemma KeyGrows(o: nat, q: nat, c: nat)
    requires q < c
    ensures Key(o, q) < Key(o, c)
  {
    ShiftOrder(q, c, o + 2);
  }

  /** All ones is the key of cycle -1. */
  lemma LastKey(o: nat)
    requires o <= MAX_ORDER
    ensures Key(o, Pow2(62 - o) - 1) == MODULUS - 1
  {
    ModulusSplit(o);
    ShiftNext(Pow2(62 - o) - 1, o + 2);
    BitValue(1, o + 1);
  }

  /** lfring_signed_cmp on two keys compares the cycles; cycle -1 is before all tickets. */
  lemma KeyOrder(o: nat, q: nat, c: nat)
    requires o <= MAX_ORDER && q < Pow2(62 - o) && SignedCycle(o, q) >= -1 && c < Pow2(61 - o)
    ensures Key(o, q) < MODULUS && Key(o, c) < MODULUS
    ensures SignedLess(Key(o, q), Key(o, c)) <==> SignedCycle(o, q) < c
    ensures Key(o, q) == Key(o, c) <==> SignedCycle(o, q) == c
  {
    KeyBound(o, c);
    if q < Pow2(61 - o) {
      KeyBound(o, q);
      if q < c { KeyGrows(o, q, c); } else if c < q { KeyGrows(o, c, q); }
      SmallOrder(Key(o, q), Key(o, c));
    } else {
      assert q == Pow2(62 - o) - 1;
      LastKey(o);
      MinusOneFirst(Key(o, c));
    }
  }

  lemma DecodeJoin(o: nat, q: nat, b: nat, r: nat)
    requires Parts(o, q, b, r)
    ensures Join(o, q, b, r) < MODULUS
    ensures Decode(Join(o, q, b, r), o)
         == Slot(SignedCycle(o, q), b == 1, if r == Ones(o) then None else Some(r))
  {
    JoinSplit(o, q, b, r);
  }

  // ---------------------------------------------------------------- decisions and updates

  /** The word stands for a record whose cycle a ticket below 2^62 can have, or for the
      initial word. */
  predicate InRange(w: Word, o: nat)
    requires o <= MAX_ORDER
  {
    Decode(w, o).cycle >= -1
  }

  /** The slot test of an enqueuer, without the look at head: (1) an older cycle and ⊥, safe;
      (2) an older cycle and ⊥, unsafe. */
  lemma EnqueueTest(w: Word, o: nat, c: nat)
    requires o <= MAX_ORDER && InRange(w, o) && c < Pow2(61 - o)
    ensures 2 * Pow2(o + 1) <= MODULUS && Key(o, c) < MODULUS
    ensures var e := Decode(w, o);
            var ecycle := ModUp(w, Pow2(o + 1));
            && (SignedLess(ecycle, Key(o, c)) <==> e.cycle < c)
            && (w == ecycle <==> e.safe && e.entry.None?)
            && (w == BitXor(ecycle, Pow2(o + 1)) <==> !e.safe && e.entry.None?)
  {
    var q, b, r := Cycles(w, o), SafeBit(w, o), Index(w, o);
    Split(w, o);
    ModUpKey(w, o, q, b, r);
    KeyOrder(o, q, c);
    FlipSafe(o, q);
    JoinSplit(o, q, 1, Ones(o));
    JoinSplit(o, q, 0, Ones(o));
  }

  /** The tests of a dequeuer. */
  lemma DequeueTest(w: Word, o: nat, c: nat)
    requires o <= MAX_ORDER && InRange(w, o) && c < Pow2(61 - o)
    ensures 2 * Pow2(o + 1) <= MODULUS && Key(o, c) < MODULUS
    ensures var e := Decode(w, o);
            var ecycle := ModUp(w, Pow2(o + 1));
            && (SignedLess(ecycle, Key(o, c)) <==> e.cycle < c)
            && (ecycle == Key(o, c) <==> e.cycle == c)
            && (BitOr(w, Pow2(o + 1)) != ecycle <==> e.entry.Some?)
            && (w == BitAnd(w, BitNot(Pow2(o + 1))) <==> !e.safe)
  {
    var q, b, r := Cycles(w, o), SafeBit(w, o), Index(w, o);
    Split(w, o);
    ModUpKey(w, o, q, b, r);
    KeyOrder(o, q, c);
    SetSafe(w, o, q, b, r);
    NotSafe(o);
    ClearSafe(w, BitNot(Pow2(o + 1)), o, q, b, r);
    JoinSplit(o, q, 1, r);
    JoinSplit(o, q, 1, Ones(o));
    JoinSplit(o, q, 0, r);
  }

  /** The word an enqueuer writes. */
  lemma InsertDecodes(o: nat, c: nat, x: nat)
    requires o <= MAX_ORDER && c < Pow2(61 - o) && x < Pow2(o)
    ensures Key(o, c) < MODULUS && Ones(o) < MODULUS && x < MODULUS
    ensures Decode(BitXor(Key(o, c), BitXor(x, Ones(o))), o) == Slot(c, true, Some(x))
  {
    InsertIndex(o, c, x);
    DecodeJoin(o, c, 1, x);
  }

  /** The words a dequeuer writes: consumed, marked unsafe, advanced; and the index it reads. */
  lemma ConsumeDecodes(w: Word, o: nat)
    requires o <= MAX_ORDER
    ensures Ones(o) < MODULUS
    ensures Decode(BitOr(w, Ones(o)), o) == Decode(w, o).(entry := None)
  {
    var q, b, r := Cycles(w, o), SafeBit(w, o), Index(w, o);
    Split(w, o);
    ClearIndex(w, o, q, b, r);
    DecodeJoin(o, q, b, Ones(o));
  }

  lemma IndexDecodes(w: Word, o: nat)
    requires o <= MAX_ORDER
    ensures Ones(o) < MODULUS
    ensures BitAnd(w, Ones(o)) == (if Decode(w, o).entry.Some? then Decode(w, o).entry.value else Ones(o))
  {
    Split(w, o);
    ReadIndex(w, o, Cycles(w, o), SafeBit(w, o), Index(w, o));
  }

  lemma UnsafeDecodes(w: Word, o: nat)
    requires o <= MAX_ORDER
    ensures Pow2(o + 1) < MODULUS
    ensures Decode(BitAnd(w, BitNot(Pow2(o + 1))), o) == Decode(w, o).(safe := false)
  {
    var q, b, r := Cycles(w, o), SafeBit(w, o), Index(w, o);
    Split(w, o);
    Constants(o);
    NotSafe(o);
    ClearSafe(w, BitNot(Pow2(o + 1)), o, q, b, r);
    DecodeJoin(o, q, 0, r);
  }

  lemma AdvanceDecodes(w: Word, o: nat, c: nat)
    requires o <= MAX_ORDER && c < Pow2(61 - o)
    ensures Key(o, c) < MODULUS && Pow2(o + 1) < MODULUS
    ensures Decode(BitXor(Key(o, c), BitAnd(BitNot(w), Pow2(o + 1))), o) == Slot(c, Decode(w, o).safe, None)
  {
    var q, b, r := Cycles(w, o), SafeBit(w, o), Index(w, o);
    Split(w, o);
    Constants(o);
    JoinFits(o, c, 1, Ones(o));
    Inverted(w, o, q, b, r);
    SelectSafe(o, BitNot(w), Pow2(62 - o) - 1 - q, 1 - b, Ones(o) - r, Pow2(o + 1));
    AdvanceKeepingSafe(o, c, Key(o, c), b, BitAnd(BitNot(w), Pow2(o + 1)));
    DecodeJoin(o, c, b, Ones(o));
  }
}
