/** Bitwise or, and, exclusive or on natural numbers of any width, and how they act on
    numbers that are put together from blocks of bits. */
module Bitwise {

  function Pow2(k: nat): (p: nat)
    ensures p >= 1
  {
    if k == 0 then 1 else 2 * Pow2(k - 1)
  }

  datatype Gate = Or | And | Xor

  predicate Fires(g: Gate, a: bool, b: bool) {
    match g
    case Or => a || b
    case And => a && b
    case Xor => a != b
  }

  function Bits(g: Gate, a: nat, b: nat): nat
    decreases a + b
  {
    if a == 0 && b == 0 then 0
    else (if Fires(g, a % 2 == 1, b % 2 == 1) then 1 else 0) + 2 * Bits(g, a / 2, b / 2)
  }

  lemma Unroll(g: Gate, a: nat, i: nat, b: nat, j: nat)
    requires i < 2 && j < 2
    ensures Bits(g, 2 * a + i, 2 * b + j) == (if Fires(g, i == 1, j == 1) then 1 else 0) + 2 * Bits(g, a, b)
  {
    assert (2 * a + i) / 2 == a && (2 * a + i) % 2 == i;
    assert (2 * b + j) / 2 == b && (2 * b + j) % 2 == j;
  }

  /** h shifted left by k bits, that is h * 2^k. */
  function Shift(h: nat, k: nat): nat {
    if k == 0 then h else 2 * Shift(h, k - 1)
  }

  lemma {:induction false} ShiftIsProduct(h: nat, k: nat)
    ensures Shift(h, k) == h * Pow2(k)
  {
    if k > 0 {
      ShiftIsProduct(h, k - 1);
      Doubled(h, Pow2(k - 1));
    }
  }

  lemma Doubled(h: nat, p: nat)
    ensures h * (2 * p) == 2 * (h * p)
  {
  }

  /** Bitwise operations act block by block: v and w consist of high parts above k low bits. */
  lemma {:induction false} Blocks(g: Gate, k: nat, v: nat, h1: nat, l1: nat, w: nat, h2: nat, l2: nat)
    requires l1 < Pow2(k) && l2 < Pow2(k) && v == Shift(h1, k) + l1 && w == Shift(h2, k) + l2
    ensures Bits(g, v, w) == Shift(Bits(g, h1, h2), k) + Bits(g, l1, l2)
    ensures Bits(g, l1, l2) < Pow2(k)
  {
    if k > 0 {
      Blocks(g, k - 1, v / 2, h1, l1 / 2, w / 2, h2, l2 / 2);
      Unroll(g, l1 / 2, l1 % 2, l2 / 2, l2 % 2);
      Unroll(g, v / 2, v % 2, w / 2, w % 2);
    } else {
      assert Bits(g, l1, l2) == 0;
    }
  }

  /** One operand is all ones. */
  lemma {:induction false} OrOnes(k: nat, l: nat)
    requires l < Pow2(k)
    ensures Bits(Or, l, Pow2(k) - 1) == Pow2(k) - 1
  {
    if k > 0 {
      OrOnes(k - 1, l / 2);
      Unroll(Or, l / 2, l % 2, Pow2(k - 1) - 1, 1);
    }
  }

  lemma {:induction false} AndOnes(k: nat, l: nat)
    requires l < Pow2(k)
    ensures Bits(And, l, Pow2(k) - 1) == l
  {
    if k > 0 {
      AndOnes(k - 1, l / 2);
      Unroll(And, l / 2, l % 2, Pow2(k - 1) - 1, 1);
    }
  }

  lemma {:induction false} XorOnes(k: nat, l: nat)
    requires l < Pow2(k)
    ensures Bits(Xor, l, Pow2(k) - 1) == Pow2(k) - 1 - l
  {
    if k > 0 {
      XorOnes(k - 1, l / 2);
      Unroll(Xor, l / 2, l % 2, Pow2(k - 1) - 1, 1);
    }
  }

  lemma {:induction false} Commutes(g: Gate, a: nat, b: nat)
    ensures Bits(g, a, b) == Bits(g, b, a)
    decreases a + b
  {
    if a > 0 || b > 0 { Commutes(g, a / 2, b / 2); }
  }

  /** One operand is zero. */
  lemma {:induction false} WithZero(l: nat)
    ensures Bits(Or, l, 0) == l && Bits(And, l, 0) == 0 && Bits(Xor, l, 0) == l
    ensures Bits(Or, 0, l) == l && Bits(And, 0, l) == 0 && Bits(Xor, 0, l) == l
  {
    if l > 0 {
      WithZero(l / 2);
      Unroll(Or, l / 2, l % 2, 0, 0);
      Unroll(And, l / 2, l % 2, 0, 0);
      Unroll(Xor, l / 2, l % 2, 0, 0);
      Unroll(Or, 0, 0, l / 2, l % 2);
      Unroll(And, 0, 0, l / 2, l % 2);
      Unroll(Xor, 0, 0, l / 2, l % 2);
    }
  }

  // ---------------------------------------------------------------- taking numbers apart

  function High(w: nat, k: nat): nat { if k == 0 then w else High(w / 2, k - 1) }

  function Low(w: nat, k: nat): nat { if k == 0 then 0 else w % 2 + 2 * Low(w / 2, k - 1) }

  lemma {:induction false} Apart(w: nat, k: nat)
    ensures w == Shift(High(w, k), k) + Low(w, k) && Low(w, k) < Pow2(k)
  {
    if k > 0 { Apart(w / 2, k - 1); }
  }

  lemma {:induction false} Together(h: nat, l: nat, k: nat)
    requires l < Pow2(k)
    ensures High(Shift(h, k) + l, k) == h && Low(Shift(h, k) + l, k) == l
  {
    if k > 0 {
      assert (Shift(h, k) + l) / 2 == Shift(h, k - 1) + l / 2;
      Together(h, l / 2, k - 1);
    }
  }

  lemma {:induction false} ShiftOrder(a: nat, b: nat, k: nat)
    ensures a < b ==> Shift(a, k) + Pow2(k) <= Shift(b, k)
    ensures a == b ==> Shift(a, k) == Shift(b, k)
  {
    if k > 0 { ShiftOrder(a, b, k - 1); }
  }

  lemma {:induction false} ShiftNext(a: nat, k: nat)
    ensures Shift(a + 1, k) == Shift(a, k) + Pow2(k) && Shift(0, k) == 0
  {
    if k > 0 { ShiftNext(a, k - 1); }
  }

  lemma {:induction false} ShiftOfPow2(m: nat, k: nat)
    ensures Shift(Pow2(m), k) == Pow2(m + k)
  {
    if k > 0 { ShiftOfPow2(m, k - 1); }
  }

  lemma {:induction false} ShiftSum(a: nat, b: nat, k: nat)
    ensures Shift(a + b, k) == Shift(a, k) + Shift(b, k)
  {
    if k > 0 { ShiftSum(a, b, k - 1); }
  }

  lemma {:induction false} Pow2Add(a: nat, b: nat)
    ensures Pow2(a + b) == Pow2(a) * Pow2(b)
  {
    if a > 0 {
      Pow2Add(a - 1, b);
      assert Pow2(a) * Pow2(b) == 2 * (Pow2(a - 1) * Pow2(b));
    }
  }
}
