/** Fixed-width integer helpers: powers of two, the bitwise "or" and 64-bit wrap-around. */
module Bits {

  const TWO_63: int := 0x8000_0000_0000_0000
  const TWO_64: int := 0x1_0000_0000_0000_0000

  function Pow2(k: nat): (p: int)
    ensures p >= 1
  {
    if k == 0 then 1 else 2 * Pow2(k - 1)
  }

  lemma {:induction false} Pow2Add(a: nat, b: nat)
    ensures Pow2(a + b) == Pow2(a) * Pow2(b)
  {
    if b == 0 {
    } else {
      Pow2Add(a, b - 1);
      calc {
        Pow2(a + b);
        2 * Pow2(a + (b - 1));
        2 * (Pow2(a) * Pow2(b - 1));
        Pow2(a) * (2 * Pow2(b - 1));
      }
    }
  }

  /** Bitwise "or" of two non-negative integers, bit by bit from the lowest. */
  function Or(a: nat, b: nat): nat
    decreases a + b
  {
    if a == 0 && b == 0 then 0
    else (if a % 2 == 1 || b % 2 == 1 then 1 else 0) + 2 * Or(a / 2, b / 2)
  }

  lemma {:induction false} OrZero(a: nat)
    ensures Or(0, a) == a
  {
    if a > 0 {
      OrZero(a / 2);
    }
  }

  /** Bits below position k and bits from position k on do not overlap, so "or" adds them. */
  lemma {:induction false} OrDisjoint(low: nat, k: nat, high: nat)
    requires low < Pow2(k)
    ensures Or(low, high * Pow2(k)) == low + high * Pow2(k)
  {
    if k == 0 {
      OrZero(high);
    } else {
      var shifted := high * Pow2(k);
      var half := high * Pow2(k - 1);
      assert shifted == 2 * half by {
        assert Pow2(k) == 2 * Pow2(k - 1);
      }
      OrDisjoint(low / 2, k - 1, high);
      assert shifted / 2 == half && shifted % 2 == 0;
      assert Or(low, shifted) == (if low % 2 == 1 then 1 else 0) + 2 * Or(low / 2, half);
    }
  }

  /** Two's-complement 64-bit value of an integer. */
  function Wrap64(x: int): (w: int)
    ensures -TWO_63 <= w < TWO_63
    ensures -TWO_63 <= x < TWO_63 ==> w == x
  {
    (x + TWO_63) % TWO_64 - TWO_63
  }
}
