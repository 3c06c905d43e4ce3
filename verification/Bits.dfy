/** Bitwise operations on unbounded natural numbers. */
module Bits {

  function Pow2(k: nat): (p: nat)
    ensures p >= 1
  {
    if k == 0 then 1 else 2 * Pow2(k - 1)
  }

  /** a | b */
  function Or(a: nat, b: nat): nat
    decreases a + b
  {
    if a == 0 && b == 0 then 0 else 2 * Or(a / 2, b / 2) + if a % 2 == 1 || b % 2 == 1 then 1 else 0
  }

  /** n << k */
  function ShiftLeft(n: nat, k: nat): nat {
    n * Pow2(k)
  }

  lemma {:induction false} OrZero(a: nat)
    ensures Or(a, 0) == a
  {
    if a != 0 {
      OrZero(a / 2);
    }
  }

  lemma TimesPow2(a: nat, k: nat)
    requires k > 0
    ensures a * Pow2(k) / 2 == a * Pow2(k - 1) && a * Pow2(k) % 2 == 0
  {
    assert a * Pow2(k) == 2 * (a * Pow2(k - 1));
  }

  /** Where the operands have no bit in common, a | b is a + b. */
  lemma {:induction false} OrDisjoint(a: nat, k: nat, b: nat)
    requires b < Pow2(k)
    ensures Or(ShiftLeft(a, k), b) == ShiftLeft(a, k) + b
  {
    if k == 0 {
      OrZero(a);
    } else {
      TimesPow2(a, k);
      OrDisjoint(a, k - 1, b / 2);
    }
  }

  lemma {:induction false} Pow2Adds(j: nat, k: nat)
    ensures Pow2(j + k) == Pow2(j) * Pow2(k)
  {
    if j != 0 {
      Pow2Adds(j - 1, k);
    }
  }
}
