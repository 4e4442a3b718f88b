/** Bitwise operators on natural numbers, for code that packs two fields into one word. */
module Bits {

  function Pow2(n: nat): (p: nat)
    ensures p > 0
  {
    if n == 0 then 1 else 2 * Pow2(n - 1)
  }

  /** `a | b`, bit by bit. */
  function Or(a: nat, b: nat): nat
    decreases a + b
  {
    if a == 0 then b else if b == 0 then a
    else 2 * Or(a / 2, b / 2) + if a % 2 == 1 || b % 2 == 1 then 1 else 0
  }

  /** A field shifted past another one does not overlap it, so `|` is `+`. */
  lemma {:induction false} OrOfDisjoint(high: nat, low: nat, n: nat)
    requires low < Pow2(n)
    ensures Or(high * Pow2(n), low) == high * Pow2(n) + low
  {
    var a := high * Pow2(n);
    if n > 0 && a != 0 && low != 0 {
      var h := high * Pow2(n - 1);
      assert a == 2 * h;
      OrOfDisjoint(high, low / 2, n - 1);
    }
  }
}
