/** Powers of two and the few products the numeric modules need. */
module Arithmetic {

  /** One more than the largest 32-bit and 64-bit unsigned integers. */
  const U32: nat := 0x1_0000_0000
  const U64: nat := 0x1_0000_0000_0000_0000

  function Pow2(k: nat): (p: nat)
    ensures p >= 1
  {
    if k == 0 then 1 else 2 * Pow2(k - 1)
  }

  function Min(a: nat, b: nat): nat { if a <= b then a else b }
  function Max(a: nat, b: nat): nat { if a >= b then a else b }
  function Dist(a: nat, b: nat): nat { if a <= b then b - a else a - b }

  lemma {:induction false} Pow2Grows(a: nat, b: nat)
    requires a <= b
    ensures Pow2(a) <= Pow2(b)
  {
    if a < b { Pow2Grows(a, b - 1); }
  }

  lemma {:induction false} Pow2Adds(a: nat, b: nat)
    ensures Pow2(a + b) == Pow2(a) * Pow2(b)
  {
    if b > 0 {
      Pow2Adds(a, b - 1);
      assert Pow2(a + b) == 2 * Pow2(a + b - 1);
      assert Pow2(b) == 2 * Pow2(b - 1);
      Regroup(Pow2(a), Pow2(b - 1));
    }
  }

  lemma Regroup(a: nat, b: nat)
    ensures 2 * (a * b) == a * (2 * b)
  {}

  lemma Cancel(s: nat, a: int, b: int)
    requires s >= 1 && s * a <= s * b
    ensures a <= b
  {
    assert s * (a - b) == s * a - s * b;
  }

  lemma Scale(s: nat, a: nat, b: nat)
    requires a <= b
    ensures a * s <= b * s
  {}

  lemma Reassociate(a: nat, b: nat, c: nat)
    ensures a * (c * b) == (a * b) * c
  {}

  lemma Product(a: nat, b: nat, c: nat, d: nat)
    requires a <= b && c <= d
    ensures a * c <= b * d
  {
    Scale(c, a, b);
    Scale(b, c, d);
  }
}
