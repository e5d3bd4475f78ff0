/**
 * Single bits of natural numbers, and the division facts they need.
 */
module Bits {
  import opened Words

  predicate BitSet(x: nat, b: nat) { (x / Pow2(b)) % 2 == 1 }

  lemma {:induction false} PowSplit(a: nat, b: nat)
    ensures Pow2(a + b) == Pow2(a) * Pow2(b)
  {
    if a > 0 {
      PowSplit(a - 1, b);
      assert a + b - 1 == a - 1 + b;
    }
  }

  lemma AtLeast(a: nat, b: nat)
    requires a >= 1
    ensures a * b >= b
  {
  }

  lemma DivExact(a: nat, b: nat)
    requires b > 0
    ensures (a * b) / b == a
  {
    DivBetween(a * b, b, a);
  }

  lemma MulMono(a: nat, b: nat, c: nat)
    requires a <= b
    ensures a * c <= b * c
  {
  }

  lemma DivBetween(x: nat, y: nat, q: nat)
    requires y > 0 && q * y <= x < q * y + y
    ensures x / y == q
  {
    var r := x / y;
    assert r * y <= x < r * y + y;
    if r < q {
      MulMono(r + 1, q, y);
    } else if q < r {
      MulMono(q + 1, r, y);
    }
  }
}
