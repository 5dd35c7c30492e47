/** Small facts about multiplication, division and remainder on naturals. */
module Arith {

  /** Euclidean division is unique. */
  lemma DivModUnique(n: int, a: int, q: int, r: int)
    requires a > 0 && 0 <= r < a && n == q * a + r
    ensures n / a == q && n % a == r
  {
    var q', r' := n / a, n % a;
    var d := q - q';
    assert d * a == r' - r;
  }

  lemma MulMod(q: nat, a: nat)
    requires a > 0
    ensures (q * a) % a == 0
  {
    DivModUnique(q * a, a, q, 0);
  }

  lemma MulMono(x: nat, y: nat, m: nat)
    requires x <= y
    ensures x * m <= y * m
  {
    assert y * m == x * m + (y - x) * m;
  }

  lemma MulSucc(x: nat, m: nat)
    ensures (x + 1) * m == x * m + m
  {
  }

  /** For a positive factor, multiplication preserves and reflects strict order. */
  lemma MulStrict(x: nat, y: nat, m: nat)
    requires m > 0
    ensures x < y <==> x * m < y * m
  {
    if x < y {
      assert y * m == x * m + (y - x) * m;
    } else {
      assert x * m == y * m + (x - y) * m;
    }
  }
}
