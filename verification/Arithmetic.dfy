/** Integer division facts, stated so that callers need no non-linear reasoning. */
module Arithmetic {

  function Min(a: int, b: int): int { if a <= b then a else b }
  function Max(a: int, b: int): int { if a >= b then a else b }

  lemma MulAtLeast(a: int, c: int)
    requires a >= 1 && c > 0
    ensures a * c >= c
  {
  }

  lemma DivUnique(x: int, c: int, q: int, r: int)
    requires c > 0 && 0 <= r < c && x == q * c + r
    ensures x / c == q && x % c == r
  {
    var q', r' := x / c, x % c;
    assert x == q' * c + r';
    if q > q' {
      MulAtLeast(q - q', c);
      assert false;
    } else if q < q' {
      MulAtLeast(q' - q, c);
      assert false;
    }
  }

  lemma DivParts(x: nat, c: nat) returns (q: nat, r: nat)
    requires c > 0
    ensures q == x / c && r == x % c && r < c && x == q * c + r
  {
    q, r := x / c, x % c;
  }

  lemma MulOrder(a: int, b: int, c: int)
    requires a <= b && c >= 0
    ensures a * c <= b * c
  {
    if a == b {
    } else if c == 0 {
    } else {
      MulAtLeast(b - a, c);
    }
  }
}
