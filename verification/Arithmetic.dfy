/** Multiplication facts the pricing and interest proofs rest on, one small step each. */
module Arithmetic {

  lemma ProductIsNat(a: nat, b: nat)
    ensures 0 <= a * b
  {
  }

  lemma MulMono(a: int, b: int, c: nat)
    requires a <= b
    ensures a * c <= b * c
  {
  }

  lemma MulStrict(a: int, b: int, c: int)
    requires a < b && c > 0
    ensures a * c < b * c
  {
  }

  lemma MulCancel(a: int, b: int, c: int)
    requires c > 0 && a * c <= b * c
    ensures a <= b
  {
    if a > b {
      MulStrict(b, a, c);
    }
  }

  lemma MulCancelStrict(a: int, b: int, c: int)
    requires c > 0 && a * c < b * c
    ensures a < b
  {
    if a >= b {
      MulMono(b, a, c);
    }
  }

  lemma Distribute(a: int, b: int, c: int)
    ensures (a + b) * c == a * c + b * c
    ensures (a - b) * c == a * c - b * c
    ensures c * (a + b) == c * a + c * b
    ensures c * (a - b) == c * a - c * b
  {
  }

  /** `a * b / d`, on integers wide enough for the product. */
  function MulDiv(a: nat, b: nat, d: nat): nat
    requires d > 0
  {
    ProductIsNat(a, b);
    a * b / d
  }

  /** The quotient is the product divided by `d`, rounded down. */
  lemma MulDivBounds(a: nat, b: nat, d: nat)
    requires d > 0
    ensures MulDiv(a, b, d) * d <= a * b < MulDiv(a, b, d) * d + d
  {
    var n := a * b;
    assert n == n / d * d + n % d;
  }

  /** The rounded-down quotient is the only number those bounds allow. */
  lemma MulDivUnique(a: nat, b: nat, d: nat, q: nat)
    requires d > 0 && q * d <= a * b < q * d + d
    ensures MulDiv(a, b, d) == q
  {
    var m := MulDiv(a, b, d);
    MulDivBounds(a, b, d);
    Distribute(m, 1, d);
    Distribute(q, 1, d);
    MulCancelStrict(m, q + 1, d);
    MulCancelStrict(q, m + 1, d);
  }
}
