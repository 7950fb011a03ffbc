/** Small facts about products and remainders. */
module Arithmetic {

  lemma ProductGrows(m: nat, a: int, b: int)
    ensures a < b ==> m * (a + 1) <= m * b
  {
  }

  lemma RemainderUnique(x: nat, m: nat, q: nat, r: nat)
    requires x == r + m * q && r < m
    ensures x % m == r && x / m == q
  {
    ProductGrows(m, x / m, q);
    ProductGrows(m, q, x / m);
    assert x / m == q;
  }

  lemma ScaleProduct(k: nat, p: nat, x: nat)
    ensures k * (p * x) == (k * p) * x
  {
  }
}
