/** Integer quotients, rounding, and the order of products. */
module Arithmetic {

  function Min(a: int, b: int): int {
    if a < b then a else b
  }

  function Max(a: int, b: int): int {
    if a < b then b else a
  }

  function RoundHalfAway(x: real): int {
    if x >= 0.0 then (x + 0.5).Floor else -((-x + 0.5).Floor)
  }

  function Product(a: nat, b: nat): nat {
    a * b
  }

  function Quotient(a: nat, n: nat): nat
    requires n > 0
  {
    a / n
  }

  lemma DivBounds(a: nat, n: nat)
    requires n > 0
    ensures n * (a / n) <= a < n * (a / n) + n
  {
  }

  lemma DivAtMost(a: nat, n: nat, k: nat)
    requires n > 0 && a < n * k + n
    ensures a / n <= k
  {
    DivBounds(a, n);
    if a / n > k {
      MulMonotone(k + 1, a / n, n);
    }
  }

  lemma MulMonotone(x: nat, y: nat, n: nat)
    requires x <= y
    ensures n * x <= n * y
  {
  }

  lemma DivAtLeast(a: nat, n: nat, k: nat)
    requires n > 0 && n * k <= a
    ensures k <= a / n
  {
    DivBounds(a, n);
    if a / n < k {
      MulMonotone(a / n + 1, k, n);
    }
  }

  lemma Scale(n: real, a: real, b: real)
    requires 0.0 <= n && a <= b
    ensures n * a <= n * b
  {
    assert n * (b - a) >= 0.0;
    assert n * (b - a) == n * b - n * a;
  }
}
