/** Products, powers of two, and quotients by a variable divisor. */
module Arithmetic {

  function Min(a: nat, b: nat): nat { if a <= b then a else b }

  function Pow2(k: nat): (r: nat)
    ensures r > 0
  {
    if k == 0 then 1 else 2 * Pow2(k - 1)
  }

  lemma {:induction false} Pow2Add(a: nat, b: nat)
    ensures Pow2(a + b) == Pow2(a) * Pow2(b)
    decreases a
  {
    if a > 0 {
      Pow2Add(a - 1, b);
      assert Pow2(a + b) == 2 * Pow2(a - 1 + b) && Pow2(a) == 2 * Pow2(a - 1);
      TwiceProduct(Pow2(a - 1), Pow2(b));
    }
  }

  lemma TwiceProduct(x: int, y: int)
    ensures (2 * x) * y == 2 * (x * y)
  {
  }

  lemma Multiples(k: int, q: int, r: nat)
    ensures k < q ==> k * r <= q * r - r
    ensures k >= q ==> k * r >= q * r
    ensures (k + 1) * r == k * r + r
  {
    Distribute(k, 1, r);
    if k < q {
      Distribute(k + 1, q - 1 - k, r);
      NaturalProduct(q - 1 - k, r);
    } else {
      Distribute(q, k - q, r);
      NaturalProduct(k - q, r);
    }
  }

  lemma Distribute(a: int, b: int, r: int)
    ensures (a + b) * r == a * r + b * r
  {
  }

  lemma NaturalProduct(a: nat, b: nat)
    ensures a * b >= 0
  {
  }

  lemma Split(n: int, b: int)
    requires b > 0
    ensures n == (n / b) * b + n % b && 0 <= n % b < b
  {
  }

  lemma Ceiling(n: nat, r: nat)
    requires r > 0
    ensures var q := (n + r - 1) / r; q * r - r < n <= q * r || (n == 0 && q == 0)
  {
    Split(n + r - 1, r);
    if n == 0 {
      Divide(r - 1, r, 0, r - 1);
    }
  }

  /** Quotient and remainder are determined by the sum they make up. */
  lemma Divide(n: int, r: nat, k: int, rest: nat)
    requires rest < r && n == k * r + rest
    ensures n / r == k && n % r == rest
  {
    var q := n / r;
    Split(n, r);
    Multiples(q, k, r);
    Multiples(k, q, r);
  }
}
