/** Facts about quotients and remainders by a variable divisor. */
module Arithmetic {
  lemma Product(a: nat, b: nat)
    ensures a * b >= 0
  {
  }

  /** Quotient and remainder are unique. */
  lemma QuotientUnique(d: nat, q1: int, r1: int, q2: int, r2: int)
    requires 0 <= r1 < d && 0 <= r2 < d && q1 * d + r1 == q2 * d + r2
    ensures q1 == q2 && r1 == r2
  {
    Apart(d, q1, q2);
    Apart(d, q2, q1);
  }

  lemma Apart(d: nat, p: int, q: int)
    ensures p < q ==> p * d + d <= q * d
  {
    if p < q {
      Product(q - p - 1, d);
      assert (q - p - 1) * d == q * d - p * d - d;
    }
  }

  lemma DivUnique(x: int, d: nat, q: int, r: int)
    requires 0 <= r < d && x == q * d + r
    ensures x / d == q && x % d == r
  {
    assert x == (x / d) * d + x % d;
    QuotientUnique(d, x / d, x % d, q, r);
  }

  lemma DivTwice(i: nat, d: nat)
    requires d > 0
    ensures d * d > 0 && i / (d * d) == i / d / d
  {
    var q, r := i / d, i % d;
    var p, t := q / d, q % d;
    assert i == q * d + r && q == p * d + t;
    assert (p * d + t) * d == p * (d * d) + t * d;
    Apart(d, t, d);
    DivUnique(i, d * d, p, t * d + r);
  }

  lemma SameSplit(d: nat, i: nat, j: nat)
    requires d > 0
    ensures i / d == j / d && i % d == j % d <==> i == j
    ensures i % d < d
  {
  }

  lemma QuotRem(x: nat, d: nat)
    requires d > 0
    ensures x == (x / d) * d + x % d && x % d < d
  {
  }

  lemma DivBelow(x: nat, d: nat, m: nat)
    requires d > 0
    ensures x < m * d <==> x / d < m
  {
    QuotRem(x, d);
    Apart(d, x / d, m);
    Apart(d, m - 1, x / d);
    assert (m - 1) * d == m * d - d;
  }

  lemma DropOne(x: nat, d: nat, k: nat)
    requires d > 0 && x >= k * d
    ensures (x - k * d) / d == x / d - k
  {
    QuotRem(x, d);
    assert (x / d - k) * d == (x / d) * d - k * d;
    DivUnique(x - k * d, d, x / d - k, x % d);
  }

  function Pow2(n: nat): (r: nat)
    ensures r > 0
  {
    if n == 0 then 1 else 2 * Pow2(n - 1)
  }

  lemma {:induction false} Pow2Adds(m: nat, n: nat)
    ensures Pow2(m + n) == Pow2(m) * Pow2(n)
  {
    if m > 0 {
      Pow2Adds(m - 1, n);
      Regroup(2, Pow2(m - 1), Pow2(n));
    }
  }

  lemma Regroup(a: nat, b: nat, c: nat)
    ensures a * (b * c) == (a * b) * c
  {
  }

  /** A remainder by a multiple of `d` has the same remainder by `d`. */
  lemma ModMod(x: nat, d: nat, c: nat)
    requires d > 0 && c > 0
    ensures d * c > 0 && x % (d * c) % d == x % d
  {
    Apart(d, 0, c);
    var q, r := x / (d * c), x % (d * c);
    assert x == q * (d * c) + r;
    QuotRem(r, d);
    assert q * (d * c) == (q * c) * d;
    assert x == (q * c + r / d) * d + r % d;
    DivUnique(x, d, q * c + r / d, r % d);
  }

  /** Numbers with the same remainder differ by a multiple. */
  lemma SameMod(a: nat, b: nat, d: nat)
    requires d > 0 && a % d == b % d && a <= b
    ensures (b - a) % d == 0 && (a < b ==> b - a >= d)
  {
    QuotRem(a, d);
    QuotRem(b, d);
    assert b - a == (b / d - a / d) * d;
    DivUnique(b - a, d, b / d - a / d, 0);
    Apart(d, a / d, b / d);
    Apart(d, b / d, a / d);
  }

  lemma AddMod(a: nat, d: nat)
    requires d > 0
    ensures (a + d) % d == a % d
  {
    QuotRem(a, d);
    assert a + d == (a / d + 1) * d + a % d;
    DivUnique(a + d, d, a / d + 1, a % d);
  }
}
