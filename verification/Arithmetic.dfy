/**
 * Division facts on natural numbers, one small nonlinear step each.
 */
module Arithmetic {
  lemma MulPos(m: nat, k: nat)
    requires m > 0 && k > 0
    ensures m * k > 0
  {
  }

  lemma MulMonotone(a: nat, b: nat, u: nat)
    requires a <= b
    ensures a * u <= b * u
  {
  }

  lemma SmallMultiple(d: int, n: nat)
    requires n > 0 && d * n < n && d * n + n > 0
    ensures d == 0
  {
  }

  lemma DivModUnique(x: nat, n: nat, q: nat, r: nat)
    requires n > 0 && x == q * n + r && r < n
    ensures x / n == q && x % n == r
  {
    var have: int, want: int := x / n, q;
    assert x == have * n + x % n;
    assert (have - want) * n == have * n - want * n;
    SmallMultiple(have - want, n);
  }

  function Product(a: nat, b: nat): nat { MulNonNegative(a, b); a * b }

  function Quotient(a: nat, b: nat): nat
    requires b > 0
  {
    QuotientNonNegative(a, b); a / b
  }

  lemma MulNonNegative(a: nat, b: nat)
    ensures a * b >= 0
  {
  }

  lemma QuotientNonNegative(a: nat, b: nat)
    requires b > 0
    ensures a / b >= 0
  {
  }

  /** n rounded down to a multiple of u. */
  function Floor(n: nat, u: nat): nat
    requires u > 0
  {
    Quotient(n, u) * u
  }

  lemma FloorBounds(n: nat, u: nat)
    requires u > 0
    ensures Floor(n, u) <= n < Floor(n, u) + u && n == Floor(n, u) + n % u
  {
  }

  lemma QuotientBelow(n: nat, k: nat, u: nat)
    requires u > 0 && n < k * u
    ensures n / u < k
  {
  }

  lemma QuotientGrows(a: nat, b: nat, u: nat)
    requires a <= b && u > 0
    ensures a / u <= b / u
  {
    FloorBounds(b, u);
    assert (b / u + 1) * u == Floor(b, u) + u;
    QuotientBelow(a, b / u + 1, u);
  }

  lemma FloorGrows(a: nat, b: nat, u: nat)
    requires a <= b && u > 0
    ensures Floor(a, u) <= Floor(b, u)
  {
    QuotientGrows(a, b, u);
    MulMonotone(a / u, b / u, u);
  }

  lemma QuotientShrinks(n: nat, u: nat)
    requires u > 0
    ensures n / u <= n
  {
    FloorBounds(n, u);
    MulMonotone(1, u, n / u);
  }

  lemma ExactQuotient(q: nat, u: nat)
    requires u > 0
    ensures (q * u) / u == q && (q * u) % u == 0
  {
    DivModUnique(q * u, u, q, 0);
  }

  lemma Associates(a: nat, b: nat, c: nat)
    ensures a * (b * c) == (a * b) * c
  {
  }

  lemma Distributes(a: nat, b: nat, u: nat)
    ensures (a + b) * u == a * u + b * u
  {
  }

  lemma Regroup(t: nat, w: nat, r: nat, a: nat, b: nat)
    requires w < b && r < a
    ensures (t * b + w) * a + r == t * (b * a) + (w * a + r)
    ensures w * a + r < b * a
  {
    Distributes(t * b, w, a);
    Associates(t, b, a);
    MulMonotone(w + 1, b, a);
    Distributes(w, 1, a);
  }

  /** Dividing by a and then by b is dividing by b * a. */
  lemma DivideTwice(n: nat, a: nat, b: nat)
    requires a > 0 && b > 0
    ensures b * a > 0 && (n / a) / b == n / (b * a)
  {
    MulPos(b, a);
    var q, r := n / a, n % a;
    FloorBounds(n, a);
    FloorBounds(q, b);
    Regroup(q / b, q % b, r, a, b);
    DivModUnique(n, b * a, q / b, (q % b) * a + r);
  }

  /** Rounding down to u can be done behind a multiple of u. */
  lemma FloorInParts(n: nat, k: nat, u: nat)
    requires k > 0 && u > 0
    ensures k * u > 0 && Floor(n, u) == Floor(n, k * u) + Floor(n % (k * u), u)
  {
    MulPos(k, u);
    var q, r := n / (k * u), n % (k * u);
    Associates(q, k, u);
    Distributes(q * k, r / u, u);
    DivModUnique(n, u, q * k + r / u, r % u);
  }
}
