/**
 * The bitwise operators of C on unsigned words, as functions on natural
 * numbers, and how they act on numbers put together from digits.
 */
module Bits {
  import opened Arithmetic

  function Pow2(k: nat): (p: nat)
    ensures p > 0
  {
    if k == 0 then 1 else 2 * Pow2(k - 1)
  }

  lemma {:induction false} Pow2Sum(a: nat, b: nat)
    ensures Pow2(a + b) == Pow2(a) * Pow2(b)
  {
    if a > 0 {
      Pow2Sum(a - 1, b);
      Associates(2, Pow2(a - 1), Pow2(b));
    }
  }

  /** The operator f on every bit of a and b. */
  function Bitwise(f: (bool, bool) -> bool, a: nat, b: nat): nat
    requires !f(false, false)
    decreases a + b
  {
    if a == 0 && b == 0 then 0
    else 2 * Bitwise(f, a / 2, b / 2) + Bit(f(a % 2 == 1, b % 2 == 1))
  }

  function Bit(b: bool): nat { if b then 1 else 0 }

  predicate Either(x: bool, y: bool) { x || y }

  predicate Both(x: bool, y: bool) { x && y }

  predicate Differ(x: bool, y: bool) { x != y }

  predicate First(x: bool, y: bool) { x && !y }

  /** a | b, a & b, a ^ b and a & ~b. */
  function Or(a: nat, b: nat): nat { Bitwise(Either, a, b) }

  function And(a: nat, b: nat): nat { Bitwise(Both, a, b) }

  function Xor(a: nat, b: nat): nat { Bitwise(Differ, a, b) }

  function AndNot(a: nat, b: nat): nat { Bitwise(First, a, b) }

  lemma Unfold(f: (bool, bool) -> bool, a: nat, b: nat)
    requires !f(false, false)
    ensures Bitwise(f, a, b) == 2 * Bitwise(f, a / 2, b / 2) + Bit(f(a % 2 == 1, b % 2 == 1))
  {
  }

  lemma Halved(q: nat, p: nat, r: nat)
    ensures (q * (2 * p) + r) / 2 == q * p + r / 2 && (q * (2 * p) + r) % 2 == r % 2
  {
    assert q * (2 * p) == 2 * (q * p);
  }

  lemma Doubled(x: nat, p: nat, y: nat)
    ensures 2 * (x * p + y) == x * (2 * p) + 2 * y
  {
  }

  /** The operators act on the digits of base 2^k one by one. */
  lemma {:induction false} Split(f: (bool, bool) -> bool, k: nat, q: nat, r: nat, c: nat, d: nat)
    requires !f(false, false) && r < Pow2(k) && d < Pow2(k)
    ensures Bitwise(f, Product(q, Pow2(k)) + r, Product(c, Pow2(k)) + d) == Product(Bitwise(f, q, c), Pow2(k)) + Bitwise(f, r, d)
    ensures Bitwise(f, r, d) < Pow2(k)
  {
    if k > 0 {
      var p := Pow2(k - 1);
      var a, b := Product(q, 2 * p) + r, Product(c, 2 * p) + d;
      Halved(q, p, r);
      Halved(c, p, d);
      Split(f, k - 1, q, r / 2, c, d / 2);
      Doubled(Bitwise(f, q, c), p, Bitwise(f, r / 2, d / 2));
      Unfold(f, a, b);
      Unfold(f, r, d);
    }
  }

  /** The last bit. */
  lemma SplitLast(f: (bool, bool) -> bool, q: nat, b: nat, c: nat, d: nat)
    requires !f(false, false) && b < 2 && d < 2
    ensures Bitwise(f, 2 * q + b, 2 * c + d) == 2 * Bitwise(f, q, c) + Bitwise(f, b, d) && Bitwise(f, b, d) < 2
  {
    Unfold(f, 2 * q + b, 2 * c + d);
    Unfold(f, b, d);
  }

  lemma {:induction false} WithZero(x: nat)
    ensures Or(x, 0) == Or(0, x) == Xor(x, 0) == Xor(0, x) == AndNot(x, 0) == x
    ensures And(x, 0) == And(0, x) == AndNot(0, x) == 0
  {
    if x > 0 { WithZero(x / 2); }
  }

  /** With the mask of k ones. */
  lemma {:induction false} WithOnes(x: nat, k: nat)
    requires x < Pow2(k)
    ensures Or(x, Pow2(k) - 1) == Pow2(k) - 1 && And(x, Pow2(k) - 1) == x && AndNot(x, Pow2(k) - 1) == 0
    ensures Xor(x, Pow2(k) - 1) == Xor(Pow2(k) - 1, x) == Pow2(k) - 1 - x
  {
    if k > 0 { WithOnes(x / 2, k - 1); }
  }

  /** x & (2^k - 1) and x & ~(2^k - 1). */
  lemma LowBits(x: nat, k: nat)
    ensures And(x, Pow2(k) - 1) == x % Pow2(k) && AndNot(x, Pow2(k) - 1) == Floor(x, Pow2(k))
  {
    hide Bitwise, Pow2;
    var q, r := Quotient(x, Pow2(k)), x % Pow2(k);
    FloorBounds(x, Pow2(k));
    WithZero(q);
    WithOnes(r, k);
    Split(Both, k, q, r, 0, Pow2(k) - 1);
    Split(First, k, q, r, 0, Pow2(k) - 1);
  }

  /** The or of numbers that share no digit is their sum. */
  lemma OrIsSum(k: nat, high: nat, low: nat)
    requires low < Pow2(k)
    ensures Or(Product(high, Pow2(k)), low) == Or(low, Product(high, Pow2(k))) == Product(high, Pow2(k)) + low
  {
    hide Bitwise, Pow2;
    WithZero(high);
    WithZero(low);
    Split(Either, k, high, 0, 0, low);
    Split(Either, k, 0, low, high, 0);
  }
}
