/**
 * __lfring_raw_map (lfring_cas1.h) and __lfring_map (lfring_naive.h): the slot
 * of a position, a rotation of the position's low bits that spreads
 * neighbouring positions over cache lines.  A ring of n == m * k slots has
 * m == 2^LFRING_MIN words to a cache line and k lines.
 */
module RingMap {
  import opened Arithmetic
  import opened Bits

  /** The shift, mask and or of the source, as arithmetic. */
  function Map(idx: nat, m: nat, k: nat): nat
    requires m > 0 && k > 0
  {
    MulPos(m, k);
    (idx % (m * k)) / k + (idx * m) % (m * k)
  }

  /** The position below n that Map sends to slot j. */
  function Unmap(j: nat, m: nat, k: nat): nat
    requires m > 0 && k > 0
  {
    (j % m) * k + j / m
  }

  /** A two-digit number is below m * k. */
  lemma TwoDigits(a: nat, b: nat, m: nat, k: nat)
    requires a < m && b < k
    ensures a * k + b < m * k
  {
    assert (a + 1) * k <= m * k;
    assert (a + 1) * k == a * k + k;
  }

  lemma ShiftDigits(q: nat, a: nat, b: nat, m: nat, k: nat)
    ensures (q * (m * k) + (a * k + b)) * m == (q * m + a) * (m * k) + b * m
  {
  }

  /** Map swaps the two digits of idx % n. */
  lemma MapDigits(idx: nat, m: nat, k: nat, q: nat, a: nat, b: nat)
    requires m > 0 && k > 0 && a < m && b < k && idx == q * (m * k) + (a * k + b)
    ensures Map(idx, m, k) == a + b * m
    ensures b * m + a < m * k
  {
    var n := m * k;
    MulPos(m, k);
    TwoDigits(a, b, m, k);
    TwoDigits(b, a, k, m);
    assert k * m == n;
    DivModUnique(idx, n, q, a * k + b);
    DivModUnique(a * k + b, k, a, b);
    ShiftDigits(q, a, b, m, k);
    DivModUnique(idx * m, n, q * m + a, b * m);
  }

  lemma FewLines(a: nat, k: nat, m: nat)
    requires a * k < m * k
    ensures a < m
  {
  }

  /** The digits of a position. */
  lemma Digits(idx: nat, m: nat, k: nat) returns (q: nat, a: nat, b: nat)
    requires m > 0 && k > 0
    ensures a < m && b < k && idx == q * (m * k) + (a * k + b)
    ensures idx % (m * k) == a * k + b && q == idx / (m * k)
  {
    MulPos(m, k);
    q := idx / (m * k);
    var r := idx % (m * k);
    a, b := r / k, r % k;
    assert r == a * k + b;
    FewLines(a, k, m);
  }

  /** Map sends every position into the ring, and two positions to one slot
      just when they are congruent: a bijection on any n consecutive ones. */
  lemma MapIsBijective(i: nat, j: nat, m: nat, k: nat)
    requires m > 0 && k > 0
    ensures Map(i, m, k) < m * k
    ensures Map(i, m, k) == Map(j, m, k) <==> i % (m * k) == j % (m * k)
  {
    var qi, ai, bi := Digits(i, m, k);
    var qj, aj, bj := Digits(j, m, k);
    MapDigits(i, m, k, qi, ai, bi);
    MapDigits(j, m, k, qj, aj, bj);
    if Map(i, m, k) == Map(j, m, k) {
      DivModUnique(ai + bi * m, m, bi, ai);
      DivModUnique(aj + bj * m, m, bj, aj);
    } else if i % (m * k) == j % (m * k) {
      DivModUnique(ai * k + bi, k, ai, bi);
      DivModUnique(aj * k + bj, k, aj, bj);
    }
  }

  /** Unmap is the inverse on the first lap. */
  lemma UnmapInverts(i: nat, m: nat, k: nat)
    requires m > 0 && k > 0 && i < m * k
    ensures Unmap(Map(i, m, k), m, k) == i
    ensures Unmap(i, m, k) < m * k && Map(Unmap(i, m, k), m, k) == i
  {
    MulPos(m, k);
    DivModUnique(i, m * k, 0, i);
    var q, a, b := Digits(i, m, k);
    MapDigits(i, m, k, q, a, b);
    DivModUnique(a + b * m, m, b, a);
    UnmapIsSection(i, m, k);
  }

  lemma UnmapIsSection(j: nat, m: nat, k: nat)
    requires m > 0 && k > 0 && j < m * k
    ensures Unmap(j, m, k) < m * k && Map(Unmap(j, m, k), m, k) == j
  {
    var a, b := j % m, j / m;
    assert j == b * m + a;
    FewLines(b, m, k);
    TwoDigits(a, b, m, k);
    MapDigits(a * k + b, m, k, 0, a, b);
  }

  lemma MoreLaps(a: nat, b: nat, r: nat, s: nat, n: nat)
    requires a > b && s < n
    ensures a * n + r > b * n + s
  {
    assert a * n >= (b + 1) * n;
    assert (b + 1) * n == b * n + n;
  }

  /** Laps grow with positions. */
  lemma LapsGrow(p: nat, q: nat, n: nat)
    requires n > 0 && p <= q
    ensures p / n <= q / n
  {
    var a, b := p / n, q / n;
    assert p == a * n + p % n && q == b * n + q % n;
    if a > b { MoreLaps(a, b, p % n, q % n, n); }
  }

  /** Slot and lap together determine the position. */
  lemma SlotAndLap(p: nat, q: nat, m: nat, k: nat)
    requires m > 0 && k > 0
    requires Map(p, m, k) == Map(q, m, k) && p / (m * k) == q / (m * k)
    ensures p == q
  {
    MulPos(m, k);
    var n := m * k;
    MapIsBijective(p, q, m, k);
    assert p == (p / n) * n + p % n && q == (q / n) * n + q % n;
  }

  /** A position has the slot of its image in the first lap. */
  lemma FirstLap(p: nat, m: nat, k: nat) returns (i: nat)
    requires m > 0 && k > 0
    ensures i < m * k && i / (m * k) == 0 && Map(i, m, k) == Map(p, m, k)
  {
    MulPos(m, k);
    i := p % (m * k);
    DivModUnique(i, m * k, 0, i);
    MapIsBijective(i, p, m, k);
  }

  /** One lap on, the slot is the same. */
  lemma NextLap(p: nat, m: nat, k: nat)
    requires m > 0 && k > 0
    ensures m * k > 0 && Map(p + m * k, m, k) == Map(p, m, k) && (p + m * k) / (m * k) == p / (m * k) + 1
  {
    MulPos(m, k);
    var n := m * k;
    var q, r := p / n, p % n;
    assert (q + 1) * n == q * n + n;
    DivModUnique(p + n, n, q + 1, r);
    MapIsBijective(p, p + n, m, k);
  }

  // ----- the bits of the source ------------------------------------------

  /** ((idx & (n - 1)) >> (order - min)) | ((idx << min) & (n - 1)) for n == 2^order,
      in words of the given width. */
  function RawMap(width: nat, min: nat, order: nat, idx: nat): nat
    requires min <= order
  {
    Or(Quotient(And(idx, Pow2(order) - 1), Pow2(order - min)), And(Product(idx, Pow2(min)) % Pow2(width), Pow2(order) - 1))
  }

  /** What a word loses to the left does not matter for its lower bits. */
  lemma TruncatedFirst(x: nat, n: nat, f: nat)
    requires n > 0 && f > 0
    ensures f * n > 0 && (x % (f * n)) % n == x % n
  {
    MulPos(f, n);
    FloorBounds(x, f * n);
    FloorBounds(x % (f * n), n);
    var q, r := Quotient(x, f * n), x % (f * n);
    Associates(q, f, n);
    Distributes(q * f, r / n, n);
    DivModUnique(x, n, q * f + r / n, r % n);
  }

  /** (idx << min) & (n - 1). */
  lemma ShiftedLeft(width: nat, min: nat, order: nat, idx: nat)
    requires order <= width
    ensures And(Product(idx, Pow2(min)) % Pow2(width), Pow2(order) - 1) == Product(idx, Pow2(min)) % Pow2(order)
  {
    hide Bitwise, Pow2;
    Pow2Sum(width - order, order);
    TruncatedFirst(Product(idx, Pow2(min)), Pow2(order), Pow2(width - order));
    LowBits(Product(idx, Pow2(min)) % Pow2(width), order);
  }

  /** The digits of the image. */
  lemma MapParts(idx: nat, m: nat, k: nat, n: nat, q: nat, a: nat, b: nat)
    requires m > 0 && k > 0 && n == m * k && n > 0 && a < m && b < k && idx == q * n + (a * k + b)
    ensures (idx % n) / k == a && (idx * m) % n == b * m && Map(idx, m, k) == a + b * m
  {
    MapDigits(idx, m, k, q, a, b);
    TwoDigits(a, b, m, k);
    DivModUnique(idx, n, q, a * k + b);
    DivModUnique(a * k + b, k, a, b);
  }

  /** The shift, mask and or are the sum of Map: the halves share no bit.  This
      is so for every width, every order of at least LFRING_MIN, and every index. */
  lemma RawMapIsMap(width: nat, min: nat, order: nat, idx: nat)
    requires min <= order <= width
    ensures RawMap(width, min, order, idx) == Map(idx, Pow2(min), Pow2(order - min))
    ensures Pow2(order) == Product(Pow2(min), Pow2(order - min))
  {
    hide Bitwise, Pow2;
    var m, k, n := Pow2(min), Pow2(order - min), Pow2(order);
    Pow2Sum(min, order - min);
    var q, a, b := Digits(idx, m, k);
    MapParts(idx, m, k, n, q, a, b);
    LowBits(idx, order);
    ShiftedLeft(width, min, order, idx);
    OrIsSum(min, b, a);
  }
}
