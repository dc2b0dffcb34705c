/**
 * The bits of an SCQ slot word.  For n == 2^bits slots the index is in the bits
 * below n, the safe bit is n, and the cycle, a signed number, is above.  The
 * expressions of lfring_cas1.h are written out with the operators of module
 * Bits, for words of any width, and shown to be the tests and the words that
 * module ScqRing uses on (cycle, safe, index), for tickets below an eighth of
 * the range of a word.
 */
module ScqLayout {
  import opened Arithmetic
  import opened Bits
  import opened Options
  import opened ScqRing

  /** A word has the bits of the index, the safe bit, and spare + 2 bits for the
      cycle. */
  datatype Layout = Layout(bits: nat, spare: nat) {
    function N(): (n: nat)
      ensures n > 0
    {
      Pow2(bits)
    }

    /** The words are the numbers below 2^(bits + spare + 3). */
    function Range(): nat { Product(8 * Pow2(spare), N()) }

    /** Tickets below this bound are compared correctly. */
    function Tickets(): nat { Product(Pow2(spare), N()) }
  }

  // ----- the expressions of the source -----------------------------------

  /** x << 1 and x - y, in the width of a word. */
  function Shift(l: Layout, x: nat): nat { if 2 * x < l.Range() then 2 * x else 2 * x - l.Range() }

  function Minus(l: Layout, x: nat, y: nat): int { if x >= y then x - y else x + l.Range() - y }

  /** The sign bit of a word. */
  predicate Negative(l: Layout, x: int) { 2 * x >= l.Range() }

  /** __lfring_cmp(x, <, y) and __lfring_cmp(x, <=, y). */
  predicate Less(l: Layout, x: nat, y: nat) { Negative(l, Minus(l, x, y)) }

  predicate AtMost(l: Layout, x: nat, y: nat) { Negative(l, Minus(l, x, y)) || Minus(l, x, y) == 0 }

  /** ecycle, and tcycle or hcycle. */
  function EntryCycle(l: Layout, entry: nat): nat { Or(entry, 2 * l.N() - 1) }

  function TicketCycle(l: Layout, ticket: nat): nat { Or(Shift(l, ticket), 2 * l.N() - 1) }

  /** What an enqueuer writes. */
  function EnqueueWord(l: Layout, ticket: nat, eidx: nat): nat { Xor(TicketCycle(l, ticket), Xor(eidx, l.N() - 1)) }

  /** entry_new of a dequeuer. */
  function DequeueWord(l: Layout, ticket: nat, entry: nat): nat {
    if Or(entry, l.N()) != EntryCycle(l, entry) then AndNot(entry, l.N())
    else Xor(TicketCycle(l, ticket), AndNot(l.N(), entry))
  }

  // ----- the fields ------------------------------------------------------

  /** The word with the upper bits q, the safe bit b and the lower bits i. */
  function Word(l: Layout, q: nat, b: nat, i: nat): nat { Product(2 * q + b, l.N()) + i }

  function Upper(l: Layout, w: nat): nat { Quotient(w, l.N()) / 2 }

  function SafeBit(l: Layout, w: nat): nat { Quotient(w, l.N()) % 2 }

  function Lower(l: Layout, w: nat): nat { w % l.N() }

  /** The upper bits as a signed number. */
  function Signed(l: Layout, q: nat): int { if q < 2 * Pow2(l.spare) then q else q - 4 * Pow2(l.spare) }

  /** The slot a word stands for. */
  function SlotOf(l: Layout, w: nat): Slot {
    Slot(Signed(l, Upper(l, w)), SafeBit(l, w) == 1, if Lower(l, w) == l.N() - 1 then None else Some(Lower(l, w)))
  }

  /** A word of a cycle that tickets have, or of a negative one. */
  ghost predicate Proper(l: Layout, w: nat) {
    w < l.Range() && (Upper(l, w) < Pow2(l.spare) || Upper(l, w) >= 3 * Pow2(l.spare))
  }

  lemma FieldsOf(l: Layout, q: nat, b: nat, i: nat)
    requires b < 2 && i < l.N()
    ensures var w := Word(l, q, b, i); Upper(l, w) == q && SafeBit(l, w) == b && Lower(l, w) == i
    ensures q < 4 * Pow2(l.spare) <==> Word(l, q, b, i) < l.Range()
  {
    var w := Word(l, q, b, i);
    DivModUnique(w, l.N(), 2 * q + b, i);
    if q < 4 * Pow2(l.spare) {
      MulMonotone(2 * q + b + 1, 8 * Pow2(l.spare), l.N());
      Distributes(2 * q + b, 1, l.N());
    } else {
      MulMonotone(8 * Pow2(l.spare), 2 * q + b, l.N());
    }
  }

  lemma Assembled(l: Layout, w: nat)
    ensures SafeBit(l, w) < 2 && Lower(l, w) < l.N() && w == Word(l, Upper(l, w), SafeBit(l, w), Lower(l, w))
    ensures w < l.Range() <==> Upper(l, w) < 4 * Pow2(l.spare)
  {
    FloorBounds(w, l.N());
    FieldsOf(l, Upper(l, w), SafeBit(l, w), Lower(l, w));
  }

  /** Two words agree when their slots do, so a CAS on the word is a CAS on the
      modelled slot. */
  lemma SlotDeterminesWord(l: Layout, a: nat, b: nat)
    requires a < l.Range() && b < l.Range()
    ensures SlotOf(l, a) == SlotOf(l, b) <==> a == b
  {
    Assembled(l, a);
    Assembled(l, b);
  }

  /** A bitwise operator acts on the three fields one by one. */
  lemma OnFields(l: Layout, f: (bool, bool) -> bool, q: nat, b: nat, i: nat, c: nat, d: nat, j: nat)
    requires !f(false, false) && b < 2 && d < 2 && i < l.N() && j < l.N()
    ensures Bitwise(f, Word(l, q, b, i), Word(l, c, d, j)) == Word(l, Bitwise(f, q, c), Bitwise(f, b, d), Bitwise(f, i, j))
  {
    hide Bitwise, Pow2;
    Split(f, l.bits, 2 * q + b, i, 2 * c + d, j);
    SplitLast(f, q, b, c, d);
  }

  lemma OneBit(b: nat)
    requires b < 2
    ensures Or(b, 1) == 1 && And(b, 0) == 0 && AndNot(b, 1) == 0 && AndNot(1, b) == 1 - b && Xor(1, 1) == 0
    ensures Xor(1, 1 - b) == b
  {
  }

  /** The masks of the source: n, n - 1 and 2 * n - 1. */
  lemma Masks(l: Layout)
    ensures Word(l, 0, 1, 0) == l.N() && Word(l, 0, 0, l.N() - 1) == l.N() - 1 && Word(l, 0, 1, l.N() - 1) == 2 * l.N() - 1
  {
  }

  /** entry | (2 * n - 1), entry | n, entry & ~n, entry | (n - 1), entry & (n - 1). */
  lemma EntryFields(l: Layout, q: nat, b: nat, i: nat)
    requires b < 2 && i < l.N()
    ensures var w := Word(l, q, b, i); var n := l.N();
      && EntryCycle(l, w) == Word(l, q, 1, n - 1)
      && Or(w, n) == Word(l, q, 1, i)
      && AndNot(w, n) == Word(l, q, 0, i)
  {
    hide Bitwise, Pow2;
    var n := l.N();
    Masks(l);
    OneBit(b);
    WithZero(q);
    WithZero(i);
    WithOnes(i, l.bits);
    OnFields(l, Either, q, b, i, 0, 1, n - 1);
    OnFields(l, Either, q, b, i, 0, 1, 0);
    OnFields(l, First, q, b, i, 0, 1, 0);
  }

  lemma IndexMasked(l: Layout, q: nat, b: nat, i: nat)
    requires b < 2 && i < l.N()
    ensures And(Word(l, q, b, i), l.N() - 1) == i
  {
    hide Bitwise, Pow2;
    Masks(l);
    WithZero(q);
    WithZero(b);
    WithOnes(i, l.bits);
    OnFields(l, Both, q, b, i, 0, 0, l.N() - 1);
  }

  lemma IndexErased(l: Layout, q: nat, b: nat, i: nat)
    requires b < 2 && i < l.N()
    ensures Or(Word(l, q, b, i), l.N() - 1) == Word(l, q, b, l.N() - 1)
  {
    hide Bitwise, Pow2;
    Masks(l);
    WithZero(q);
    WithZero(b);
    WithOnes(i, l.bits);
    OnFields(l, Either, q, b, i, 0, 0, l.N() - 1);
  }

  // ----- tickets ---------------------------------------------------------

  /** The cycle word of a ticket has the ticket's quotient by n as its cycle. */
  lemma TicketFields(l: Layout, ticket: nat)
    requires ticket < l.Tickets()
    ensures TicketCycle(l, ticket) == Word(l, Quotient(ticket, l.N()), 1, l.N() - 1)
    ensures Quotient(ticket, l.N()) < Pow2(l.spare)
  {
    var n := l.N();
    var q, r := Quotient(ticket, n), ticket % n;
    FloorBounds(ticket, n);
    QuotientBelow(ticket, Pow2(l.spare), n);
    RangeIsTickets(l);
    Doubled(q, n, r);
    assert Product(q, 2 * n) == Product(2 * q, n);
    var b, i := if 2 * r < n then 0 else 1, if 2 * r < n then 2 * r else 2 * r - n;
    Distributes(2 * q, 1, n);
    assert Shift(l, ticket) == Word(l, q, b, i);
    EntryFields(l, q, b, i);
  }

  lemma RangeIsTickets(l: Layout)
    ensures l.Range() == 8 * l.Tickets()
  {
    Associates(8, Pow2(l.spare), l.N());
  }

  /** Cycle words of tickets are equal, or in order, just when the quotients by n
      are: the order test of both loops. */
  lemma TicketOrder(l: Layout, a: nat, b: nat)
    requires a < l.Tickets() && b < l.Tickets()
    ensures TicketCycle(l, a) < TicketCycle(l, b) <==> Quotient(a, l.N()) < Quotient(b, l.N())
    ensures TicketCycle(l, a) == TicketCycle(l, b) <==> Quotient(a, l.N()) == Quotient(b, l.N())
  {
    TicketFields(l, a);
    TicketFields(l, b);
    WordOrder(l, Quotient(a, l.N()), Quotient(b, l.N()));
    WordOrder(l, Quotient(b, l.N()), Quotient(a, l.N()));
  }

  lemma WordOrder(l: Layout, p: nat, q: nat)
    ensures p < q ==> Word(l, p, 1, l.N() - 1) < Word(l, q, 1, l.N() - 1)
  {
    if p < q { MulMonotone(2 * p + 2, 2 * q + 1, l.N()); }
  }

  /** The difference of two cycle words. */
  lemma CycleDifference(l: Layout, p: nat, q: nat)
    requires p < 4 * Pow2(l.spare) && q < 4 * Pow2(l.spare)
    ensures var (x, y) := (Word(l, p, 1, l.N() - 1), Word(l, q, 1, l.N() - 1));
      && x < l.Range() && y < l.Range()
      && Minus(l, x, y) == Product(if p >= q then 2 * (p - q) else 8 * Pow2(l.spare) - 2 * (q - p), l.N())
  {
    FieldsOf(l, p, 1, l.N() - 1);
    FieldsOf(l, q, 1, l.N() - 1);
    if p >= q {
      Distributes(2 * q + 1, 2 * (p - q), l.N());
      WordOrder(l, q, p);
    } else {
      Distributes(8 * Pow2(l.spare) - 2 * (q - p), 2 * q + 1, l.N());
      Distributes(8 * Pow2(l.spare), 2 * p + 1, l.N());
      WordOrder(l, p, q);
    }
  }

  lemma MultipleIsNegative(l: Layout, a: nat)
    ensures Negative(l, Product(a, l.N())) <==> a >= 4 * Pow2(l.spare)
  {
    Distributes(4 * Pow2(l.spare), 4 * Pow2(l.spare), l.N());
    if a >= 4 * Pow2(l.spare) { MulMonotone(4 * Pow2(l.spare), a, l.N()); }
    else {
      MulMonotone(a + 1, 4 * Pow2(l.spare), l.N());
      Distributes(a, 1, l.N());
    }
  }

  /** __lfring_cmp(ecycle, <, tcycle) compares the cycles of slot and ticket. */
  lemma CycleTest(l: Layout, entry: nat, ticket: nat)
    requires Proper(l, entry) && ticket < l.Tickets()
    ensures EntryCycle(l, entry) < l.Range() && TicketCycle(l, ticket) < l.Range()
    ensures Less(l, EntryCycle(l, entry), TicketCycle(l, ticket)) <==> SlotOf(l, entry).cycle < Quotient(ticket, l.N())
    ensures EntryCycle(l, entry) == TicketCycle(l, ticket) <==> SlotOf(l, entry).cycle == Quotient(ticket, l.N())
  {
    Assembled(l, entry);
    var p, q := Upper(l, entry), Quotient(ticket, l.N());
    EntryFields(l, p, SafeBit(l, entry), Lower(l, entry));
    TicketFields(l, ticket);
    CycleDifference(l, p, q);
    MultipleIsNegative(l, if p >= q then 2 * (p - q) else 8 * Pow2(l.spare) - 2 * (q - p));
    FieldsOf(l, p, 1, l.N() - 1);
    FieldsOf(l, q, 1, l.N() - 1);
  }
}
