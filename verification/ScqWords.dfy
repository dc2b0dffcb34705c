/**
 * The tests and the stores of lfring_cas1.h, on words, are those of module
 * ScqRing on slots.
 */
module ScqWords {
  import opened Arithmetic
  import opened Bits
  import opened Options
  import RingMap
  import opened ScqInit
  import opened ScqLayout
  import opened ScqRing
  import opened ScqSteps

  /** The ring g has the slots of the layout, and the source's cycles. */
  ghost predicate RingOf(g: Geometry, l: Layout) {
    g.n == l.N() && forall p :: g.cyc(p) == Quotient(p, g.n)
  }

  /** The slots that an array of words stands for. */
  function SlotsOf(l: Layout, words: seq<nat>): seq<Slot> {
    seq(|words|, i requires 0 <= i < |words| => SlotOf(l, words[i]))
  }

  // ----- the tests -------------------------------------------------------

  /** entry == ecycle, entry == (ecycle ^ n) and (entry | n) != ecycle. */
  lemma EmptyTests(l: Layout, entry: nat)
    ensures var e, c, n := SlotOf(l, entry), EntryCycle(l, entry), l.N();
      && (entry == c <==> e.val.None? && e.safe)
      && (entry == Xor(c, n) <==> e.val.None? && !e.safe)
      && (Or(entry, n) != c <==> e.val.Some?)
  {
    var q, b, i, n := Upper(l, entry), SafeBit(l, entry), Lower(l, entry), l.N();
    Assembled(l, entry);
    EntryFields(l, q, b, i);
    SafeFlipped(l, q);
    FieldsOf(l, q, 1, n - 1);
    FieldsOf(l, q, 0, n - 1);
    FieldsOf(l, q, 1, i);
  }

  /** entry == (entry & ~n). */
  lemma UnsafeTest(l: Layout, entry: nat)
    ensures entry == AndNot(entry, l.N()) <==> !SlotOf(l, entry).safe
  {
    var q, b, i := Upper(l, entry), SafeBit(l, entry), Lower(l, entry);
    Assembled(l, entry);
    EntryFields(l, q, b, i);
    FieldsOf(l, q, 0, i);
  }

  /** The test of the enqueuer's retry loop, in the order in which the source
      evaluates it. */
  lemma EnqueueTest(g: Geometry, l: Layout, entry: nat, ticket: nat)
    requires RingOf(g, l) && Proper(l, entry) && ticket < l.Tickets()
    ensures EntryCycle(l, entry) < l.Range() && TicketCycle(l, ticket) < l.Range()
    ensures var e, ecycle, tcycle := SlotOf(l, entry), EntryCycle(l, entry), TicketCycle(l, ticket);
      EnqTest(g, ticket, e) ==
        if Less(l, ecycle, tcycle) && entry == ecycle then EnqPc.CasSlot(ticket, e)
        else if Less(l, ecycle, tcycle) && entry == Xor(ecycle, l.N()) then TestHead(ticket, e)
        else EnqPc.TakeTicket
  {
    CycleTest(l, entry, ticket);
    EmptyTests(l, entry);
  }

  /** The loop body of the dequeuer; with Alt it looks again at an empty slot. */
  lemma DequeueTest(g: Geometry, l: Layout, c: Choice, entry: nat, ticket: nat)
    requires RingOf(g, l) && Proper(l, entry) && ticket < l.Tickets()
    ensures EntryCycle(l, entry) < l.Range() && TicketCycle(l, ticket) < l.Range()
    ensures var e, n, ecycle, hcycle := SlotOf(l, entry), l.N(), EntryCycle(l, entry), TicketCycle(l, ticket);
      DeqTest(g, c, ticket, e) ==
        if ecycle == hcycle then Some(Erase(ticket, And(entry, n - 1)))
        else if Or(entry, n) != ecycle && entry == AndNot(entry, n) then None
        else if Or(entry, n) == ecycle && c == Alt then Some(DeqPc.LoadSlot(ticket))
        else if Less(l, ecycle, hcycle) then Some(DeqPc.CasSlot(ticket, e))
        else None
  {
    CycleTest(l, entry, ticket);
    EmptyTests(l, entry);
    UnsafeTest(l, entry);
    Assembled(l, entry);
    IndexMasked(l, Upper(l, entry), SafeBit(l, entry), Lower(l, entry));
  }

  /** The comparisons of head and tail. */
  lemma CounterTests(l: Layout, x: nat, y: nat)
    requires x <= l.Tickets() && y <= l.Tickets() && l.Tickets() > 0
    ensures x < l.Range() && y < l.Range()
    ensures AtMost(l, x, y) <==> x <= y
    ensures Less(l, x, y) <==> x < y
  {
    RangeIsTickets(l);
  }

  // ----- the stores ------------------------------------------------------

  lemma SafeFlipped(l: Layout, q: nat)
    ensures Xor(Word(l, q, 1, l.N() - 1), l.N()) == Word(l, q, 0, l.N() - 1)
  {
    hide Bitwise, Pow2;
    Masks(l);
    OneBit(1);
    WithZero(q);
    WithZero(l.N() - 1);
    OnFields(l, Differ, q, 1, l.N() - 1, 0, 1, 0);
  }

  /** The lower bits of an enqueuer's word: tcycle ^ (eidx ^ (n - 1)). */
  lemma EnqueueFields(l: Layout, ticket: nat, eidx: nat)
    requires ticket < l.Tickets() && eidx < l.N()
    ensures EnqueueWord(l, ticket, eidx) == Word(l, Quotient(ticket, l.N()), 1, eidx)
  {
    hide Bitwise, Pow2;
    var q, n := Quotient(ticket, l.N()), l.N();
    TicketFields(l, ticket);
    WithOnes(eidx, l.bits);
    WithOnes(n - 1 - eidx, l.bits);
    WithZero(q);
    WithZero(1);
    assert Word(l, 0, 0, n - 1 - eidx) == n - 1 - eidx;
    OnFields(l, Differ, q, 1, n - 1, 0, 0, n - 1 - eidx);
  }

  /** The word of a dequeuer over an empty one: hcycle ^ (~entry & n). */
  lemma AdvanceFields(l: Layout, ticket: nat, q: nat, b: nat, i: nat)
    requires ticket < l.Tickets() && b < 2 && i < l.N()
    ensures Xor(TicketCycle(l, ticket), AndNot(l.N(), Word(l, q, b, i))) == Word(l, Quotient(ticket, l.N()), b, l.N() - 1)
  {
    hide Bitwise, Pow2;
    var p, n := Quotient(ticket, l.N()), l.N();
    TicketFields(l, ticket);
    Masks(l);
    OneBit(b);
    WithZero(q);
    WithZero(i);
    OnFields(l, First, 0, 1, 0, q, b, i);
    WithZero(p);
    WithZero(n - 1);
    OnFields(l, Differ, p, 1, n - 1, 0, 1 - b, 0);
  }

  /** The entry CAS of an enqueuer installs the index at the ticket's cycle. */
  lemma EnqueueStore(g: Geometry, l: Layout, ticket: nat, eidx: nat)
    requires RingOf(g, l) && ticket < l.Tickets() && eidx + 1 < g.n
    ensures var w := EnqueueWord(l, ticket, eidx);
      Proper(l, w) && SlotOf(l, w) == Slot(g.cyc(ticket), true, Some(eidx))
  {
    EnqueueFields(l, ticket, eidx);
    TicketFields(l, ticket);
    FieldsOf(l, Quotient(ticket, g.n), 1, eidx);
  }

  /** The entry CAS of a dequeuer. */
  lemma DequeueStore(g: Geometry, l: Layout, ticket: nat, entry: nat)
    requires RingOf(g, l) && ticket < l.Tickets() && Proper(l, entry)
    ensures var w := DequeueWord(l, ticket, entry);
      Proper(l, w) && SlotOf(l, w) == Overwrite(g, ticket, SlotOf(l, entry))
  {
    var q, b, i := Upper(l, entry), SafeBit(l, entry), Lower(l, entry);
    Assembled(l, entry);
    EmptyTests(l, entry);
    EntryFields(l, q, b, i);
    AdvanceFields(l, ticket, q, b, i);
    TicketFields(l, ticket);
    FieldsOf(l, q, 0, i);
    FieldsOf(l, Quotient(ticket, g.n), b, g.n - 1);
  }

  /** The atomic or of a dequeuer erases the index and nothing else. */
  lemma EraseStore(l: Layout, entry: nat)
    requires Proper(l, entry)
    ensures var w := Or(entry, l.N() - 1);
      Proper(l, w) && SlotOf(l, w) == SlotOf(l, entry).(val := None)
  {
    var q, b := Upper(l, entry), SafeBit(l, entry);
    Assembled(l, entry);
    IndexErased(l, q, b, Lower(l, entry));
    FieldsOf(l, q, b, l.N() - 1);
  }

  // ----- the steps -------------------------------------------------------

  ghost predicate ProperWords(l: Layout, words: seq<nat>) { forall i :: 0 <= i < |words| ==> Proper(l, words[i]) }

  /** The memory of the ring is the array of words. */
  ghost predicate Stored(g: Geometry, l: Layout, m: Memory, words: seq<nat>) {
    RingOf(g, l) && ValidGeometry(g) && |words| == g.n && ProperWords(l, words) && m.slots == SlotsOf(l, words)
  }

  /** A CAS on a word succeeds just when the model's CAS on the slot does. */
  lemma CasTest(g: Geometry, l: Layout, m: Memory, words: seq<nat>, i: nat, entry: nat)
    requires Stored(g, l, m, words) && i < |words| && Proper(l, entry)
    ensures words[i] == entry <==> m.slots[i] == SlotOf(l, entry)
  {
    SlotDeterminesWord(l, words[i], entry);
  }

  lemma StoreOne(g: Geometry, l: Layout, m: Memory, words: seq<nat>, i: nat, w: nat)
    requires Stored(g, l, m, words) && i < |words| && Proper(l, w)
    ensures Stored(g, l, SetSlot(m, i, SlotOf(l, w)), words[i := w])
  {
    assert SlotsOf(l, words[i := w]) == m.slots[i := SlotOf(l, w)];
  }

  /** A successful enqueue stores the source's word. */
  lemma InstallStores(g: Geometry, l: Layout, s: Ring, words: seq<nat>, t: Tid, pc: Pc, v: nat, ticket: nat)
    requires Stored(g, l, s.m, words) && v + 1 < g.n && ticket < l.Tickets()
    ensures Stored(g, l, Install(g, s, t, pc, v, ticket).m, words[g.loc(ticket) := EnqueueWord(l, ticket, v)])
  {
    EnqueueStore(g, l, ticket, v);
    StoreOne(g, l, s.m, words, g.loc(ticket), EnqueueWord(l, ticket, v));
  }

  /** A dequeuer that leaves by overwriting stores the source's word. */
  lemma OverwriteStores(g: Geometry, l: Layout, s: Ring, words: seq<nat>, t: Tid, c: Choice, nonempty: bool, ticket: nat)
    requires Stored(g, l, s.m, words) && ticket < l.Tickets() && c != Alt
    ensures var e := s.m.slots[g.loc(ticket)];
      Stored(g, l, DeqStep(g, s, t, c, nonempty, DeqPc.CasSlot(ticket, e)).m,
             words[g.loc(ticket) := DequeueWord(l, ticket, words[g.loc(ticket)])])
  {
    DequeueStore(g, l, ticket, words[g.loc(ticket)]);
    StoreOne(g, l, s.m, words, g.loc(ticket), DequeueWord(l, ticket, words[g.loc(ticket)]));
  }

  /** So does one that takes an index. */
  lemma EraseStores(g: Geometry, l: Layout, s: Ring, words: seq<nat>, t: Tid, c: Choice, nonempty: bool, ticket: nat, v: nat)
    requires Stored(g, l, s.m, words)
    ensures Stored(g, l, DeqStep(g, s, t, c, nonempty, Erase(ticket, v)).m,
                   words[g.loc(ticket) := Or(words[g.loc(ticket)], l.N() - 1)])
  {
    EraseStore(l, words[g.loc(ticket)]);
    StoreOne(g, l, s.m, words, g.loc(ticket), Or(words[g.loc(ticket)], l.N() - 1));
  }

  /** The initial words: all ones, 2 * n - 1, and n + i for an index i. */
  lemma InitialWords(l: Layout, i: nat)
    requires i + 1 < l.N()
    ensures Proper(l, l.Range() - 1) && SlotOf(l, l.Range() - 1) == Slot(-1, true, None)
    ensures Proper(l, 2 * l.N() - 1) && SlotOf(l, 2 * l.N() - 1) == Slot(0, true, None)
    ensures Proper(l, l.N() + i) && SlotOf(l, l.N() + i) == Slot(0, true, Some(i))
  {
    var r, n := Pow2(l.spare), l.N();
    Distributes(8 * r - 1, 1, n);
    assert Word(l, 4 * r - 1, 1, n - 1) == l.Range() - 1;
    FieldsOf(l, 4 * r - 1, 1, n - 1);
    Masks(l);
    FieldsOf(l, 0, 1, n - 1);
    FieldsOf(l, 0, 1, i);
  }

  /** The words of lfring_init_empty are those of the empty ring. */
  lemma EmptyRingStored(g: Geometry, l: Layout)
    requires RingOf(g, l) && ValidGeometry(g) && g.n > 1
    ensures Stored(g, l, InitEmpty(g).m, seq(g.n, i => l.Range() - 1))
  {
    InitialWords(l, 0);
  }

  /** What lfring_init_full stores: n + idx[i] at position i of the first part, and
      all ones at the others. */
  ghost predicate FullWords(g: Geometry, l: Layout, idx: seq<nat>, words: seq<nat>)
    requires ValidGeometry(g)
  {
    && |words| == g.n && |idx| <= g.n
    && (forall i :: 0 <= i < |idx| ==> words[g.loc(i)] == l.N() + idx[i])
    && (forall i :: |idx| <= i < g.n ==> words[g.loc(i)] == l.Range() - 1)
  }

  lemma FullWordStands(g: Geometry, l: Layout, idx: seq<nat>, words: seq<nat>, i: nat)
    requires RingOf(g, l) && ValidGeometry(g) && g.n > 1 && FullWords(g, l, idx, words) && i < g.n
    requires forall i :: 0 <= i < |idx| ==> idx[i] + 1 < g.n
    ensures Proper(l, words[g.loc(i)])
    ensures SlotOf(l, words[g.loc(i)]) == if i < |idx| then Slot(0, true, Some(idx[i])) else ALL_ONES
  {
    InitialWords(l, if i < |idx| then idx[i] else 0);
  }

  /** The words of lfring_init_full are those of the full ring. */
  lemma FullRingStored(g: Geometry, l: Layout, idx: seq<nat>, words: seq<nat>)
    requires RingOf(g, l) && ValidGeometry(g) && Covered(g) && g.n > 1 && FullWords(g, l, idx, words)
    requires forall i :: 0 <= i < |idx| ==> idx[i] + 1 < g.n
    ensures FullSlots(g, idx, SlotsOf(l, words))
    ensures Stored(g, l, InitFull(g, idx, SlotsOf(l, words)).m, words)
  {
    hide SlotOf, Proper;
    forall i: nat | i < g.n
      ensures Proper(l, words[g.loc(i)])
      ensures SlotsOf(l, words)[g.loc(i)] == if i < |idx| then Slot(0, true, Some(idx[i])) else ALL_ONES
    {
      FullWordStands(g, l, idx, words, i);
    }
    forall j | 0 <= j < |words| ensures Proper(l, words[j]) {
      assert IsHit(g, j);
    }
  }

  /** The ring of the source, with n == 2^bits slots and any LFRING_MIN of at most
      bits: its bitwise map and its cycles make a geometry in which the protocol
      is safe, and which this layout describes. */
  lemma SourceRing(l: Layout, min: nat, half: nat, width: nat)
    requires min <= l.bits <= width
    ensures var g := SourceGeometry(Pow2(min), Pow2(l.bits - min), l.N(), half);
      && RingOf(g, l) && ValidGeometry(g) && Laps(g) && Covered(g)
      && forall p :: g.loc(p) == RingMap.RawMap(width, min, l.bits, p)
  {
    RingMap.RawMapIsMap(width, min, l.bits, 0);
    SourceGeometryIsValid(Pow2(min), Pow2(l.bits - min), l.N(), half);
    forall p: nat ensures RingMap.Map(p, Pow2(min), Pow2(l.bits - min)) == RingMap.RawMap(width, min, l.bits, p) {
      RingMap.RawMapIsMap(width, min, l.bits, p);
    }
  }
}
