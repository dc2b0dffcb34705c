/**
 * The bits of an entry of the naive ring: the index below n == 2^bits, the cycle
 * above.  The tests and the stores of lfring_naive.h, on words of any width, are
 * those of module NcqRing on (cycle, index), for positions in the lower half of
 * the range of a word.
 */
module NcqWords {
  import opened Arithmetic
  import opened Bits
  import opened NcqInit
  import opened NcqRing
  import RingMap

  /** A word has the bits of the index and spare + 1 bits for the cycle. */
  datatype EntryLayout = EntryLayout(bits: nat, spare: nat) {
    function N(): (n: nat)
      ensures n > 0
    {
      Pow2(bits)
    }

    function Range(): nat { Product(2 * Pow2(spare), N()) }

    /** Positions below this bound have cycles of the lower half. */
    function Positions(): nat { Product(Pow2(spare), N()) }
  }

  // ----- the expressions of the source -----------------------------------

  /** ecycle, tcycle and hcycle: x & ~(n - 1). */
  function Cycle(l: EntryLayout, x: nat): nat { AndNot(x, l.N() - 1) }

  /** (lfatomic_t) (ecycle + n). */
  function NextCycle(l: EntryLayout, ecycle: nat): nat {
    if ecycle + l.N() < l.Range() then ecycle + l.N() else ecycle + l.N() - l.Range()
  }

  /** __LFMERGE(tcycle, eidx), which is an or or a sum. */
  function EnqueueWord(l: EntryLayout, tail: nat, eidx: nat): nat { Or(Cycle(l, tail), eidx) }

  // ----- the fields ------------------------------------------------------

  function SignedCycle(l: EntryLayout, q: nat): int { if q < Pow2(l.spare) then q else q - 2 * Pow2(l.spare) }

  /** The entry a word stands for. */
  function EntryOf(l: EntryLayout, w: nat): Slot { Slot(SignedCycle(l, Quotient(w, l.N())), w % l.N()) }

  lemma UpperBound(l: EntryLayout, w: nat)
    requires w < l.Range()
    ensures Quotient(w, l.N()) < 2 * Pow2(l.spare)
  {
    QuotientBelow(w, 2 * Pow2(l.spare), l.N());
  }

  /** A CAS on the word is a CAS on the modelled entry. */
  lemma EntryDeterminesWord(l: EntryLayout, a: nat, b: nat)
    requires a < l.Range() && b < l.Range()
    ensures EntryOf(l, a) == EntryOf(l, b) <==> a == b
  {
    UpperBound(l, a);
    UpperBound(l, b);
    FloorBounds(a, l.N());
    FloorBounds(b, l.N());
  }

  lemma CycleFields(l: EntryLayout, x: nat)
    requires x < l.Range()
    ensures Cycle(l, x) == Product(Quotient(x, l.N()), l.N()) <= x
  {
    LowBits(x, l.bits);
    FloorBounds(x, l.N());
  }

  lemma SameMultiple(a: nat, b: nat, n: nat)
    requires n > 0
    ensures Product(a, n) == Product(b, n) <==> a == b
  {
    if a < b { MulMonotone(a + 1, b, n); Distributes(a, 1, n); }
    if b < a { MulMonotone(b + 1, a, n); Distributes(b, 1, n); }
  }

  /** ecycle == tcycle, and ecycle + n == tcycle with wrap-around. */
  lemma CycleTests(l: EntryLayout, entry: nat, pos: nat)
    requires entry < l.Range() && pos < l.Positions()
    ensures pos < l.Range()
    ensures Cycle(l, entry) == Cycle(l, pos) <==> EntryOf(l, entry).cycle == Quotient(pos, l.N())
    ensures NextCycle(l, Cycle(l, entry)) == Cycle(l, pos) <==> EntryOf(l, entry).cycle + 1 == Quotient(pos, l.N())
  {
    var n, h := l.N(), Pow2(l.spare);
    Associates(2, h, n);
    CycleFields(l, entry);
    CycleFields(l, pos);
    var p, q := Quotient(entry, n), Quotient(pos, n);
    UpperBound(l, entry);
    QuotientBelow(pos, h, n);
    SameMultiple(p, q, n);
    Distributes(p, 1, n);
    if p + 1 < 2 * h {
      MulMonotone(p + 2, 2 * h, n);
      Distributes(p + 1, 1, n);
      SameMultiple(p + 1, q, n);
    } else {
      SameMultiple(0, q, n);
    }
  }

  // ----- the tests and the stores ----------------------------------------

  /** The ring g has the slots of the layout, and the source's cycles. */
  ghost predicate HasLayout(g: Geometry, l: EntryLayout) {
    g.n == l.N() && forall p :: g.cyc(p) == Quotient(p, g.n)
  }

  /** The inner loop of enqueue. */
  lemma EnqueueTest(g: Geometry, l: EntryLayout, entry: nat, tail: nat)
    requires HasLayout(g, l) && entry < l.Range() && tail < l.Positions()
    ensures EntryTest(g, tail, EntryOf(l, entry)) ==
      if Cycle(l, entry) == Cycle(l, tail) then HelpTail(tail)
      else if NextCycle(l, Cycle(l, entry)) != Cycle(l, tail) then LoadTail
      else CasEntry(tail, EntryOf(l, entry))
  {
    CycleTests(l, entry, tail);
  }

  /** The loop body of dequeue. */
  lemma DequeueTest(g: Geometry, l: EntryLayout, s: Ring, t: Tid, c: Choice, nonempty: bool, entry: nat, head: nat)
    requires HasLayout(g, l) && entry < l.Range() && head < l.Positions()
    requires ValidGeometry(g) && |s.m.slots| == g.n && s.m.slots[g.loc(head)] == EntryOf(l, entry)
    ensures PcOf(DeqStep(g, s, t, c, nonempty, DeqPc.LoadEntry(head)), t) ==
      if Cycle(l, entry) == Cycle(l, head) then Deq(nonempty, CasHead(head, EntryOf(l, entry)))
      else if !nonempty && NextCycle(l, Cycle(l, entry)) == Cycle(l, head) then Ret(WasEmpty)
      else Deq(nonempty, LoadHead)
    ensures EntryOf(l, entry).idx == And(entry, l.N() - 1)
  {
    CycleTests(l, entry, head);
    LowBits(entry, l.bits);
  }

  /** The entry CAS of enqueue stores the index at the cycle of its position, and
      __LFMERGE may be the or or the sum. */
  lemma EnqueueStore(g: Geometry, l: EntryLayout, tail: nat, eidx: nat)
    requires HasLayout(g, l) && tail < l.Positions() && eidx < g.n
    ensures var w := EnqueueWord(l, tail, eidx);
      w < l.Range() && w == Cycle(l, tail) + eidx && EntryOf(l, w) == Slot(g.cyc(tail), eidx)
  {
    var n, q := l.N(), Quotient(tail, l.N());
    Associates(2, Pow2(l.spare), n);
    CycleFields(l, tail);
    OrIsSum(l.bits, q, eidx);
    DivModUnique(EnqueueWord(l, tail, eidx), n, q, eidx);
    QuotientBelow(tail, Pow2(l.spare), n);
    MulMonotone(q + 1, Pow2(l.spare), n);
    Distributes(q, 1, n);
  }

  /** The initial words: an index i, and -n. */
  lemma InitialWords(l: EntryLayout, i: nat)
    requires i < l.N()
    ensures i < l.Range() && EntryOf(l, i) == Slot(0, i)
    ensures l.N() <= l.Range() && EntryOf(l, l.Range() - l.N()) == Slot(-1, 0)
  {
    var n, h := l.N(), Pow2(l.spare);
    MulMonotone(1, 2 * h, n);
    Distributes(2 * h - 1, 1, n);
    DivModUnique(i, n, 0, i);
    DivModUnique(l.Range() - n, n, 2 * h - 1, 0);
  }

  // ----- the array of words ----------------------------------------------

  /** The entries that an array of words stands for. */
  function EntriesOf(l: EntryLayout, words: seq<nat>): seq<Slot> {
    seq(|words|, i requires 0 <= i < |words| => EntryOf(l, words[i]))
  }

  ghost predicate InWidth(l: EntryLayout, words: seq<nat>) { forall i :: 0 <= i < |words| ==> words[i] < l.Range() }

  /** The memory of the ring is the array of words. */
  ghost predicate Holds(g: Geometry, l: EntryLayout, m: Memory, words: seq<nat>) {
    HasLayout(g, l) && ValidGeometry(g) && |words| == g.n && InWidth(l, words) && m.slots == EntriesOf(l, words)
  }

  /** A successful enqueue stores the source's word. */
  lemma InstallStores(g: Geometry, l: EntryLayout, s: Ring, words: seq<nat>, t: Tid, v: nat, tail: nat)
    requires Holds(g, l, s.m, words) && v < g.n && tail < l.Positions()
    ensures Holds(g, l, Install(g, s, t, v, tail).m, words[g.loc(tail) := EnqueueWord(l, tail, v)])
  {
    EnqueueStore(g, l, tail, v);
    assert EntriesOf(l, words[g.loc(tail) := EnqueueWord(l, tail, v)]) == s.m.slots[g.loc(tail) := Slot(g.cyc(tail), v)];
  }

  // ----- the words of a new ring -----------------------------------------

  /** The loops of lfring_init_fill. */
  function FilledWord(l: EntryLayout, p: nat, start: nat, end: nat): nat {
    if p < start then 0 else if p < end then p else l.Range() - l.N()
  }

  /** The words of lfring_init_empty, of lfring_init_full, and of lfring_init_fill
      for some range, with head and tail. */
  ghost predicate NewWords(g: Geometry, l: EntryLayout, words: seq<nat>, head: nat, tail: nat)
    requires ValidGeometry(g)
  {
    && |words| == g.n
    && (|| (words == seq(g.n, i => 0) && head == tail == g.n)
        || (words == seq(g.n, i requires 0 <= i => i) && head == 0 && tail == g.n)
        || (head <= tail <= g.n && forall p: nat :: p < g.n ==> words[g.loc(p)] == FilledWord(l, p, head, tail)))
  }

  /** The ring of the source, with n == 2^bits slots and any LFRING_MIN of at most
      bits. */
  lemma SourceRing(l: EntryLayout, min: nat, width: nat)
    requires min <= l.bits <= width
    ensures var g := SourceGeometry(Pow2(min), Pow2(l.bits - min), l.N());
      && HasLayout(g, l) && ValidGeometry(g) && FirstLap(g)
      && forall p :: g.loc(p) == RingMap.RawMap(width, min, l.bits, p)
  {
    RingMap.RawMapIsMap(width, min, l.bits, 0);
    SourceGeometryIsValid(Pow2(min), Pow2(l.bits - min), l.N());
    forall p: nat ensures RingMap.Map(p, Pow2(min), Pow2(l.bits - min)) == RingMap.RawMap(width, min, l.bits, p) {
      RingMap.RawMapIsMap(width, min, l.bits, p);
    }
  }
}
