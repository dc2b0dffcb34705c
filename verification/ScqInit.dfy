/**
 * The rings of the source: the ticket map of an SCQ ring of n == 2 * half
 * slots, and the two loops that fill a new ring.
 */
module ScqInit {
  import opened Options
  import opened ScqRing
  import Arithmetic
  import RingMap

  /** n slots, in k cache lines of m words; __lfring_map and the cycle of a
      ticket.  The threshold is __lfring_threshold3. */
  function SourceGeometry(m: nat, k: nat, n: nat, half: nat): Geometry
    requires m > 0 && k > 0 && n > 0
  {
    Geometry(n, (p: nat) => RingMap.Map(p, m, k), (p: nat) => p / n, half + n - 1)
  }

  /** Every ticket shares its slot with a ticket of the first lap. */
  ghost predicate Laps(g: Geometry) {
    && (forall i: nat :: i < g.n ==> g.cyc(i) == 0)
    && (forall p: nat :: SharesSlot(g, p))
  }

  ghost predicate SharesSlot(g: Geometry, p: nat) {
    exists i: nat :: i < g.n && g.loc(i) == g.loc(p)
  }

  /** Every slot is that of a position of the first lap. */
  ghost predicate Covered(g: Geometry) { forall j: nat :: j < g.n ==> IsHit(g, j) }

  ghost predicate IsHit(g: Geometry, j: nat) { exists i: nat :: i < g.n && g.loc(i) == j }

  /** The ticket map of the source is what the protocol needs: a ticket is
      determined by its slot and its cycle, and cycles grow with tickets. */
  lemma SourceGeometryIsValid(m: nat, k: nat, n: nat, half: nat)
    requires m > 0 && k > 0 && n > 0 && n == m * k
    ensures ValidGeometry(SourceGeometry(m, k, n, half)) && Laps(SourceGeometry(m, k, n, half))
    ensures Covered(SourceGeometry(m, k, n, half))
  {
    var g := SourceGeometry(m, k, n, half);
    forall p: nat ensures g.loc(p) < n && SharesSlot(g, p) {
      RingMap.MapIsBijective(p, p, m, k);
      var i := RingMap.FirstLap(p, m, k);
      assert g.loc(i) == g.loc(p);
    }
    forall p: nat, q: nat | g.loc(p) == g.loc(q) && g.cyc(p) == g.cyc(q) ensures p == q {
      RingMap.SlotAndLap(p, q, m, k);
    }
    forall p: nat, q: nat | p <= q ensures g.cyc(p) <= g.cyc(q) { RingMap.LapsGrow(p, q, n); }
    forall j: nat | j < n ensures IsHit(g, j) {
      RingMap.UnmapInverts(j, m, k);
      assert g.loc(RingMap.Unmap(j, m, k)) == j;
    }
    forall i: nat | i < n ensures g.cyc(i) == 0 { Arithmetic.DivModUnique(i, n, 0, i); }
  }

  const ALL_ONES := Slot(-1, true, None)

  /** The loop of lfring_init_empty. */
  method FillEmpty(a: array<Slot>)
    modifies a
    ensures a[..] == seq(a.Length, i => ALL_ONES)
  {
    var i := 0;
    while i != a.Length
      invariant 0 <= i <= a.Length
      invariant forall j :: 0 <= j < i ==> a[j] == ALL_ONES
    {
      a[i] := ALL_ONES;
      i := i + 1;
    }
  }

  /** The words of a full ring: index idx[i] at position i of the first half. */
  ghost predicate FullSlots(g: Geometry, idx: seq<nat>, slots: seq<Slot>)
    requires ValidGeometry(g)
  {
    && |slots| == g.n && |idx| <= g.n
    && (forall i :: 0 <= i < |idx| ==> slots[g.loc(i)] == Slot(0, true, Some(idx[i])))
    && (forall i :: |idx| <= i < g.n ==> slots[g.loc(i)] == ALL_ONES)
  }

  /** The two loops of lfring_init_full; no word is written twice. */
  method FillFull(g: Geometry, idx: seq<nat>, a: array<Slot>)
    requires ValidGeometry(g) && Laps(g) && a.Length == g.n && |idx| <= g.n
    modifies a
    ensures FullSlots(g, idx, a[..])
  {
    var i := 0;
    while i != |idx|
      invariant 0 <= i <= |idx|
      invariant forall j :: 0 <= j < i ==> a[g.loc(j)] == Slot(0, true, Some(idx[j]))
    {
      a[g.loc(i)] := Slot(0, true, Some(idx[i]));
      i := i + 1;
    }
    while i != g.n
      invariant |idx| <= i <= g.n
      invariant forall j :: 0 <= j < |idx| ==> a[g.loc(j)] == Slot(0, true, Some(idx[j]))
      invariant forall j :: |idx| <= j < i ==> a[g.loc(j)] == ALL_ONES
    {
      a[g.loc(i)] := ALL_ONES;
      i := i + 1;
    }
  }

  /** lfring_init_full: the first tickets are already installed. */
  function InitFull(g: Geometry, idx: seq<nat>, slots: seq<Slot>): Ring {
    Ring(Memory(0, |idx|, g.threshold, slots), map[],
         History(map i: nat | i < |idx| :: idx[i], map[], {}, map[], map[]))
  }

  lemma InitFullInv(g: Geometry, idx: seq<nat>, slots: seq<Slot>)
    requires ValidGeometry(g) && Laps(g) && FullSlots(g, idx, slots)
    requires forall i :: 0 <= i < |idx| ==> idx[i] + 1 < g.n
    ensures Inv(g, InitFull(g, idx, slots))
  {
    var s := InitFull(g, idx, slots);
    forall p: nat ensures TicketInv(g, s, p) {
      assert SharesSlot(g, p);
      var i: nat :| i < g.n && g.loc(i) == g.loc(p);
      assert s.m.slots[g.loc(i)] == if i < |idx| then Slot(0, true, Some(idx[i])) else ALL_ONES;
    }
  }

  /** The indices of a full ring: raw_map of the first half positions, on a
      ring of half the size. */
  function FullIndices(m: nat, k: nat, half: nat): (idx: seq<nat>)
    requires m > 0 && k > 0
    ensures |idx| == half
  {
    seq(half, (i: nat) => RingMap.Map(i, m, k))
  }

  /** Where each index is found. */
  function FullPositions(m: nat, k: nat, half: nat): (pos: seq<nat>)
    requires m > 0 && k > 0
    ensures |pos| == half
  {
    seq(half, (i: nat) => RingMap.Unmap(i, m, k))
  }

  /** Each index below half occurs exactly once in a full ring. */
  lemma FullIndicesArePermutation(m: nat, k: nat, half: nat)
    requires m > 0 && k > 0 && half == m * k
    ensures var idx, pos := FullIndices(m, k, half), FullPositions(m, k, half);
      forall i :: 0 <= i < half ==> idx[i] < half && pos[i] < half && idx[pos[i]] == i && pos[idx[i]] == i
  {
    forall i: nat | i < half
      ensures RingMap.Map(i, m, k) < half && RingMap.Unmap(i, m, k) < half
      ensures RingMap.Map(RingMap.Unmap(i, m, k), m, k) == i && RingMap.Unmap(RingMap.Map(i, m, k), m, k) == i
    {
      RingMap.MapIsBijective(i, i, m, k);
      RingMap.UnmapInverts(i, m, k);
    }
  }
}
