/**
 * The rings of lfring_naive.h: __lfring_map as the geometry, and the three ways
 * to fill a new ring.
 */
module NcqInit {
  import opened NcqRing
  import opened NcqRuns
  import Arithmetic
  import RingMap

  /** n == m * k slots, in k cache lines of m words. */
  function SourceGeometry(m: nat, k: nat, n: nat): Geometry
    requires m > 0 && k > 0 && n > 0
  {
    Geometry(n, (p: nat) => RingMap.Map(p, m, k), (p: nat) => p / n)
  }

  /** On any n consecutive positions the map is a bijection, for every order of
      at least LFRING_MIN. */
  lemma SourceGeometryIsValid(m: nat, k: nat, n: nat)
    requires m > 0 && k > 0 && n > 0 && n == m * k
    ensures ValidGeometry(SourceGeometry(m, k, n))
    ensures forall p: nat :: p < n ==> SourceGeometry(m, k, n).cyc(p) == 0
    ensures forall p: nat :: p >= n ==> SourceGeometry(m, k, n).cyc(p) > 0
    ensures forall j: nat :: j < n ==> IsHit(SourceGeometry(m, k, n), j)
  {
    var g := SourceGeometry(m, k, n);
    forall p: nat ensures g.loc(p) < n { RingMap.MapIsBijective(p, p, m, k); }
    forall p: nat, q: nat | g.loc(p) == g.loc(q) && g.cyc(p) == g.cyc(q) ensures p == q { RingMap.SlotAndLap(p, q, m, k); }
    forall p: nat, q: nat | p <= q ensures g.cyc(p) <= g.cyc(q) { RingMap.LapsGrow(p, q, n); }
    forall p: nat, q: nat | p < q < p + n ensures g.loc(p) != g.loc(q) {
      RingMap.MapIsBijective(p, q, m, k);
      NearbyDiffer(p, q, n);
    }
    forall p: nat | p < n ensures g.cyc(p) == 0 { Arithmetic.DivModUnique(p, n, 0, p); }
    forall p: nat | p >= n ensures g.cyc(p) > 0 {
      RingMap.LapsGrow(n, p, n);
      Arithmetic.DivModUnique(n, n, 1, 0);
    }
    forall j: nat | j < n ensures IsHit(g, j) {
      RingMap.UnmapInverts(j, m, k);
      assert g.loc(RingMap.Unmap(j, m, k)) == j;
    }
  }

  lemma NearbyDiffer(p: nat, q: nat, n: nat)
    requires p < q < p + n
    ensures p % n != q % n
  {
    if p % n == q % n {
      var a, b := p / n, q / n;
      assert q - p == (b - a) * n;
      Arithmetic.SmallMultiple(b - a, n);
    }
  }

  /** Slot j belongs to a position of the first lap. */
  ghost predicate IsHit(g: Geometry, j: nat) { exists p: nat :: p < g.n && g.loc(p) == j }

  /** lfring_init_empty. */
  method FillEmpty(a: array<Slot>)
    modifies a
    ensures a[..] == seq(a.Length, i => Slot(0, 0))
  {
    var i := 0;
    while i != a.Length
      invariant 0 <= i <= a.Length
      invariant forall j :: 0 <= j < i ==> a[j] == Slot(0, 0)
    {
      a[i] := Slot(0, 0);
      i := i + 1;
    }
  }

  /** lfring_init_full stores index i in slot i, not in the slot of position i. */
  method FillFull(a: array<Slot>)
    modifies a
    ensures a[..] == seq(a.Length, i requires 0 <= i => Slot(0, i))
  {
    var i := 0;
    while i != a.Length
      invariant 0 <= i <= a.Length
      invariant forall j :: 0 <= j < i ==> a[j] == Slot(0, j)
    {
      a[i] := Slot(0, i);
      i := i + 1;
    }
  }

  /** What lfring_init_fill leaves in the slot of position p. */
  function FilledSlot(p: nat, start: nat, end: nat): Slot {
    if p < start then Slot(0, 0) else if p < end then Slot(0, p) else Slot(-1, 0)
  }

  /** The slot of one position is set; those of the other positions of the lap
      are different slots. */
  method SetPosition(a: array<Slot>, g: Geometry, i: nat, w: Slot)
    requires ValidGeometry(g) && a.Length == g.n && i < g.n
    modifies a
    ensures a[g.loc(i)] == w && forall p: nat :: p < g.n && p != i ==> a[g.loc(p)] == old(a[g.loc(p)])
  {
    a[g.loc(i)] := w;
  }

  /** lfring_init_fill: three loops over the positions. */
  method FillRange(a: array<Slot>, g: Geometry, start: nat, end: nat)
    requires ValidGeometry(g) && a.Length == g.n && start <= end <= g.n
    modifies a
    ensures forall p: nat :: p < g.n ==> a[g.loc(p)] == FilledSlot(p, start, end)
  {
    var i := 0;
    while i != start
      invariant i <= start
      invariant forall p: nat :: p < i ==> a[g.loc(p)] == FilledSlot(p, start, end)
    {
      SetPosition(a, g, i, Slot(0, 0));
      i := i + 1;
    }
    while i != end
      invariant start <= i <= end
      invariant forall p: nat :: p < i ==> a[g.loc(p)] == FilledSlot(p, start, end)
    {
      SetPosition(a, g, i, Slot(0, i));
      i := i + 1;
    }
    while i != g.n
      invariant end <= i <= g.n
      invariant forall p: nat :: p < i ==> a[g.loc(p)] == FilledSlot(p, start, end)
    {
      SetPosition(a, g, i, Slot(-1, 0));
      i := i + 1;
    }
  }

  /** The first lap has cycle 0, later ones more, and it hits every slot. */
  ghost predicate FirstLap(g: Geometry) {
    && (forall p: nat :: p < g.n ==> g.cyc(p) == 0)
    && (forall p: nat :: p >= g.n ==> g.cyc(p) > 0)
    && (forall j: nat :: j < g.n ==> IsHit(g, j))
  }

  lemma SlotOfPosition(g: Geometry, p: nat) returns (q: nat)
    requires ValidGeometry(g) && FirstLap(g)
    ensures q < g.n && g.loc(q) == g.loc(p) && (p < g.n ==> q == p) && g.cyc(q) == 0
  {
    assert IsHit(g, g.loc(p));
    q :| q < g.n && g.loc(q) == g.loc(p);
  }

  /** The queue of a new ring, whichever way it is filled, is the positions from
      start to end. */
  lemma InitInv(g: Geometry, slots: seq<Slot>, start: nat, end: nat, items: seq<nat>)
    requires ValidGeometry(g) && FirstLap(g) && |slots| == g.n && start <= end && |items| == end - start
    requires end <= g.n || start == end == g.n
    requires forall p: nat :: p < g.n ==> slots[g.loc(p)].cycle == if p < end then 0 else -1
    requires forall p: nat :: start <= p < end ==> slots[g.loc(p)].idx == items[p - start]
    ensures Inv(g, Ring(Memory(start, end, slots), map[], items))
  {
    var s := Ring(Memory(start, end, slots), map[], items);
    forall p: nat ensures SlotInv(g, s, p) {
      var q := SlotOfPosition(g, p);
      assert slots[g.loc(q)].cycle <= 0;
    }
  }

  lemma EmptyRingInv(g: Geometry)
    requires ValidGeometry(g) && FirstLap(g)
    ensures Inv(g, Ring(Memory(g.n, g.n, seq(g.n, i => Slot(0, 0))), map[], []))
  {
  }

  /** A full ring hands out the slot numbers in the order of their positions:
      each index below n exactly once. */
  lemma FullRingInv(g: Geometry)
    requires ValidGeometry(g) && FirstLap(g)
    ensures var items := seq(g.n, (p: nat) => g.loc(p));
      && Inv(g, Ring(Memory(0, g.n, seq(g.n, i requires 0 <= i => Slot(0, i))), map[], items))
      && (forall j: nat :: j < g.n ==> j in items)
      && (forall i, j :: 0 <= i < j < |items| ==> items[i] != items[j])
  {
    var items := seq(g.n, (p: nat) => g.loc(p));
    InitInv(g, seq(g.n, i requires 0 <= i => Slot(0, i)), 0, g.n, items);
    forall j: nat | j < g.n ensures j in items {
      assert IsHit(g, j);
      var p: nat :| p < g.n && g.loc(p) == j;
      assert items[p] == j;
    }
  }

  lemma FilledRingInv(g: Geometry, slots: seq<Slot>, start: nat, end: nat)
    requires ValidGeometry(g) && FirstLap(g) && |slots| == g.n && start <= end <= g.n
    requires forall p: nat :: p < g.n ==> slots[g.loc(p)] == FilledSlot(p, start, end)
    ensures Inv(g, Ring(Memory(start, end, slots), map[], seq(end - start, i requires 0 <= i => start + i)))
  {
    InitInv(g, slots, start, end, seq(end - start, i requires 0 <= i => start + i));
  }

  /** The slots of lfring_init_fill, and the content of the ring. */
  ghost predicate IsFilled(g: Geometry, s: Ring, start: nat, end: nat)
    requires ValidGeometry(g)
  {
    && start <= end <= g.n && s.m.head == start && s.m.tail == end && |s.m.slots| == g.n
    && (forall p: nat :: p < g.n ==> s.m.slots[g.loc(p)] == FilledSlot(p, start, end))
    && s.items == seq(end - start, i requires 0 <= i => start + i)
  }

  /** A ring as one of the three initialisers leaves it. */
  ghost predicate InitialRing(g: Geometry, s: Ring)
    requires ValidGeometry(g)
  {
    && s.pcs == map[]
    && (|| (s.m == Memory(g.n, g.n, seq(g.n, i => Slot(0, 0))) && s.items == [])
        || (s.m == Memory(0, g.n, seq(g.n, i requires 0 <= i => Slot(0, i))) && s.items == seq(g.n, (p: nat) => g.loc(p)))
        || exists start, end :: IsFilled(g, s, start, end))
  }

  lemma InitialRingInv(g: Geometry, s: Ring)
    requires ValidGeometry(g) && FirstLap(g) && InitialRing(g, s)
    ensures Inv(g, s)
  {
    if start, end :| IsFilled(g, s, start, end) {
      FilledRingInv(g, s.m.slots, start, end);
      assert s.m == Memory(start, end, s.m.slots);
    } else {
      EmptyRingInv(g);
      FullRingInv(g);
    }
  }

  /** The whole of it: from any of the initial rings of the source, every run in
      which the clients keep room behaves like a first-in first-out queue of at
      most n elements.  (That the geometry is valid holds by
      SourceGeometryIsValid; naming it here lets the other conditions be stated.) */
  lemma SourceRingIsFifo(m: nat, k: nat, n: nat, s: Ring, schedule: seq<(Tid, Choice)>, t: Tid, c: Choice)
    requires m > 0 && k > 0 && n > 0 && n == m * k && |s.m.slots| == n
    requires var g := SourceGeometry(m, k, n);
      ValidGeometry(g) && InitialRing(g, s) && RoomThroughout(g, s, schedule)
    ensures var g := SourceGeometry(m, k, n); var s' := Exec(g, s, schedule);
      && Inv(g, s') && |s'.items| <= n && s'.m.tail <= s'.m.head + |s'.items| <= s'.m.tail + 1
      && FifoStep(s', Step(g, s', t, c), t)
      && s.items + AllAppended(g, s, schedule) == AllRemoved(g, s, schedule) + s'.items
  {
    var g := SourceGeometry(m, k, n);
    SourceGeometryIsValid(m, k, n);
    InitialRingInv(g, s);
    RunKeepsInv(g, s, schedule);
    RunIsFifo(g, s, schedule);
    StepRefinesFifo(g, Exec(g, s, schedule), t, c);
  }
}
