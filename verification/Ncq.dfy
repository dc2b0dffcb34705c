/**
 * The naive ring of lfring_naive.h as a transition system: enqueuers and
 * dequeuers CAS the entry, the tail and the head, and help a lagging tail.
 *
 * An entry is modelled as (cycle, index), and positions are unbounded; modules
 * NcqWords and NcqWordRuns tie this to the bits.
 */
module NcqRing {
  type Tid = nat

  datatype Slot = Slot(cycle: int, idx: nat)

  /** Position p lives in slot loc(p) with cycle cyc(p). */
  datatype Geometry = Geometry(n: nat, loc: nat -> nat, cyc: nat -> int)

  /** What the ring needs of __lfring_map: module NcqInit shows that the map of
      the source has it. */
  ghost predicate ValidGeometry(g: Geometry) {
    && (forall p :: g.loc(p) < g.n)
    && (forall p, q :: g.loc(p) == g.loc(q) && g.cyc(p) == g.cyc(q) ==> p == q)
    && (forall p, q :: p <= q ==> g.cyc(p) <= g.cyc(q))
    && (forall p: nat, q: nat :: p < q < p + g.n ==> g.loc(p) != g.loc(q))
  }

  datatype Result = Enqueued | Dequeued(v: nat) | WasEmpty

  datatype Pc = Idle | Ret(res: Result) | Enq(v: nat, enq: EnqPc) | Deq(nonempty: bool, deq: DeqPc)

  datatype EnqPc =
    | LoadTail
    | LoadEntry(tail: nat)
    | HelpTail(tail: nat)
    | CasEntry(tail: nat, e: Slot)
    | MoveTail(tail: nat)

  datatype DeqPc =
    | LoadHead
    | LoadEntry(head: nat)
    | CasHead(head: nat, e: Slot)

  datatype Op = OpEnqueue(v: nat) | OpDequeue(nonempty: bool)

  /** A weak CAS may fail although the word matches (Alt). */
  datatype Choice = Start(op: Op) | Go | Alt

  datatype Memory = Memory(head: nat, tail: nat, slots: seq<Slot>)

  /** items is a record no step reads: the content of the queue, oldest first. */
  datatype Ring = Ring(m: Memory, pcs: map<Tid, Pc>, items: seq<nat>)

  function PcOf(s: Ring, t: Tid): Pc { if t in s.pcs then s.pcs[t] else Idle }

  function Next(s: Ring, t: Tid, pc: Pc, m: Memory, items: seq<nat>): Ring { Ring(m, s.pcs[t := pc], items) }

  function Goto(s: Ring, t: Tid, pc: Pc): Ring { Next(s, t, pc, s.m, s.items) }

  // ----- the steps -------------------------------------------------------

  /** The inner loop of enqueue on the entry e, up to its next access. */
  function EntryTest(g: Geometry, tail: nat, e: Slot): EnqPc {
    if e.cycle == g.cyc(tail) then HelpTail(tail)
    else if e.cycle + 1 != g.cyc(tail) then LoadTail
    else CasEntry(tail, e)
  }

  function Install(g: Geometry, s: Ring, t: Tid, v: nat, tail: nat): Ring
    requires ValidGeometry(g) && |s.m.slots| == g.n
  {
    Next(s, t, Enq(v, MoveTail(tail)),
         Memory(s.m.head, s.m.tail, s.m.slots[g.loc(tail) := Slot(g.cyc(tail), v)]), s.items + [v])
  }

  /** CAS(&q->tail, tail, tail + 1). */
  function CasTail(m: Memory, tail: nat): Memory {
    if m.tail == tail then Memory(m.head, tail + 1, m.slots) else m
  }

  function EnqStep(g: Geometry, s: Ring, t: Tid, c: Choice, v: nat, pc: EnqPc): Ring
    requires ValidGeometry(g) && |s.m.slots| == g.n
  {
    match pc
    case LoadTail => Goto(s, t, Enq(v, EnqPc.LoadEntry(s.m.tail)))
    case LoadEntry(tail) => Goto(s, t, Enq(v, EntryTest(g, tail, s.m.slots[g.loc(tail)])))
    case HelpTail(tail) =>
      Next(s, t, Enq(v, EnqPc.LoadEntry(if s.m.tail == tail then tail + 1 else s.m.tail)), CasTail(s.m, tail), s.items)
    case CasEntry(tail, e) =>
      if s.m.slots[g.loc(tail)] == e then Install(g, s, t, v, tail)
      else Goto(s, t, Enq(v, EntryTest(g, tail, s.m.slots[g.loc(tail)])))
    case MoveTail(tail) =>
      Next(s, t, Ret(Enqueued), if c == Alt then s.m else CasTail(s.m, tail), s.items)
  }

  function Remove(s: Ring, t: Tid, head: nat, v: nat): Ring {
    Next(s, t, Ret(Dequeued(v)), Memory(head + 1, s.m.tail, s.m.slots), if s.items == [] then [] else s.items[1..])
  }

  function DeqStep(g: Geometry, s: Ring, t: Tid, c: Choice, nonempty: bool, pc: DeqPc): Ring
    requires ValidGeometry(g) && |s.m.slots| == g.n
  {
    match pc
    case LoadHead => Goto(s, t, Deq(nonempty, DeqPc.LoadEntry(s.m.head)))
    case LoadEntry(head) =>
      var e := s.m.slots[g.loc(head)];
      Goto(s, t, if e.cycle == g.cyc(head) then Deq(nonempty, CasHead(head, e))
                 else if !nonempty && e.cycle + 1 == g.cyc(head) then Ret(WasEmpty)
                 else Deq(nonempty, LoadHead))
    case CasHead(head, e) =>
      if s.m.head == head && c != Alt then Remove(s, t, head, e.idx)
      else Goto(s, t, Deq(nonempty, DeqPc.LoadEntry(s.m.head)))
  }

  function StartPc(g: Geometry, op: Op, current: Pc): Pc {
    match op
    case OpEnqueue(v) => if v < g.n then Enq(v, LoadTail) else current
    case OpDequeue(nonempty) => Deq(nonempty, LoadHead)
  }

  function Step(g: Geometry, s: Ring, t: Tid, c: Choice): (s': Ring)
    requires ValidGeometry(g) && |s.m.slots| == g.n
    ensures |s'.m.slots| == g.n
  {
    match PcOf(s, t)
    case Enq(v, pc) => EnqStep(g, s, t, c, v, pc)
    case Deq(nonempty, pc) => DeqStep(g, s, t, c, nonempty, pc)
    case _ => if c.Start? then Goto(s, t, StartPc(g, c.op, PcOf(s, t))) else s
  }

  // ----- invariant -------------------------------------------------------

  /** The position of the next install: the tail, or one past it while the tail
      lags. */
  function Last(s: Ring): nat { s.m.head + |s.items| }

  /** The slot of position p: installed positions have at least their cycle, and
      exactly it until they are dequeued; later positions have not. */
  ghost predicate SlotInv(g: Geometry, s: Ring, p: nat)
    requires ValidGeometry(g) && |s.m.slots| == g.n
  {
    var w := s.m.slots[g.loc(p)];
    && (p < Last(s) ==> w.cycle >= g.cyc(p))
    && (s.m.head <= p < Last(s) ==> w == Slot(g.cyc(p), s.items[p - s.m.head]))
    && (p >= Last(s) ==> w.cycle < g.cyc(p))
  }

  ghost predicate EnqInv(g: Geometry, s: Ring, pc: EnqPc)
    requires ValidGeometry(g) && |s.m.slots| == g.n
  {
    match pc
    case LoadTail => true
    case LoadEntry(tail) => tail <= s.m.tail
    case HelpTail(tail) => tail <= s.m.tail && tail < Last(s)
    case CasEntry(tail, e) => tail <= s.m.tail && e.cycle < g.cyc(tail)
    case MoveTail(tail) => tail < Last(s)
  }

  ghost predicate DeqInv(g: Geometry, s: Ring, pc: DeqPc)
    requires ValidGeometry(g) && |s.m.slots| == g.n
  {
    match pc
    case LoadHead => true
    case LoadEntry(head) => head <= s.m.head
    case CasHead(head, e) => head <= s.m.head && (head == s.m.head ==> |s.items| > 0 && e.idx == s.items[0])
  }

  ghost predicate ThreadInv(g: Geometry, s: Ring, t: Tid)
    requires ValidGeometry(g) && |s.m.slots| == g.n
  {
    match PcOf(s, t)
    case Enq(v, pc) => v < g.n && EnqInv(g, s, pc)
    case Deq(_, pc) => DeqInv(g, s, pc)
    case _ => true
  }

  ghost predicate Inv(g: Geometry, s: Ring) {
    && ValidGeometry(g) && |s.m.slots| == g.n
    && s.m.tail <= Last(s) <= s.m.tail + 1 && |s.items| <= g.n
    && (forall p :: SlotInv(g, s, p))
    && (forall t :: ThreadInv(g, s, t))
  }

  /** The threads that still have to install an index. */
  function Pending(s: Ring): set<Tid> {
    set t | t in s.pcs && s.pcs[t].Enq? && !s.pcs[t].enq.MoveTail?
  }

  /** What the clients of the ring promise: never more elements and pending
      enqueues than slots. */
  ghost predicate Room(g: Geometry, s: Ring) { |s.items| + |Pending(s)| <= g.n }
}
