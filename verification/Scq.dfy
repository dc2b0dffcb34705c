/**
 * The fetch-and-add ring of lfring_cas1.h as a transition system: shared
 * words, one program counter per thread, and one step per atomic access.
 *
 * A slot word is modelled as (cycle, safe bit, index), with None for the
 * all-ones index; modules ScqLayout, ScqWords and ScqWordRuns tie this to the
 * bits.  Tickets are unbounded, and any number of threads may take part.
 */
module ScqRing {
  import opened Options

  type Tid = nat

  datatype Slot = Slot(cycle: int, safe: bool, val: Option<nat>)

  /** The constants of one ring.  A ticket p lives in slot loc(p) with cycle
      cyc(p); threshold is the value an enqueuer resets the threshold to. */
  datatype Geometry = Geometry(n: nat, loc: nat -> nat, cyc: nat -> nat, threshold: int)

  /** All that the protocol needs of the ticket map: module ScqInit shows
      that the map of the source has it. */
  ghost predicate ValidGeometry(g: Geometry) {
    && (forall p :: g.loc(p) < g.n)
    && (forall p, q :: g.loc(p) == g.loc(q) && g.cyc(p) == g.cyc(q) ==> p == q)
    && (forall p, q :: p <= q ==> g.cyc(p) <= g.cyc(q))
  }

  datatype Result =
    | Enqueued(ticket: nat)
    | Dequeued(ticket: nat, v: nat)
    | EmptyByThreshold
    | EmptyByTail(ticket: nat)

  /** What a thread is about to do.  Apart from Idle and Ret, each counter
      stands in front of exactly one atomic access. */
  datatype Pc =
    | Idle
    | Ret(res: Result)
    | Enq(v: nat, nonempty: bool, enq: EnqPc)
    | Deq(nonempty: bool, deq: DeqPc)
    | Empty(ticket: nat, empty: EmptyPc)

  /** lfring_enqueue: take a ticket, load its slot, perhaps test the head,
      CAS the slot, then look at the threshold and perhaps reset it. */
  datatype EnqPc =
    | TakeTicket
    | LoadSlot(ticket: nat)
    | TestHead(ticket: nat, e: Slot)
    | CasSlot(ticket: nat, e: Slot)
    | LoadThreshold(ticket: nat)
    | StoreThreshold(ticket: nat)

  /** lfring_dequeue up to the point where it takes a value or gives up. */
  datatype DeqPc =
    | TestThreshold
    | TakeTicket
    | LoadSlot(ticket: nat)
    | Erase(ticket: nat, v: nat)
    | CasSlot(ticket: nat, e: Slot)

  /** The tail test of a dequeuer that gave its ticket up, with __lfring_catchup. */
  datatype EmptyPc =
    | LoadTail
    | CatchCas(tail: nat, target: nat)
    | CatchHead
    | CatchTail(target: nat)
    | LowerThreshold(found: bool)

  datatype Op = OpEnqueue(v: nat, nonempty: bool) | OpDequeue(nonempty: bool)

  /** The scheduler's freedom: which operation an idle thread starts, and
      whether a weak CAS fails although the word matches (Alt), or a dequeuer
      that meets an empty slot looks again (Alt). */
  datatype Choice = Start(op: Op) | Go | Alt

  datatype Memory = Memory(head: nat, tail: nat, threshold: int, slots: seq<Slot>)

  /** A record no step reads: values by enqueue ticket, values by dequeue
      ticket, dequeue tickets given up without a value, and ticket holders. */
  datatype History = History(
    installed: map<nat, nat>, taken: map<nat, nat>, gaveUp: set<nat>,
    enqOwner: map<nat, Tid>, deqOwner: map<nat, Tid>)

  datatype Ring = Ring(m: Memory, pcs: map<Tid, Pc>, h: History)

  function PcOf(s: Ring, t: Tid): Pc {
    if t in s.pcs then s.pcs[t] else Idle
  }

  /** t moves on to pc; memory and history become m and h. */
  function Next(s: Ring, t: Tid, pc: Pc, m: Memory, h: History): Ring {
    Ring(m, s.pcs[t := pc], h)
  }

  function Goto(s: Ring, t: Tid, pc: Pc): Ring {
    Next(s, t, pc, s.m, s.h)
  }

  function SetSlot(m: Memory, i: nat, w: Slot): Memory
    requires i < |m.slots|
  {
    Memory(m.head, m.tail, m.threshold, m.slots[i := w])
  }

  // ----- enqueue ---------------------------------------------------------

  /** An enqueuer that has not installed its index yet. */
  predicate Pending(pc: Pc) {
    pc.Enq? && (pc.enq.TakeTicket? || pc.enq.LoadSlot? || pc.enq.TestHead? || pc.enq.CasSlot?)
  }

  /** The test of the retry loop on the word e, up to its next access. */
  function EnqTest(g: Geometry, ticket: nat, e: Slot): EnqPc {
    if e.cycle < g.cyc(ticket) && e.val.None? then
      if e.safe then EnqPc.CasSlot(ticket, e) else TestHead(ticket, e)
    else EnqPc.TakeTicket
  }

  /** The state after a successful entry CAS. */
  function Install(g: Geometry, s: Ring, t: Tid, pc: Pc, v: nat, ticket: nat): Ring
    requires ValidGeometry(g) && |s.m.slots| == g.n
  {
    Next(s, t, pc, SetSlot(s.m, g.loc(ticket), Slot(g.cyc(ticket), true, Some(v))),
         s.h.(installed := s.h.installed[ticket := v]))
  }

  function EnqStep(g: Geometry, s: Ring, t: Tid, c: Choice, v: nat, nonempty: bool, pc: EnqPc): Ring
    requires ValidGeometry(g) && |s.m.slots| == g.n
  {
    match pc
    case TakeTicket =>
      Next(s, t, Enq(v, nonempty, EnqPc.LoadSlot(s.m.tail)),
           s.m.(tail := s.m.tail + 1), s.h.(enqOwner := s.h.enqOwner[s.m.tail := t]))
    case LoadSlot(ticket) =>
      Goto(s, t, Enq(v, nonempty, EnqTest(g, ticket, s.m.slots[g.loc(ticket)])))
    case TestHead(ticket, e) =>
      Goto(s, t, Enq(v, nonempty, if s.m.head <= ticket then EnqPc.CasSlot(ticket, e) else EnqPc.TakeTicket))
    case CasSlot(ticket, e) =>
      if s.m.slots[g.loc(ticket)] == e && c != Alt then
        Install(g, s, t, if nonempty then Ret(Enqueued(ticket)) else Enq(v, nonempty, LoadThreshold(ticket)), v, ticket)
      else
        Goto(s, t, Enq(v, nonempty, EnqTest(g, ticket, s.m.slots[g.loc(ticket)])))
    case LoadThreshold(ticket) =>
      Goto(s, t, if s.m.threshold != g.threshold then Enq(v, nonempty, StoreThreshold(ticket)) else Ret(Enqueued(ticket)))
    case StoreThreshold(ticket) =>
      Next(s, t, Ret(Enqueued(ticket)), s.m.(threshold := g.threshold), s.h)
  }

  // ----- dequeue ---------------------------------------------------------

  /** The low bits of a slot word: the index, or all ones when there is none. */
  function IndexBits(g: Geometry, e: Slot): nat {
    if e.val.Some? then e.val.value else if g.n == 0 then 0 else g.n - 1
  }

  /** The word a dequeuer writes over e: an occupied slot of an older cycle
      becomes unsafe, an empty one moves to the dequeuer's cycle. */
  function Overwrite(g: Geometry, ticket: nat, e: Slot): Slot {
    if e.val.Some? then e.(safe := false) else Slot(g.cyc(ticket), e.safe, None)
  }

  /** The loop body of the dequeuer on the word e, up to its next access; None
      when it leaves the slot without a value. */
  function DeqTest(g: Geometry, c: Choice, ticket: nat, e: Slot): Option<DeqPc> {
    if e.cycle == g.cyc(ticket) then Some(Erase(ticket, IndexBits(g, e)))
    else if e.val.Some? && !e.safe then None
    else if e.val.None? && c == Alt then Some(DeqPc.LoadSlot(ticket))
    else if e.cycle < g.cyc(ticket) then Some(DeqPc.CasSlot(ticket, e))
    else None
  }

  /** The dequeuer gives its ticket up; m is the memory it leaves behind. */
  function Leave(s: Ring, t: Tid, nonempty: bool, ticket: nat, m: Memory): Ring {
    Next(s, t, if nonempty then Deq(true, DeqPc.TakeTicket) else Empty(ticket, LoadTail),
         m, s.h.(gaveUp := s.h.gaveUp + {ticket}))
  }

  function DeqContinue(g: Geometry, s: Ring, t: Tid, c: Choice, nonempty: bool, ticket: nat): Ring
    requires ValidGeometry(g) && |s.m.slots| == g.n
  {
    match DeqTest(g, c, ticket, s.m.slots[g.loc(ticket)])
    case Some(pc) => Goto(s, t, Deq(nonempty, pc))
    case None => Leave(s, t, nonempty, ticket, s.m)
  }

  function DeqStep(g: Geometry, s: Ring, t: Tid, c: Choice, nonempty: bool, pc: DeqPc): Ring
    requires ValidGeometry(g) && |s.m.slots| == g.n
  {
    match pc
    case TestThreshold =>
      Goto(s, t, if s.m.threshold < 0 then Ret(EmptyByThreshold) else Deq(nonempty, DeqPc.TakeTicket))
    case TakeTicket =>
      Next(s, t, Deq(nonempty, DeqPc.LoadSlot(s.m.head)),
           s.m.(head := s.m.head + 1), s.h.(deqOwner := s.h.deqOwner[s.m.head := t]))
    case LoadSlot(ticket) =>
      DeqContinue(g, s, t, c, nonempty, ticket)
    case Erase(ticket, v) =>
      Next(s, t, Ret(Dequeued(ticket, v)),
           SetSlot(s.m, g.loc(ticket), s.m.slots[g.loc(ticket)].(val := None)),
           s.h.(taken := s.h.taken[ticket := v]))
    case CasSlot(ticket, e) =>
      if s.m.slots[g.loc(ticket)] == e && c != Alt then
        Leave(s, t, nonempty, ticket, SetSlot(s.m, g.loc(ticket), Overwrite(g, ticket, e)))
      else
        DeqContinue(g, s, t, c, nonempty, ticket)
  }

  /** The emptiness test after a dequeuer left its slot, with tail catch-up. */
  function EmptyStep(s: Ring, t: Tid, c: Choice, ticket: nat, pc: EmptyPc): Ring {
    match pc
    case LoadTail =>
      Goto(s, t, Empty(ticket, if s.m.tail <= ticket + 1 then CatchCas(s.m.tail, ticket + 1) else LowerThreshold(false)))
    case CatchCas(tail, target) =>
      if s.m.tail == tail && c != Alt then
        Next(s, t, Empty(ticket, LowerThreshold(true)), s.m.(tail := target), s.h)
      else
        Goto(s, t, Empty(ticket, CatchHead))
    case CatchHead =>
      Goto(s, t, Empty(ticket, CatchTail(s.m.head)))
    case CatchTail(target) =>
      Goto(s, t, Empty(ticket, if s.m.tail >= target then LowerThreshold(true) else CatchCas(s.m.tail, target)))
    case LowerThreshold(found) =>
      Next(s, t, if found then Ret(EmptyByTail(ticket))
                 else if s.m.threshold <= 0 then Ret(EmptyByThreshold)
                 else Deq(false, DeqPc.TakeTicket),
           s.m.(threshold := s.m.threshold - 1), s.h)
  }

  /** The first counter of an operation.  An index must lie below the all-ones
      index n - 1. */
  function StartPc(g: Geometry, op: Op, current: Pc): Pc {
    match op
    case OpEnqueue(v, nonempty) => if v + 1 < g.n then Enq(v, nonempty, EnqPc.TakeTicket) else current
    case OpDequeue(nonempty) => Deq(nonempty, if nonempty then DeqPc.TakeTicket else TestThreshold)
  }

  /** One atomic access by thread t, or the start of its next operation. */
  function Step(g: Geometry, s: Ring, t: Tid, c: Choice): (s': Ring)
    requires ValidGeometry(g) && |s.m.slots| == g.n
    ensures |s'.m.slots| == g.n
  {
    match PcOf(s, t)
    case Enq(v, nonempty, pc) => EnqStep(g, s, t, c, v, nonempty, pc)
    case Deq(nonempty, pc) => DeqStep(g, s, t, c, nonempty, pc)
    case Empty(ticket, pc) => EmptyStep(s, t, c, ticket, pc)
    case _ => if c.Start? then Goto(s, t, StartPc(g, c.op, PcOf(s, t))) else s
  }

  // ----- invariant -------------------------------------------------------

  /** The enqueue ticket a thread may still install at. */
  ghost function EnqTicket(pc: Pc): Option<nat> {
    match pc
    case Enq(_, _, LoadSlot(p)) => Some(p)
    case Enq(_, _, TestHead(p, _)) => Some(p)
    case Enq(_, _, CasSlot(p, _)) => Some(p)
    case _ => None
  }

  /** The dequeue ticket a thread may still take a value at. */
  ghost function DeqTicket(pc: Pc): Option<nat> {
    match pc
    case Deq(_, LoadSlot(p)) => Some(p)
    case Deq(_, Erase(p, _)) => Some(p)
    case Deq(_, CasSlot(p, _)) => Some(p)
    case _ => None
  }

  /** The order in which the words of one slot follow each other: the cycle
      grows; within a cycle an index is erased but never comes back, and the
      safe bit is cleared but never set. */
  ghost predicate Older(a: Slot, b: Slot) {
    || a.cycle < b.cycle
    || (a.cycle == b.cycle && a.val.Some? && b.val.None?)
    || (a.cycle == b.cycle && a.val.Some? == b.val.Some? && a.safe && !b.safe)
  }

  /** What holds of ticket p, on both sides. */
  ghost predicate TicketInv(g: Geometry, s: Ring, p: nat)
    requires ValidGeometry(g) && |s.m.slots| == g.n
  {
    var w := s.m.slots[g.loc(p)];
    && (p in s.h.installed ==> p < s.m.tail && s.h.installed[p] + 1 < g.n)
    && (p in s.h.taken ==> p in s.h.installed && s.h.taken[p] == s.h.installed[p] && p < s.m.head && p !in s.h.gaveUp)
    && (p in s.h.installed && p !in s.h.taken ==> w.cycle == g.cyc(p) && w.val == Some(s.h.installed[p]))
    && (w.cycle == g.cyc(p) ==> p in s.h.installed || p in s.h.gaveUp)
    && (p in s.h.gaveUp ==> p < s.m.head && p !in s.h.installed && (w.cycle >= g.cyc(p) || !w.safe))
    && (p in s.h.enqOwner ==> p < s.m.tail)
    && (p in s.h.deqOwner <==> p < s.m.head)
    && (p in s.h.deqOwner && p !in s.h.taken && p !in s.h.gaveUp ==> DeqTicket(PcOf(s, s.h.deqOwner[p])) == Some(p))
  }

  /** The word e read by the enqueuer of ticket p cannot come back once a
      dequeuer of p or of a later ticket of the slot has given up. */
  ghost predicate NoLateInstall(g: Geometry, s: Ring, p: nat, e: Slot)
    requires ValidGeometry(g) && |s.m.slots| == g.n
  {
    forall q :: q in s.h.gaveUp && g.loc(q) == g.loc(p) && g.cyc(q) >= g.cyc(p) ==> Older(e, s.m.slots[g.loc(p)])
  }

  /** e is an empty word of an older cycle that the slot of p once held. */
  ghost predicate OnceSeen(g: Geometry, s: Ring, p: nat, e: Slot)
    requires ValidGeometry(g) && |s.m.slots| == g.n
  {
    && e.cycle < g.cyc(p) && e.val.None?
    && (s.m.slots[g.loc(p)] == e || Older(e, s.m.slots[g.loc(p)]))
  }

  ghost predicate EnqInv(g: Geometry, s: Ring, pc: EnqPc)
    requires ValidGeometry(g) && |s.m.slots| == g.n
  {
    match pc
    case TestHead(p, e) => OnceSeen(g, s, p, e) && !e.safe
    case CasSlot(p, e) => OnceSeen(g, s, p, e) && (!e.safe ==> NoLateInstall(g, s, p, e))
    case LoadThreshold(p) => p in s.h.installed
    case StoreThreshold(p) => p in s.h.installed
    case _ => true
  }

  ghost predicate DeqInv(g: Geometry, s: Ring, pc: DeqPc) {
    match pc
    case Erase(p, v) => p in s.h.installed && s.h.installed[p] == v
    case CasSlot(p, e) => e.cycle < g.cyc(p) && (e.val.Some? ==> e.safe)
    case _ => true
  }

  ghost predicate EmptyInv(s: Ring, pc: EmptyPc) {
    match pc
    case CatchCas(tail, target) => tail <= target <= s.m.head
    case CatchTail(target) => target <= s.m.head
    case _ => true
  }

  /** A returned result is backed by the history. */
  ghost predicate ResultInv(s: Ring, res: Result) {
    match res
    case Enqueued(p) => p in s.h.installed
    case Dequeued(p, v) => p in s.h.taken && s.h.taken[p] == v
    case EmptyByTail(p) => p in s.h.gaveUp
    case EmptyByThreshold => true
  }

  ghost predicate PcInv(g: Geometry, s: Ring, pc: Pc)
    requires ValidGeometry(g) && |s.m.slots| == g.n
  {
    match pc
    case Idle => true
    case Ret(res) => ResultInv(s, res)
    case Enq(v, _, pc) => v + 1 < g.n && EnqInv(g, s, pc)
    case Deq(_, pc) => DeqInv(g, s, pc)
    case Empty(p, pc) => p in s.h.gaveUp && p < s.m.head && EmptyInv(s, pc)
  }

  /** The tickets t holds are its own and still open. */
  ghost predicate Holds(s: Ring, t: Tid, pc: Pc) {
    && (forall p :: EnqTicket(pc) == Some(p) ==> p in s.h.enqOwner && s.h.enqOwner[p] == t && p !in s.h.installed)
    && (forall p :: DeqTicket(pc) == Some(p) ==> p in s.h.deqOwner && s.h.deqOwner[p] == t && p !in s.h.taken)
    && (forall p :: DeqTicket(pc) == Some(p) ==> p !in s.h.gaveUp)
  }

  ghost predicate ThreadInv(g: Geometry, s: Ring, t: Tid)
    requires ValidGeometry(g) && |s.m.slots| == g.n
  {
    Holds(s, t, PcOf(s, t)) && PcInv(g, s, PcOf(s, t))
  }

  ghost predicate Tickets(g: Geometry, s: Ring)
    requires ValidGeometry(g) && |s.m.slots| == g.n
  {
    forall p :: TicketInv(g, s, p)
  }

  ghost predicate Threads(g: Geometry, s: Ring)
    requires ValidGeometry(g) && |s.m.slots| == g.n
  {
    forall t :: ThreadInv(g, s, t)
  }

  ghost predicate Inv(g: Geometry, s: Ring) {
    ValidGeometry(g) && |s.m.slots| == g.n && Tickets(g, s) && Threads(g, s)
  }
}
