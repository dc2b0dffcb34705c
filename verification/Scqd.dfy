/**
 * The queue of benchmark/scqd.c: a data array whose indices travel as tokens
 * between a ring of free indices, a ring of allocated ones and the threads.
 * Each ring access is one step of module ScqRing; writing or reading a data
 * cell is a step of its own.
 */
module Scqd {
  import opened Options
  import opened ScqRing

  /** A queued pointer. */
  type Word = int

  datatype QResult = Done(ticket: nat) | Got(ticket: nat, d: Word) | WasEmpty

  /** Where a thread is in enqueue or dequeue; inside the Get and Put counters
      it is executing the ring operation its ring counter shows. */
  datatype QPc =
    | QIdle
    | QRet(res: QResult)
    | EnqGet(d: Word)
    | EnqWrite(d: Word, i: nat)
    | EnqPut(d: Word, i: nat)
    | DeqGet
    | DeqRead(ticket: nat, i: nat)
    | DeqPut(ticket: nat, i: nat, d: Word)

  datatype QChoice = Put(d: Word) | Take | Run(alt: bool)

  /** Where an index is. */
  datatype Place = InFree(ticket: nat) | InAlloc(ticket: nat) | InHand(t: Tid)

  /** The two rings, the data, and two records no step reads: the word each
      allocated ticket was published with, and where each index is. */
  datatype Queue = Queue(
    fq: Ring, aq: Ring, vals: seq<Word>, pcs: map<Tid, QPc>,
    published: map<nat, Word>, place: seq<Place>)

  function QPcOf(q: Queue, t: Tid): QPc {
    if t in q.pcs then q.pcs[t] else QIdle
  }

  function Move(q: Queue, t: Tid, pc: QPc): Queue {
    Queue(q.fq, q.aq, q.vals, q.pcs[t := pc], q.published, q.place)
  }

  function WithFree(q: Queue, fq: Ring): Queue { Queue(fq, q.aq, q.vals, q.pcs, q.published, q.place) }

  function WithAlloc(q: Queue, aq: Ring): Queue { Queue(q.fq, aq, q.vals, q.pcs, q.published, q.place) }

  function SetPlace(q: Queue, i: nat, place: Place): Queue {
    if i < |q.place| then Queue(q.fq, q.aq, q.vals, q.pcs, q.published, q.place[i := place]) else q
  }

  /** The ticket at which a thread no longer pending has installed. */
  function InstallTicketOf(pc: Pc): nat {
    match pc
    case Enq(_, _, LoadThreshold(p)) => p
    case Enq(_, _, StoreThreshold(p)) => p
    case Ret(Enqueued(p)) => p
    case _ => 0
  }

  /** A step inside lfring_dequeue on the ring of free indices. */
  function StepEnqGet(g: Geometry, q: Queue, t: Tid, c: Choice): Queue
    requires Fits(g, q)
  {
    var fq := Step(g, q.fq, t, c);
    match PcOf(fq, t)
    case Ret(Dequeued(_, v)) => SetPlace(WithFree(q, fq), v, InHand(t))
    case _ => WithFree(q, fq)
  }

  function StepDeqGet(g: Geometry, q: Queue, t: Tid, c: Choice): Queue
    requires Fits(g, q)
  {
    var aq := Step(g, q.aq, t, c);
    match PcOf(aq, t)
    case Ret(Dequeued(_, v)) => SetPlace(WithAlloc(q, aq), v, InHand(t))
    case _ => WithAlloc(q, aq)
  }

  /** A step inside lfring_enqueue on the ring of allocated indices. */
  function StepEnqPut(g: Geometry, q: Queue, t: Tid, c: Choice, d: Word, i: nat): Queue
    requires Fits(g, q)
  {
    var aq := Step(g, q.aq, t, c);
    if Pending(PcOf(q.aq, t)) && !Pending(PcOf(aq, t)) then
      var p := InstallTicketOf(PcOf(aq, t));
      SetPlace(Queue(q.fq, aq, q.vals, q.pcs, q.published[p := d], q.place), i, InAlloc(p))
    else
      WithAlloc(q, aq)
  }

  function StepDeqPut(g: Geometry, q: Queue, t: Tid, c: Choice, i: nat): Queue
    requires Fits(g, q)
  {
    var fq := Step(g, q.fq, t, c);
    if Pending(PcOf(q.fq, t)) && !Pending(PcOf(fq, t)) then
      SetPlace(WithFree(q, fq), i, InFree(InstallTicketOf(PcOf(fq, t))))
    else
      WithFree(q, fq)
  }

  ghost predicate Fits(g: Geometry, q: Queue) {
    ValidGeometry(g) && |q.fq.m.slots| == g.n && |q.aq.m.slots| == g.n
  }

  /** One step of thread t.  A step on a data cell outside the array does not
      happen in any run: IndexIsExclusive shows that the index is in range. */
  function QStep(g: Geometry, q: Queue, t: Tid, qc: QChoice): (q': Queue)
    requires Fits(g, q)
    ensures Fits(g, q')
  {
    var c := if qc == Run(true) then Alt else Go;
    match QPcOf(q, t)
    case EnqGet(d) => (match PcOf(q.fq, t)
      case Ret(Dequeued(_, v)) => Move(q, t, EnqWrite(d, v))
      case Ret(_) => Move(q, t, QRet(WasEmpty))
      case _ => StepEnqGet(g, q, t, c))
    case EnqWrite(d, i) =>
      if i < |q.vals| then
        Move(Queue(q.fq, Step(g, q.aq, t, Start(OpEnqueue(i, false))), q.vals[i := d], q.pcs, q.published, q.place),
             t, EnqPut(d, i))
      else q
    case EnqPut(d, i) => (match PcOf(q.aq, t)
      case Ret(Enqueued(p)) => Move(q, t, QRet(Done(p)))
      case _ => StepEnqPut(g, q, t, c, d, i))
    case DeqGet => (match PcOf(q.aq, t)
      case Ret(Dequeued(p, v)) => Move(q, t, DeqRead(p, v))
      case Ret(_) => Move(q, t, QRet(WasEmpty))
      case _ => StepDeqGet(g, q, t, c))
    case DeqRead(p, i) =>
      if i < |q.vals| then
        Move(WithFree(q, Step(g, q.fq, t, Start(OpEnqueue(i, true)))), t, DeqPut(p, i, q.vals[i]))
      else q
    case DeqPut(p, i, d) => (match PcOf(q.fq, t)
      case Ret(Enqueued(_)) => Move(q, t, QRet(Got(p, d)))
      case _ => StepDeqPut(g, q, t, c, i))
    case _ => (match qc
      case Put(d) => Move(WithFree(q, Step(g, q.fq, t, Start(OpDequeue(true)))), t, EnqGet(d))
      case Take => Move(WithAlloc(q, Step(g, q.aq, t, Start(OpDequeue(false)))), t, DeqGet)
      case Run(_) => q)
  }

  // ----- invariant -------------------------------------------------------

  /** The index t has in its hands, between taking it from one ring and
      installing it in the other. */
  ghost function Holding(q: Queue, t: Tid): Option<nat> {
    match QPcOf(q, t)
    case EnqGet(_) => TakenIndex(PcOf(q.fq, t))
    case EnqWrite(_, i) => Some(i)
    case EnqPut(_, i) => if Pending(PcOf(q.aq, t)) then Some(i) else None
    case DeqGet => TakenIndex(PcOf(q.aq, t))
    case DeqRead(_, i) => Some(i)
    case DeqPut(_, i, _) => if Pending(PcOf(q.fq, t)) then Some(i) else None
    case _ => None
  }

  ghost function TakenIndex(pc: Pc): Option<nat> {
    match pc
    case Ret(Dequeued(_, v)) => Some(v)
    case _ => None
  }

  ghost predicate Inside(h: History, p: nat, i: nat) {
    p in h.installed && p !in h.taken && h.installed[p] == i
  }

  ghost predicate At(q: Queue, place: Place, i: nat) {
    match place
    case InFree(p) => Inside(q.fq.h, p, i)
    case InAlloc(p) => Inside(q.aq.h, p, i)
    case InHand(t) => Holding(q, t) == Some(i)
  }

  /** Every index is where the record says, and nowhere else. */
  ghost predicate Tokens(q: Queue) {
    && |q.place| == |q.vals|
    && (forall i: nat :: i < |q.place| ==> At(q, q.place[i], i))
    && (forall place, i: nat :: At(q, place, i) ==> i < |q.place| && q.place[i] == place)
  }

  /** The data word of an index still to be dequeued is the one published. */
  ghost predicate Published(q: Queue) {
    && (forall p :: p in q.aq.h.installed ==> p in q.published)
    && (forall p: nat, i: nat :: Inside(q.aq.h, p, i) && i < |q.vals| ==> q.vals[i] == q.published[p])
  }

  /** The counters of an lfring_dequeue in progress or just returned. */
  ghost predicate DequeuePc(pc: Pc, nonempty: bool) {
    if nonempty then (pc.Deq? && pc.nonempty && !pc.deq.TestThreshold?) || (pc.Ret? && pc.res.Dequeued?)
    else (pc.Deq? && !pc.nonempty) || pc.Empty? || (pc.Ret? && !pc.res.Enqueued?)
  }

  /** The counters of an lfring_enqueue of v in progress or just returned. */
  ghost predicate EnqueuePc(pc: Pc, v: nat, nonempty: bool) {
    (pc.Enq? && pc.v == v && pc.nonempty == nonempty) || (pc.Ret? && pc.res.Enqueued?)
  }

  ghost predicate AtRest(pc: Pc) { pc.Idle? || pc.Ret? }

  /** d was published at ticket p. */
  ghost predicate Has(q: Queue, p: nat, d: Word) {
    p in q.aq.h.installed && p in q.published && q.published[p] == d
  }

  ghost predicate FreePcFits(q: Queue, t: Tid) {
    var pc := PcOf(q.fq, t);
    match QPcOf(q, t)
    case EnqGet(_) => DequeuePc(pc, true)
    case DeqPut(_, i, _) => EnqueuePc(pc, i, true)
    case _ => AtRest(pc)
  }

  ghost predicate AllocPcFits(q: Queue, t: Tid) {
    var pc := PcOf(q.aq, t);
    match QPcOf(q, t)
    case EnqPut(_, i) => EnqueuePc(pc, i, false)
    case DeqGet => DequeuePc(pc, false)
    case _ => AtRest(pc)
  }

  ghost predicate DataFits(q: Queue, t: Tid) {
    match QPcOf(q, t)
    case EnqPut(d, i) =>
      && (Pending(PcOf(q.aq, t)) ==> i < |q.vals| && q.vals[i] == d)
      && (!Pending(PcOf(q.aq, t)) ==> Has(q, InstallTicketOf(PcOf(q.aq, t)), d))
    case DeqGet => (match PcOf(q.aq, t)
      case Ret(Dequeued(p, v)) => p in q.aq.h.taken && v < |q.vals| && Has(q, p, q.vals[v])
      case _ => true)
    case DeqRead(p, i) => p in q.aq.h.taken && i < |q.vals| && Has(q, p, q.vals[i])
    case DeqPut(p, _, d) => p in q.aq.h.taken && Has(q, p, d)
    case QRet(Got(p, d)) => p in q.aq.h.taken && Has(q, p, d)
    case _ => true
  }

  ghost predicate QThreadInv(q: Queue, t: Tid) {
    FreePcFits(q, t) && AllocPcFits(q, t) && DataFits(q, t)
  }

  ghost predicate QInv(g: Geometry, q: Queue) {
    && Inv(g, q.fq) && Inv(g, q.aq) && |q.vals| < g.n
    && Tokens(q) && Published(q)
    && (forall t :: QThreadInv(q, t))
  }
}
