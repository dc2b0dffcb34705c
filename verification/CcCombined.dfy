/**
 * The whole queue of benchmark/ccqueue.c: clients that pass their requests to
 * two combining locks (module CcSynch), whose combiners execute serialEnqueue and
 * serialDequeue access by access (module CcQueue).  Here a server is nobody in
 * particular: whoever holds the baton of a lock makes the next access.
 */
module CcCombined {
  import L = CcSynch
  import Q = CcQueue

  type Tid = nat

  /** The list with its clients, and the two locks. */
  datatype Whole = Whole(q: Q.Queue, enq: L.Lock, deq: L.Lock)

  /** One of the two sides. */
  datatype Side = Enqueues | Dequeues

  datatype Action = Start(t: Tid, op: Q.Op) | Client(t: Tid, alloc: Q.Addr) | Lock(side: Side, t: Tid)

  function LockOf(s: Whole, side: Side): L.Lock { if side.Enqueues? then s.enq else s.deq }

  function WithLock(s: Whole, side: Side, l: L.Lock): Whole {
    if side.Enqueues? then Whole(s.q, l, s.deq) else Whole(s.q, s.enq, l)
  }

  function WithQueue(s: Whole, q: Q.Queue): Whole { Whole(q, s.enq, s.deq) }

  /** t is not inside ccsynch_apply. */
  predicate Outside(l: L.Lock, t: Tid) { L.PcOf(l, t).Idle? || L.PcOf(l, t).Ret? }

  // ----- what a call of ccsynch_apply asks for ---------------------------

  /** Client t asks side to apply the request at address d: the node to be linked,
      or the place in t's own frame for the node removed. */
  predicate Asks(q: Q.Queue, side: Side, t: Tid, d: L.Request) {
    match side
    case Enqueues => Q.PcOf(q, t).AskEnqueue? && Q.PcOf(q, t).node == d
    case Dequeues => Q.PcOf(q, t).AskDequeue? && d == t
  }

  function Argument(q: Q.Queue, side: Side, t: Tid): L.Request {
    if side.Enqueues? && Q.PcOf(q, t).AskEnqueue? then Q.PcOf(q, t).node else t
  }

  /** t's request has been applied; t may not know it yet. */
  predicate Answered(q: Q.Queue, side: Side, t: Tid) {
    match side
    case Enqueues => Q.PcOf(q, t) == Q.Ret(Q.Enqueued)
    case Dequeues => Q.PcOf(q, t).TakeData? || Q.PcOf(q, t) == Q.Ret(Q.WasEmpty)
  }

  // ----- apply, access by access -----------------------------------------

  /** The combiner is about to execute apply, or is executing it. */
  predicate Applying(l: L.Lock, t: Tid) {
    L.PcOf(l, t).Combine? && (L.PcOf(l, t).combine.ApplyOwn? || L.PcOf(l, t).combine.ApplyOther?)
  }

  /** The argument that the combiner passes to apply: its own, or the one stored
      in the node at hand. */
  function Current(l: L.Lock, t: Tid): L.Request
    requires Applying(l, t)
  {
    match L.PcOf(l, t).combine
    case ApplyOwn(_) => L.PcOf(l, t).d
    case ApplyOther(curr, _, _) => L.NodeAt(l.m, curr).data
    case _ => 0
  }

  /** Whose call is next; no access depends on it. */
  function Caller(l: L.Lock): Tid { if |l.h.applied| < |l.h.owner| then l.h.owner[|l.h.applied|] else 0 }

  predicate Serving(q: Q.Queue, side: Side) {
    match side
    case Enqueues => !q.srv.enq.NoEnqueue?
    case Dequeues => !q.srv.deq.NoDequeue?
  }

  function Served(q: Q.Queue, side: Side): Tid
    requires Serving(q, side)
  {
    match side
    case Enqueues => q.srv.enq.t
    case Dequeues => q.srv.deq.t
  }

  /** Only the last store of apply is left. */
  predicate AtLast(q: Q.Queue, side: Side) {
    match side
    case Enqueues => q.srv.enq.MoveTail?
    case Dequeues => q.srv.deq.Store? || q.srv.deq.StoreEmpty?
  }

  function Begin(q: Q.Queue, side: Side, caller: Tid, d: L.Request): Q.Queue {
    match side
    case Enqueues => Q.EnqGoto(q, Q.LoadTail(caller, d))
    case Dequeues => Q.DeqGoto(q, Q.LoadHead(d))
  }

  function Serve(q: Q.Queue, side: Side, t: Tid): Q.Queue {
    match side
    case Enqueues => Q.EnqServerStep(q, t)
    case Dequeues => Q.DeqServerStep(q, t)
  }

  /** A step of t inside ccsynch_apply, or into it. */
  function LockStep(s: Whole, side: Side, t: Tid): Whole {
    var l := LockOf(s, side);
    if Outside(l, t) then
      if Asks(s.q, side, t, Argument(s.q, side, t)) then WithLock(s, side, L.Step(l, t, Argument(s.q, side, t))) else s
    else if !Applying(l, t) then WithLock(s, side, L.Step(l, t, 0))
    else if !Serving(s.q, side) then WithQueue(s, Begin(s.q, side, Caller(l), Current(l, t)))
    else if AtLast(s.q, side) then WithLock(WithQueue(s, Serve(s.q, side, t)), side, L.Step(l, t, 0))
    else WithQueue(s, Serve(s.q, side, t))
  }

  /** A client makes its own steps only outside both locks. */
  function Step(s: Whole, a: Action): Whole {
    match a
    case Start(t, op) => if Outside(s.enq, t) && Outside(s.deq, t) then WithQueue(s, Q.StartStep(s.q, t, op)) else s
    case Client(t, alloc) => if Outside(s.enq, t) && Outside(s.deq, t) then WithQueue(s, Q.ClientStep(s.q, t, alloc)) else s
    case Lock(side, t) => LockStep(s, side, t)
  }

  ghost predicate Initial(s: Whole) { Q.Initial(s.q) && L.Initial(s.enq) && L.Initial(s.deq) }

  // ----- invariant -------------------------------------------------------

  /** Where t's call stands, on both levels. */
  ghost predicate CallInv(q: Q.Queue, l: L.Lock, side: Side, t: Tid) {
    match L.PcOf(l, t)
    case ResetNext(d) => Asks(q, side, t, d)
    case ResetStatus(d) => Asks(q, side, t, d)
    case Swap(d) => Asks(q, side, t, d)
    case Wait(_, i, _, _) => i < |l.h.applied| ==> Answered(q, side, t)
    case Combine(_, i, _) => i < |l.h.applied| ==> Answered(q, side, t)
    case _ => true
  }

  /** Every call in line asks for what the line says, and apply is executed by the
      holder of the baton, for the next call in line. */
  ghost predicate Coupled(q: Q.Queue, l: L.Lock, side: Side)
    requires L.HistoryInv(l)
  {
    var m := |l.h.applied|;
    && (forall j :: m <= j < |l.h.owner| ==> Asks(q, side, l.h.owner[j], l.h.requests[j]))
    && (forall t :: CallInv(q, l, side, t))
    && (Serving(q, side) ==>
      l.h.baton.Some? && Applying(l, l.h.baton.value) && m < |l.h.owner| && Served(q, side) == l.h.owner[m])
  }

  ghost predicate Inv(s: Whole) {
    && Q.Inv(s.q) && L.Inv(s.enq) && L.Inv(s.deq)
    && Coupled(s.q, s.enq, Enqueues) && Coupled(s.q, s.deq, Dequeues)
  }

  lemma InitialInv(s: Whole)
    requires Initial(s)
    ensures Inv(s)
  {
    Q.InitialInv(s.q);
    L.InitialInv(s.enq);
    L.InitialInv(s.deq);
  }
}
