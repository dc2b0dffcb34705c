/**
 * Every access of every thread keeps the list, the two locks, and what ties them
 * together; and it is an access that CcQueue and CcSynch know.
 */
module CcCombinedSteps {
  import opened CcCombined
  import opened Options
  import L = CcSynch
  import LS = CcSynchSteps
  import Q = CcQueue
  import QS = CcQueueSteps

  /** Inside a lock, a client's counter shows its request, or the answer. */
  lemma InsideShows(q: Q.Queue, l: L.Lock, side: Side, t: Tid)
    requires L.HistoryInv(l) && L.ThreadInv(l, t) && Coupled(q, l, side) && !Outside(l, t)
    ensures Answered(q, side, t) || exists d :: Asks(q, side, t, d)
  {
    assert CallInv(q, l, side, t);
    match L.PcOf(l, t)
    case ResetNext(d) => assert Asks(q, side, t, d);
    case ResetStatus(d) => assert Asks(q, side, t, d);
    case Swap(d) => assert Asks(q, side, t, d);
    case Wait(_, i, _, _) => if i >= |l.h.applied| { assert Asks(q, side, l.h.owner[i], l.h.requests[i]); }
    case Combine(_, i, _) => if i >= |l.h.applied| { assert Asks(q, side, l.h.owner[i], l.h.requests[i]); }
    case _ =>
  }

  /** The threads of calls in line are inside the lock. */
  lemma InLineIsInside(l: L.Lock, j: nat)
    requires L.Inv(l) && |l.h.applied| <= j < |l.h.owner|
    ensures !Outside(l, l.h.owner[j])
  {
    assert L.InLine(l, j);
  }

  /** A change of the queue that touches no thread inside the lock, nor the server
      of its side. */
  lemma CoupledKept(q: Q.Queue, q': Q.Queue, l: L.Lock, side: Side)
    requires L.Inv(l) && Coupled(q, l, side)
    requires forall t :: !Outside(l, t) ==> Q.PcOf(q', t) == Q.PcOf(q, t)
    requires Serving(q', side) ==> Serving(q, side) && Served(q', side) == Served(q, side)
    ensures Coupled(q', l, side)
  {
    forall j | |l.h.applied| <= j < |l.h.owner| ensures Asks(q', side, l.h.owner[j], l.h.requests[j]) {
      InLineIsInside(l, j);
      assert Asks(q, side, l.h.owner[j], l.h.requests[j]);
    }
    forall t ensures CallInv(q', l, side, t) { assert CallInv(q, l, side, t); }
  }

  // ----- steps of the lock alone -----------------------------------------

  /** What a step outside apply does to the line. */
  ghost predicate LineStep(l: L.Lock, l': L.Lock, t: Tid, d: L.Request) {
    var (pc, pc') := (L.PcOf(l, t), L.PcOf(l', t));
    && l'.h.applied == l.h.applied
    && (forall u :: u != t ==> L.PcOf(l', u) == L.PcOf(l, u))
    && (if pc.Swap? then l'.h.owner == l.h.owner + [t] && l'.h.requests == l.h.requests + [pc.d]
        else l'.h.owner == l.h.owner && l'.h.requests == l.h.requests)
    && (l'.h.baton == l.h.baton || l.h.baton.None? || l.h.baton == Some(t))
    && match pc'
       case ResetNext(e) => Outside(l, t) && e == d
       case ResetStatus(e) => pc == L.ResetNext(e)
       case Swap(e) => pc == L.ResetStatus(e)
       case Wait(_, i, _, _) => (pc.Swap? && i == |l.h.owner|) || (pc.Wait? && pc.i == i)
       case Combine(_, i, _) => (pc.Wait? && pc.i == i) || (pc.Combine? && pc.i == i)
       case _ => true
  }

  lemma WaitIsLineStep(l: L.Lock, t: Tid, d: L.Request)
    requires L.HistoryInv(l) && L.ThreadInv(l, t) && t in l.m.handle && L.PcOf(l, t).Wait?
    ensures LineStep(l, L.Step(l, t, d), t, d)
  {
  }

  lemma CombineIsLineStep(l: L.Lock, t: Tid, d: L.Request)
    requires L.HistoryInv(l) && L.ThreadInv(l, t) && t in l.m.handle && L.PcOf(l, t).Combine? && !Applying(l, t)
    ensures LineStep(l, L.Step(l, t, d), t, d)
  {
  }

  lemma EntryIsLineStep(l: L.Lock, t: Tid, d: L.Request)
    requires t in l.m.handle && !L.PcOf(l, t).Wait? && !L.PcOf(l, t).Combine?
    ensures LineStep(l, L.Step(l, t, d), t, d)
  {
  }

  lemma StepIsLineStep(l: L.Lock, t: Tid, d: L.Request)
    requires L.Inv(l) && t in l.m.handle && !Applying(l, t)
    ensures LineStep(l, L.Step(l, t, d), t, d)
  {
    assert L.ThreadInv(l, t);
    if L.PcOf(l, t).Wait? { WaitIsLineStep(l, t, d); }
    else if L.PcOf(l, t).Combine? { CombineIsLineStep(l, t, d); }
    else { EntryIsLineStep(l, t, d); }
  }

  lemma LockAlone(q: Q.Queue, l: L.Lock, l': L.Lock, side: Side, t: Tid, d: L.Request)
    requires L.Inv(l) && L.Inv(l') && LineStep(l, l', t, d) && !Applying(l, t)
    requires Coupled(q, l, side) && (Outside(l, t) ==> Asks(q, side, t, d))
    ensures Coupled(q, l', side)
  {
    assert CallInv(q, l, side, t);
    forall u ensures CallInv(q, l', side, u) { assert CallInv(q, l, side, u); }
  }

  // ----- steps of apply --------------------------------------------------

  /** The combiner's argument is the request of the next call in line. */
  lemma CurrentIsNext(l: L.Lock, t: Tid)
    requires L.Inv(l) && Applying(l, t)
    ensures var m := |l.h.applied|; m < |l.h.owner| && Current(l, t) == l.h.requests[m] && l.h.baton == Some(t)
    ensures t in l.m.handle
  {
    assert L.ThreadInv(l, t);
    if L.PcOf(l, t).combine.ApplyOther? {
      assert L.IsSpinning(l, |l.h.applied|);
      assert L.ThreadInv(l, l.h.owner[|l.h.applied|]);
    }
  }

  /** So the first access of apply is the server's in CcQueue. */
  lemma BeginIsServe(q: Q.Queue, l: L.Lock, side: Side, t: Tid)
    requires L.Inv(l) && Applying(l, t) && Coupled(q, l, side) && !Serving(q, side)
    ensures Begin(q, side, Caller(l), Current(l, t)) == Serve(q, side, Caller(l))
    ensures |l.h.applied| < |l.h.owner| && Caller(l) == l.h.owner[|l.h.applied|] && Asks(q, side, Caller(l), Current(l, t))
  {
    CurrentIsNext(l, t);
    assert Asks(q, side, l.h.owner[|l.h.applied|], l.h.requests[|l.h.applied|]);
  }

  lemma ServeKeeps(q: Q.Queue, side: Side, t: Tid)
    requires Q.Inv(q)
    ensures Q.Inv(Serve(q, side, t))
  {
    match side
    case Enqueues => QS.EnqServerKeeps(q, t);
    case Dequeues => QS.DeqServerKeeps(q, t);
  }

  function Other(side: Side): Side { if side.Enqueues? then Dequeues else Enqueues }

  /** What an access of apply does to servers and clients: before the last one
      the clients do not notice, and the last one answers the client served. */
  lemma ServeEffect(q: Q.Queue, side: Side, t: Tid)
    requires Q.Inv(q) && Serving(q, side)
    ensures var q' := Serve(q, side, t); var u := Served(q, side);
      && Serving(q', Other(side)) == Serving(q, Other(side))
      && (Serving(q, Other(side)) ==> Served(q', Other(side)) == Served(q, Other(side)))
      && Asks(q, side, u, Argument(q, side, u))
      && (forall w :: w != u ==> Q.PcOf(q', w) == Q.PcOf(q, w))
      && (!AtLast(q, side) ==> Serving(q', side) && Served(q', side) == u && Q.PcOf(q', u) == Q.PcOf(q, u))
      && (AtLast(q, side) ==> !Serving(q', side) && Answered(q', side, u))
  {
    match side
    case Enqueues => EnqueueEffect(q, t);
    case Dequeues => DequeueEffect(q, t);
  }

  lemma EnqueueEffect(q: Q.Queue, t: Tid)
    requires Q.Inv(q) && !q.srv.enq.NoEnqueue?
    ensures var q' := Q.EnqServerStep(q, t); var u := q.srv.enq.t;
      && q'.srv.deq == q.srv.deq && Asks(q, Enqueues, u, Q.PcOf(q, u).node)
      && (forall w :: w != u ==> Q.PcOf(q', w) == Q.PcOf(q, w))
      && (!q.srv.enq.MoveTail? ==> !q'.srv.enq.NoEnqueue? && q'.srv.enq.t == u && Q.PcOf(q', u) == Q.PcOf(q, u))
      && (q.srv.enq.MoveTail? ==> q'.srv.enq.NoEnqueue? && Q.PcOf(q', u) == Q.Ret(Q.Enqueued))
  {
    if q.srv.enq.Link? { QS.LinkingChain(q, q.srv.enq.t, q.srv.enq.node, q.srv.enq.tail); }
  }

  lemma DequeueEffect(q: Q.Queue, t: Tid)
    requires Q.Inv(q) && !q.srv.deq.NoDequeue?
    ensures var q' := Q.DeqServerStep(q, t); var u := q.srv.deq.t;
      && q'.srv.enq == q.srv.enq && Asks(q, Dequeues, u, u)
      && (forall w :: w != u ==> Q.PcOf(q', w) == Q.PcOf(q, w))
      && (!AtLast(q, Dequeues) ==> !q'.srv.deq.NoDequeue? && q'.srv.deq.t == u && Q.PcOf(q', u) == Q.PcOf(q, u))
      && (AtLast(q, Dequeues) ==> q'.srv.deq.NoDequeue? && Answered(q', Dequeues, u))
  {
    QS.ReadsStayAtHead(q);
  }

  /** An access of apply on one side does not touch the calls of the other. */
  lemma OtherSideKept(q: Q.Queue, q': Q.Queue, l: L.Lock, side: Side, u: Tid)
    requires L.Inv(l) && Coupled(q, l, Other(side)) && Asks(q, side, u, Argument(q, side, u))
    requires forall w :: w != u ==> Q.PcOf(q', w) == Q.PcOf(q, w)
    requires Serving(q', Other(side)) == Serving(q, Other(side))
    requires Serving(q, Other(side)) ==> Served(q', Other(side)) == Served(q, Other(side))
    ensures Coupled(q', l, Other(side))
  {
    assert L.ThreadInv(l, u);
    if !Outside(l, u) { InsideShows(q, l, Other(side), u); }
    CoupledKept(q, q', l, Other(side));
  }

  /** The first access: the baton holder begins to serve the next call. */
  lemma BeginKeeps(q: Q.Queue, l: L.Lock, side: Side, t: Tid)
    requires L.Inv(l) && Applying(l, t) && Coupled(q, l, side) && !Serving(q, side)
    ensures var q' := Begin(q, side, Caller(l), Current(l, t));
      Coupled(q', l, side) && q'.pcs == q.pcs
      && Serving(q', Other(side)) == Serving(q, Other(side))
      && (Serving(q, Other(side)) ==> Served(q', Other(side)) == Served(q, Other(side)))
  {
    var q' := Begin(q, side, Caller(l), Current(l, t));
    CurrentIsNext(l, t);
    BeginIsServe(q, l, side, t);
    forall j | |l.h.applied| <= j < |l.h.owner| ensures Asks(q', side, l.h.owner[j], l.h.requests[j]) {
      assert Asks(q, side, l.h.owner[j], l.h.requests[j]);
    }
    forall w ensures CallInv(q', l, side, w) { assert CallInv(q, l, side, w); }
  }

  /** The last access: the call is applied, and its client has its answer. */
  lemma LastKeeps(q: Q.Queue, q': Q.Queue, l: L.Lock, l': L.Lock, side: Side, t: Tid)
    requires L.Inv(l) && L.Inv(l') && Applying(l, t) && Coupled(q, l, side) && l' == L.Step(l, t, 0)
    requires Serving(q, side) && !Serving(q', side) && Answered(q', side, Served(q, side))
    requires forall w :: w != Served(q, side) ==> Q.PcOf(q', w) == Q.PcOf(q, w)
    ensures Coupled(q', l', side)
  {
    CurrentIsNext(l, t);
    var m, u := |l.h.applied|, Served(q, side);
    forall j | m + 1 <= j < |l.h.owner| ensures Asks(q', side, l.h.owner[j], l.h.requests[j]) {
      assert L.InLine(l, j) && L.InLine(l, m);
      assert Asks(q, side, l.h.owner[j], l.h.requests[j]);
    }
    forall w ensures CallInv(q', l', side, w) {
      assert CallInv(q, l, side, w) && L.ThreadInv(l, w);
      if w == u { assert L.InLine(l, m); }
    }
  }

  // ----- every step ------------------------------------------------------

  /** A client outside both locks changes nothing that a call inside relies on. */
  lemma ClientStepKeeps(s: Whole, q': Q.Queue, t: Tid)
    requires Inv(s) && Q.Inv(q') && Outside(s.enq, t) && Outside(s.deq, t)
    requires q'.srv == s.q.srv && forall u :: u != t ==> Q.PcOf(q', u) == Q.PcOf(s.q, u)
    ensures Inv(WithQueue(s, q'))
  {
    CoupledKept(s.q, q', s.enq, Enqueues);
    CoupledKept(s.q, q', s.deq, Dequeues);
  }

  lemma LockOnlyKeeps(s: Whole, side: Side, t: Tid, d: L.Request)
    requires Inv(s) && !Applying(LockOf(s, side), t) && (Outside(LockOf(s, side), t) ==> Asks(s.q, side, t, d))
    ensures Inv(WithLock(s, side, L.Step(LockOf(s, side), t, d)))
  {
    var l := LockOf(s, side);
    LS.StepKeepsInv(l, t, d);
    if t in l.m.handle {
      StepIsLineStep(l, t, d);
      LockAlone(s.q, l, L.Step(l, t, d), side, t, d);
    }
  }

  lemma BeginStepKeeps(s: Whole, side: Side, t: Tid)
    requires Inv(s) && Applying(LockOf(s, side), t) && !Serving(s.q, side)
    ensures Inv(LockStep(s, side, t))
  {
    var l := LockOf(s, side);
    var q' := Begin(s.q, side, Caller(l), Current(l, t));
    BeginIsServe(s.q, l, side, t);
    ServeKeeps(s.q, side, Caller(l));
    BeginKeeps(s.q, l, side, t);
    OtherSideKept(s.q, q', LockOf(s, Other(side)), side, Caller(l));
  }

  lemma MiddleStepKeeps(s: Whole, side: Side, t: Tid)
    requires Inv(s) && Applying(LockOf(s, side), t) && Serving(s.q, side) && !AtLast(s.q, side)
    ensures Inv(LockStep(s, side, t))
  {
    var q' := Serve(s.q, side, t);
    ServeKeeps(s.q, side, t);
    ServeEffect(s.q, side, t);
    CoupledKept(s.q, q', LockOf(s, side), side);
    OtherSideKept(s.q, q', LockOf(s, Other(side)), side, Served(s.q, side));
  }

  lemma LastStepParts(s: Whole, side: Side, t: Tid)
    requires Inv(s) && Applying(LockOf(s, side), t) && Serving(s.q, side) && AtLast(s.q, side)
    ensures var (q', l') := (Serve(s.q, side, t), L.Step(LockOf(s, side), t, 0));
      Q.Inv(q') && L.Inv(l') && Coupled(q', l', side) && Coupled(q', LockOf(s, Other(side)), Other(side))
  {
    var l := LockOf(s, side);
    var q' := Serve(s.q, side, t);
    ServeKeeps(s.q, side, t);
    ServeEffect(s.q, side, t);
    LS.StepKeepsInv(l, t, 0);
    LastKeeps(s.q, q', l, L.Step(l, t, 0), side, t);
    OtherSideKept(s.q, q', LockOf(s, Other(side)), side, Served(s.q, side));
  }

  lemma LastStepKeeps(s: Whole, side: Side, t: Tid)
    requires Inv(s) && Applying(LockOf(s, side), t) && Serving(s.q, side) && AtLast(s.q, side)
    ensures Inv(LockStep(s, side, t))
  {
    LastStepParts(s, side, t);
    assert LockStep(s, side, t) == WithLock(WithQueue(s, Serve(s.q, side, t)), side, L.Step(LockOf(s, side), t, 0));
  }

  lemma ApplyStepKeeps(s: Whole, side: Side, t: Tid)
    requires Inv(s) && Applying(LockOf(s, side), t)
    ensures Inv(LockStep(s, side, t))
  {
    if !Serving(s.q, side) { BeginStepKeeps(s, side, t); }
    else if AtLast(s.q, side) { LastStepKeeps(s, side, t); }
    else { MiddleStepKeeps(s, side, t); }
  }

  lemma LockStepKeeps(s: Whole, side: Side, t: Tid)
    requires Inv(s)
    ensures Inv(LockStep(s, side, t))
  {
    var l := LockOf(s, side);
    if Applying(l, t) { ApplyStepKeeps(s, side, t); }
    else if !Outside(l, t) { LockOnlyKeeps(s, side, t, 0); }
    else if Asks(s.q, side, t, Argument(s.q, side, t)) { LockOnlyKeeps(s, side, t, Argument(s.q, side, t)); }
  }

  lemma StartKeeps(s: Whole, t: Tid, op: Q.Op)
    requires Inv(s) && Outside(s.enq, t) && Outside(s.deq, t)
    ensures Inv(WithQueue(s, Q.StartStep(s.q, t, op)))
  {
    QS.StartKeeps(s.q, t, op);
    ClientStepKeeps(s, Q.StartStep(s.q, t, op), t);
  }

  lemma ClientFrame(q: Q.Queue, t: Tid, alloc: Q.Addr)
    ensures Q.ClientStep(q, t, alloc).srv == q.srv
    ensures forall u :: u != t ==> Q.PcOf(Q.ClientStep(q, t, alloc), u) == Q.PcOf(q, u)
  {
  }

  lemma ClientKeeps(s: Whole, t: Tid, alloc: Q.Addr)
    requires Inv(s) && Outside(s.enq, t) && Outside(s.deq, t)
    ensures Inv(WithQueue(s, Q.ClientStep(s.q, t, alloc)))
  {
    QS.ClientKeeps(s.q, t, alloc);
    ClientFrame(s.q, t, alloc);
    ClientStepKeeps(s, Q.ClientStep(s.q, t, alloc), t);
  }

  /** Every access of every thread keeps the whole. */
  lemma StepKeepsInv(s: Whole, a: Action)
    requires Inv(s)
    ensures Inv(Step(s, a))
  {
    match a
    case Start(t, op) => if Outside(s.enq, t) && Outside(s.deq, t) { StartKeeps(s, t, op); }
    case Client(t, alloc) => if Outside(s.enq, t) && Outside(s.deq, t) { ClientKeeps(s, t, alloc); }
    case Lock(side, t) => LockStepKeeps(s, side, t);
  }
}
