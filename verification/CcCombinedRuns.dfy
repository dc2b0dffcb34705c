/**
 * What every run of the whole queue keeps, from the initial state on.
 */
module CcCombinedRuns {
  import opened CcCombined
  import opened CcCombinedSteps
  import Fifo
  import L = CcSynch
  import Q = CcQueue
  import QR = CcQueueRuns

  function Exec(s: Whole, actions: seq<Action>): Whole
    decreases |actions|
  {
    if actions == [] then s else Exec(Step(s, actions[0]), actions[1..])
  }

  lemma {:induction false} RunKeepsInv(s: Whole, actions: seq<Action>)
    requires Inv(s)
    ensures Inv(Exec(s, actions))
    decreases |actions|
  {
    if actions != [] {
      StepKeepsInv(s, actions[0]);
      RunKeepsInv(Step(s, actions[0]), actions[1..]);
    }
  }

  /** The access of CcQueue that an action is, if it is one. */
  function AccessOf(s: Whole, a: Action): Q.Action {
    match a
    case Start(t, op) => Q.Start(t, op)
    case Client(t, alloc) => Q.Client(t, alloc)
    case Lock(side, t) =>
      var u := if Serving(s.q, side) then t else Caller(LockOf(s, side));
      if side.Enqueues? then Q.ServeEnqueue(u) else Q.ServeDequeue(u)
  }

  /** Every action is an access of CcQueue, or none. */
  lemma StepProjects(s: Whole, a: Action)
    requires Inv(s)
    ensures Step(s, a).q == s.q || Step(s, a).q == Q.Step(s.q, AccessOf(s, a))
  {
    if a.Lock? && Applying(LockOf(s, a.side), a.t) && !Serving(s.q, a.side) {
      BeginIsServe(s.q, LockOf(s, a.side), a.side, a.t);
    }
  }

  /** Safe reuse through both locks: no access goes through the address of an
      unallocated node, and a node that a combiner or a client follows is freed by
      nobody but the one client that holds it. */
  lemma NoUseAfterFree(s: Whole, actions: seq<Action>, t: Tid, act: Action, a: Q.Addr)
    requires Initial(s)
    ensures var s' := Exec(s, actions);
      && Q.PcOf(s'.q, t) != Q.Fault
      && (QR.ServerFollows(s'.q, a) || (exists u :: QR.ClientFollows(s'.q, u, a)) ==>
            a in s'.q.m.heap
            && (a !in Step(s', act).q.m.heap ==>
                  act.Client? && Q.PcOf(s'.q, act.t).KeepNode? && Q.PcOf(s'.q, act.t).node == a
                  && !QR.ServerFollows(s'.q, a) && forall u :: u != act.t ==> !QR.ClientFollows(s'.q, u, a)))
  {
    InitialInv(s);
    RunKeepsInv(s, actions);
    var s' := Exec(s, actions);
    assert Q.ClientInv(s'.q, t);
    StepProjects(s', act);
    if QR.ServerFollows(s'.q, a) || exists u :: QR.ClientFollows(s'.q, u, a) {
      QR.FollowedIsNotFreed(s'.q, AccessOf(s', act), a);
    }
  }

  /** In every run at most one thread executes serialEnqueue, and at most one
      serialDequeue: the holder of the baton, on behalf of the next call in line. */
  lemma ServerHoldsBaton(s: Whole, actions: seq<Action>, side: Side)
    requires Initial(s) && Serving(Exec(s, actions).q, side)
    ensures var s' := Exec(s, actions); var l := LockOf(s', side);
      && l.h.baton.Some? && Applying(l, l.h.baton.value)
      && |l.h.applied| < |l.h.owner| && Served(s'.q, side) == l.h.owner[|l.h.applied|]
  {
    InitialInv(s);
    RunKeepsInv(s, actions);
  }

  // ----- the queue -------------------------------------------------------

  /** Refinement of the whole: each access appends the word of an enqueue, removes
      the front, or leaves the content alone. */
  lemma StepRefinesFifo(s: Whole, a: Action)
    requires Inv(s)
    ensures QR.FifoStep(s.q, Step(s, a).q)
    ensures Q.Contents(s.q) + QR.Appended(s.q, Step(s, a).q) == QR.Removed(s.q, Step(s, a).q) + Q.Contents(Step(s, a).q)
  {
    StepProjects(s, a);
    if Step(s, a).q != s.q {
      QR.StepRefinesFifo(s.q, AccessOf(s, a));
      QR.OneServerAtATime(s.q, AccessOf(s, a));
    }
    QR.StepBalances(s.q, Step(s, a).q);
  }

  ghost function AllAppended(s: Whole, actions: seq<Action>): seq<Q.Word>
    decreases |actions|
  {
    if actions == [] then []
    else QR.Appended(s.q, Step(s, actions[0]).q) + AllAppended(Step(s, actions[0]), actions[1..])
  }

  ghost function AllRemoved(s: Whole, actions: seq<Action>): seq<Q.Word>
    decreases |actions|
  {
    if actions == [] then []
    else QR.Removed(s.q, Step(s, actions[0]).q) + AllRemoved(Step(s, actions[0]), actions[1..])
  }

  /** Over any run of any threads through both locks: what was in the queue, then
      all that was appended, is all that was removed, then what is left. */
  lemma {:induction false} RunIsFifo(s: Whole, actions: seq<Action>)
    requires Inv(s)
    ensures Q.Contents(s.q) + AllAppended(s, actions) == AllRemoved(s, actions) + Q.Contents(Exec(s, actions).q)
    decreases |actions|
  {
    if actions != [] {
      var s' := Step(s, actions[0]);
      StepKeepsInv(s, actions[0]);
      StepRefinesFifo(s, actions[0]);
      RunIsFifo(s', actions[1..]);
      Fifo.Balance(Q.Contents(s.q), Q.Contents(s'.q), Q.Contents(Exec(s', actions[1..]).q), QR.Appended(s.q, s'.q),
                   QR.Removed(s.q, s'.q), AllAppended(s', actions[1..]), AllRemoved(s', actions[1..]));
    }
  }

  // ----- the calls -------------------------------------------------------

  /** Only an applied call comes out of the lock. */
  lemma ReturnIsApplied(l: L.Lock, t: Tid)
    requires L.HistoryInv(l) && L.ThreadInv(l, t) && !Outside(l, t) && Outside(L.Step(l, t, 0), t)
    ensures !Applying(l, t)
    ensures (L.PcOf(l, t).Wait? || L.PcOf(l, t).Combine?) && L.PcOf(l, t).i < |l.h.applied|
  {
  }

  /** A thread that comes out of ccsynch_apply has been served: its node is
      linked, or its answer is in place, whoever combined. */
  lemma ReturnedIsAnswered(s: Whole, side: Side, t: Tid)
    requires Inv(s) && !Outside(LockOf(s, side), t) && Outside(LockOf(LockStep(s, side, t), side), t)
    ensures Answered(LockStep(s, side, t).q, side, t)
  {
    var l := LockOf(s, side);
    assert L.ThreadInv(l, t) && CallInv(s.q, l, side, t);
    assert LockOf(LockStep(s, side, t), side) == L.Step(l, t, 0);
    ReturnIsApplied(l, t);
  }

  /** Enqueued words enter the queue in the order in which their calls swapped the
      tail of the enqueue lock: an append is the word of the next call in line, and
      with it that call is the one being applied. */
  lemma AppendsInSwapOrder(s: Whole, a: Action)
    requires Inv(s) && QR.Appended(s.q, Step(s, a).q) != []
    ensures var l := s.enq; var m := |l.h.applied|;
      && m < |l.h.owner| && Q.PcOf(s.q, l.h.owner[m]).AskEnqueue?
      && QR.Appended(s.q, Step(s, a).q) == [Q.PcOf(s.q, l.h.owner[m]).d]
      && Q.PcOf(s.q, l.h.owner[m]).node == l.h.requests[m]
  {
    assert Serving(s.q, Enqueues);
    assert Asks(s.q, Enqueues, s.enq.h.owner[|s.enq.h.applied|], s.enq.h.requests[|s.enq.h.applied|]);
  }
}
