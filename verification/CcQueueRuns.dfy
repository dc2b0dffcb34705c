/**
 * What every run of the two-sided list queue keeps.
 */
module CcQueueRuns {
  import Fifo
  import opened CcQueue
  import opened CcQueueSteps
  import opened Options

  function Exec(s: Queue, actions: seq<Action>): Queue
    decreases |actions|
  {
    if actions == [] then s else Exec(Step(s, actions[0]), actions[1..])
  }

  lemma {:induction false} RunKeepsInv(s: Queue, actions: seq<Action>)
    requires Inv(s)
    ensures Inv(Exec(s, actions))
    decreases |actions|
  {
    if actions != [] {
      StepKeepsInv(s, actions[0]);
      RunKeepsInv(Step(s, actions[0]), actions[1..]);
    }
  }

  // ----- safe reuse ------------------------------------------------------

  /** The nodes whose addresses a server has read and goes on to use. */
  ghost predicate ServerFollows(s: Queue, a: Addr) {
    || (match s.srv.enq
        case NoEnqueue => false
        case LoadTail(_, node) => a == node
        case Link(_, node, tail) => a == node || a == tail
        case MoveTail(_, node) => a == node)
    || (match s.srv.deq
        case ReadNext(_, node) => a == node
        case ReadData(_, node, next) => a == node || a == next
        case WriteData(_, node, next, _) => a == node || a == next
        case MoveHead(_, node, next, _) => a == node || a == next
        case Store(_, node, _) => a == node
        case _ => false)
  }

  /** The node in t's hands, or the one t keeps in handle->next. */
  ghost predicate ClientFollows(s: Queue, t: Tid, a: Addr) { HeldBy(s, t) == Some(a) || (a != 0 && SpareOf(s, t) == a) }

  lemma ServerNodes(s: Queue, a: Addr)
    requires Inv(s) && ServerFollows(s, a)
    ensures a in s.m.heap && (a in s.sh.chain || exists t :: !PcOf(s, t).KeepNode? && HeldBy(s, t) == Some(a))
  {
    var enq, deq := s.srv.enq, s.srv.deq;
    if !enq.NoEnqueue? && a == enq.node && a !in s.sh.chain {
      assert !PcOf(s, enq.t).KeepNode? && HeldBy(s, enq.t) == Some(a);
    } else if deq.Store? && a == deq.node {
      assert !PcOf(s, deq.t).KeepNode? && HeldBy(s, deq.t) == Some(a);
    }
  }

  lemma OnlyKeepingFrees(s: Queue, act: Action, a: Addr)
    requires Inv(s) && a in s.m.heap && a !in Step(s, act).m.heap
    ensures act.Client? && PcOf(s, act.t).KeepNode? && PcOf(s, act.t).node == a && HeldBy(s, act.t) == Some(a)
  {
  }

  /** A node that anybody follows is allocated, and the next action frees it only
      if it is the last access of the one client that holds it, with no server and
      no other client following it. */
  lemma FollowedIsNotFreed(s: Queue, act: Action, a: Addr)
    requires Inv(s) && (ServerFollows(s, a) || exists t :: ClientFollows(s, t, a))
    ensures a in s.m.heap
    ensures a !in Step(s, act).m.heap ==>
      act.Client? && PcOf(s, act.t) == KeepNode(a, PcOf(s, act.t).d) && !ServerFollows(s, a)
      && forall t :: t != act.t ==> !ClientFollows(s, t, a)
  {
    if t :| ClientFollows(s, t, a) { HeldIsPrivate(s, t, a); } else { ServerNodes(s, a); }
    if a !in Step(s, act).m.heap {
      OnlyKeepingFrees(s, act, a);
      HeldIsPrivate(s, act.t, a);
      if ServerFollows(s, a) { ServerNodes(s, a); }
    }
  }

  /** Safe reuse in every run, although nodes and addresses are used again: no
      access goes through the address of an unallocated node, and a node is freed
      only by the one client that holds it, when nobody else follows it. */
  lemma NoUseAfterFree(s: Queue, actions: seq<Action>, t: Tid, act: Action, a: Addr)
    requires Initial(s)
    ensures var s' := Exec(s, actions);
      && PcOf(s', t) != Fault
      && (ServerFollows(s', a) || (exists u :: ClientFollows(s', u, a)) ==>
            a in s'.m.heap
            && (a !in Step(s', act).m.heap ==>
                  act.Client? && PcOf(s', act.t).KeepNode? && PcOf(s', act.t).node == a
                  && !ServerFollows(s', a) && forall u :: u != act.t ==> !ClientFollows(s', u, a)))
  {
    InitialInv(s);
    RunKeepsInv(s, actions);
    var s' := Exec(s, actions);
    assert ClientInv(s', t);
    if ServerFollows(s', a) || exists u :: ClientFollows(s', u, a) { FollowedIsNotFreed(s', act, a); }
  }

  // ----- first in, first out ---------------------------------------------

  /** What a step does to the content: the store to next appends, the store to
      head removes the front, the read of a NULL next sees an empty queue, and
      nothing else changes it. */
  ghost predicate FifoStep(s: Queue, s': Queue) {
    if s.srv.enq.Link? && s'.srv.enq.MoveTail? then
      PcOf(s, s.srv.enq.t).AskEnqueue? && Contents(s') == Contents(s) + [PcOf(s, s.srv.enq.t).d]
    else if s.srv.deq.MoveHead? && s'.srv.deq.Store? then Contents(s) == [s'.srv.deq.d] + Contents(s')
    else Contents(s') == Contents(s) && (s.srv.deq.ReadNext? && s'.srv.deq.StoreEmpty? ==> Contents(s) == [])
  }

  lemma SameContents(s: Queue, s': Queue)
    requires s'.sh.chain == s.sh.chain
    requires forall i :: 0 < i < |s.sh.chain| ==> s.sh.chain[i] in s.m.heap && s.sh.chain[i] in s'.m.heap
    requires forall i :: 0 < i < |s.sh.chain| ==> s'.m.heap[s.sh.chain[i]].data == s.m.heap[s.sh.chain[i]].data
    ensures Contents(s') == Contents(s)
  {
  }

  lemma LinkingAppends(s: Queue, t: Tid, node: Addr, tail: Addr)
    requires Inv(s) && s.srv.enq == Link(t, node, tail)
    ensures tail in s.m.heap && PcOf(s, t).AskEnqueue?
    ensures Contents(Linking(s, t, node, tail)) == Contents(s) + [PcOf(s, t).d]
  {
    assert ClientInv(s, t);
    HeldIsPrivate(s, t, node);
    assert Contents(Linking(s, t, node, tail)) == Contents(s) + [PcOf(s, t).d];
  }

  lemma RemovingTakesFront(s: Queue, t: Tid, node: Addr, next: Addr, d: Word)
    requires Inv(s) && s.srv.deq == MoveHead(t, node, next, d)
    ensures Contents(s) == [d] + Contents(Removing(s, t, node, next, d))
  {
    assert Contents(s) == [d] + Contents(Removing(s, t, node, next, d));
  }

  lemma ClientRefines(s: Queue, t: Tid, alloc: Addr)
    requires Inv(s)
    ensures FifoStep(s, ClientStep(s, t, alloc))
  {
    assert ClientInv(s, t);
    assert ClientStep(s, t, alloc).srv == s.srv;
    if HeldBy(s, t).Some? { HeldIsPrivate(s, t, HeldBy(s, t).value); }
    SameContents(s, ClientStep(s, t, alloc));
  }

  lemma StartRefines(s: Queue, t: Tid, op: Op)
    requires Inv(s)
    ensures FifoStep(s, StartStep(s, t, op))
  {
  }

  /** Refinement: under every interleaving of the reads and writes of the two
      servers and the clients, the list behaves as a first-in first-out queue. */
  lemma StepRefinesFifo(s: Queue, a: Action)
    requires Inv(s)
    ensures FifoStep(s, Step(s, a))
  {
    match a
    case Start(t, op) => StartRefines(s, t, op);
    case Client(t, alloc) => ClientRefines(s, t, alloc);
    case ServeEnqueue(u) => EnqueueRefines(s, u);
    case ServeDequeue(u) => DequeueRefines(s, u);
  }

  lemma EnqueueRefines(s: Queue, u: Tid)
    requires Inv(s)
    ensures FifoStep(s, EnqServerStep(s, u))
  {
    if s.srv.enq.Link? { LinkingAppends(s, s.srv.enq.t, s.srv.enq.node, s.srv.enq.tail); }
    else { SameContents(s, EnqServerStep(s, u)); }
  }

  lemma DequeueRefines(s: Queue, u: Tid)
    requires Inv(s)
    ensures FifoStep(s, DeqServerStep(s, u))
  {
    ReadsStayAtHead(s);
    if s.srv.deq.MoveHead? { RemovingTakesFront(s, s.srv.deq.t, s.srv.deq.node, s.srv.deq.next, s.srv.deq.d); }
    else { SameContents(s, DeqServerStep(s, u)); }
  }

  /** The value that a dequeue returns is the one its server removed. */
  lemma DequeueReturnsRemovedValue(s: Queue, t: Tid, u: Tid, alloc: Addr)
    requires Inv(s)
    ensures s.srv.deq.Store? ==> PcOf(DeqServerStep(s, u), s.srv.deq.t) == TakeData(s.srv.deq.node, s.srv.deq.d)
    ensures PcOf(s, t).TakeData? ==> PcOf(ClientStep(s, t, alloc), t) == KeepNode(PcOf(s, t).node, PcOf(s, t).v)
    ensures PcOf(s, t).KeepNode? ==> PcOf(ClientStep(s, t, alloc), t) == Ret(Dequeued(PcOf(s, t).d))
  {
    assert ClientInv(s, t);
    if HeldBy(s, t).Some? { HeldIsPrivate(s, t, HeldBy(s, t).value); }
  }

  ghost function Appended(s: Queue, s': Queue): seq<Word> {
    if s.srv.enq.Link? && s'.srv.enq.MoveTail? && PcOf(s, s.srv.enq.t).AskEnqueue? then [PcOf(s, s.srv.enq.t).d] else []
  }

  ghost function Removed(s: Queue, s': Queue): seq<Word> {
    if s.srv.deq.MoveHead? && s'.srv.deq.Store? then [s'.srv.deq.d] else []
  }

  ghost function AllAppended(s: Queue, actions: seq<Action>): seq<Word>
    decreases |actions|
  {
    if actions == [] then [] else Appended(s, Step(s, actions[0])) + AllAppended(Step(s, actions[0]), actions[1..])
  }

  ghost function AllRemoved(s: Queue, actions: seq<Action>): seq<Word>
    decreases |actions|
  {
    if actions == [] then [] else Removed(s, Step(s, actions[0])) + AllRemoved(Step(s, actions[0]), actions[1..])
  }

  /** No action links a node and unlinks one. */
  lemma OneServerAtATime(s: Queue, a: Action)
    ensures Step(s, a).srv.enq == s.srv.enq || Step(s, a).srv.deq == s.srv.deq
  {
    match a
    case ServeEnqueue(t) => ServersApart(s, t);
    case ServeDequeue(t) => ServersApart(s, t);
    case _ =>
  }

  lemma ServersApart(s: Queue, t: Tid)
    ensures EnqServerStep(s, t).srv.deq == s.srv.deq && DeqServerStep(s, t).srv.enq == s.srv.enq
  {
  }

  lemma StepBalances(s: Queue, s': Queue)
    requires FifoStep(s, s') && (s'.srv.enq == s.srv.enq || s'.srv.deq == s.srv.deq)
    ensures Contents(s) + Appended(s, s') == Removed(s, s') + Contents(s')
  {
  }

  /** Over any run: what was in the queue, then all that was appended, is all
      that was removed, then what is left. */
  lemma {:induction false} RunIsFifo(s: Queue, actions: seq<Action>)
    requires Inv(s)
    ensures Contents(s) + AllAppended(s, actions) == AllRemoved(s, actions) + Contents(Exec(s, actions))
    decreases |actions|
  {
    if actions != [] {
      var s' := Step(s, actions[0]);
      StepKeepsInv(s, actions[0]);
      StepRefinesFifo(s, actions[0]);
      OneServerAtATime(s, actions[0]);
      StepBalances(s, s');
      RunIsFifo(s', actions[1..]);
      Fifo.Balance(Contents(s), Contents(s'), Contents(Exec(s', actions[1..])), Appended(s, s'), Removed(s, s'),
              AllAppended(s', actions[1..]), AllRemoved(s', actions[1..]));
    }
  }
}
