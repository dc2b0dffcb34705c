/**
 * The combining lock of benchmark/ccsynch.h as a transition system: requests
 * queue up by swapping the tail, and the thread that holds the baton applies
 * them in turn.  Nodes are recycled through handle->next.
 */
module CcSynch {
  import opened Options

  type Tid = nat

  /** Address 0 is NULL. */
  type Addr = nat

  /** The address of a call's argument. */
  type Request = nat

  const HELP_BOUND: nat := 256

  datatype Status = WAIT | READY | DONE

  datatype Node = Node(next: Addr, data: Request, status: Status)

  /** i numbers the swaps; no access depends on it. */
  datatype Pc =
    | Idle
    | Ret(i: nat, d: Request)
    | ResetNext(d: Request)
    | ResetStatus(d: Request)
    | Swap(d: Request)
    | Wait(d: Request, i: nat, next: Addr, wait: WaitPc)
    | Combine(d: Request, i: nat, combine: CombinePc)

  datatype WaitPc = First | SetData | SetNext | Spin

  datatype CombinePc =
    | ApplyOwn(next: Addr)
    | ReadNext(curr: Addr, count: nat)
    | ApplyOther(curr: Addr, next: Addr, count: nat)
    | SetDone(curr: Addr, next: Addr, count: nat)
    | SetReady(curr: Addr)

  /** handle holds each registered thread's handle->next. */
  datatype Memory = Memory(nodes: map<Addr, Node>, tail: Addr, handle: map<Tid, Addr>)

  /** A record no step reads: the nodes in the order in which they were the
      tail, the thread and the request of each swap, the requests applied so
      far, and the thread that is combining. */
  datatype History = History(
    chain: seq<Addr>, owner: seq<Tid>, requests: seq<Request>, applied: seq<Request>, baton: Option<Tid>)

  datatype Lock = Lock(m: Memory, pcs: map<Tid, Pc>, h: History)

  function PcOf(s: Lock, t: Tid): Pc { if t in s.pcs then s.pcs[t] else Idle }

  function Next(s: Lock, t: Tid, pc: Pc, m: Memory, h: History): Lock { Lock(m, s.pcs[t := pc], h) }

  function Goto(s: Lock, t: Tid, pc: Pc): Lock { Next(s, t, pc, s.m, s.h) }

  function NodeAt(m: Memory, a: Addr): Node { if a in m.nodes then m.nodes[a] else Node(0, 0, WAIT) }

  function SetNode(m: Memory, a: Addr, n: Node): Memory { Memory(m.nodes[a := n], m.tail, m.handle) }

  function StatusSet(m: Memory, a: Addr, status: Status): Memory {
    SetNode(m, a, Node(NodeAt(m, a).next, NodeAt(m, a).data, status))
  }

  // ----- the steps -------------------------------------------------------

  /** The thread's node becomes the tail, and the old tail its node. */
  function SwapStep(s: Lock, t: Tid, d: Request): Lock
    requires t in s.m.handle
  {
    var mine := s.m.handle[t];
    Next(s, t, Wait(d, |s.h.owner|, mine, First), Memory(s.m.nodes, mine, s.m.handle[t := s.m.tail]),
         History(s.h.chain + [mine], s.h.owner + [t], s.h.requests + [d], s.h.applied, s.h.baton))
  }

  /** What a thread does when it has read its status. */
  function Look(s: Lock, t: Tid, d: Request, i: nat, next: Addr, status: Status, again: WaitPc): Lock {
    match status
    case WAIT => Goto(s, t, Wait(d, i, next, again))
    case DONE => Goto(s, t, Ret(i, d))
    case READY => Next(s, t, Combine(d, i, ApplyOwn(next)), s.m,
                       History(s.h.chain, s.h.owner, s.h.requests, s.h.applied, Some(t)))
  }

  function WaitStep(s: Lock, t: Tid, d: Request, i: nat, next: Addr, pc: WaitPc): Lock
    requires t in s.m.handle
  {
    var curr := s.m.handle[t];
    var n := NodeAt(s.m, curr);
    match pc
    case First => Look(s, t, d, i, next, n.status, SetData)
    case SetData => Next(s, t, Wait(d, i, next, SetNext), SetNode(s.m, curr, Node(n.next, d, n.status)), s.h)
    case SetNext => Next(s, t, Wait(d, i, next, Spin), SetNode(s.m, curr, Node(next, n.data, n.status)), s.h)
    case Spin => Look(s, t, d, i, next, n.status, Spin)
  }

  function Apply(s: Lock, t: Tid, pc: Pc, d: Request): Lock {
    Next(s, t, pc, s.m, History(s.h.chain, s.h.owner, s.h.requests, s.h.applied + [d], s.h.baton))
  }

  function CombineStep(s: Lock, t: Tid, d: Request, i: nat, pc: CombinePc): Lock {
    match pc
    case ApplyOwn(next) => Apply(s, t, Combine(d, i, ReadNext(next, 0)), d)
    case ReadNext(curr, count) =>
      var next := NodeAt(s.m, curr).next;
      Goto(s, t, Combine(d, i, if next != 0 && count < HELP_BOUND then ApplyOther(curr, next, count + 1) else SetReady(curr)))
    case ApplyOther(curr, next, count) => Apply(s, t, Combine(d, i, SetDone(curr, next, count)), NodeAt(s.m, curr).data)
    case SetDone(curr, next, count) => Next(s, t, Combine(d, i, ReadNext(next, count)), StatusSet(s.m, curr, DONE), s.h)
    case SetReady(curr) =>
      Next(s, t, Ret(i, d), StatusSet(s.m, curr, READY),
           History(s.h.chain, s.h.owner, s.h.requests, s.h.applied, None))
  }

  /** One access by a registered thread, or the start of its next request d. */
  function Step(s: Lock, t: Tid, d: Request): Lock {
    if t !in s.m.handle then s else
    var mine := s.m.handle[t];
    var n := NodeAt(s.m, mine);
    match PcOf(s, t)
    case ResetNext(d) => Next(s, t, ResetStatus(d), SetNode(s.m, mine, Node(0, n.data, n.status)), s.h)
    case ResetStatus(d) => Next(s, t, Swap(d), StatusSet(s.m, mine, WAIT), s.h)
    case Swap(d) => SwapStep(s, t, d)
    case Wait(d, i, next, pc) => WaitStep(s, t, d, i, next, pc)
    case Combine(d, i, pc) => CombineStep(s, t, d, i, pc)
    case _ => Goto(s, t, ResetNext(d))
  }

  /** ccsynch_init and ccsynch_handle_init: one ready node, and a node for each
      handle. */
  ghost predicate Initial(s: Lock) {
    && s.m.tail in s.m.nodes && s.m.nodes[s.m.tail].next == 0 && s.m.nodes[s.m.tail].status == READY
    && HandlesInv(s.m) && s.pcs == map[] && s.h == History([s.m.tail], [], [], [], None)
  }

  // ----- invariant -------------------------------------------------------

  /** Each thread's node is its own, and none is the tail. */
  ghost predicate HandlesInv(m: Memory) {
    && 0 !in m.nodes && m.tail in m.nodes
    && (forall t :: t in m.handle ==> m.handle[t] in m.nodes && m.handle[t] != m.tail)
    && (forall t, u :: t in m.handle && u in m.handle && t != u ==> m.handle[t] != m.handle[u])
  }

  /** Requests are applied in the order of their swaps, and nothing else is. */
  ghost predicate HistoryInv(s: Lock) {
    && |s.h.chain| == |s.h.owner| + 1 && |s.h.requests| == |s.h.owner| && s.h.chain[|s.h.owner|] == s.m.tail
    && s.h.applied <= s.h.requests && forall j :: 0 <= j < |s.h.chain| ==> s.h.chain[j] != 0
  }

  /** Request i is applied, but its thread is not told yet. */
  predicate Untold(s: Lock, i: nat) {
    && i + 1 == |s.h.applied| && s.h.baton.Some?
    && PcOf(s, s.h.baton.value).Combine? && PcOf(s, s.h.baton.value).combine.SetDone?
  }

  /** The status of the node on which request i waits: READY for the next one in
      line while nobody combines, DONE once applied and told, WAIT otherwise. */
  function StatusOf(s: Lock, i: nat): Status {
    if i > |s.h.applied| then WAIT
    else if i == |s.h.applied| then (if s.h.baton.None? then READY else WAIT)
    else if Untold(s, i) then WAIT else DONE
  }

  /** The call of t is number i. */
  ghost predicate IsCall(s: Lock, t: Tid, i: nat, d: Request)
    requires HistoryInv(s)
  {
    i < |s.h.owner| && s.h.owner[i] == t && s.h.requests[i] == d && t in s.m.handle
  }

  ghost predicate WaitInv(s: Lock, t: Tid, d: Request, i: nat, next: Addr, pc: WaitPc)
    requires HistoryInv(s)
  {
    && IsCall(s, t, i, d) && s.m.handle[t] == s.h.chain[i] && next == s.h.chain[i + 1]
    && var n := NodeAt(s.m, s.h.chain[i]);
       && n.status == StatusOf(s, i) && (i < |s.h.applied| ==> pc.Spin?)
       && (pc.Spin? ==> n.next == next && next != 0)
       && (!pc.Spin? ==> n.next == 0)
       && (pc.SetNext? || pc.Spin? ==> n.data == d)
  }

  /** Call j is waiting, with its request published. */
  ghost predicate IsSpinning(s: Lock, j: nat)
    requires HistoryInv(s)
  {
    && j < |s.h.owner| && PcOf(s, s.h.owner[j]).Wait? && PcOf(s, s.h.owner[j]).i == j
    && PcOf(s, s.h.owner[j]).wait.Spin?
  }

  ghost predicate CombineInv(s: Lock, t: Tid, d: Request, i: nat, pc: CombinePc)
    requires HistoryInv(s)
  {
    var m := |s.h.applied|;
    && IsCall(s, t, i, d) && s.h.baton == Some(t) && (!pc.ApplyOwn? ==> i < m)
    && match pc
       case ApplyOwn(next) => i == m && next == s.h.chain[i + 1]
       case ReadNext(curr, _) => curr == s.h.chain[m]
       case ApplyOther(curr, next, _) => IsSpinning(s, m) && curr == s.h.chain[m] && next == s.h.chain[m + 1]
       case SetDone(curr, next, _) => i + 1 < m && IsSpinning(s, m - 1) && curr == s.h.chain[m - 1] && next == s.h.chain[m]
       case SetReady(curr) => curr == s.h.chain[m]
  }

  ghost predicate ThreadInv(s: Lock, t: Tid)
    requires HistoryInv(s)
  {
    match PcOf(s, t)
    case Idle => true
    case Ret(i, d) => IsCall(s, t, i, d) && i < |s.h.applied|
    case ResetNext(_) => t in s.m.handle
    case ResetStatus(_) => t in s.m.handle && NodeAt(s.m, s.m.handle[t]).next == 0
    case Swap(_) => t in s.m.handle && NodeAt(s.m, s.m.handle[t]).next == 0 && NodeAt(s.m, s.m.handle[t]).status == WAIT
    case Wait(d, i, next, pc) => WaitInv(s, t, d, i, next, pc)
    case Combine(d, i, pc) => CombineInv(s, t, d, i, pc)
  }

  /** Call j, not applied yet, is waiting, or holds the baton and comes next. */
  ghost predicate InLine(s: Lock, j: nat)
    requires j < |s.h.owner|
  {
    var pc := PcOf(s, s.h.owner[j]);
    || (pc.Wait? && pc.i == j)
    || (pc.Combine? && pc.i == j && pc.combine.ApplyOwn?)
  }

  ghost predicate Inv(s: Lock) {
    && HandlesInv(s.m) && HistoryInv(s)
    && NodeAt(s.m, s.m.tail).next == 0 && NodeAt(s.m, s.m.tail).status == StatusOf(s, |s.h.owner|)
    && (forall t :: ThreadInv(s, t))
    && (forall j :: |s.h.applied| <= j < |s.h.owner| ==> InLine(s, j))
    && (s.h.baton.Some? ==> PcOf(s, s.h.baton.value).Combine?)
  }

  lemma InitialInv(s: Lock)
    requires Initial(s)
    ensures Inv(s)
  {
  }
}
