/**
 * The Michael-Scott queue of benchmark/msqueue.c with the hazard pointers of
 * benchmark/hzdptr.h, as a transition system over one heap.  Addresses are
 * reused once freed.  Every read or CAS through a node address is a step that
 * faults when the node is not allocated.
 */
module MsQueue {
  import opened Options
  import opened Sequences

  type Tid = nat

  /** Address 0 is NULL. */
  type Addr = nat

  type Word = int

  datatype Node = Node(next: Addr, data: Word)

  datatype Result = Enqueued | Dequeued(d: Word) | WasEmpty

  /** A thread executing enqueue has its new node from the start; in dequeue it
      ends by retiring the node it unlinked, and perhaps by a scan. */
  datatype Pc =
    | Idle
    | Ret(res: Result)
    | Fault
    | Malloc(d: Word)
    | Enq(d: Word, node: Addr, enq: EnqPc)
    | Deq(deq: DeqPc)
    | Retire(node: Addr, d: Word)
    | Scan(todo: set<(Tid, bool)>, found: set<Addr>, d: Word)
    | Sweep(k: nat, found: set<Addr>, d: Word)

  /** LoadTail, SetHazard, Reload are hzdptr_setv(&q->tail, hzd, 0). */
  datatype EnqPc =
    | LoadTail
    | SetHazard(val: Addr)
    | Reload(val: Addr)
    | ReadNext(tail: Addr)
    | Check(tail: Addr, next: Addr)
    | Swing(tail: Addr, next: Addr)
    | Link(tail: Addr)
    | Final(tail: Addr)

  /** LoadHead, SetHazard, Reload are hzdptr_setv(&q->head, hzd, 0); ReadNext
      and SetNextHazard are hzdptr_set(&head->next, hzd, 1). */
  datatype DeqPc =
    | LoadHead
    | SetHazard(val: Addr)
    | Reload(val: Addr)
    | ReadTail(head: Addr)
    | ReadNext(head: Addr, tail: Addr)
    | SetNextHazard(head: Addr, tail: Addr, next: Addr)
    | Check(head: Addr, tail: Addr, next: Addr)
    | Swing(head: Addr, next: Addr)
    | ReadData(head: Addr, next: Addr)
    | CasHead(head: Addr, next: Addr, data: Word)

  datatype Op = OpEnqueue(d: Word) | OpDequeue

  /** The scheduler's freedom: the operation started, the address malloc
      returns, and the hazard slot a scan reads next. */
  datatype Choice = Start(op: Op) | Address(a: Addr) | Slot(u: Tid, second: bool) | Go

  datatype Memory = Memory(heap: map<Addr, Node>, head: Addr, tail: Addr)

  /** Two hazard slots and a retire list per registered handle. */
  datatype Handles = Handles(hz0: map<Tid, Addr>, hz1: map<Tid, Addr>, rlist: map<Tid, seq<Addr>>)

  /** What an allocated node is: linked, unlinked and awaiting reclamation by a
      thread, or not linked yet. */
  datatype Kind = Linked | Unlinked(reclaimer: Tid) | Private(owner: Tid)

  /** A record no step reads: the linked nodes in order, and the kind of every
      allocated node. */
  datatype Shadow = Shadow(chain: seq<Addr>, kind: map<Addr, Kind>)

  datatype Queue = Queue(m: Memory, h: Handles, pcs: map<Tid, Pc>, sh: Shadow)

  /** The registered handles, and nprocs. */
  datatype Config = Config(procs: set<Tid>, nprocs: nat)

  function PcOf(s: Queue, t: Tid): Pc { if t in s.pcs then s.pcs[t] else Idle }

  function Hz(h: Handles, t: Tid, second: bool): Addr {
    if second then (if t in h.hz1 then h.hz1[t] else 0) else (if t in h.hz0 then h.hz0[t] else 0)
  }

  function Rlist(h: Handles, t: Tid): seq<Addr> { if t in h.rlist then h.rlist[t] else [] }

  function Next(s: Queue, t: Tid, pc: Pc, m: Memory, h: Handles, sh: Shadow): Queue {
    Queue(m, h, s.pcs[t := pc], sh)
  }

  function Goto(s: Queue, t: Tid, pc: Pc): Queue { Next(s, t, pc, s.m, s.h, s.sh) }

  function SetHz0(h: Handles, t: Tid, a: Addr): Handles { Handles(h.hz0[t := a], h.hz1, h.rlist) }

  function SetHz1(h: Handles, t: Tid, a: Addr): Handles { Handles(h.hz0, h.hz1[t := a], h.rlist) }

  function SetRlist(h: Handles, t: Tid, r: seq<Addr>): Handles { Handles(h.hz0, h.hz1, h.rlist[t := r]) }

  /** CAS(&q->tail, &tail, next). */
  function CasTail(m: Memory, tail: Addr, next: Addr): Memory {
    if m.tail == tail then Memory(m.heap, m.head, next) else m
  }

  /** The state after node was linked behind tail. */
  function Linking(s: Queue, t: Tid, d: Word, node: Addr, tail: Addr): Queue
    requires tail in s.m.heap
  {
    Next(s, t, Enq(d, node, Final(tail)),
         Memory(s.m.heap[tail := Node(node, s.m.heap[tail].data)], s.m.head, s.m.tail), s.h,
         Shadow(s.sh.chain + [node], s.sh.kind[node := Linked]))
  }

  function EnqStep(s: Queue, t: Tid, d: Word, node: Addr, pc: EnqPc): Queue {
    match pc
    case LoadTail => Goto(s, t, Enq(d, node, EnqPc.SetHazard(s.m.tail)))
    case SetHazard(val) => Next(s, t, Enq(d, node, EnqPc.Reload(val)), s.m, SetHz0(s.h, t, val), s.sh)
    case Reload(val) =>
      Goto(s, t, Enq(d, node, if s.m.tail == val then EnqPc.ReadNext(val) else EnqPc.SetHazard(s.m.tail)))
    case ReadNext(tail) =>
      Goto(s, t, if tail in s.m.heap then Enq(d, node, EnqPc.Check(tail, s.m.heap[tail].next)) else Fault)
    case Check(tail, next) =>
      Goto(s, t, Enq(d, node, if tail != s.m.tail then LoadTail
                              else if next != 0 then EnqPc.Swing(tail, next) else Link(tail)))
    case Swing(tail, next) => Next(s, t, Enq(d, node, LoadTail), CasTail(s.m, tail, next), s.h, s.sh)
    case Link(tail) =>
      if tail !in s.m.heap then Goto(s, t, Fault)
      else if s.m.heap[tail].next == 0 then Linking(s, t, d, node, tail)
      else Goto(s, t, Enq(d, node, LoadTail))
    case Final(tail) => Next(s, t, Ret(Enqueued), CasTail(s.m, tail, node), s.h, s.sh)
  }

  /** The state after the head was moved past its node. */
  function Unlinking(s: Queue, t: Tid, head: Addr, next: Addr, d: Word): Queue {
    Next(s, t, Retire(head, d), Memory(s.m.heap, next, s.m.tail), s.h,
         Shadow(if s.sh.chain == [] then [] else s.sh.chain[1..], s.sh.kind[head := Unlinked(t)]))
  }

  function DeqStep(s: Queue, t: Tid, pc: DeqPc): Queue {
    match pc
    case LoadHead => Goto(s, t, Deq(DeqPc.SetHazard(s.m.head)))
    case SetHazard(val) => Next(s, t, Deq(DeqPc.Reload(val)), s.m, SetHz0(s.h, t, val), s.sh)
    case Reload(val) => Goto(s, t, Deq(if s.m.head == val then ReadTail(val) else DeqPc.SetHazard(s.m.head)))
    case ReadTail(head) => Goto(s, t, Deq(DeqPc.ReadNext(head, s.m.tail)))
    case ReadNext(head, tail) =>
      Goto(s, t, if head in s.m.heap then Deq(SetNextHazard(head, tail, s.m.heap[head].next)) else Fault)
    case SetNextHazard(head, tail, next) =>
      Next(s, t, Deq(DeqPc.Check(head, tail, next)), s.m, SetHz1(s.h, t, next), s.sh)
    case Check(head, tail, next) =>
      Goto(s, t, if head != s.m.head then Deq(LoadHead)
                 else if next == 0 then Ret(WasEmpty)
                 else if head == tail then Deq(DeqPc.Swing(head, next)) else Deq(ReadData(head, next)))
    case Swing(head, next) => Next(s, t, Deq(LoadHead), CasTail(s.m, head, next), s.h, s.sh)
    case ReadData(head, next) =>
      Goto(s, t, if next in s.m.heap then Deq(CasHead(head, next, s.m.heap[next].data)) else Fault)
    case CasHead(head, next, data) =>
      if s.m.head == head then Unlinking(s, t, head, next, data) else Goto(s, t, Deq(LoadHead))
  }

  /** The slots a scan of t reads: both slots of every other handle. */
  ghost function OtherSlots(cfg: Config, t: Tid): set<(Tid, bool)> {
    set u: Tid, second: bool | u in cfg.procs && u != t :: (u, second)
  }

  /** hzdptr_retire appends, and scans when the list reaches the threshold. */
  ghost function RetireStep(cfg: Config, s: Queue, t: Tid, node: Addr, d: Word): Queue {
    var r := Rlist(s.h, t) + [node];
    Next(s, t, if |r| == 2 * cfg.nprocs then Scan(OtherSlots(cfg, t), {}, d) else Ret(Dequeued(d)),
         s.m, SetRlist(s.h, t, r), s.sh)
  }

  /** One slot is read into the table of hazard pointers. */
  function ScanStep(s: Queue, t: Tid, c: Choice, todo: set<(Tid, bool)>, found: set<Addr>, d: Word): Queue {
    if todo == {} then Goto(s, t, Sweep(0, found, d))
    else if c.Slot? && (c.u, c.second) in todo then
      Goto(s, t, Scan(todo - {(c.u, c.second)}, found + {Hz(s.h, c.u, c.second)}, d))
    else s
  }

  /** One retired node is kept or freed. */
  function SweepStep(s: Queue, t: Tid, k: nat, found: set<Addr>, d: Word): Queue {
    var r := Rlist(s.h, t);
    if k >= |r| then Goto(s, t, Ret(Dequeued(d)))
    else if r[k] in found then Goto(s, t, Sweep(k + 1, found, d))
    else if r[k] !in s.m.heap then Goto(s, t, Fault)
    else Next(s, t, Sweep(k, found, d), Memory(s.m.heap - {r[k]}, s.m.head, s.m.tail),
              SetRlist(s.h, t, r[..k] + r[k + 1..]), Shadow(s.sh.chain, s.sh.kind - {r[k]}))
  }

  /** malloc returns an address that is not allocated. */
  function MallocStep(s: Queue, t: Tid, a: Addr, d: Word): Queue {
    if a == 0 || a in s.m.heap then s
    else Next(s, t, Enq(d, a, LoadTail), Memory(s.m.heap[a := Node(0, d)], s.m.head, s.m.tail), s.h,
              Shadow(s.sh.chain, s.sh.kind[a := Private(t)]))
  }

  /** One atomic access by a registered thread t, or the start of its next
      operation. */
  ghost function Step(cfg: Config, s: Queue, t: Tid, c: Choice): Queue {
    if t !in cfg.procs then s else
    match PcOf(s, t)
    case Malloc(d) => if c.Address? then MallocStep(s, t, c.a, d) else s
    case Enq(d, node, pc) => EnqStep(s, t, d, node, pc)
    case Deq(pc) => DeqStep(s, t, pc)
    case Retire(node, d) => RetireStep(cfg, s, t, node, d)
    case Scan(todo, found, d) => ScanStep(s, t, c, todo, found, d)
    case Sweep(k, found, d) => SweepStep(s, t, k, found, d)
    case Fault => s
    case _ => if c.Start? then Goto(s, t, if c.op.OpEnqueue? then Malloc(c.op.d) else Deq(LoadHead)) else s
  }

  // ----- invariant -------------------------------------------------------

  /** The node t protects with its first hazard slot, once validated. */
  ghost function Guard0(pc: Pc): Option<Addr> {
    match pc
    case Enq(_, _, ReadNext(a)) => Some(a)
    case Enq(_, _, Check(a, _)) => Some(a)
    case Enq(_, _, Swing(a, _)) => Some(a)
    case Enq(_, _, Link(a)) => Some(a)
    case Enq(_, _, Final(a)) => Some(a)
    case Deq(ReadTail(a)) => Some(a)
    case Deq(ReadNext(a, _)) => Some(a)
    case Deq(SetNextHazard(a, _, _)) => Some(a)
    case Deq(Check(a, _, _)) => Some(a)
    case Deq(Swing(a, _)) => Some(a)
    case Deq(ReadData(a, _)) => Some(a)
    case Deq(CasHead(a, _, _)) => Some(a)
    case _ => None
  }

  /** The node t protects with its second slot, once validated. */
  ghost function Guard1(pc: Pc): Option<Addr> {
    match pc
    case Deq(ReadData(_, a)) => Some(a)
    case Deq(CasHead(_, a, _)) => Some(a)
    case _ => None
  }

  /** The thread's own node, not yet linked. */
  ghost function OwnNode(pc: Pc): Option<Addr> {
    match pc
    case Enq(_, node, pc) => if pc.Final? then None else Some(node)
    case _ => None
  }

  /** a waits for t to reclaim it: on t's retire list, or about to be. */
  ghost predicate Awaits(s: Queue, t: Tid, a: Addr) {
    a in Rlist(s.h, t) || (PcOf(s, t).Retire? && PcOf(s, t).node == a)
  }

  /** The linked nodes form one list from head; tail is its last node or the
      one before. */
  ghost predicate ChainInv(m: Memory, sh: Shadow) {
    var c := sh.chain;
    && |c| > 0 && Distinct(c) && c[0] == m.head
    && (forall i :: 0 <= i < |c| ==> c[i] in m.heap && c[i] != 0)
    && (forall i :: 0 <= i < |c| - 1 ==> m.heap[c[i]].next == c[i + 1])
    && m.heap[c[|c| - 1]].next == 0
    && (m.tail == c[|c| - 1] || (|c| >= 2 && m.tail == c[|c| - 2]))
  }

  ghost predicate KindInv(s: Queue) {
    var k := s.sh.kind;
    && k.Keys == s.m.heap.Keys && 0 !in k
    && (forall a :: a in k ==> (k[a].Linked? <==> a in s.sh.chain))
    && (forall a, t :: a in k && k[a] == Unlinked(t) ==> Awaits(s, t, a) && s.m.heap[a].next != 0)
    && (forall a, t :: a in k && k[a] == Private(t) ==> OwnNode(PcOf(s, t)) == Some(a))
  }

  /** t reclaims only nodes that it unlinked, each once. */
  ghost predicate RetireInv(s: Queue, t: Tid) {
    && Distinct(Rlist(s.h, t))
    && (forall a :: Awaits(s, t, a) ==> a in s.sh.kind && s.sh.kind[a] == Unlinked(t))
    && (PcOf(s, t).Retire? ==> PcOf(s, t).node !in Rlist(s.h, t))
    && (PcOf(s, t).Sweep? ==> PcOf(s, t).k <= |Rlist(s.h, t)|)
  }

  /** If u is scanning, it has found a, or is still to read the slot. */
  ghost predicate NotMissed(pc: Pc, a: Addr, t: Tid, second: bool) {
    match pc
    case Scan(todo, found, _) => a in found || (t, second) in todo
    case Sweep(_, found, _) => a in found
    case _ => true
  }

  /** t's hazard slot holds a, and whoever unlinked a will see it there. */
  ghost predicate Guarded(s: Queue, t: Tid, a: Addr, second: bool) {
    && a in s.sh.kind && !s.sh.kind[a].Private? && Hz(s.h, t, second) == a
    && (s.sh.kind[a].Unlinked? ==>
      s.sh.kind[a].reclaimer != t && NotMissed(PcOf(s, s.sh.kind[a].reclaimer), a, t, second))
  }

  ghost predicate EnqInv(m: Memory, d: Word, node: Addr, pc: EnqPc) {
    match pc
    case Check(tail, next) => tail in m.heap && (next != 0 ==> m.heap[tail].next == next)
    case Swing(tail, next) => tail in m.heap && next != 0 && m.heap[tail].next == next
    case Link(tail) => tail in m.heap && (m.tail == tail || m.heap[tail].next != 0)
    case Final(tail) => tail in m.heap && node != 0 && m.heap[tail].next == node
    case _ => true
  }

  /** Once the tail was seen past the head, it stays past it. */
  ghost predicate TailPast(m: Memory, head: Addr, tail: Addr) { head != tail ==> m.tail != head }

  ghost predicate NextIs(m: Memory, head: Addr, next: Addr) {
    head in m.heap && (next != 0 ==> m.heap[head].next == next)
  }

  ghost predicate DeqInv(m: Memory, pc: DeqPc) {
    match pc
    case ReadNext(head, tail) => TailPast(m, head, tail)
    case SetNextHazard(head, tail, next) => TailPast(m, head, tail) && NextIs(m, head, next)
    case Check(head, tail, next) => TailPast(m, head, tail) && NextIs(m, head, next)
    case Swing(head, next) => NextIs(m, head, next) && next != 0
    case ReadData(head, next) => NextIs(m, head, next) && next != 0 && m.tail != head
    case CasHead(head, next, data) =>
      NextIs(m, head, next) && next != 0 && m.tail != head && next in m.heap && m.heap[next].data == data
    case _ => true
  }

  /** A guarded dequeuer's head is still the head as long as it is linked. */
  ghost predicate HeadInv(s: Queue, pc: Pc) {
    pc.Deq? && Guard0(pc).Some? ==>
      var a := Guard0(pc).value; a in s.sh.kind && (s.sh.kind[a].Linked? ==> a == s.m.head)
  }

  ghost predicate PcInv(s: Queue, t: Tid, pc: Pc) {
    && pc != Fault
    && (pc.Enq? ==> EnqInv(s.m, pc.d, pc.node, pc.enq))
    && (pc.Deq? ==> DeqInv(s.m, pc.deq))
    && (pc.Enq? && pc.enq.Reload? ==> Hz(s.h, t, false) == pc.enq.val)
    && (pc.Deq? && pc.deq.Reload? ==> Hz(s.h, t, false) == pc.deq.val)
    && (pc.Deq? && pc.deq.Check? ==> Hz(s.h, t, true) == pc.deq.next)
  }

  ghost predicate OwnNodeInv(s: Queue, t: Tid, pc: Pc) {
    OwnNode(pc).Some? ==>
      pc.node in s.sh.kind && s.sh.kind[pc.node] == Private(t)
      && pc.node in s.m.heap && s.m.heap[pc.node] == Node(0, pc.d)
  }

  ghost predicate ThreadInv(s: Queue, t: Tid) {
    var pc := PcOf(s, t);
    && PcInv(s, t, pc) && HeadInv(s, pc) && OwnNodeInv(s, t, pc)
    && (Guard0(pc).Some? ==> Guarded(s, t, Guard0(pc).value, false))
    && (Guard1(pc).Some? ==> Guarded(s, t, Guard1(pc).value, true))
    && RetireInv(s, t)
  }

  ghost predicate Inv(cfg: Config, s: Queue) {
    && ChainInv(s.m, s.sh) && KindInv(s)
    && (forall t :: ThreadInv(s, t))
    && (forall t :: t !in cfg.procs ==> PcOf(s, t) == Idle && Rlist(s.h, t) == [])
  }

  /** queue_init: one node, which is head and tail. */
  function Init(dummy: Addr): Queue {
    Queue(Memory(map[dummy := Node(0, 0)], dummy, dummy), Handles(map[], map[], map[]), map[],
          Shadow([dummy], map[dummy := Linked]))
  }

  lemma InitInv(cfg: Config, dummy: Addr)
    requires dummy != 0
    ensures Inv(cfg, Init(dummy))
  {
  }

  /** The queue's content: the data of the linked nodes behind the first. */
  ghost function Contents(s: Queue): seq<Word> {
    seq(if |s.sh.chain| == 0 then 0 else |s.sh.chain| - 1,
        i requires 0 <= i < |s.sh.chain| - 1 =>
          if s.sh.chain[i + 1] in s.m.heap then s.m.heap[s.sh.chain[i + 1]].data else 0)
  }
}
