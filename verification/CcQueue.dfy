/**
 * The two-sided list queue of benchmark/ccqueue.c as a transition system.  One
 * combining lock serialises the enqueues and another one the dequeues, so each
 * side has one server at a time (modules CcSynch and CcCombined); the accesses of
 * the two servers and of all clients interleave freely.  Nodes are reused, and their
 * addresses too once freed.
 */
module CcQueue {
  import opened Options
  import opened Sequences

  type Tid = nat

  /** Address 0 is NULL. */
  type Addr = nat

  type Word = int

  datatype Node = Node(next: Addr, data: Word)

  datatype Result = Enqueued | Dequeued(d: Word) | WasEmpty

  /** A client.  In Asked it waits for its request to be applied.  v is the value
      that was removed for it; no access reads it. */
  datatype Pc =
    | Idle
    | Ret(res: Result)
    | Fault
    | PickNode(d: Word)
    | SetData(node: Addr, d: Word)
    | SetNext(node: Addr, d: Word)
    | AskEnqueue(node: Addr, d: Word)
    | AskDequeue
    | TakeData(node: Addr, v: Word)
    | KeepNode(node: Addr, d: Word)

  /** serialEnqueue for client t. */
  datatype EnqServer =
    | NoEnqueue
    | LoadTail(t: Tid, node: Addr)
    | Link(t: Tid, node: Addr, tail: Addr)
    | MoveTail(t: Tid, node: Addr)

  /** serialDequeue for client t. */
  datatype DeqServer =
    | NoDequeue
    | LoadHead(t: Tid)
    | ReadNext(t: Tid, node: Addr)
    | ReadData(t: Tid, node: Addr, next: Addr)
    | WriteData(t: Tid, node: Addr, next: Addr, d: Word)
    | MoveHead(t: Tid, node: Addr, next: Addr, d: Word)
    | Store(t: Tid, node: Addr, d: Word)
    | StoreEmpty(t: Tid)

  datatype Op = OpEnqueue(d: Word) | OpDequeue

  /** A client's step, with the address malloc returns; or a step of a server,
      which serves client t when it is free. */
  datatype Action = Start(t: Tid, op: Op) | Client(t: Tid, alloc: Addr) | ServeEnqueue(t: Tid) | ServeDequeue(t: Tid)

  datatype Memory = Memory(heap: map<Addr, Node>, head: Addr, tail: Addr)

  datatype Servers = Servers(enq: EnqServer, deq: DeqServer)

  /** What an allocated node is for: linked, in a client's hands, or a client's
      handle->next. */
  datatype Kind = Linked | Held(t: Tid) | Spare(t: Tid)

  /** A record no step reads: the linked nodes in order, and every node's kind. */
  datatype Shadow = Shadow(chain: seq<Addr>, kind: map<Addr, Kind>)

  datatype Queue = Queue(m: Memory, spare: map<Tid, Addr>, pcs: map<Tid, Pc>, srv: Servers, sh: Shadow)

  function PcOf(s: Queue, t: Tid): Pc { if t in s.pcs then s.pcs[t] else Idle }

  function SpareOf(s: Queue, t: Tid): Addr { if t in s.spare then s.spare[t] else 0 }

  function Goto(s: Queue, t: Tid, pc: Pc): Queue { Queue(s.m, s.spare, s.pcs[t := pc], s.srv, s.sh) }

  function SetNode(m: Memory, a: Addr, n: Node): Memory { Memory(m.heap[a := n], m.head, m.tail) }

  // ----- clients ---------------------------------------------------------

  /** The spare node is used up, or a new one allocated. */
  function PickStep(s: Queue, t: Tid, d: Word, alloc: Addr): Queue {
    var spare := SpareOf(s, t);
    if spare != 0 then
      Queue(s.m, s.spare[t := 0], s.pcs[t := SetData(spare, d)], s.srv, Shadow(s.sh.chain, s.sh.kind[spare := Held(t)]))
    else if alloc == 0 || alloc in s.m.heap then s
    else Queue(SetNode(s.m, alloc, Node(0, 0)), s.spare, s.pcs[t := SetData(alloc, d)], s.srv,
               Shadow(s.sh.chain, s.sh.kind[alloc := Held(t)]))
  }

  /** The node of a finished dequeue becomes the spare one, or is freed. */
  function KeepStep(s: Queue, t: Tid, node: Addr, d: Word): Queue {
    if SpareOf(s, t) == 0 then
      Queue(s.m, s.spare[t := node], s.pcs[t := Ret(Dequeued(d))], s.srv, Shadow(s.sh.chain, s.sh.kind[node := Spare(t)]))
    else if node !in s.m.heap then Goto(s, t, Fault)
    else Queue(Memory(s.m.heap - {node}, s.m.head, s.m.tail), s.spare, s.pcs[t := Ret(Dequeued(d))], s.srv,
               Shadow(s.sh.chain, s.sh.kind - {node}))
  }

  function ClientStep(s: Queue, t: Tid, alloc: Addr): Queue {
    match PcOf(s, t)
    case PickNode(d) => PickStep(s, t, d, alloc)
    case SetData(node, d) =>
      if node !in s.m.heap then Goto(s, t, Fault)
      else Queue(SetNode(s.m, node, Node(s.m.heap[node].next, d)), s.spare, s.pcs[t := SetNext(node, d)], s.srv, s.sh)
    case SetNext(node, d) =>
      if node !in s.m.heap then Goto(s, t, Fault)
      else Queue(SetNode(s.m, node, Node(0, s.m.heap[node].data)), s.spare, s.pcs[t := AskEnqueue(node, d)], s.srv, s.sh)
    case TakeData(node, _) => Goto(s, t, if node in s.m.heap then KeepNode(node, s.m.heap[node].data) else Fault)
    case KeepNode(node, d) => KeepStep(s, t, node, d)
    case _ => s
  }

  function StartStep(s: Queue, t: Tid, op: Op): Queue {
    if PcOf(s, t).Idle? || PcOf(s, t).Ret? then Goto(s, t, if op.OpEnqueue? then PickNode(op.d) else AskDequeue) else s
  }

  // ----- servers ---------------------------------------------------------

  function EnqGoto(s: Queue, pc: EnqServer): Queue { Queue(s.m, s.spare, s.pcs, Servers(pc, s.srv.deq), s.sh) }

  function Linking(s: Queue, t: Tid, node: Addr, tail: Addr): Queue
    requires tail in s.m.heap
  {
    Queue(SetNode(s.m, tail, Node(node, s.m.heap[tail].data)), s.spare, s.pcs, Servers(MoveTail(t, node), s.srv.deq),
          Shadow(s.sh.chain + [node], s.sh.kind[node := Linked]))
  }

  function EnqServerStep(s: Queue, u: Tid): Queue {
    match s.srv.enq
    case NoEnqueue => if PcOf(s, u).AskEnqueue? then EnqGoto(s, LoadTail(u, PcOf(s, u).node)) else s
    case LoadTail(t, node) => EnqGoto(s, Link(t, node, s.m.tail))
    case Link(t, node, tail) => if tail in s.m.heap then Linking(s, t, node, tail) else Goto(s, t, Fault)
    case MoveTail(t, node) =>
      Queue(Memory(s.m.heap, s.m.head, node), s.spare, s.pcs[t := Ret(Enqueued)], Servers(NoEnqueue, s.srv.deq), s.sh)
  }

  function DeqGoto(s: Queue, pc: DeqServer): Queue { Queue(s.m, s.spare, s.pcs, Servers(s.srv.enq, pc), s.sh) }

  function Removing(s: Queue, t: Tid, node: Addr, next: Addr, d: Word): Queue {
    Queue(Memory(s.m.heap, next, s.m.tail), s.spare, s.pcs, Servers(s.srv.enq, Store(t, node, d)),
          Shadow(if s.sh.chain == [] then [] else s.sh.chain[1..], s.sh.kind[node := Held(t)]))
  }

  function DeqServerStep(s: Queue, u: Tid): Queue {
    match s.srv.deq
    case NoDequeue => if PcOf(s, u).AskDequeue? then DeqGoto(s, LoadHead(u)) else s
    case LoadHead(t) => DeqGoto(s, ReadNext(t, s.m.head))
    case ReadNext(t, node) =>
      if node !in s.m.heap then Goto(s, t, Fault)
      else DeqGoto(s, if s.m.heap[node].next != 0 then ReadData(t, node, s.m.heap[node].next) else StoreEmpty(t))
    case ReadData(t, node, next) =>
      if next in s.m.heap then DeqGoto(s, WriteData(t, node, next, s.m.heap[next].data)) else Goto(s, t, Fault)
    case WriteData(t, node, next, d) =>
      if node !in s.m.heap then Goto(s, t, Fault)
      else Queue(SetNode(s.m, node, Node(s.m.heap[node].next, d)), s.spare, s.pcs, Servers(s.srv.enq, MoveHead(t, node, next, d)), s.sh)
    case MoveHead(t, node, next, d) => Removing(s, t, node, next, d)
    case Store(t, node, d) => Queue(s.m, s.spare, s.pcs[t := TakeData(node, d)], Servers(s.srv.enq, NoDequeue), s.sh)
    case StoreEmpty(t) => Queue(s.m, s.spare, s.pcs[t := Ret(WasEmpty)], Servers(s.srv.enq, NoDequeue), s.sh)
  }

  function Step(s: Queue, a: Action): Queue {
    match a
    case Start(t, op) => StartStep(s, t, op)
    case Client(t, alloc) => ClientStep(s, t, alloc)
    case ServeEnqueue(t) => EnqServerStep(s, t)
    case ServeDequeue(t) => DeqServerStep(s, t)
  }

  /** queue_init and queue_register: one dummy node, and a spare node for each
      handle. */
  ghost predicate Initial(s: Queue) {
    && s.m.head == s.m.tail && s.m.head != 0 && s.m.head in s.m.heap && s.m.heap[s.m.head].next == 0
    && s.pcs == map[] && s.srv == Servers(NoEnqueue, NoDequeue) && s.sh.chain == [s.m.head]
    && KindInv(s)
  }

  // ----- invariant -------------------------------------------------------

  /** The node in t's hands, its own or its server's on its behalf. */
  ghost function HeldBy(s: Queue, t: Tid): Option<Addr> {
    match PcOf(s, t)
    case SetData(node, _) => Some(node)
    case SetNext(node, _) => Some(node)
    case AskEnqueue(node, _) => if s.srv.enq == MoveTail(t, node) then None else Some(node)
    case TakeData(node, _) => Some(node)
    case KeepNode(node, _) => Some(node)
    case AskDequeue => if s.srv.deq.Store? && s.srv.deq.t == t then Some(s.srv.deq.node) else None
    case _ => None
  }

  /** Every allocated node is linked, in one client's hands, or one client's
      spare node. */
  ghost predicate KindInv(s: Queue) {
    var k := s.sh.kind;
    && k.Keys == s.m.heap.Keys && 0 !in k
    && (forall a :: a in s.sh.chain <==> a in k && k[a].Linked?)
    && (forall a, t :: a in k && k[a] == Held(t) ==> HeldBy(s, t) == Some(a))
    && (forall t :: HeldBy(s, t).Some? ==> HeldBy(s, t).value in k && k[HeldBy(s, t).value] == Held(t))
    && (forall a, t :: a in k && k[a] == Spare(t) ==> SpareOf(s, t) == a)
    && (forall t :: SpareOf(s, t) != 0 ==> SpareOf(s, t) in k && k[SpareOf(s, t)] == Spare(t))
  }

  ghost predicate ChainInv(m: Memory, c: seq<Addr>) {
    && |c| > 0 && Distinct(c) && c[0] == m.head
    && (forall i :: 0 <= i < |c| ==> c[i] in m.heap && c[i] != 0)
    && (forall i :: 0 <= i < |c| - 1 ==> m.heap[c[i]].next == c[i + 1])
    && m.heap[c[|c| - 1]].next == 0
  }

  ghost predicate EnqServerInv(s: Queue) {
    var last := if |s.sh.chain| == 0 then 0 else s.sh.chain[|s.sh.chain| - 1];
    match s.srv.enq
    case NoEnqueue => s.m.tail == last
    case LoadTail(t, node) => s.m.tail == last && PcOf(s, t).AskEnqueue? && PcOf(s, t).node == node
    case Link(t, node, tail) => s.m.tail == last == tail && PcOf(s, t).AskEnqueue? && PcOf(s, t).node == node
    case MoveTail(t, node) => node == last && PcOf(s, t).AskEnqueue? && PcOf(s, t).node == node
  }

  /** node is the head, and next its successor. */
  ghost predicate AtHead(s: Queue, node: Addr, next: Addr) {
    |s.sh.chain| >= 2 && node == s.sh.chain[0] && next == s.sh.chain[1] && next in s.m.heap && node in s.m.heap
  }

  ghost predicate DeqServerInv(s: Queue) {
    match s.srv.deq
    case NoDequeue => true
    case LoadHead(t) => PcOf(s, t).AskDequeue?
    case ReadNext(t, node) => PcOf(s, t).AskDequeue? && node == s.m.head
    case ReadData(t, node, next) => PcOf(s, t).AskDequeue? && AtHead(s, node, next)
    case WriteData(t, node, next, d) => PcOf(s, t).AskDequeue? && AtHead(s, node, next) && s.m.heap[next].data == d
    case MoveHead(t, node, next, d) =>
      PcOf(s, t).AskDequeue? && AtHead(s, node, next) && s.m.heap[next].data == d == s.m.heap[node].data
    case Store(t, node, d) => PcOf(s, t).AskDequeue? && node in s.m.heap && s.m.heap[node].data == d
    case StoreEmpty(t) => PcOf(s, t).AskDequeue?
  }

  ghost predicate ClientInv(s: Queue, t: Tid) {
    match PcOf(s, t)
    case Fault => false
    case SetNext(node, d) => node in s.m.heap && s.m.heap[node].data == d
    case AskEnqueue(node, d) =>
      HeldBy(s, t).Some? ==> node in s.m.heap && s.m.heap[node] == Node(0, d)
    case TakeData(node, v) => node in s.m.heap && s.m.heap[node].data == v
    case _ => true
  }

  ghost predicate Inv(s: Queue) {
    && KindInv(s) && ChainInv(s.m, s.sh.chain) && EnqServerInv(s) && DeqServerInv(s)
    && forall t :: ClientInv(s, t)
  }

  lemma InitialInv(s: Queue)
    requires Initial(s)
    ensures Inv(s)
  {
  }

  /** The queue's content: the data of the linked nodes behind the first. */
  ghost function Contents(s: Queue): seq<Word> {
    seq(if |s.sh.chain| == 0 then 0 else |s.sh.chain| - 1,
        i requires 0 <= i < |s.sh.chain| - 1 =>
          if s.sh.chain[i + 1] in s.m.heap then s.m.heap[s.sh.chain[i + 1]].data else 0)
  }
}
