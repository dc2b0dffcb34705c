/**
 * Every step of the clients and the two servers keeps the invariant of the
 * two-sided list queue.
 */
module CcQueueSteps {
  import opened CcQueue
  import opened Options
  import opened Sequences

  /** A node in a client's hands is not linked, and nobody else's. */
  lemma HeldIsPrivate(s: Queue, t: Tid, a: Addr)
    requires KindInv(s) && (HeldBy(s, t) == Some(a) || (a != 0 && SpareOf(s, t) == a))
    ensures a in s.m.heap && a !in s.sh.chain
    ensures forall u :: u != t ==> HeldBy(s, u) != Some(a) && SpareOf(s, u) != a
  {
  }

  /** A step that changes t's counter, or the counters of the servers, and no
      node. */
  lemma ControlKeeps(s: Queue, s': Queue, t: Tid)
    requires Inv(s) && s'.m.heap == s.m.heap && s'.m.head == s.m.head && s'.sh == s.sh && s'.spare == s.spare
    requires forall u :: u != t ==> PcOf(s', u) == PcOf(s, u)
    requires forall u :: HeldBy(s', u) == HeldBy(s, u)
    requires EnqServerInv(s') && DeqServerInv(s') && ClientInv(s', t)
    ensures Inv(s')
  {
    forall u ensures ClientInv(s', u) { assert ClientInv(s, u); }
  }

  /** Only t's request and t's server speak about t. */
  lemma OthersHold(s: Queue, s': Queue, t: Tid)
    requires forall u :: u != t ==> PcOf(s', u) == PcOf(s, u)
    requires s.srv.enq != s'.srv.enq ==> !s.srv.enq.MoveTail? || s.srv.enq.t == t
    requires s.srv.enq != s'.srv.enq ==> !s'.srv.enq.MoveTail? || s'.srv.enq.t == t
    requires s.srv.deq != s'.srv.deq ==> !s.srv.deq.Store? || s.srv.deq.t == t
    requires s.srv.deq != s'.srv.deq ==> !s'.srv.deq.Store? || s'.srv.deq.t == t
    ensures forall u :: u != t ==> HeldBy(s', u) == HeldBy(s, u)
  {
  }

  lemma StartKeeps(s: Queue, t: Tid, op: Op)
    requires Inv(s)
    ensures Inv(StartStep(s, t, op))
  {
    if PcOf(s, t).Idle? || PcOf(s, t).Ret? {
      OthersHold(s, StartStep(s, t, op), t);
      ControlKeeps(s, StartStep(s, t, op), t);
    }
  }

  /** A client that waits for no server changes, allocates or frees one node
      that is not linked and not in other hands: nobody else notices. */
  lemma PrivateChange(s: Queue, s': Queue, t: Tid, node: Addr)
    requires Inv(s) && !PcOf(s, t).AskEnqueue? && !PcOf(s, t).AskDequeue?
    requires node !in s.sh.chain && forall u :: u != t ==> HeldBy(s, u) != Some(node)
    requires forall a :: a in s.m.heap && a != node ==> a in s'.m.heap && s'.m.heap[a] == s.m.heap[a]
    requires s'.m.head == s.m.head && s'.m.tail == s.m.tail && s'.srv == s.srv && s'.sh.chain == s.sh.chain
    requires forall u :: u != t ==> PcOf(s', u) == PcOf(s, u)
    ensures ChainInv(s'.m, s'.sh.chain) && EnqServerInv(s') && DeqServerInv(s')
    ensures forall u :: u != t ==> HeldBy(s', u) == HeldBy(s, u) && ClientInv(s', u)
  {
    forall u | u != t ensures HeldBy(s', u) == HeldBy(s, u) && ClientInv(s', u) {
      assert ClientInv(s, u) && HeldBy(s, u) != Some(node);
    }
    if s.srv.deq.Store? { assert HeldBy(s, s.srv.deq.t) == Some(s.srv.deq.node); }
  }

  lemma PickSpareKeeps(s: Queue, t: Tid, d: Word, alloc: Addr)
    requires Inv(s) && PcOf(s, t) == PickNode(d) && SpareOf(s, t) != 0
    ensures Inv(PickStep(s, t, d, alloc))
  {
    var s' := PickStep(s, t, d, alloc);
    HeldIsPrivate(s, t, SpareOf(s, t));
    PrivateChange(s, s', t, SpareOf(s, t));
    assert HeldBy(s', t) == Some(SpareOf(s, t)) && SpareOf(s', t) == 0;
    assert forall u :: u != t ==> SpareOf(s', u) == SpareOf(s, u);
  }

  lemma PickNewKeeps(s: Queue, t: Tid, d: Word, alloc: Addr)
    requires Inv(s) && PcOf(s, t) == PickNode(d) && SpareOf(s, t) == 0 && alloc != 0 && alloc !in s.m.heap
    ensures Inv(PickStep(s, t, d, alloc))
  {
    var s' := PickStep(s, t, d, alloc);
    PrivateChange(s, s', t, alloc);
    NewNodeKind(s, s', t, alloc);
  }

  lemma NewNodeKind(s: Queue, s': Queue, t: Tid, a: Addr)
    requires KindInv(s) && a != 0 && a !in s.m.heap && HeldBy(s, t) == None && HeldBy(s', t) == Some(a)
    requires s'.m.heap == s.m.heap[a := Node(0, 0)] && s'.spare == s.spare
    requires s'.sh == Shadow(s.sh.chain, s.sh.kind[a := Held(t)])
    requires forall u :: u != t ==> HeldBy(s', u) == HeldBy(s, u)
    ensures KindInv(s')
  {
  }

  /** A client writes to the node in its hands. */
  lemma OwnStoreKeeps(s: Queue, t: Tid, node: Addr, n: Node, pc: Pc)
    requires Inv(s) && HeldBy(s, t) == Some(node) && !PcOf(s, t).AskEnqueue? && !PcOf(s, t).AskDequeue?
    requires var s' := Queue(SetNode(s.m, node, n), s.spare, s.pcs[t := pc], s.srv, s.sh);
      HeldBy(s', t) == Some(node) && ClientInv(s', t)
    ensures Inv(Queue(SetNode(s.m, node, n), s.spare, s.pcs[t := pc], s.srv, s.sh))
  {
    var s' := Queue(SetNode(s.m, node, n), s.spare, s.pcs[t := pc], s.srv, s.sh);
    HeldIsPrivate(s, t, node);
    PrivateChange(s, s', t, node);
    assert forall u :: SpareOf(s', u) == SpareOf(s, u);
  }

  lemma KeepSpareKeeps(s: Queue, t: Tid, node: Addr, d: Word)
    requires Inv(s) && PcOf(s, t) == KeepNode(node, d) && SpareOf(s, t) == 0
    ensures Inv(KeepStep(s, t, node, d))
  {
    var s' := KeepStep(s, t, node, d);
    assert HeldBy(s, t) == Some(node);
    HeldIsPrivate(s, t, node);
    PrivateChange(s, s', t, node);
    SparedKind(s, s', t, node);
  }

  lemma SparedKind(s: Queue, s': Queue, t: Tid, node: Addr)
    requires KindInv(s) && HeldBy(s, t) == Some(node) && HeldBy(s', t) == None && SpareOf(s, t) == 0
    requires s'.m.heap == s.m.heap && s'.spare == s.spare[t := node]
    requires s'.sh == Shadow(s.sh.chain, s.sh.kind[node := Spare(t)])
    requires forall u :: u != t ==> HeldBy(s', u) == HeldBy(s, u)
    ensures KindInv(s')
  {
    assert s.sh.kind[node] == Held(t) && SpareOf(s', t) == node;
    assert forall u :: u != t ==> SpareOf(s', u) == SpareOf(s, u);
  }

  lemma FreeKeeps(s: Queue, t: Tid, node: Addr, d: Word)
    requires Inv(s) && PcOf(s, t) == KeepNode(node, d) && SpareOf(s, t) != 0
    ensures Inv(KeepStep(s, t, node, d))
  {
    var s' := KeepStep(s, t, node, d);
    assert HeldBy(s, t) == Some(node);
    HeldIsPrivate(s, t, node);
    PrivateChange(s, s', t, node);
    FreedKind(s, s', t, node);
  }

  lemma FreedKind(s: Queue, s': Queue, t: Tid, node: Addr)
    requires KindInv(s) && HeldBy(s, t) == Some(node) && HeldBy(s', t) == None
    requires s'.m.heap == s.m.heap - {node} && s'.sh == Shadow(s.sh.chain, s.sh.kind - {node}) && s'.spare == s.spare
    requires forall u :: u != t ==> HeldBy(s', u) == HeldBy(s, u)
    ensures KindInv(s')
  {
    assert s.sh.kind[node] == Held(t);
    assert forall u :: SpareOf(s', u) == SpareOf(s, u);
  }

  lemma PickKeeps(s: Queue, t: Tid, alloc: Addr)
    requires Inv(s) && PcOf(s, t).PickNode?
    ensures Inv(ClientStep(s, t, alloc))
  {
    var d := PcOf(s, t).d;
    assert ClientInv(s, t);
    if SpareOf(s, t) != 0 { PickSpareKeeps(s, t, d, alloc); }
    else if alloc != 0 && alloc !in s.m.heap { PickNewKeeps(s, t, d, alloc); }
  }

  lemma TakeDataKeeps(s: Queue, t: Tid, alloc: Addr)
    requires Inv(s) && PcOf(s, t).TakeData?
    ensures Inv(ClientStep(s, t, alloc))
  {
    assert ClientInv(s, t);
    OthersHold(s, ClientStep(s, t, alloc), t);
    ControlKeeps(s, ClientStep(s, t, alloc), t);
  }

  lemma ClientKeeps(s: Queue, t: Tid, alloc: Addr)
    requires Inv(s)
    ensures Inv(ClientStep(s, t, alloc))
  {
    var pc := PcOf(s, t);
    if pc.PickNode? { PickKeeps(s, t, alloc); }
    else if pc.SetData? || pc.SetNext? { StoresKeep(s, t, alloc); }
    else if pc.TakeData? { TakeDataKeeps(s, t, alloc); }
    else if pc.KeepNode? {
      if SpareOf(s, t) == 0 { KeepSpareKeeps(s, t, pc.node, pc.d); } else { FreeKeeps(s, t, pc.node, pc.d); }
    }
  }

  lemma StoresKeep(s: Queue, t: Tid, alloc: Addr)
    requires Inv(s) && (PcOf(s, t).SetData? || PcOf(s, t).SetNext?)
    ensures Inv(ClientStep(s, t, alloc))
  {
    var node, d := PcOf(s, t).node, PcOf(s, t).d;
    assert ClientInv(s, t) && HeldBy(s, t) == Some(node);
    HeldIsPrivate(s, t, node);
    if PcOf(s, t).SetData? { OwnStoreKeeps(s, t, node, Node(s.m.heap[node].next, d), SetNext(node, d)); }
    else { OwnStoreKeeps(s, t, node, Node(0, d), AskEnqueue(node, d)); }
  }

  lemma LinkingChain(s: Queue, t: Tid, node: Addr, tail: Addr)
    requires Inv(s) && s.srv.enq == Link(t, node, tail)
    ensures tail in s.sh.chain && tail in s.m.heap && HeldBy(s, t) == Some(node) && node !in s.sh.chain && node in s.m.heap
    ensures s.m.heap[node] == Node(0, PcOf(s, t).d)
    ensures var s' := Linking(s, t, node, tail);
      ChainInv(s'.m, s'.sh.chain) && EnqServerInv(s')
  {
    assert ClientInv(s, t);
    HeldIsPrivate(s, t, node);
  }

  lemma LinkingKind(s: Queue, t: Tid, node: Addr, tail: Addr)
    requires Inv(s) && s.srv.enq == Link(t, node, tail)
    ensures tail in s.m.heap && KindInv(Linking(s, t, node, tail))
  {
    LinkingChain(s, t, node, tail);
    var s' := Linking(s, t, node, tail);
    OthersHold(s, s', t);
    assert HeldBy(s', t) == None && s.sh.kind[node] == Held(t);
    assert forall u :: SpareOf(s', u) == SpareOf(s, u);
  }

  /** The link: the node of the request becomes the last one. */
  lemma LinkingKeeps(s: Queue, t: Tid, node: Addr, tail: Addr)
    requires Inv(s) && s.srv.enq == Link(t, node, tail)
    ensures tail in s.m.heap && Inv(Linking(s, t, node, tail))
  {
    LinkingChain(s, t, node, tail);
    LinkingKind(s, t, node, tail);
    LinkingOthers(s, t, node, tail);
  }

  lemma LinkingOthers(s: Queue, t: Tid, node: Addr, tail: Addr)
    requires Inv(s) && s.srv.enq == Link(t, node, tail)
    ensures tail in s.m.heap && DeqServerInv(Linking(s, t, node, tail))
    ensures forall u :: ClientInv(Linking(s, t, node, tail), u)
  {
    LinkingChain(s, t, node, tail);
    var s' := Linking(s, t, node, tail);
    if s.srv.deq.Store? { HeldIsPrivate(s, s.srv.deq.t, s.srv.deq.node); }
    forall u ensures ClientInv(s', u) {
      assert ClientInv(s, u);
      if HeldBy(s, u).Some? { HeldIsPrivate(s, u, HeldBy(s, u).value); }
    }
  }

  /** Steps of the enqueue server that only read, or hand over the result. */
  lemma EnqControlKeeps(s: Queue, u: Tid)
    requires Inv(s) && (s.srv.enq.LoadTail? || s.srv.enq.MoveTail?)
    ensures Inv(EnqServerStep(s, u))
  {
    assert ClientInv(s, s.srv.enq.t);
    OthersHold(s, EnqServerStep(s, u), s.srv.enq.t);
    ControlKeeps(s, EnqServerStep(s, u), s.srv.enq.t);
  }

  lemma BeginEnqueueKeeps(s: Queue, u: Tid)
    requires Inv(s) && s.srv.enq.NoEnqueue? && PcOf(s, u).AskEnqueue?
    ensures Inv(EnqServerStep(s, u))
  {
    assert ClientInv(s, u);
    OthersHold(s, EnqServerStep(s, u), u);
    ControlKeeps(s, EnqServerStep(s, u), u);
  }

  lemma EnqServerKeeps(s: Queue, u: Tid)
    requires Inv(s)
    ensures Inv(EnqServerStep(s, u))
  {
    if s.srv.enq.Link? { LinkingKeeps(s, s.srv.enq.t, s.srv.enq.node, s.srv.enq.tail); }
    else if s.srv.enq.LoadTail? || s.srv.enq.MoveTail? { EnqControlKeeps(s, u); }
    else if PcOf(s, u).AskEnqueue? { BeginEnqueueKeeps(s, u); }
  }

  lemma FirstAndRest(c: seq<Addr>)
    requires |c| > 0 && Distinct(c)
    ensures c[0] !in c[1..] && forall a :: a in c <==> a == c[0] || a in c[1..]
  {
  }

  lemma RemovingKind(s: Queue, t: Tid, node: Addr, next: Addr, d: Word)
    requires KindInv(s) && s.sh.chain != [] && node == s.sh.chain[0]
    requires node !in s.sh.chain[1..] && forall a :: a in s.sh.chain <==> a == node || a in s.sh.chain[1..]
    requires s.srv.deq == MoveHead(t, node, next, d) && PcOf(s, t).AskDequeue?
    ensures KindInv(Removing(s, t, node, next, d))
  {
    var s' := Removing(s, t, node, next, d);
    OthersHold(s, s', t);
    assert HeldBy(s', t) == Some(node) && HeldBy(s, t) == None;
    assert forall u :: SpareOf(s', u) == SpareOf(s, u);
  }

  lemma RemovingChain(s: Queue, t: Tid, node: Addr, next: Addr, d: Word)
    requires ChainInv(s.m, s.sh.chain) && EnqServerInv(s) && DeqServerInv(s) && s.srv.deq == MoveHead(t, node, next, d)
    ensures var s' := Removing(s, t, node, next, d);
      ChainInv(s'.m, s'.sh.chain) && EnqServerInv(s') && DeqServerInv(s')
  {
  }

  /** The head moves on: its old node is in the hands of the request. */
  lemma RemovingKeeps(s: Queue, t: Tid, node: Addr, next: Addr, d: Word)
    requires Inv(s) && s.srv.deq == MoveHead(t, node, next, d)
    ensures Inv(Removing(s, t, node, next, d))
  {
    var s' := Removing(s, t, node, next, d);
    FirstAndRest(s.sh.chain);
    RemovingKind(s, t, node, next, d);
    RemovingChain(s, t, node, next, d);
    OthersHold(s, s', t);
    forall u ensures ClientInv(s', u) { assert ClientInv(s, u); }
  }

  /** The old head's data is overwritten, which is nobody's content. */
  lemma WriteDataKeeps(s: Queue, u: Tid)
    requires Inv(s) && s.srv.deq.WriteData?
    ensures Inv(DeqServerStep(s, u))
  {
    var s' := DeqServerStep(s, u);
    OthersHold(s, s', s.srv.deq.t);
    assert s.srv.deq.node in s.sh.chain;
    forall u ensures ClientInv(s', u) {
      assert ClientInv(s, u);
      if HeldBy(s, u).Some? { HeldIsPrivate(s, u, HeldBy(s, u).value); }
    }
  }

  lemma DeqServerKeeps(s: Queue, u: Tid)
    requires Inv(s)
    ensures Inv(DeqServerStep(s, u))
  {
    var deq := s.srv.deq;
    if deq.WriteData? { WriteDataKeeps(s, u); }
    else if deq.MoveHead? { RemovingKeeps(s, deq.t, deq.node, deq.next, deq.d); }
    else { DeqControlKeeps(s, u); }
  }

  /** The server's steps that touch no node do not change who holds one. */
  lemma DeqControlHolds(s: Queue, u: Tid)
    requires DeqServerInv(s) && !s.srv.deq.WriteData? && !s.srv.deq.MoveHead? && PcOf(DeqServerStep(s, u), u) != Fault
    requires !s.srv.deq.NoDequeue? ==> PcOf(DeqServerStep(s, u), s.srv.deq.t) != Fault
    ensures forall w :: HeldBy(DeqServerStep(s, u), w) == HeldBy(s, w)
  {
    var t := if s.srv.deq.NoDequeue? then u else s.srv.deq.t;
    OthersHold(s, DeqServerStep(s, u), t);
  }

  /** Steps of the dequeue server that only read, or hand over the result. */
  lemma DeqControlKeeps(s: Queue, u: Tid)
    requires Inv(s) && !s.srv.deq.WriteData? && !s.srv.deq.MoveHead?
    ensures Inv(DeqServerStep(s, u))
  {
    var t := if s.srv.deq.NoDequeue? then u else s.srv.deq.t;
    assert ClientInv(s, t) && ClientInv(s, u);
    DeqControlServer(s, u);
    DeqControlHolds(s, u);
    ControlKeeps(s, DeqServerStep(s, u), t);
  }

  lemma DeqControlServer(s: Queue, u: Tid)
    requires Inv(s) && !s.srv.deq.WriteData? && !s.srv.deq.MoveHead?
    ensures EnqServerInv(DeqServerStep(s, u)) && DeqServerInv(DeqServerStep(s, u))
  {
    ReadsStayAtHead(s);
  }

  /** Following the head's next field leads to the second linked node. */
  lemma ReadsStayAtHead(s: Queue)
    requires Inv(s)
    ensures s.m.head in s.m.heap && (s.m.heap[s.m.head].next == 0 <==> |s.sh.chain| == 1)
    ensures |s.sh.chain| > 1 ==> AtHead(s, s.m.head, s.m.heap[s.m.head].next)
  {
    assert |s.sh.chain| > 1 ==> s.m.heap[s.sh.chain[0]].next == s.sh.chain[1];
  }

  /** Every step of every client and both servers keeps the invariant. */
  lemma StepKeepsInv(s: Queue, a: Action)
    requires Inv(s)
    ensures Inv(Step(s, a))
  {
    match a
    case Start(t, op) => StartKeeps(s, t, op);
    case Client(t, alloc) => ClientKeeps(s, t, alloc);
    case ServeEnqueue(t) => EnqServerKeeps(s, t);
    case ServeDequeue(t) => DeqServerKeeps(s, t);
  }
}
