/**
 * Every step of every thread keeps the invariant of the Michael-Scott queue
 * with hazard pointers.
 */
module MsSteps {
  import opened MsQueue
  import opened Options
  import opened Sequences

  /** A node that t's sweep may free: no hazard slot was found to hold it. */
  ghost predicate Reclaimable(pc: Pc, k: Kind, t: Tid, a: Addr) {
    k == Unlinked(t) && pc.Sweep? && a !in pc.found
  }

  /** Linked nodes keep their data; a next field is written once; nodes become
      linked, then unlinked, then are freed, all by the thread in charge. */
  ghost predicate NodesFrame(s: Queue, s': Queue, t: Tid) {
    var (k, k') := (s.sh.kind, s'.sh.kind);
    && k.Keys == s.m.heap.Keys && k'.Keys == s'.m.heap.Keys
    && (forall a :: a in k && a !in k' ==> Reclaimable(PcOf(s, t), k[a], t, a))
    && (forall a :: a in k && a in k' ==>
      && s'.m.heap[a].data == s.m.heap[a].data
      && (s'.m.heap[a].next == s.m.heap[a].next || (s.m.heap[a].next == 0 && k[a].Linked?))
      && (k'[a] == k[a] || (k[a] == Private(t) && k'[a] == Linked)
         || (k[a] == Linked && k'[a] == Unlinked(t) && a == s.m.head && PcOf(s', t).Retire?)))
    && (forall a :: a in k' && a !in k ==> k'[a] == Private(t))
  }

  /** The two pointers only move forward along the list. */
  ghost predicate PointersFrame(s: Queue, s': Queue, t: Tid) {
    && (s'.m.head == s.m.head || (s.m.head in s'.sh.kind && s'.sh.kind[s.m.head] == Unlinked(t)))
    && (s'.m.tail == s.m.tail ||
      (s.m.tail in s.m.heap && s'.m.tail != 0 && s.m.heap[s.m.tail].next == s'.m.tail
       && s'.m.tail in s.sh.kind && s.sh.kind[s'.m.tail] == Linked && s'.m.tail != s.m.head))
  }

  /** t overlooks no hazard slot that was set all along. */
  ghost predicate ScanFrame(s: Queue, s': Queue, t: Tid) {
    forall u, second, a :: u != t && PcOf(s, u) != Idle && Hz(s.h, u, second) == a && NotMissed(PcOf(s, t), a, u, second)
                           && a in s.sh.kind && s.sh.kind[a] == Unlinked(t) ==>
      NotMissed(PcOf(s', t), a, u, second)
  }

  ghost predicate Frame(s: Queue, s': Queue, t: Tid) {
    && NodesFrame(s, s', t) && PointersFrame(s, s', t) && ScanFrame(s, s', t)
    && (forall u :: u != t ==> PcOf(s', u) == PcOf(s, u) && Rlist(s'.h, u) == Rlist(s.h, u))
    && (forall u, second :: u != t ==> Hz(s'.h, u, second) == Hz(s.h, u, second))
  }

  lemma GuardKept(cfg: Config, s: Queue, s': Queue, t: Tid, u: Tid, a: Addr, second: bool)
    requires Inv(cfg, s) && Frame(s, s', t) && u != t && PcOf(s, u) != Idle && Guarded(s, u, a, second)
    ensures Guarded(s', u, a, second)
  {
    assert Hz(s'.h, u, second) == Hz(s.h, u, second);
    assert NotMissed(PcOf(s, t), a, u, second) || s.sh.kind[a] != Unlinked(t);
  }

  ghost predicate GuardsHold(s: Queue, t: Tid, pc: Pc) {
    && (Guard0(pc).Some? ==> Guarded(s, t, Guard0(pc).value, false))
    && (Guard1(pc).Some? ==> Guarded(s, t, Guard1(pc).value, true))
  }

  lemma OthersGuards(cfg: Config, s: Queue, s': Queue, t: Tid, u: Tid)
    requires Inv(cfg, s) && Frame(s, s', t) && u != t
    ensures GuardsHold(s', u, PcOf(s, u))
  {
    var pc := PcOf(s, u);
    assert ThreadInv(s, u);
    if Guard0(pc).Some? { GuardKept(cfg, s, s', t, u, Guard0(pc).value, false); }
    if Guard1(pc).Some? { GuardKept(cfg, s, s', t, u, Guard1(pc).value, true); }
  }

  lemma OthersRetire(s: Queue, s': Queue, t: Tid, u: Tid)
    requires RetireInv(s, u) && NodesFrame(s, s', t) && u != t
    requires PcOf(s', u) == PcOf(s, u) && Rlist(s'.h, u) == Rlist(s.h, u)
    ensures RetireInv(s', u)
  {
    forall a | Awaits(s', u, a) ensures a in s'.sh.kind && s'.sh.kind[a] == Unlinked(u) { assert Awaits(s, u, a); }
  }

  lemma OthersPc(s: Queue, s': Queue, t: Tid, u: Tid)
    requires ThreadInv(s, u) && ChainInv(s.m, s.sh) && KindInv(s) && Frame(s, s', t) && u != t
    requires GuardsHold(s', u, PcOf(s, u))
    ensures var pc := PcOf(s', u); PcInv(s', u, pc) && HeadInv(s', pc) && OwnNodeInv(s', u, pc)
  {
    assert PcOf(s', u) == PcOf(s, u);
    assert Hz(s'.h, u, true) == Hz(s.h, u, true) && Hz(s'.h, u, false) == Hz(s.h, u, false);
  }

  /** A step of t leaves alone what every other thread relies on. */
  lemma OthersKeep(cfg: Config, s: Queue, s': Queue, t: Tid, u: Tid)
    requires Inv(cfg, s) && Frame(s, s', t) && u != t
    ensures ThreadInv(s', u)
  {
    assert ThreadInv(s, u) && PcOf(s', u) == PcOf(s, u) && Rlist(s'.h, u) == Rlist(s.h, u);
    OthersGuards(cfg, s, s', t, u);
    OthersRetire(s, s', t, u);
    OthersPc(s, s', t, u);
  }

  lemma KeepsInv(cfg: Config, s: Queue, s': Queue, t: Tid)
    requires Inv(cfg, s) && Frame(s, s', t) && t in cfg.procs
    requires ChainInv(s'.m, s'.sh) && KindInv(s') && ThreadInv(s', t)
    ensures Inv(cfg, s')
  {
    forall u ensures ThreadInv(s', u) { if u != t { OthersKeep(cfg, s, s', t, u); } }
  }

  // ----- preservation, one lemma per kind of step ------------------------

  ghost predicate Good(cfg: Config, s: Queue, s': Queue, t: Tid) {
    Inv(cfg, s') && Frame(s, s', t)
  }

  /** Neither scanning nor about to retire. */
  ghost predicate Plain(pc: Pc) { !pc.Retire? && !pc.Scan? && !pc.Sweep? }

  /** Nothing is retired, so each thread awaits what it did. */
  lemma AwaitsKept(s: Queue, s': Queue, t: Tid)
    requires s'.h.rlist == s.h.rlist && forall u :: u != t ==> PcOf(s', u) == PcOf(s, u)
    requires !PcOf(s, t).Retire? && !PcOf(s', t).Retire?
    ensures forall u, a :: Awaits(s', u, a) <==> Awaits(s, u, a)
  {
    forall u, a ensures Awaits(s', u, a) <==> Awaits(s, u, a) { assert Rlist(s'.h, u) == Rlist(s.h, u); }
  }

  lemma OwnNodesKept(s: Queue, s': Queue, t: Tid)
    requires OwnNode(PcOf(s', t)) == OwnNode(PcOf(s, t)) && forall u :: u != t ==> PcOf(s', u) == PcOf(s, u)
    ensures forall u :: OwnNode(PcOf(s', u)) == OwnNode(PcOf(s, u))
  {
    forall u ensures OwnNode(PcOf(s', u)) == OwnNode(PcOf(s, u)) { }
  }

  /** The kinds stand while no node is touched and none stops being awaited. */
  lemma KindKept(s: Queue, s': Queue)
    requires KindInv(s) && s'.m.heap == s.m.heap && s'.sh == s.sh
    requires forall u, a :: Awaits(s, u, a) ==> Awaits(s', u, a)
    requires forall u :: OwnNode(PcOf(s', u)) == OwnNode(PcOf(s, u))
    ensures KindInv(s')
  {
  }

  lemma OwnNodeKept(s: Queue, s': Queue, t: Tid)
    requires OwnNodeInv(s, t, PcOf(s, t)) && s'.m.heap == s.m.heap && s'.sh == s.sh
    requires var (pc, pc') := (PcOf(s, t), PcOf(s', t));
      OwnNode(pc') == OwnNode(pc) && (OwnNode(pc').Some? ==> pc'.d == pc.d)
    ensures OwnNodeInv(s', t, PcOf(s', t))
  {
  }

  lemma QuietFrame(s: Queue, t: Tid, pc: Pc, h: Handles)
    requires s.sh.kind.Keys == s.m.heap.Keys && Plain(pc)
    requires h.rlist == s.h.rlist && forall u, second :: u != t ==> Hz(h, u, second) == Hz(s.h, u, second)
    ensures Frame(s, Next(s, t, pc, s.m, h, s.sh), t)
  {
    forall u ensures Rlist(h, u) == Rlist(s.h, u) { }
  }

  lemma QuietRetire(s: Queue, t: Tid, pc: Pc, h: Handles)
    requires RetireInv(s, t) && Plain(pc) && h.rlist == s.h.rlist
    ensures RetireInv(Next(s, t, pc, s.m, h, s.sh), t)
  {
    forall a | Awaits(Next(s, t, pc, s.m, h, s.sh), t, a) ensures Awaits(s, t, a) { }
  }

  /** A step that changes only t's counter and hazard slots. */
  lemma QuietKeeps(cfg: Config, s: Queue, t: Tid, pc: Pc, h: Handles)
    requires Inv(cfg, s) && t in cfg.procs && Plain(pc) && !PcOf(s, t).Retire?
    requires h.rlist == s.h.rlist && forall u, second :: u != t ==> Hz(h, u, second) == Hz(s.h, u, second)
    requires OwnNode(pc) == OwnNode(PcOf(s, t)) && (OwnNode(pc).Some? ==> pc.d == PcOf(s, t).d)
    requires var s' := Next(s, t, pc, s.m, h, s.sh); PcInv(s', t, pc) && HeadInv(s', pc) && GuardsHold(s', t, pc)
    ensures Good(cfg, s, Next(s, t, pc, s.m, h, s.sh), t)
  {
    var s' := Next(s, t, pc, s.m, h, s.sh);
    assert ThreadInv(s, t);
    AwaitsKept(s, s', t);
    OwnNodesKept(s, s', t);
    KindKept(s, s');
    OwnNodeKept(s, s', t);
    QuietRetire(s, t, pc, h);
    QuietFrame(s, t, pc, h);
    KeepsInv(cfg, s, s', t);
  }

  lemma GotoKeeps(cfg: Config, s: Queue, t: Tid, pc: Pc)
    requires Inv(cfg, s) && t in cfg.procs && Plain(pc) && !PcOf(s, t).Retire?
    requires OwnNode(pc) == OwnNode(PcOf(s, t)) && (OwnNode(pc).Some? ==> pc.d == PcOf(s, t).d)
    requires PcInv(Goto(s, t, pc), t, pc) && HeadInv(s, pc) && GuardsHold(Goto(s, t, pc), t, pc)
    ensures Good(cfg, s, Goto(s, t, pc), t)
  {
    QuietKeeps(cfg, s, t, pc, s.h);
  }

  lemma SwingChain(s: Queue, tail: Addr, next: Addr)
    requires ChainInv(s.m, s.sh) && KindInv(s) && tail in s.m.heap && next != 0 && s.m.heap[tail].next == next
    ensures ChainInv(CasTail(s.m, tail, next), s.sh)
    ensures s.m.tail == tail ==> next in s.sh.kind && s.sh.kind[next] == Linked && next != s.m.head
  {
  }

  lemma SwingKind(s: Queue, t: Tid, pc: Pc, tail: Addr, next: Addr)
    requires KindInv(s) && Plain(PcOf(s, t)) && Plain(pc) && OwnNode(pc) == OwnNode(PcOf(s, t))
    ensures KindInv(Next(s, t, pc, CasTail(s.m, tail, next), s.h, s.sh))
    ensures forall a :: Awaits(Next(s, t, pc, CasTail(s.m, tail, next), s.h, s.sh), t, a) <==> Awaits(s, t, a)
  {
    var s' := Next(s, t, pc, CasTail(s.m, tail, next), s.h, s.sh);
    AwaitsKept(s, s', t);
    OwnNodesKept(s, s', t);
    KindKept(s, s');
  }

  lemma SwingFrame(cfg: Config, s: Queue, t: Tid, pc: Pc, tail: Addr, next: Addr)
    requires Inv(cfg, s) && Plain(PcOf(s, t)) && Plain(pc)
    requires tail in s.m.heap && next != 0 && s.m.heap[tail].next == next
    ensures Frame(s, Next(s, t, pc, CasTail(s.m, tail, next), s.h, s.sh), t)
  {
    SwingChain(s, tail, next);
  }

  /** The tail CAS: from a guarded node to its successor. */
  lemma SwingKeeps(cfg: Config, s: Queue, t: Tid, pc: Pc, tail: Addr, next: Addr)
    requires Inv(cfg, s) && t in cfg.procs && Guard0(PcOf(s, t)) == Some(tail) && Plain(PcOf(s, t))
    requires tail in s.m.heap && next != 0 && s.m.heap[tail].next == next
    requires Plain(pc) && Guard0(pc).None? && Guard1(pc).None? && pc != Fault && (pc.Deq? ==> pc.deq.LoadHead?)
    requires pc.Enq? ==> pc.enq.LoadTail?
    requires OwnNode(pc) == OwnNode(PcOf(s, t)) && (OwnNode(pc).Some? ==> pc.d == PcOf(s, t).d)
    ensures Good(cfg, s, Next(s, t, pc, CasTail(s.m, tail, next), s.h, s.sh), t)
  {
    var s' := Next(s, t, pc, CasTail(s.m, tail, next), s.h, s.sh);
    assert ThreadInv(s, t);
    SwingChain(s, tail, next);
    SwingKind(s, t, pc, tail, next);
    SwingFrame(cfg, s, t, pc, tail, next);
    KeepsInv(cfg, s, s', t);
  }

  lemma MallocKind(s: Queue, t: Tid, a: Addr, d: Word)
    requires KindInv(s) && ChainInv(s.m, s.sh) && PcOf(s, t) == Malloc(d) && a != 0 && a !in s.m.heap
    ensures KindInv(MallocStep(s, t, a, d)) && ChainInv(MallocStep(s, t, a, d).m, s.sh)
  {
    var s' := MallocStep(s, t, a, d);
    AwaitsKept(s, s', t);
    forall u | u != t ensures OwnNode(PcOf(s', u)) == OwnNode(PcOf(s, u)) { }
  }

  lemma MallocFrame(s: Queue, t: Tid, a: Addr, d: Word)
    requires s.sh.kind.Keys == s.m.heap.Keys && PcOf(s, t) == Malloc(d) && a != 0 && a !in s.m.heap
    ensures Frame(s, MallocStep(s, t, a, d), t)
  {
  }

  lemma MallocThread(s: Queue, t: Tid, a: Addr, d: Word)
    requires s.sh.kind.Keys == s.m.heap.Keys && RetireInv(s, t)
    requires PcOf(s, t) == Malloc(d) && a != 0 && a !in s.m.heap
    ensures ThreadInv(MallocStep(s, t, a, d), t)
  {
    AwaitsKept(s, MallocStep(s, t, a, d), t);
  }

  lemma MallocKeeps(cfg: Config, s: Queue, t: Tid, a: Addr, d: Word)
    requires Inv(cfg, s) && t in cfg.procs && PcOf(s, t) == Malloc(d) && a != 0 && a !in s.m.heap
    ensures Good(cfg, s, MallocStep(s, t, a, d), t)
  {
    assert ThreadInv(s, t);
    MallocKind(s, t, a, d);
    MallocFrame(s, t, a, d);
    MallocThread(s, t, a, d);
    KeepsInv(cfg, s, MallocStep(s, t, a, d), t);
  }

  /** The link CAS: its node is the last of the list, and the tail. */
  lemma LinkingChain(cfg: Config, s: Queue, t: Tid, d: Word, node: Addr, tail: Addr)
    requires Inv(cfg, s) && PcOf(s, t) == Enq(d, node, Link(tail)) && tail in s.m.heap && s.m.heap[tail].next == 0
    ensures var s' := Linking(s, t, d, node, tail); ChainInv(s'.m, s'.sh)
    ensures tail == s.m.tail && tail in s.sh.chain && node !in s.sh.chain && node in s.m.heap && s.m.heap[node].data == d
  {
    var c := s.sh.chain;
    assert ThreadInv(s, t);
    assert tail == c[|c| - 1] && node !in c;
  }

  lemma LinkingContents(cfg: Config, s: Queue, t: Tid, d: Word, node: Addr, tail: Addr)
    requires Inv(cfg, s) && PcOf(s, t) == Enq(d, node, Link(tail)) && tail in s.m.heap && s.m.heap[tail].next == 0
    ensures Contents(Linking(s, t, d, node, tail)) == Contents(s) + [d]
  {
    LinkingChain(cfg, s, t, d, node, tail);
    assert Contents(Linking(s, t, d, node, tail)) == Contents(s) + [d];
  }

  lemma LinkingKind(cfg: Config, s: Queue, t: Tid, d: Word, node: Addr, tail: Addr)
    requires Inv(cfg, s) && PcOf(s, t) == Enq(d, node, Link(tail)) && tail in s.m.heap && s.m.heap[tail].next == 0
    ensures KindInv(Linking(s, t, d, node, tail))
  {
    var s' := Linking(s, t, d, node, tail);
    assert ThreadInv(s, t);
    LinkingChain(cfg, s, t, d, node, tail);
    AwaitsKept(s, s', t);
    forall u | u != t ensures OwnNode(PcOf(s', u)) == OwnNode(PcOf(s, u)) { }
  }

  lemma LinkingFrame(s: Queue, t: Tid, d: Word, node: Addr, tail: Addr)
    requires s.sh.kind.Keys == s.m.heap.Keys && node in s.sh.kind && s.sh.kind[node] == Private(t)
    requires PcOf(s, t) == Enq(d, node, Link(tail)) && tail in s.sh.kind && s.sh.kind[tail].Linked? && s.m.heap[tail].next == 0
    ensures Frame(s, Linking(s, t, d, node, tail), t)
  {
  }

  lemma LinkingThread(s: Queue, t: Tid, d: Word, node: Addr, tail: Addr)
    requires ThreadInv(s, t) && node != 0 && tail != node
    requires PcOf(s, t) == Enq(d, node, Link(tail)) && tail in s.m.heap && s.m.heap[tail].next == 0
    ensures ThreadInv(Linking(s, t, d, node, tail), t)
  {
    AwaitsKept(s, Linking(s, t, d, node, tail), t);
  }

  lemma LinkingKeeps(cfg: Config, s: Queue, t: Tid, d: Word, node: Addr, tail: Addr)
    requires Inv(cfg, s) && t in cfg.procs && PcOf(s, t) == Enq(d, node, Link(tail))
    requires tail in s.m.heap && s.m.heap[tail].next == 0
    ensures Good(cfg, s, Linking(s, t, d, node, tail), t)
  {
    assert ThreadInv(s, t);
    LinkingChain(cfg, s, t, d, node, tail);
    LinkingKind(cfg, s, t, d, node, tail);
    LinkingFrame(s, t, d, node, tail);
    LinkingThread(s, t, d, node, tail);
    KeepsInv(cfg, s, Linking(s, t, d, node, tail), t);
  }

  /** The head CAS: the tail is not left behind, and the value read is the one
      at the front. */
  lemma UnlinkingChain(cfg: Config, s: Queue, t: Tid, next: Addr, d: Word)
    requires Inv(cfg, s) && PcOf(s, t) == Deq(CasHead(s.m.head, next, d))
    ensures var s' := Unlinking(s, t, s.m.head, next, d);
      ChainInv(s'.m, s'.sh)
    ensures |s.sh.chain| >= 2 && s.sh.chain[1] == next && next in s.m.heap && s.m.heap[next].data == d
    ensures forall a :: a in s.sh.chain <==> a == s.m.head || a in s.sh.chain[1..]
  {
    var c := s.sh.chain;
    assert ThreadInv(s, t);
    assert |c| >= 2 && c[1] == next;
  }

  lemma UnlinkingContents(cfg: Config, s: Queue, t: Tid, next: Addr, d: Word)
    requires Inv(cfg, s) && PcOf(s, t) == Deq(CasHead(s.m.head, next, d))
    ensures Contents(s) == [d] + Contents(Unlinking(s, t, s.m.head, next, d))
  {
    UnlinkingChain(cfg, s, t, next, d);
    assert Contents(s) == [d] + Contents(Unlinking(s, t, s.m.head, next, d));
  }

  lemma UnlinkingKind(cfg: Config, s: Queue, t: Tid, next: Addr, d: Word)
    requires Inv(cfg, s) && PcOf(s, t) == Deq(CasHead(s.m.head, next, d))
    ensures KindInv(Unlinking(s, t, s.m.head, next, d))
  {
    var s' := Unlinking(s, t, s.m.head, next, d);
    assert ThreadInv(s, t);
    UnlinkingChain(cfg, s, t, next, d);
    assert s.m.head !in s.sh.chain[1..];
    forall u | u != t ensures OwnNode(PcOf(s', u)) == OwnNode(PcOf(s, u)) { }
    forall u, a ensures Awaits(s', u, a) <==> Awaits(s, u, a) || (u == t && a == s.m.head) { }
  }

  lemma UnlinkingFrame(s: Queue, t: Tid, next: Addr, d: Word)
    requires s.sh.kind.Keys == s.m.heap.Keys && PcOf(s, t) == Deq(CasHead(s.m.head, next, d))
    requires s.m.head in s.sh.kind && s.sh.kind[s.m.head].Linked?
    ensures Frame(s, Unlinking(s, t, s.m.head, next, d), t)
  {
  }

  lemma UnlinkingThread(s: Queue, t: Tid, next: Addr, d: Word)
    requires ThreadInv(s, t) && PcOf(s, t) == Deq(CasHead(s.m.head, next, d))
    requires s.m.head in s.sh.kind && s.sh.kind[s.m.head].Linked?
    ensures ThreadInv(Unlinking(s, t, s.m.head, next, d), t)
  {
    var s' := Unlinking(s, t, s.m.head, next, d);
    forall a ensures Awaits(s', t, a) <==> Awaits(s, t, a) || a == s.m.head { }
    assert !Awaits(s, t, s.m.head);
  }

  lemma UnlinkingKeeps(cfg: Config, s: Queue, t: Tid, next: Addr, d: Word)
    requires Inv(cfg, s) && t in cfg.procs && PcOf(s, t) == Deq(CasHead(s.m.head, next, d))
    ensures Good(cfg, s, Unlinking(s, t, s.m.head, next, d), t)
  {
    assert ThreadInv(s, t);
    assert s.m.head in s.sh.chain;
    UnlinkingChain(cfg, s, t, next, d);
    UnlinkingKind(cfg, s, t, next, d);
    UnlinkingFrame(s, t, next, d);
    UnlinkingThread(s, t, next, d);
    KeepsInv(cfg, s, Unlinking(s, t, s.m.head, next, d), t);
  }

  lemma RetireThread(cfg: Config, s: Queue, t: Tid, node: Addr, d: Word)
    requires ThreadInv(s, t) && PcOf(s, t) == Retire(node, d)
    ensures ThreadInv(RetireStep(cfg, s, t, node, d), t)
  {
    var s' := RetireStep(cfg, s, t, node, d);
    forall a ensures Awaits(s', t, a) <==> Awaits(s, t, a) { }
  }

  /** The node unlinked goes onto t's own list. */
  lemma RetireKeeps(cfg: Config, s: Queue, t: Tid, node: Addr, d: Word)
    requires Inv(cfg, s) && t in cfg.procs && PcOf(s, t) == Retire(node, d)
    ensures Good(cfg, s, RetireStep(cfg, s, t, node, d), t)
  {
    var s' := RetireStep(cfg, s, t, node, d);
    assert ThreadInv(s, t);
    forall u, a ensures Awaits(s', u, a) <==> Awaits(s, u, a) { }
    OwnNodesKept(s, s', t);
    KindKept(s, s');
    RetireFrame(cfg, s, t, node, d);
    RetireThread(cfg, s, t, node, d);
    KeepsInv(cfg, s, s', t);
  }

  lemma RetireFrame(cfg: Config, s: Queue, t: Tid, node: Addr, d: Word)
    requires Inv(cfg, s) && t in cfg.procs && PcOf(s, t) == Retire(node, d)
    ensures Frame(s, RetireStep(cfg, s, t, node, d), t)
  {
    var s' := RetireStep(cfg, s, t, node, d);
    forall u, second, a | u != t && PcOf(s, u) != Idle
      ensures NotMissed(PcOf(s', t), a, u, second)
    {
      assert (u, second) in OtherSlots(cfg, t);
    }
  }

  lemma ScanStepFrame(s: Queue, t: Tid, c: Choice, todo: set<(Tid, bool)>, found: set<Addr>, d: Word)
    requires s.sh.kind.Keys == s.m.heap.Keys && PcOf(s, t) == Scan(todo, found, d)
    ensures Frame(s, ScanStep(s, t, c, todo, found, d), t)
  {
  }

  /** The steps of a scan and of a sweep that keep every node. */
  lemma CollectKeeps(cfg: Config, s: Queue, t: Tid, pc: Pc)
    requires Inv(cfg, s) && t in cfg.procs && (PcOf(s, t).Scan? || PcOf(s, t).Sweep?)
    requires pc.Scan? || (pc.Sweep? && pc.k <= |Rlist(s.h, t)|) || pc.Ret?
    requires Frame(s, Goto(s, t, pc), t)
    ensures Good(cfg, s, Goto(s, t, pc), t)
  {
    var s' := Goto(s, t, pc);
    assert ThreadInv(s, t);
    AwaitsKept(s, s', t);
    OwnNodesKept(s, s', t);
    KindKept(s, s');
    KeepsInv(cfg, s, s', t);
  }

  /** A scan reads one slot, or starts to sweep. */
  lemma ScanKeeps(cfg: Config, s: Queue, t: Tid, c: Choice, todo: set<(Tid, bool)>, found: set<Addr>, d: Word)
    requires Inv(cfg, s) && t in cfg.procs && PcOf(s, t) == Scan(todo, found, d)
    ensures Good(cfg, s, ScanStep(s, t, c, todo, found, d), t)
  {
    var s' := ScanStep(s, t, c, todo, found, d);
    ScanStepFrame(s, t, c, todo, found, d);
    if s' != s { CollectKeeps(cfg, s, t, PcOf(s', t)); }
  }

  lemma SweepOnFrame(s: Queue, t: Tid, k: nat, found: set<Addr>, d: Word, pc: Pc)
    requires s.sh.kind.Keys == s.m.heap.Keys && PcOf(s, t) == Sweep(k, found, d)
    requires pc == Ret(Dequeued(d)) || pc == Sweep(k + 1, found, d)
    ensures Frame(s, Goto(s, t, pc), t)
  {
  }

  /** A retired node is kept. */
  lemma SweepOnKeeps(cfg: Config, s: Queue, t: Tid, k: nat, found: set<Addr>, d: Word, pc: Pc)
    requires Inv(cfg, s) && t in cfg.procs && PcOf(s, t) == Sweep(k, found, d)
    requires pc == Ret(Dequeued(d)) || (k < |Rlist(s.h, t)| && pc == Sweep(k + 1, found, d))
    ensures Good(cfg, s, Goto(s, t, pc), t)
  {
    SweepOnFrame(s, t, k, found, d, pc);
    CollectKeeps(cfg, s, t, pc);
  }

  /** The node at place k of the retire list, freed. */
  lemma FreeKind(s: Queue, t: Tid, k: nat, found: set<Addr>, d: Word)
    requires KindInv(s) && ChainInv(s.m, s.sh) && RetireInv(s, t) && PcOf(s, t) == Sweep(k, found, d)
    requires k < |Rlist(s.h, t)| && Rlist(s.h, t)[k] !in found
    ensures Rlist(s.h, t)[k] in s.m.heap && s.sh.kind[Rlist(s.h, t)[k]] == Unlinked(t)
    ensures var s' := SweepStep(s, t, k, found, d); KindInv(s') && ChainInv(s'.m, s'.sh)
  {
    var r := Rlist(s.h, t);
    var a := r[k];
    assert Awaits(s, t, a);
    var s' := SweepStep(s, t, k, found, d);
    FreeAwaits(s, t, k, found, d);
    OwnNodesKept(s, s', t);
    assert a !in s.sh.chain;
  }

  lemma FreeAwaits(s: Queue, t: Tid, k: nat, found: set<Addr>, d: Word)
    requires RetireInv(s, t) && PcOf(s, t) == Sweep(k, found, d)
    requires k < |Rlist(s.h, t)| && Rlist(s.h, t)[k] !in found && Rlist(s.h, t)[k] in s.m.heap
    ensures var s' := SweepStep(s, t, k, found, d);
      && Distinct(Rlist(s'.h, t)) && k <= |Rlist(s'.h, t)|
      && forall u, b :: Awaits(s', u, b) <==> Awaits(s, u, b) && !(u == t && b == Rlist(s.h, t)[k])
  {
    var r := Rlist(s.h, t);
    var s' := SweepStep(s, t, k, found, d);
    assert Rlist(s'.h, t) == r[..k] + r[k + 1..];
    assert forall b :: b in r[..k] + r[k + 1..] <==> b in r && b != r[k];
    forall u, b ensures Awaits(s', u, b) <==> Awaits(s, u, b) && !(u == t && b == r[k]) { }
  }

  lemma FreeFrame(s: Queue, t: Tid, k: nat, found: set<Addr>, d: Word)
    requires s.sh.kind.Keys == s.m.heap.Keys && PcOf(s, t) == Sweep(k, found, d)
    requires k < |Rlist(s.h, t)| && Rlist(s.h, t)[k] !in found
    requires Rlist(s.h, t)[k] in s.sh.kind && s.sh.kind[Rlist(s.h, t)[k]] == Unlinked(t)
    ensures Frame(s, SweepStep(s, t, k, found, d), t)
  {
  }

  lemma FreeThread(s: Queue, t: Tid, k: nat, found: set<Addr>, d: Word)
    requires RetireInv(s, t) && PcOf(s, t) == Sweep(k, found, d)
    requires k < |Rlist(s.h, t)| && Rlist(s.h, t)[k] !in found && Rlist(s.h, t)[k] in s.m.heap
    ensures ThreadInv(SweepStep(s, t, k, found, d), t)
  {
    FreeAwaits(s, t, k, found, d);
  }

  /** A retired node that no hazard slot was found to hold is freed. */
  lemma FreeKeeps(cfg: Config, s: Queue, t: Tid, k: nat, found: set<Addr>, d: Word)
    requires Inv(cfg, s) && t in cfg.procs && PcOf(s, t) == Sweep(k, found, d)
    requires k < |Rlist(s.h, t)| && Rlist(s.h, t)[k] !in found
    ensures Rlist(s.h, t)[k] in s.m.heap
    ensures Good(cfg, s, SweepStep(s, t, k, found, d), t)
  {
    assert ThreadInv(s, t);
    FreeKind(s, t, k, found, d);
    FreeFrame(s, t, k, found, d);
    FreeThread(s, t, k, found, d);
    KeepsInv(cfg, s, SweepStep(s, t, k, found, d), t);
  }

  // ----- every step ------------------------------------------------------

  /** hzdptr_setv: once the reload agrees, the hazard was set while the node was
      still linked. */
  lemma ProtectTailKeeps(cfg: Config, s: Queue, t: Tid, d: Word, node: Addr, pc: EnqPc)
    requires Inv(cfg, s) && t in cfg.procs && PcOf(s, t) == Enq(d, node, pc)
    requires pc.LoadTail? || pc.SetHazard? || pc.Reload?
    ensures Good(cfg, s, EnqStep(s, t, d, node, pc), t)
  {
    assert ThreadInv(s, t);
    match pc
    case LoadTail => GotoKeeps(cfg, s, t, Enq(d, node, EnqPc.SetHazard(s.m.tail)));
    case SetHazard(val) => QuietKeeps(cfg, s, t, Enq(d, node, EnqPc.Reload(val)), SetHz0(s.h, t, val));
    case Reload(val) =>
      assert s.m.tail in s.sh.chain;
      GotoKeeps(cfg, s, t, Enq(d, node, if s.m.tail == val then EnqPc.ReadNext(val) else EnqPc.SetHazard(s.m.tail)));
  }

  lemma LinkKeeps(cfg: Config, s: Queue, t: Tid, d: Word, node: Addr, pc: EnqPc)
    requires Inv(cfg, s) && t in cfg.procs && PcOf(s, t) == Enq(d, node, pc) && (pc.Link? || pc.Final?)
    ensures Good(cfg, s, EnqStep(s, t, d, node, pc), t)
  {
    assert ThreadInv(s, t);
    if pc.Final? { SwingKeeps(cfg, s, t, Ret(Enqueued), pc.tail, node); }
    else if s.m.heap[pc.tail].next == 0 { LinkingKeeps(cfg, s, t, d, node, pc.tail); }
    else { GotoKeeps(cfg, s, t, Enq(d, node, LoadTail)); }
  }

  lemma EnqStepKeeps(cfg: Config, s: Queue, t: Tid, d: Word, node: Addr, pc: EnqPc)
    requires Inv(cfg, s) && t in cfg.procs && PcOf(s, t) == Enq(d, node, pc)
    ensures Good(cfg, s, EnqStep(s, t, d, node, pc), t)
  {
    if pc.LoadTail? || pc.SetHazard? || pc.Reload? {
      ProtectTailKeeps(cfg, s, t, d, node, pc);
    } else if pc.Link? || pc.Final? {
      LinkKeeps(cfg, s, t, d, node, pc);
    } else {
      assert ThreadInv(s, t);
      match pc
      case ReadNext(tail) => GotoKeeps(cfg, s, t, Enq(d, node, EnqPc.Check(tail, s.m.heap[tail].next)));
      case Check(tail, next) =>
        GotoKeeps(cfg, s, t, Enq(d, node, if tail != s.m.tail then LoadTail
                                          else if next != 0 then EnqPc.Swing(tail, next) else Link(tail)));
      case Swing(tail, next) => SwingKeeps(cfg, s, t, Enq(d, node, LoadTail), tail, next);
    }
  }

  lemma NextReadKeeps(cfg: Config, s: Queue, t: Tid, pc: DeqPc)
    requires Inv(cfg, s) && t in cfg.procs && PcOf(s, t) == Deq(pc) && (pc.ReadTail? || pc.ReadNext?)
    ensures Good(cfg, s, DeqStep(s, t, pc), t)
  {
    assert ThreadInv(s, t);
    if pc.ReadTail? { GotoKeeps(cfg, s, t, Deq(DeqPc.ReadNext(pc.head, s.m.tail))); }
    else { GotoKeeps(cfg, s, t, Deq(SetNextHazard(pc.head, pc.tail, s.m.heap[pc.head].next))); }
  }

  lemma NextHazardKeeps(cfg: Config, s: Queue, t: Tid, head: Addr, tail: Addr, next: Addr)
    requires Inv(cfg, s) && t in cfg.procs && PcOf(s, t) == Deq(SetNextHazard(head, tail, next))
    ensures Good(cfg, s, DeqStep(s, t, SetNextHazard(head, tail, next)), t)
  {
    assert ThreadInv(s, t);
    QuietKeeps(cfg, s, t, Deq(DeqPc.Check(head, tail, next)), SetHz1(s.h, t, next));
  }

  lemma DeqStepKeeps(cfg: Config, s: Queue, t: Tid, pc: DeqPc)
    requires Inv(cfg, s) && t in cfg.procs && PcOf(s, t) == Deq(pc)
    ensures Good(cfg, s, DeqStep(s, t, pc), t)
  {
    if pc.LoadHead? || pc.SetHazard? || pc.Reload? {
      ProtectHeadKeeps(cfg, s, t, pc);
    } else if pc.ReadTail? || pc.ReadNext? {
      NextReadKeeps(cfg, s, t, pc);
    } else {
      assert ThreadInv(s, t);
      match pc
      case SetNextHazard(head, tail, next) => NextHazardKeeps(cfg, s, t, head, tail, next);
      case Check(head, tail, next) => CheckKeeps(cfg, s, t, head, tail, next);
      case Swing(head, next) => SwingKeeps(cfg, s, t, Deq(LoadHead), head, next);
      case ReadData(head, next) => GotoKeeps(cfg, s, t, Deq(CasHead(head, next, s.m.heap[next].data)));
      case CasHead(head, next, data) => CasHeadKeeps(cfg, s, t, head, next, data);
    }
  }

  lemma CasHeadKeeps(cfg: Config, s: Queue, t: Tid, head: Addr, next: Addr, data: Word)
    requires Inv(cfg, s) && t in cfg.procs && PcOf(s, t) == Deq(CasHead(head, next, data))
    ensures Good(cfg, s, DeqStep(s, t, CasHead(head, next, data)), t)
  {
    if s.m.head == head { UnlinkingKeeps(cfg, s, t, next, data); } else { GotoKeeps(cfg, s, t, Deq(LoadHead)); }
  }

  lemma ProtectHeadKeeps(cfg: Config, s: Queue, t: Tid, pc: DeqPc)
    requires Inv(cfg, s) && t in cfg.procs && PcOf(s, t) == Deq(pc)
    requires pc.LoadHead? || pc.SetHazard? || pc.Reload?
    ensures Good(cfg, s, DeqStep(s, t, pc), t)
  {
    assert ThreadInv(s, t);
    match pc
    case LoadHead => GotoKeeps(cfg, s, t, Deq(DeqPc.SetHazard(s.m.head)));
    case SetHazard(val) => QuietKeeps(cfg, s, t, Deq(DeqPc.Reload(val)), SetHz0(s.h, t, val));
    case Reload(val) =>
      assert s.m.head in s.sh.chain;
      GotoKeeps(cfg, s, t, Deq(if s.m.head == val then ReadTail(val) else DeqPc.SetHazard(s.m.head)));
  }

  /** The head is still the head, so the hazard set on its successor counts. */
  lemma CheckKeeps(cfg: Config, s: Queue, t: Tid, head: Addr, tail: Addr, next: Addr)
    requires Inv(cfg, s) && t in cfg.procs && PcOf(s, t) == Deq(DeqPc.Check(head, tail, next))
    ensures Good(cfg, s, DeqStep(s, t, DeqPc.Check(head, tail, next)), t)
  {
    assert ThreadInv(s, t);
    if head == s.m.head && next != 0 { assert |s.sh.chain| >= 2 && s.sh.chain[1] == next; }
    GotoKeeps(cfg, s, t, if head != s.m.head then Deq(LoadHead)
                         else if next == 0 then Ret(WasEmpty)
                         else if head == tail then Deq(DeqPc.Swing(head, next)) else Deq(ReadData(head, next)));
  }

  lemma SweepStepKeeps(cfg: Config, s: Queue, t: Tid, k: nat, found: set<Addr>, d: Word)
    requires Inv(cfg, s) && t in cfg.procs && PcOf(s, t) == Sweep(k, found, d)
    ensures Good(cfg, s, SweepStep(s, t, k, found, d), t)
  {
    var r := Rlist(s.h, t);
    if k >= |r| { SweepOnKeeps(cfg, s, t, k, found, d, Ret(Dequeued(d))); }
    else if r[k] in found { SweepOnKeeps(cfg, s, t, k, found, d, Sweep(k + 1, found, d)); }
    else { FreeKeeps(cfg, s, t, k, found, d); }
  }

  lemma StartKeeps(cfg: Config, s: Queue, t: Tid, c: Choice)
    requires Inv(cfg, s) && t in cfg.procs && (PcOf(s, t).Idle? || PcOf(s, t).Ret? || PcOf(s, t).Fault?)
    ensures Good(cfg, s, Step(cfg, s, t, c), t)
  {
    assert ThreadInv(s, t);
    if c.Start? { GotoKeeps(cfg, s, t, if c.op.OpEnqueue? then Malloc(c.op.d) else Deq(LoadHead)); }
  }

  lemma MallocAccess(cfg: Config, s: Queue, t: Tid, c: Choice)
    requires Inv(cfg, s) && t in cfg.procs && PcOf(s, t).Malloc?
    ensures Good(cfg, s, Step(cfg, s, t, c), t)
  {
    assert ThreadInv(s, t);
    if c.Address? && c.a != 0 && c.a !in s.m.heap { MallocKeeps(cfg, s, t, c.a, PcOf(s, t).d); }
  }

  lemma EnqAccess(cfg: Config, s: Queue, t: Tid, c: Choice)
    requires Inv(cfg, s) && t in cfg.procs && PcOf(s, t).Enq?
    ensures Good(cfg, s, Step(cfg, s, t, c), t)
  {
    EnqStepKeeps(cfg, s, t, PcOf(s, t).d, PcOf(s, t).node, PcOf(s, t).enq);
  }

  lemma DeqAccess(cfg: Config, s: Queue, t: Tid, c: Choice)
    requires Inv(cfg, s) && t in cfg.procs && PcOf(s, t).Deq?
    ensures Good(cfg, s, Step(cfg, s, t, c), t)
  {
    DeqStepKeeps(cfg, s, t, PcOf(s, t).deq);
  }

  lemma RetireAccess(cfg: Config, s: Queue, t: Tid, c: Choice)
    requires Inv(cfg, s) && t in cfg.procs && PcOf(s, t).Retire?
    ensures Good(cfg, s, Step(cfg, s, t, c), t)
  {
    RetireKeeps(cfg, s, t, PcOf(s, t).node, PcOf(s, t).d);
  }

  lemma ScanAccess(cfg: Config, s: Queue, t: Tid, c: Choice)
    requires Inv(cfg, s) && t in cfg.procs && PcOf(s, t).Scan?
    ensures Good(cfg, s, Step(cfg, s, t, c), t)
  {
    ScanKeeps(cfg, s, t, c, PcOf(s, t).todo, PcOf(s, t).found, PcOf(s, t).d);
  }

  lemma SweepAccess(cfg: Config, s: Queue, t: Tid, c: Choice)
    requires Inv(cfg, s) && t in cfg.procs && PcOf(s, t).Sweep?
    ensures Good(cfg, s, Step(cfg, s, t, c), t)
  {
    SweepStepKeeps(cfg, s, t, PcOf(s, t).k, PcOf(s, t).found, PcOf(s, t).d);
  }

  lemma AccessKeeps(cfg: Config, s: Queue, t: Tid, c: Choice)
    requires Inv(cfg, s) && t in cfg.procs
    ensures Good(cfg, s, Step(cfg, s, t, c), t)
  {
    var pc := PcOf(s, t);
    if pc.Malloc? { MallocAccess(cfg, s, t, c); }
    else if pc.Enq? { EnqAccess(cfg, s, t, c); }
    else if pc.Deq? { DeqAccess(cfg, s, t, c); }
    else if pc.Retire? { RetireAccess(cfg, s, t, c); }
    else if pc.Scan? { ScanAccess(cfg, s, t, c); }
    else if pc.Sweep? { SweepAccess(cfg, s, t, c); }
    else { StartKeeps(cfg, s, t, c); }
  }

  /** Every step of every thread keeps the invariant. */
  lemma StepKeepsInv(cfg: Config, s: Queue, t: Tid, c: Choice)
    requires Inv(cfg, s)
    ensures Inv(cfg, Step(cfg, s, t, c)) && forall u :: u != t ==> PcOf(Step(cfg, s, t, c), u) == PcOf(s, u)
  {
    if t in cfg.procs { AccessKeeps(cfg, s, t, c); }
  }
}
