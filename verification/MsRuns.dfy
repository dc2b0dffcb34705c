/**
 * What every run of the Michael-Scott queue keeps: no node is used after it was
 * freed, and the content is that of a first-in first-out queue.
 */
module MsRuns {
  import Fifo
  import opened MsQueue
  import opened MsSteps
  import opened Options

  ghost function Exec(cfg: Config, s: Queue, schedule: seq<(Tid, Choice)>): Queue
    decreases |schedule|
  {
    if schedule == [] then s else Exec(cfg, Step(cfg, s, schedule[0].0, schedule[0].1), schedule[1..])
  }

  lemma {:induction false} RunKeepsInv(cfg: Config, s: Queue, schedule: seq<(Tid, Choice)>)
    requires Inv(cfg, s)
    ensures Inv(cfg, Exec(cfg, s, schedule))
    decreases |schedule|
  {
    if schedule != [] {
      StepKeepsInv(cfg, s, schedule[0].0, schedule[0].1);
      RunKeepsInv(cfg, Step(cfg, s, schedule[0].0, schedule[0].1), schedule[1..]);
    }
  }

  // ----- safe reclamation ------------------------------------------------

  /** The addresses a thread reads, writes or compares through: the nodes it has
      validated, and its own new node. */
  ghost predicate Follows(pc: Pc, a: Addr) { Guard0(pc) == Some(a) || Guard1(pc) == Some(a) || OwnNode(pc) == Some(a) }

  /** The address that the next access of a thread goes through, if any. */
  function Accessed(pc: Pc): Option<Addr> {
    match pc
    case Enq(_, _, ReadNext(tail)) => Some(tail)
    case Enq(_, _, Link(tail)) => Some(tail)
    case Deq(ReadNext(head, _)) => Some(head)
    case Deq(ReadData(_, next)) => Some(next)
    case _ => None
  }

  lemma FollowedIsAllocated(cfg: Config, s: Queue, u: Tid, a: Addr)
    requires Inv(cfg, s) && Follows(PcOf(s, u), a)
    ensures a in s.sh.kind && a in s.m.heap && !(exists t :: Reclaimable(PcOf(s, t), s.sh.kind[a], t, a))
  {
    assert ThreadInv(s, u);
    forall t ensures !Reclaimable(PcOf(s, t), s.sh.kind[a], t, a) { }
  }

  /** No step frees a node that some thread follows, nor changes its word. */
  lemma FollowedIsNotFreed(cfg: Config, s: Queue, t: Tid, c: Choice, u: Tid, a: Addr)
    requires Inv(cfg, s) && Follows(PcOf(s, u), a)
    ensures a in s.m.heap && a in Step(cfg, s, t, c).m.heap && Step(cfg, s, t, c).m.heap[a].data == s.m.heap[a].data
  {
    FollowedIsAllocated(cfg, s, u, a);
    if t in cfg.procs { AccessKeeps(cfg, s, t, c); }
  }

  lemma EnqBeginsWhileLinked(s: Queue, t: Tid, d: Word, node: Addr, pc: EnqPc, a: Addr)
    requires PcOf(s, t) == Enq(d, node, pc) && !Follows(PcOf(s, t), a) && Follows(PcOf(EnqStep(s, t, d, node, pc), t), a)
    ensures EnqStep(s, t, d, node, pc).sh == s.sh && a == s.m.tail
  {
  }

  lemma DeqBeginsWhileLinked(s: Queue, t: Tid, pc: DeqPc, a: Addr)
    requires PcOf(s, t) == Deq(pc) && !Follows(PcOf(s, t), a) && Follows(PcOf(DeqStep(s, t, pc), t), a)
    ensures DeqStep(s, t, pc).sh == s.sh
    ensures a == s.m.head || (pc.Check? && pc.head == s.m.head && pc.next == a != 0)
  {
  }

  /** A thread begins to follow a node while that node is linked, or its own: it is
      the tail, the head, or the head's successor. */
  lemma ValidatedWhileLinked(cfg: Config, s: Queue, t: Tid, c: Choice, a: Addr)
    requires Inv(cfg, s) && !Follows(PcOf(s, t), a) && Follows(PcOf(Step(cfg, s, t, c), t), a)
    ensures var s' := Step(cfg, s, t, c); a in s'.sh.kind && (s'.sh.kind[a] == Linked || s'.sh.kind[a] == Private(t))
  {
    assert ThreadInv(s, t);
    var pc := PcOf(s, t);
    if pc.Enq? {
      EnqBeginsWhileLinked(s, t, pc.d, pc.node, pc.enq, a);
      assert s.m.tail in s.sh.chain;
    } else if pc.Deq? {
      DeqBeginsWhileLinked(s, t, pc.deq, a);
      assert s.m.head in s.sh.chain;
      if pc.deq.Check? && a != s.m.head { FirstIsLast(s.m, s.sh); assert s.sh.chain[1] == a; }
    }
  }

  /** u follows a from the start of the run to its end. */
  ghost predicate FollowsThroughout(cfg: Config, s: Queue, schedule: seq<(Tid, Choice)>, u: Tid, a: Addr)
    decreases |schedule|
  {
    Follows(PcOf(s, u), a)
    && (schedule != [] ==> FollowsThroughout(cfg, Step(cfg, s, schedule[0].0, schedule[0].1), schedule[1..], u, a))
  }

  /** So from the moment a thread has validated a node until it lets go of it, in
      any run, the node is never freed, hence not allocated again either: what is
      found at the address is the node that was validated. */
  lemma {:induction false} FollowedStays(cfg: Config, s: Queue, schedule: seq<(Tid, Choice)>, u: Tid, a: Addr, k: nat)
    requires Inv(cfg, s) && FollowsThroughout(cfg, s, schedule, u, a) && k <= |schedule|
    ensures a in s.m.heap && a in Exec(cfg, s, schedule[..k]).m.heap
    ensures Exec(cfg, s, schedule[..k]).m.heap[a].data == s.m.heap[a].data
    decreases |schedule|
  {
    FollowedIsAllocated(cfg, s, u, a);
    if k > 0 {
      var (t, c) := schedule[0];
      FollowedIsNotFreed(cfg, s, t, c, u, a);
      StepKeepsInv(cfg, s, t, c);
      FollowedStays(cfg, Step(cfg, s, t, c), schedule[1..], u, a, k - 1);
      ExecFirst(cfg, s, schedule, k - 1);
    }
  }

  /** Safe reclamation from queue_init on, although freed addresses are allocated
      again: no step goes through the address of an unallocated node, and no step
      of any thread frees a node that a thread follows. */
  lemma NoUseAfterFree(cfg: Config, dummy: Addr, schedule: seq<(Tid, Choice)>, t: Tid, u: Tid, c: Choice)
    requires dummy != 0
    ensures var s := Exec(cfg, Init(dummy), schedule);
      && PcOf(s, t) != Fault
      && (forall a :: Accessed(PcOf(s, t)) == Some(a) ==> Follows(PcOf(s, t), a))
      && (forall a :: Follows(PcOf(s, t), a) ==> a in s.m.heap && a in Step(cfg, s, u, c).m.heap)
  {
    InitInv(cfg, dummy);
    RunKeepsInv(cfg, Init(dummy), schedule);
    var s := Exec(cfg, Init(dummy), schedule);
    assert ThreadInv(s, t);
    forall a | Follows(PcOf(s, t), a) ensures a in s.m.heap && a in Step(cfg, s, u, c).m.heap {
      FollowedIsNotFreed(cfg, s, u, c, t, a);
    }
  }

  // ----- first in, first out ---------------------------------------------

  /** The tail lags the last linked node by at most one, and the head has not
      passed the tail: the tail is one of the linked nodes. */
  lemma TailIsLinked(cfg: Config, s: Queue)
    requires Inv(cfg, s)
    ensures s.m.tail in s.sh.chain && s.m.head == s.sh.chain[0]
    ensures s.m.heap[s.m.tail].next == 0 || s.m.heap[s.m.heap[s.m.tail].next].next == 0
  {
  }

  /** What one step does to the queue's content: the link CAS appends, the head
      CAS removes the front and holds its value, and nothing else changes it. */
  ghost predicate ContentsStep(s: Queue, s': Queue, t: Tid) {
    var pc, pc' := PcOf(s, t), PcOf(s', t);
    if pc.Enq? && pc.enq.Link? && pc'.Enq? && pc'.enq.Final? then Contents(s') == Contents(s) + [pc.d]
    else if pc'.Retire? && !pc.Retire? then Contents(s) == [pc'.d] + Contents(s')
    else Contents(s') == Contents(s)
  }

  lemma SameNodesSameContents(s: Queue, s': Queue)
    requires s'.sh.chain == s.sh.chain
    requires forall i :: 0 < i < |s.sh.chain| ==> s.sh.chain[i] in s.m.heap && s.sh.chain[i] in s'.m.heap
    requires forall i :: 0 < i < |s.sh.chain| ==> s'.m.heap[s.sh.chain[i]].data == s.m.heap[s.sh.chain[i]].data
    ensures Contents(s') == Contents(s)
  {
  }

  lemma EnqStepRefines(cfg: Config, s: Queue, t: Tid, d: Word, node: Addr, pc: EnqPc)
    requires Inv(cfg, s) && PcOf(s, t) == Enq(d, node, pc)
    ensures ContentsStep(s, EnqStep(s, t, d, node, pc), t)
  {
    assert ThreadInv(s, t);
    if pc.Link? && s.m.heap[pc.tail].next == 0 { LinkingContents(cfg, s, t, d, node, pc.tail); }
    else { SameNodesSameContents(s, EnqStep(s, t, d, node, pc)); }
  }

  lemma DeqStepRefines(cfg: Config, s: Queue, t: Tid, pc: DeqPc)
    requires Inv(cfg, s) && PcOf(s, t) == Deq(pc)
    ensures ContentsStep(s, DeqStep(s, t, pc), t)
  {
    assert ThreadInv(s, t);
    if pc.CasHead? && s.m.head == pc.head { UnlinkingContents(cfg, s, t, pc.next, pc.data); }
    else { SameNodesSameContents(s, DeqStep(s, t, pc)); }
  }

  lemma FreeRefines(cfg: Config, s: Queue, t: Tid, k: nat, found: set<Addr>, d: Word)
    requires Inv(cfg, s) && PcOf(s, t) == Sweep(k, found, d)
    ensures ContentsStep(s, SweepStep(s, t, k, found, d), t)
  {
    assert ThreadInv(s, t);
    if k < |Rlist(s.h, t)| { assert Awaits(s, t, Rlist(s.h, t)[k]); }
    SameNodesSameContents(s, SweepStep(s, t, k, found, d));
  }

  /** Refinement: every step of every thread is an append of an enqueued word,
      a removal of the front word, or no change of a first-in first-out queue. */
  lemma StepRefinesFifo(cfg: Config, s: Queue, t: Tid, c: Choice)
    requires Inv(cfg, s)
    ensures ContentsStep(s, Step(cfg, s, t, c), t)
  {
    if t in cfg.procs {
      var pc := PcOf(s, t);
      if pc.Enq? { EnqStepRefines(cfg, s, t, pc.d, pc.node, pc.enq); }
      else if pc.Deq? { DeqStepRefines(cfg, s, t, pc.deq); }
      else if pc.Sweep? { FreeRefines(cfg, s, t, pc.k, pc.found, pc.d); }
      else { OtherStepRefines(cfg, s, t, c); }
    }
  }

  /** The word a step of t appends, if any. */
  ghost function Appended(s: Queue, s': Queue, t: Tid): seq<Word> {
    var pc, pc' := PcOf(s, t), PcOf(s', t);
    if pc.Enq? && pc.enq.Link? && pc'.Enq? && pc'.enq.Final? then [pc.d] else []
  }

  ghost function Removed(s: Queue, s': Queue, t: Tid): seq<Word> {
    if PcOf(s', t).Retire? && !PcOf(s, t).Retire? then [PcOf(s', t).d] else []
  }

  lemma ContentsStepBalances(s: Queue, s': Queue, t: Tid)
    requires ContentsStep(s, s', t)
    ensures Contents(s) + Appended(s, s', t) == Removed(s, s', t) + Contents(s')
  {
  }

  ghost function AllAppended(cfg: Config, s: Queue, schedule: seq<(Tid, Choice)>): seq<Word>
    decreases |schedule|
  {
    if schedule == [] then []
    else
      var s' := Step(cfg, s, schedule[0].0, schedule[0].1);
      Appended(s, s', schedule[0].0) + AllAppended(cfg, s', schedule[1..])
  }

  ghost function AllRemoved(cfg: Config, s: Queue, schedule: seq<(Tid, Choice)>): seq<Word>
    decreases |schedule|
  {
    if schedule == [] then []
    else
      var s' := Step(cfg, s, schedule[0].0, schedule[0].1);
      Removed(s, s', schedule[0].0) + AllRemoved(cfg, s', schedule[1..])
  }

  /** Over any run of any threads: what was in the queue, followed by all that
      was appended, is all that was removed, followed by what is left.  No word
      is lost, doubled or overtaken. */
  lemma {:induction false} RunIsFifo(cfg: Config, s: Queue, schedule: seq<(Tid, Choice)>)
    requires Inv(cfg, s)
    ensures Contents(s) + AllAppended(cfg, s, schedule)
            == AllRemoved(cfg, s, schedule) + Contents(Exec(cfg, s, schedule))
    decreases |schedule|
  {
    if schedule != [] {
      var (t, c) := schedule[0];
      var s' := Step(cfg, s, t, c);
      StepKeepsInv(cfg, s, t, c);
      StepRefinesFifo(cfg, s, t, c);
      RunIsFifo(cfg, s', schedule[1..]);
      ContentsStepBalances(s, s', t);
      Fifo.Balance(Contents(s), Contents(s'), Contents(Exec(cfg, s', schedule[1..])), Appended(s, s', t), Removed(s, s', t),
              AllAppended(cfg, s', schedule[1..]), AllRemoved(cfg, s', schedule[1..]));
    }
  }

  lemma OtherStepRefines(cfg: Config, s: Queue, t: Tid, c: Choice)
    requires Inv(cfg, s) && t in cfg.procs && !PcOf(s, t).Enq? && !PcOf(s, t).Deq? && !PcOf(s, t).Sweep?
    ensures ContentsStep(s, Step(cfg, s, t, c), t)
  {
    var s' := Step(cfg, s, t, c);
    assert s'.sh.chain == s.sh.chain && (PcOf(s', t).Retire? ==> PcOf(s, t).Retire?);
    SameNodesSameContents(s, s');
  }

  /** The value a dequeue returns is the one its head CAS removed. */
  lemma DequeueReturnsRemovedValue(cfg: Config, s: Queue, t: Tid, c: Choice)
    requires Inv(cfg, s) && t in cfg.procs
    requires PcOf(s, t).Retire? || PcOf(s, t).Scan? || PcOf(s, t).Sweep?
    ensures var pc' := PcOf(Step(cfg, s, t, c), t);
      pc' == Ret(Dequeued(PcOf(s, t).d)) || ((pc'.Scan? || pc'.Sweep?) && pc'.d == PcOf(s, t).d)
  {
    assert ThreadInv(s, t);
    if PcOf(s, t).Sweep? && PcOf(s, t).k < |Rlist(s.h, t)| { assert Awaits(s, t, Rlist(s.h, t)[PcOf(s, t).k]); }
  }

  /** t has read NULL from its head's next field and not started over. */
  ghost predicate SawNull(pc: Pc) {
    || pc == Ret(WasEmpty)
    || (pc.Deq? && (pc.deq.SetNextHazard? || pc.deq.Check?) && pc.deq.next == 0)
  }

  /** An empty answer in any run has a moment, within the call, at which the
      queue was empty. */
  lemma {:induction false} EmptyAnswerHasWitness(cfg: Config, s: Queue, schedule: seq<(Tid, Choice)>, t: Tid)
    requires Inv(cfg, s) && !SawNull(PcOf(s, t)) && SawNull(PcOf(Exec(cfg, s, schedule), t))
    ensures exists k :: 0 <= k < |schedule| && EmptyWhileDequeuing(Exec(cfg, s, schedule[..k]), t)
    decreases |schedule|
  {
    var s1 := Step(cfg, s, schedule[0].0, schedule[0].1);
    StepKeepsInv(cfg, s, schedule[0].0, schedule[0].1);
    if SawNull(PcOf(s1, t)) {
      NullReadWhenEmpty(cfg, s, t, schedule[0].1);
      assert Exec(cfg, s, schedule[..0]) == s;
    } else {
      EmptyAnswerHasWitness(cfg, s1, schedule[1..], t);
      var k :| 0 <= k < |schedule| - 1 && EmptyWhileDequeuing(Exec(cfg, s1, schedule[1..][..k]), t);
      ExecFirst(cfg, s, schedule, k);
      assert EmptyWhileDequeuing(Exec(cfg, s, schedule[..k + 1]), t);
    }
  }

  lemma ExecFirst(cfg: Config, s: Queue, schedule: seq<(Tid, Choice)>, k: nat)
    requires k < |schedule|
    ensures Exec(cfg, s, schedule[..k + 1]) == Exec(cfg, Step(cfg, s, schedule[0].0, schedule[0].1), schedule[1..][..k])
  {
    assert schedule[..k + 1][1..] == schedule[1..][..k];
  }

  ghost predicate EmptyWhileDequeuing(s: Queue, t: Tid) {
    Contents(s) == [] && PcOf(s, t).Deq? && PcOf(s, t).deq.ReadNext?
  }

  lemma NullReadWhenEmpty(cfg: Config, s: Queue, t: Tid, c: Choice)
    requires Inv(cfg, s) && !SawNull(PcOf(s, t)) && SawNull(PcOf(Step(cfg, s, t, c), t))
    ensures EmptyWhileDequeuing(s, t)
  {
    assert ThreadInv(s, t);
    var pc := PcOf(s, t);
    if pc.Deq? {
      assert PcOf(DeqStep(s, t, pc.deq), t) == PcOf(Step(cfg, s, t, c), t);
      NullNextMeansEmpty(cfg, s, t, pc.deq);
    }
  }

  lemma NullNextMeansEmpty(cfg: Config, s: Queue, t: Tid, pc: DeqPc)
    requires Inv(cfg, s) && PcOf(s, t) == Deq(pc) && !SawNull(PcOf(s, t)) && SawNull(PcOf(DeqStep(s, t, pc), t))
    ensures EmptyWhileDequeuing(s, t)
  {
    assert ThreadInv(s, t);
    assert pc.ReadNext?;
    assert s.m.heap[pc.head].next == 0;
    assert s.sh.kind[pc.head] == Linked;
    FirstIsLast(s.m, s.sh);
  }

  lemma FirstIsLast(m: Memory, sh: Shadow)
    requires ChainInv(m, sh)
    ensures m.heap[sh.chain[0]].next == 0 <==> |sh.chain| == 1
  {
    assert |sh.chain| >= 2 ==> m.heap[sh.chain[0]].next == sh.chain[1];
  }
}
