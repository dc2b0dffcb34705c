/**
 * Every step of every thread keeps the invariant of the combining lock.
 */
module CcSynchSteps {
  import opened CcSynch
  import opened Options

  /** Another thread, whose node keeps its content. */
  ghost predicate Undisturbed(s: Lock, s': Lock, u: Tid) {
    && PcOf(s', u) == PcOf(s, u)
    && (u in s.m.handle ==> u in s'.m.handle && s'.m.handle[u] == s.m.handle[u]
                            && NodeAt(s'.m, s.m.handle[u]) == NodeAt(s.m, s.m.handle[u]))
  }

  /** The history only grows. */
  ghost predicate Extends(s: Lock, s': Lock) {
    && HistoryInv(s) && HistoryInv(s')
    && s.h.chain <= s'.h.chain && s.h.owner <= s'.h.owner && s.h.requests <= s'.h.requests && s.h.applied <= s'.h.applied
  }

  /** What u relies on of the others' progress. */
  ghost predicate Consistent(s: Lock, s': Lock, u: Tid) {
    match PcOf(s, u)
    case Wait(_, i, _, pc) => StatusOf(s', i) == StatusOf(s, i) && (i < |s'.h.applied| ==> pc.Spin?)
    case Combine(_, _, _) =>
      HistoryInv(s) && HistoryInv(s') && |s'.h.applied| == |s.h.applied| && s'.h.baton == s.h.baton
      && forall j :: IsSpinning(s, j) && StatusOf(s, j).WAIT? ==> IsSpinning(s', j)
    case _ => true
  }

  lemma OtherKeeps(s: Lock, s': Lock, u: Tid)
    requires Extends(s, s') && Undisturbed(s, s', u) && Consistent(s, s', u) && ThreadInv(s, u)
    ensures ThreadInv(s', u)
  {
  }

  /** What a step of t has to leave in place, besides t's own invariant. */
  ghost predicate Rest(s: Lock, s': Lock, t: Tid) {
    && HandlesInv(s'.m) && Extends(s, s')
    && NodeAt(s'.m, s'.m.tail).next == 0 && NodeAt(s'.m, s'.m.tail).status == StatusOf(s', |s'.h.owner|)
    && (forall j :: |s'.h.applied| <= j < |s'.h.owner| ==> InLine(s', j))
    && (s'.h.baton.Some? ==> PcOf(s', s'.h.baton.value).Combine?)
  }

  lemma KeepsInv(s: Lock, s': Lock, t: Tid)
    requires Inv(s) && Rest(s, s', t) && ThreadInv(s', t)
    requires forall u :: u != t ==> Undisturbed(s, s', u) && Consistent(s, s', u)
    ensures Inv(s')
  {
    forall u ensures ThreadInv(s', u) {
      assert ThreadInv(s, u);
      if u != t { OtherKeeps(s, s', u); }
    }
  }

  /** A step that changes t's counter and the content of t's node only. */
  function OwnStep(s: Lock, t: Tid, pc: Pc, n: Node): Lock
    requires t in s.m.handle
  {
    Next(s, t, pc, SetNode(s.m, s.m.handle[t], n), s.h)
  }

  /** It neither applies a request nor passes the baton, and t stays in line. */
  ghost predicate StaysInLine(s: Lock, t: Tid, pc: Pc) {
    && !PcOf(s, t).Combine? && !pc.Combine?
    && (PcOf(s, t).Wait? && PcOf(s, t).i >= |s.h.applied| ==> pc.Wait? && pc.i == PcOf(s, t).i)
    && (PcOf(s, t).Wait? && PcOf(s, t).wait.Spin? && StatusOf(s, PcOf(s, t).i).WAIT? ==> pc == PcOf(s, t))
  }

  lemma OwnStepStatus(s: Lock, t: Tid, pc: Pc, n: Node, i: nat)
    requires t in s.m.handle && StaysInLine(s, t, pc) && (s.h.baton.Some? ==> PcOf(s, s.h.baton.value).Combine?)
    ensures StatusOf(OwnStep(s, t, pc, n), i) == StatusOf(s, i)
  {
  }

  lemma OwnStepOthers(s: Lock, t: Tid, pc: Pc, n: Node, u: Tid)
    requires HandlesInv(s.m) && HistoryInv(s) && t in s.m.handle && u != t
    requires (s.h.baton.Some? ==> PcOf(s, s.h.baton.value).Combine?) && ThreadInv(s, u) && StaysInLine(s, t, pc)
    ensures Undisturbed(s, OwnStep(s, t, pc, n), u) && Consistent(s, OwnStep(s, t, pc, n), u)
  {
    if PcOf(s, u).Wait? { OwnStepStatus(s, t, pc, n, PcOf(s, u).i); }
  }

  lemma OwnStepRest(s: Lock, t: Tid, pc: Pc, n: Node)
    requires Inv(s) && t in s.m.handle && StaysInLine(s, t, pc)
    ensures Rest(s, OwnStep(s, t, pc, n), t)
  {
    OwnStepStatus(s, t, pc, n, |s.h.owner|);
    forall j | |s.h.applied| <= j < |s.h.owner| ensures InLine(OwnStep(s, t, pc, n), j) { assert InLine(s, j); }
  }

  lemma OwnStepKeeps(s: Lock, t: Tid, pc: Pc, n: Node)
    requires Inv(s) && t in s.m.handle && StaysInLine(s, t, pc)
    requires ThreadInv(OwnStep(s, t, pc, n), t)
    ensures Inv(OwnStep(s, t, pc, n))
  {
    var s' := OwnStep(s, t, pc, n);
    forall u | u != t ensures Undisturbed(s, s', u) && Consistent(s, s', u) {
      assert ThreadInv(s, u);
      OwnStepOthers(s, t, pc, n, u);
    }
    OwnStepRest(s, t, pc, n);
    KeepsInv(s, s', t);
  }

  /** Steps before the swap, and the stores of a waiting thread. */
  lemma StoreKeeps(s: Lock, t: Tid, pc: Pc, n: Node)
    requires Inv(s) && t in s.m.handle
    requires match PcOf(s, t)
      case ResetNext(d) => pc == ResetStatus(d) && n == Node(0, NodeAt(s.m, s.m.handle[t]).data, NodeAt(s.m, s.m.handle[t]).status)
      case ResetStatus(d) => pc == Swap(d) && n == Node(0, NodeAt(s.m, s.m.handle[t]).data, WAIT)
      case Wait(d, i, next, SetData) => pc == Wait(d, i, next, SetNext) && n == Node(0, d, NodeAt(s.m, s.m.handle[t]).status)
      case Wait(d, i, next, SetNext) => pc == Wait(d, i, next, Spin) && n == Node(next, d, NodeAt(s.m, s.m.handle[t]).status)
      case _ => false
    ensures Inv(Next(s, t, pc, SetNode(s.m, s.m.handle[t], n), s.h))
  {
    assert ThreadInv(s, t);
    OwnStepKeeps(s, t, pc, n);
  }

  /** A step that changes only t's counter. */
  lemma GotoKeeps(s: Lock, t: Tid, pc: Pc)
    requires Inv(s) && t in s.m.handle && StaysInLine(s, t, pc) && ThreadInv(Goto(s, t, pc), t)
    ensures Inv(Goto(s, t, pc))
  {
    var n := NodeAt(s.m, s.m.handle[t]);
    assert s.m.nodes[s.m.handle[t] := n] == s.m.nodes;
    OwnStepKeeps(s, t, pc, n);
  }

  lemma SwapKeeps(s: Lock, t: Tid, d: Request)
    requires Inv(s) && t in s.m.handle && PcOf(s, t) == Swap(d)
    ensures Inv(SwapStep(s, t, d))
  {
    var s' := SwapStep(s, t, d);
    assert ThreadInv(s, t);
    forall u | u != t ensures Undisturbed(s, s', u) && Consistent(s, s', u) { assert ThreadInv(s, u); }
    forall j | |s.h.applied| <= j < |s'.h.owner| ensures InLine(s', j) {
      if j < |s.h.owner| { assert InLine(s, j); }
    }
    KeepsInv(s, s', t);
  }

  /** A thread that reads READY is the next one in line, and nobody else
      combines. */
  lemma TakeBatonKeeps(s: Lock, t: Tid, d: Request, i: nat, next: Addr, pc: WaitPc)
    requires Inv(s) && t in s.m.handle && PcOf(s, t) == Wait(d, i, next, pc) && (pc.First? || pc.Spin?)
    requires NodeAt(s.m, s.m.handle[t]).status == READY
    ensures Inv(Look(s, t, d, i, next, READY, pc))
  {
    var s' := Look(s, t, d, i, next, READY, pc);
    assert ThreadInv(s, t);
    assert i == |s.h.applied| && s.h.baton == None;
    forall u | u != t ensures Undisturbed(s, s', u) && Consistent(s, s', u) { assert ThreadInv(s, u); }
    forall j | |s.h.applied| <= j < |s.h.owner| ensures InLine(s', j) { assert InLine(s, j); }
    KeepsInv(s, s', t);
  }

  lemma WaitStepKeeps(s: Lock, t: Tid, d: Request, i: nat, next: Addr, pc: WaitPc)
    requires Inv(s) && t in s.m.handle && PcOf(s, t) == Wait(d, i, next, pc)
    ensures Inv(WaitStep(s, t, d, i, next, pc))
  {
    assert ThreadInv(s, t);
    var n := NodeAt(s.m, s.m.handle[t]);
    match pc
    case SetData => StoreKeeps(s, t, Wait(d, i, next, SetNext), Node(n.next, d, n.status));
    case SetNext => StoreKeeps(s, t, Wait(d, i, next, Spin), Node(next, n.data, n.status));
    case _ =>
      match n.status
      case WAIT => GotoKeeps(s, t, Wait(d, i, next, if pc.First? then SetData else Spin));
      case DONE => GotoKeeps(s, t, Ret(i, d));
      case READY => TakeBatonKeeps(s, t, d, i, next, pc);
  }

  // ----- the combiner ----------------------------------------------------

  /** While t combines, nobody else does. */
  lemma OnlyCombiner(s: Lock, t: Tid, u: Tid)
    requires Inv(s) && PcOf(s, t).Combine? && PcOf(s, u).Combine?
    ensures t == u
  {
    assert ThreadInv(s, t) && ThreadInv(s, u);
  }

  /** The next request is applied: its thread is t itself, or one that t saw
      waiting with its request in place. */
  lemma ApplyKeeps(s: Lock, t: Tid, c: CombinePc, d: Request, pc: Pc)
    requires Inv(s) && t in s.m.handle && PcOf(s, t).Combine? && PcOf(s, t).combine == c
    requires match c
      case ApplyOwn(next) => d == PcOf(s, t).d && pc == Combine(d, PcOf(s, t).i, ReadNext(next, 0))
      case ApplyOther(curr, next, count) =>
        d == NodeAt(s.m, curr).data && pc == Combine(PcOf(s, t).d, PcOf(s, t).i, SetDone(curr, next, count))
      case _ => false
    ensures Inv(Apply(s, t, pc, d))
  {
    var s' := Apply(s, t, pc, d);
    var m := |s.h.applied|;
    assert ThreadInv(s, t);
    if c.ApplyOther? { assert ThreadInv(s, s.h.owner[m]); }
    assert s.h.requests[m] == d;
    assert s'.h.applied == s.h.requests[..m] + [s.h.requests[m]] == s.h.requests[..m + 1];
    forall u | u != t ensures Undisturbed(s, s', u) && Consistent(s, s', u) {
      assert ThreadInv(s, u);
      if PcOf(s, u).Combine? { OnlyCombiner(s, t, u); }
    }
    forall j | m + 1 <= j < |s.h.owner| ensures InLine(s', j) { assert InLine(s, j); }
    KeepsInv(s, s', t);
  }

  /** The node after the last applied request tells whether there is another
      request in place. */
  lemma ReadNextKeeps(s: Lock, t: Tid, d: Request, i: nat, curr: Addr, count: nat)
    requires Inv(s) && t in s.m.handle && PcOf(s, t) == Combine(d, i, ReadNext(curr, count))
    ensures Inv(CombineStep(s, t, d, i, ReadNext(curr, count)))
  {
    var s' := CombineStep(s, t, d, i, ReadNext(curr, count));
    var m := |s.h.applied|;
    assert ThreadInv(s, t);
    if m < |s.h.owner| {
      assert InLine(s, m);
      assert ThreadInv(s, s.h.owner[m]);
    }
    forall u | u != t ensures Undisturbed(s, s', u) && Consistent(s, s', u) {
      assert ThreadInv(s, u);
      if PcOf(s, u).Combine? { OnlyCombiner(s, t, u); }
    }
    forall j | m <= j < |s.h.owner| ensures InLine(s', j) { assert InLine(s, j); }
    KeepsInv(s, s', t);
  }

  /** The thread whose status the combiner sets. */
  lemma ToldKeeps(s: Lock, s': Lock, u: Tid, a: Addr, status: Status)
    requires Inv(s) && HistoryInv(s') && s'.m == StatusSet(s.m, a, status) && PcOf(s', u) == PcOf(s, u)
    requires s'.h.chain == s.h.chain && s'.h.owner == s.h.owner && s'.h.requests == s.h.requests && s'.h.applied == s.h.applied
    requires PcOf(s, u).Wait? && (PcOf(s, u).wait.Spin? || PcOf(s, u).i >= |s.h.applied|)
    requires u in s.m.handle && s.m.handle[u] == a && StatusOf(s', PcOf(s, u).i) == status
    ensures ThreadInv(s', u)
  {
    assert ThreadInv(s, u);
  }

  lemma SetDoneKeeps(s: Lock, t: Tid, d: Request, i: nat, curr: Addr, next: Addr, count: nat)
    requires Inv(s) && t in s.m.handle && PcOf(s, t) == Combine(d, i, SetDone(curr, next, count))
    ensures Inv(CombineStep(s, t, d, i, SetDone(curr, next, count)))
  {
    var s' := CombineStep(s, t, d, i, SetDone(curr, next, count));
    var m := |s.h.applied|;
    assert ThreadInv(s, t);
    var told := s.h.owner[m - 1];
    assert ThreadInv(s, told) && s.m.handle[told] == curr;
    forall u ensures ThreadInv(s', u) {
      assert ThreadInv(s, u);
      if u == told {
        ToldKeeps(s, s', u, curr, DONE);
      } else if u != t {
        if PcOf(s, u).Combine? { OnlyCombiner(s, t, u); }
        OtherKeeps(s, s', u);
      }
    }
    forall j | m <= j < |s.h.owner| ensures InLine(s', j) { assert InLine(s, j); }
  }

  /** The baton goes to the node of the next request, or stays on the tail for
      the thread that will swap it out. */
  lemma SetReadyKeeps(s: Lock, t: Tid, d: Request, i: nat, curr: Addr)
    requires Inv(s) && t in s.m.handle && PcOf(s, t) == Combine(d, i, SetReady(curr))
    ensures Inv(CombineStep(s, t, d, i, SetReady(curr)))
  {
    var s' := CombineStep(s, t, d, i, SetReady(curr));
    var m := |s.h.applied|;
    assert ThreadInv(s, t);
    if m < |s.h.owner| {
      assert InLine(s, m);
      assert ThreadInv(s, s.h.owner[m]) && s.m.handle[s.h.owner[m]] == curr;
    }
    forall u ensures ThreadInv(s', u) {
      assert ThreadInv(s, u);
      if m < |s.h.owner| && u == s.h.owner[m] {
        ToldKeeps(s, s', u, curr, READY);
      } else if u != t {
        if PcOf(s, u).Combine? { OnlyCombiner(s, t, u); }
        OtherKeeps(s, s', u);
      }
    }
    forall j | m <= j < |s.h.owner| ensures InLine(s', j) { assert InLine(s, j); }
  }

  lemma CombineStepKeeps(s: Lock, t: Tid, d: Request, i: nat, pc: CombinePc)
    requires Inv(s) && t in s.m.handle && PcOf(s, t) == Combine(d, i, pc)
    ensures Inv(CombineStep(s, t, d, i, pc))
  {
    match pc
    case ApplyOwn(next) => ApplyKeeps(s, t, pc, d, Combine(d, i, ReadNext(next, 0)));
    case ReadNext(curr, count) => ReadNextKeeps(s, t, d, i, curr, count);
    case ApplyOther(curr, next, count) =>
      ApplyKeeps(s, t, pc, NodeAt(s.m, curr).data, Combine(d, i, SetDone(curr, next, count)));
    case SetDone(curr, next, count) => SetDoneKeeps(s, t, d, i, curr, next, count);
    case SetReady(curr) => SetReadyKeeps(s, t, d, i, curr);
  }

  /** Every step of every thread keeps the invariant. */
  lemma StepKeepsInv(s: Lock, t: Tid, d: Request)
    requires Inv(s)
    ensures Inv(Step(s, t, d))
  {
    if t in s.m.handle {
      var n := NodeAt(s.m, s.m.handle[t]);
      assert ThreadInv(s, t);
      match PcOf(s, t)
      case ResetNext(d) => StoreKeeps(s, t, ResetStatus(d), Node(0, n.data, n.status));
      case ResetStatus(d) => StoreKeeps(s, t, Swap(d), Node(n.next, n.data, WAIT));
      case Swap(d) => SwapKeeps(s, t, d);
      case Wait(d, i, next, pc) => WaitStepKeeps(s, t, d, i, next, pc);
      case Combine(d, i, pc) => CombineStepKeeps(s, t, d, i, pc);
      case _ => GotoKeeps(s, t, ResetNext(d));
    }
  }
}
