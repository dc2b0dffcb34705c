/**
 * Every step of every thread keeps the invariant of the naive ring.
 */
module NcqSteps {
  import opened NcqRing

  /** How a step may change the shared words. */
  ghost predicate Frame(s: Ring, s': Ring) {
    && s'.m.tail >= s.m.tail && s'.m.head >= s.m.head && Last(s') >= Last(s)
    && (s'.m.head == s.m.head ==> |s'.items| >= |s.items| && s'.items[..|s.items|] == s.items)
  }

  lemma OthersKeep(g: Geometry, s: Ring, s': Ring, t: Tid)
    requires ValidGeometry(g) && |s.m.slots| == g.n == |s'.m.slots|
    requires Frame(s, s') && PcOf(s', t) == PcOf(s, t) && ThreadInv(g, s, t)
    ensures ThreadInv(g, s', t)
  {
  }

  lemma KeepsInv(g: Geometry, s: Ring, s': Ring, t: Tid)
    requires Inv(g, s) && |s'.m.slots| == g.n && Frame(s, s') && ThreadInv(g, s', t)
    requires s'.m.tail <= Last(s') <= s'.m.tail + 1 && |s'.items| <= g.n
    requires forall p :: SlotInv(g, s', p)
    requires forall u :: u != t ==> PcOf(s', u) == PcOf(s, u)
    ensures Inv(g, s')
  {
    forall u ensures ThreadInv(g, s', u) {
      if u != t {
        assert ThreadInv(g, s, u);
        OthersKeep(g, s, s', u);
      }
    }
  }

  /** Steps that change the tail and t's counter only. */
  lemma TailKeeps(g: Geometry, s: Ring, t: Tid, pc: Pc, m: Memory)
    requires Inv(g, s) && m.head == s.m.head && m.slots == s.m.slots
    requires s.m.tail <= m.tail <= Last(s) <= m.tail + 1
    requires ThreadInv(g, Next(s, t, pc, m, s.items), t)
    ensures Inv(g, Next(s, t, pc, m, s.items))
  {
    var s' := Next(s, t, pc, m, s.items);
    forall p: nat ensures SlotInv(g, s', p) { assert SlotInv(g, s, p); }
    KeepsInv(g, s, s', t);
  }

  /** A slot one cycle behind position p shows that p is not installed. */
  lemma EntryTestIsSafe(g: Geometry, s: Ring, tail: nat)
    requires Inv(g, s) && tail <= s.m.tail
    ensures EnqInv(g, s, EntryTest(g, tail, s.m.slots[g.loc(tail)]))
  {
    assert SlotInv(g, s, tail);
  }

  lemma InstallSlots(g: Geometry, s: Ring, t: Tid, v: nat)
    requires Inv(g, s) && |s.items| < g.n
    ensures forall p :: SlotInv(g, Install(g, s, t, v, Last(s)), p)
  {
    var l := Last(s);
    var s' := Install(g, s, t, v, l);
    forall p: nat ensures SlotInv(g, s', p) {
      assert SlotInv(g, s, p);
      if s.m.head <= p < l { assert p < l < p + g.n; }
    }
  }

  /** A successful entry CAS is at the logical tail. */
  lemma CasEntryIsAtLast(g: Geometry, s: Ring, tail: nat, e: Slot)
    requires Inv(g, s) && tail <= s.m.tail && e.cycle < g.cyc(tail) && s.m.slots[g.loc(tail)] == e
    ensures tail == Last(s) == s.m.tail
  {
    assert SlotInv(g, s, tail);
  }

  lemma InstallKeeps(g: Geometry, s: Ring, t: Tid, v: nat, e: Slot)
    requires Inv(g, s) && PcOf(s, t) == Enq(v, CasEntry(Last(s), e)) && Last(s) == s.m.tail && |s.items| < g.n
    ensures Inv(g, Install(g, s, t, v, Last(s)))
  {
    assert ThreadInv(g, s, t);
    InstallSlots(g, s, t, v);
    KeepsInv(g, s, Install(g, s, t, v, Last(s)), t);
  }

  lemma PendingHasRoom(g: Geometry, s: Ring, t: Tid)
    requires Room(g, s) && t in Pending(s)
    ensures |s.items| < g.n
  {
  }

  lemma EnqCasKeeps(g: Geometry, s: Ring, t: Tid, c: Choice, v: nat, tail: nat, e: Slot)
    requires Inv(g, s) && Room(g, s) && PcOf(s, t) == Enq(v, CasEntry(tail, e))
    ensures Inv(g, EnqStep(g, s, t, c, v, CasEntry(tail, e)))
  {
    assert ThreadInv(g, s, t);
    if s.m.slots[g.loc(tail)] == e {
      CasEntryIsAtLast(g, s, tail, e);
      PendingHasRoom(g, s, t);
      InstallKeeps(g, s, t, v, e);
    } else {
      EntryTestIsSafe(g, s, tail);
      TailKeeps(g, s, t, Enq(v, EntryTest(g, tail, s.m.slots[g.loc(tail)])), s.m);
    }
  }

  lemma EnqStepKeeps(g: Geometry, s: Ring, t: Tid, c: Choice, v: nat, pc: EnqPc)
    requires Inv(g, s) && Room(g, s) && PcOf(s, t) == Enq(v, pc)
    ensures Inv(g, EnqStep(g, s, t, c, v, pc))
  {
    assert ThreadInv(g, s, t);
    match pc
    case LoadTail => TailKeeps(g, s, t, Enq(v, EnqPc.LoadEntry(s.m.tail)), s.m);
    case LoadEntry(tail) =>
      EntryTestIsSafe(g, s, tail);
      TailKeeps(g, s, t, Enq(v, EntryTest(g, tail, s.m.slots[g.loc(tail)])), s.m);
    case HelpTail(tail) =>
      TailKeeps(g, s, t, Enq(v, EnqPc.LoadEntry(if s.m.tail == tail then tail + 1 else s.m.tail)), CasTail(s.m, tail));
    case CasEntry(tail, e) => EnqCasKeeps(g, s, t, c, v, tail, e);
    case MoveTail(tail) => TailKeeps(g, s, t, Ret(Enqueued), if c == Alt then s.m else CasTail(s.m, tail));
  }

  lemma RemoveKeeps(g: Geometry, s: Ring, t: Tid, v: nat)
    requires Inv(g, s) && |s.items| > 0
    ensures Inv(g, Remove(s, t, s.m.head, v))
  {
    var s' := Remove(s, t, s.m.head, v);
    forall p: nat ensures SlotInv(g, s', p) { assert SlotInv(g, s, p); }
    KeepsInv(g, s, s', t);
  }

  lemma DeqStepKeeps(g: Geometry, s: Ring, t: Tid, c: Choice, nonempty: bool, pc: DeqPc)
    requires Inv(g, s) && PcOf(s, t) == Deq(nonempty, pc)
    ensures Inv(g, DeqStep(g, s, t, c, nonempty, pc))
  {
    assert ThreadInv(g, s, t);
    match pc
    case LoadHead => TailKeeps(g, s, t, Deq(nonempty, DeqPc.LoadEntry(s.m.head)), s.m);
    case LoadEntry(head) =>
      assert SlotInv(g, s, head);
      TailKeeps(g, s, t, PcOf(DeqStep(g, s, t, c, nonempty, pc), t), s.m);
    case CasHead(head, e) =>
      if s.m.head == head && c != Alt { RemoveKeeps(g, s, t, e.idx); }
      else { TailKeeps(g, s, t, Deq(nonempty, DeqPc.LoadEntry(s.m.head)), s.m); }
  }

  /** Every step of every thread keeps the invariant, as long as the clients
      keep room. */
  lemma StepKeepsInv(g: Geometry, s: Ring, t: Tid, c: Choice)
    requires Inv(g, s) && Room(g, s)
    ensures Inv(g, Step(g, s, t, c))
  {
    assert ThreadInv(g, s, t);
    match PcOf(s, t)
    case Enq(v, pc) => EnqStepKeeps(g, s, t, c, v, pc);
    case Deq(nonempty, pc) => DeqStepKeeps(g, s, t, c, nonempty, pc);
    case pc => if c.Start? { TailKeeps(g, s, t, StartPc(g, c.op, pc), s.m); }
  }
}
