/**
 * Every step of every thread keeps the invariant of the fetch-and-add ring.
 */
module ScqSteps {
  import opened Options
  import opened ScqRing

  /** The slot of p has moved past p, or can only still hold an older value. */
  ghost predicate SlotPassed(g: Geometry, p: nat, before: Slot, now: Slot) {
    Older(before, now) || now.cycle > g.cyc(p) || (now.val.Some? && !now.safe)
  }

  ghost predicate MemoryFrame(g: Geometry, m: Memory, m': Memory) {
    && |m.slots| == |m'.slots| == g.n
    && m.head <= m'.head && m.tail <= m'.tail
    && (forall i :: 0 <= i < g.n ==> m'.slots[i] == m.slots[i] || Older(m.slots[i], m'.slots[i]))
  }

  ghost predicate HistoryGrows(h: History, h': History) {
    && (forall p :: p in h.installed ==> p in h'.installed && h'.installed[p] == h.installed[p])
    && (forall p :: p in h.taken ==> p in h'.taken && h'.taken[p] == h.taken[p])
    && (forall p :: p in h.gaveUp ==> p in h'.gaveUp)
    && (forall p :: p in h.enqOwner ==> p in h'.enqOwner && h'.enqOwner[p] == h.enqOwner[p])
    && (forall p :: p in h.deqOwner ==> p in h'.deqOwner && h'.deqOwner[p] == h.deqOwner[p])
  }

  /** Only t's own tickets are added to the history, and new tickets are the
      counters' old values. */
  ghost predicate OwnTickets(g: Geometry, s: Ring, s': Ring, t: Tid)
    requires ValidGeometry(g) && |s.m.slots| == |s'.m.slots| == g.n
  {
    && (forall p :: p in s'.h.installed && p !in s.h.installed ==> p in s.h.enqOwner && s.h.enqOwner[p] == t)
    && (forall p :: p in s'.h.taken && p !in s.h.taken ==> p in s.h.deqOwner && s.h.deqOwner[p] == t)
    && (forall p :: p in s'.h.gaveUp && p !in s.h.gaveUp ==> p in s.h.deqOwner && s.h.deqOwner[p] == t)
    && (forall p :: p in s'.h.gaveUp && p !in s.h.gaveUp ==>
      SlotPassed(g, p, s.m.slots[g.loc(p)], s'.m.slots[g.loc(p)]))
    && (forall p :: p in s'.h.enqOwner && p !in s.h.enqOwner ==> p == s.m.tail && s'.h.enqOwner[p] == t)
    && (forall p :: p in s'.h.deqOwner && p !in s.h.deqOwner ==> p == s.m.head && s'.h.deqOwner[p] == t)
  }

  /** The counters never decrease, slot words only get younger, the history
      only grows, and other threads stay where they are. */
  ghost predicate StepFrame(g: Geometry, s: Ring, s': Ring, t: Tid)
    requires ValidGeometry(g)
  {
    && MemoryFrame(g, s.m, s'.m)
    && HistoryGrows(s.h, s'.h)
    && OwnTickets(g, s, s', t)
    && (forall u :: u != t ==> PcOf(s', u) == PcOf(s, u))
  }

  /** A step of t leaves alone what every other thread relies on. */
  lemma OthersKeep(g: Geometry, s: Ring, s': Ring, t: Tid, u: Tid)
    requires Inv(g, s) && StepFrame(g, s, s', t) && u != t
    ensures ThreadInv(g, s', u)
  {
    var pc := PcOf(s, u);
    assert ThreadInv(g, s, u);
    assert PcOf(s', u) == pc;
    if pc.Enq? && (pc.enq.TestHead? || pc.enq.CasSlot?) {
      var i := g.loc(pc.enq.ticket);
      assert s'.m.slots[i] == s.m.slots[i] || Older(s.m.slots[i], s'.m.slots[i]);
    }
  }

  /** So a framed step need only be checked for tickets and for t itself. */
  lemma KeepsInv(g: Geometry, s: Ring, s': Ring, t: Tid)
    requires Inv(g, s) && StepFrame(g, s, s', t) && Tickets(g, s') && ThreadInv(g, s', t)
    ensures Inv(g, s')
  {
    forall u ensures ThreadInv(g, s', u) {
      if u != t { OthersKeep(g, s, s', t, u); }
    }
  }

  // ----- preservation, one lemma per kind of step ------------------------

  ghost predicate Good(g: Geometry, s: Ring, s': Ring, t: Tid) {
    Inv(g, s') && StepFrame(g, s, s', t)
  }

  /** A younger word in one slot. */
  lemma SetSlotFrame(g: Geometry, m: Memory, i: nat, w: Slot)
    requires i < |m.slots| == g.n && Older(m.slots[i], w)
    ensures MemoryFrame(g, m, SetSlot(m, i, w))
  {
  }

  /** What a step of t must show of memory and history. */
  lemma NextFrame(g: Geometry, s: Ring, t: Tid, pc: Pc, m: Memory, h: History)
    requires ValidGeometry(g) && |s.m.slots| == g.n && MemoryFrame(g, s.m, m)
    requires HistoryGrows(s.h, h) && OwnTickets(g, s, Next(s, t, pc, m, h), t)
    ensures StepFrame(g, s, Next(s, t, pc, m, h), t)
  {
  }

  /** The memory after the tail has advanced or the threshold has changed. */
  function Counters(s: Ring, t: Tid, pc: Pc, tail: nat, threshold: int): Ring {
    Next(s, t, pc, Memory(s.m.head, tail, threshold, s.m.slots), s.h)
  }

  lemma CountersTicket(g: Geometry, s: Ring, t: Tid, pc: Pc, tail: nat, threshold: int, p: nat)
    requires ValidGeometry(g) && |s.m.slots| == g.n && TicketInv(g, s, p) && tail >= s.m.tail
    requires DeqTicket(PcOf(s, t)).Some? ==> DeqTicket(pc) == DeqTicket(PcOf(s, t))
    ensures TicketInv(g, Counters(s, t, pc, tail, threshold), p)
  {
  }

  lemma CountersThread(g: Geometry, s: Ring, t: Tid, pc: Pc, tail: nat, threshold: int)
    requires ValidGeometry(g) && |s.m.slots| == g.n && Holds(s, t, pc) && PcInv(g, s, pc)
    ensures ThreadInv(g, Counters(s, t, pc, tail, threshold), t)
  {
  }

  lemma CountersFrame(g: Geometry, s: Ring, t: Tid, pc: Pc, tail: nat, threshold: int)
    requires ValidGeometry(g) && |s.m.slots| == g.n && tail >= s.m.tail
    ensures StepFrame(g, s, Counters(s, t, pc, tail, threshold), t)
  {
  }

  /** A step that moves only t's program counter, keeping its dequeue ticket if
      it has one, and may advance the tail or change the threshold. */
  lemma CountersKeep(g: Geometry, s: Ring, t: Tid, pc: Pc, tail: nat, threshold: int)
    requires Inv(g, s) && tail >= s.m.tail && Holds(s, t, pc) && PcInv(g, s, pc)
    requires DeqTicket(PcOf(s, t)).Some? ==> DeqTicket(pc) == DeqTicket(PcOf(s, t))
    ensures Good(g, s, Counters(s, t, pc, tail, threshold), t)
  {
    var s' := Counters(s, t, pc, tail, threshold);
    forall p ensures TicketInv(g, s', p) {
      assert TicketInv(g, s, p);
      CountersTicket(g, s, t, pc, tail, threshold, p);
    }
    CountersThread(g, s, t, pc, tail, threshold);
    CountersFrame(g, s, t, pc, tail, threshold);
    KeepsInv(g, s, s', t);
  }

  lemma GotoKeeps(g: Geometry, s: Ring, t: Tid, pc: Pc)
    requires Inv(g, s) && Holds(s, t, pc) && PcInv(g, s, pc)
    requires DeqTicket(PcOf(s, t)).Some? ==> DeqTicket(pc) == DeqTicket(PcOf(s, t))
    ensures Good(g, s, Goto(s, t, pc), t)
  {
    CountersKeep(g, s, t, pc, s.m.tail, s.m.threshold);
    assert s.m == Memory(s.m.head, s.m.tail, s.m.threshold, s.m.slots);
  }

  /** A fresh enqueue ticket. */
  function TakeEnqTicket(s: Ring, t: Tid, v: nat, nonempty: bool): Ring {
    Next(s, t, Enq(v, nonempty, EnqPc.LoadSlot(s.m.tail)),
         s.m.(tail := s.m.tail + 1), s.h.(enqOwner := s.h.enqOwner[s.m.tail := t]))
  }

  lemma EnqTicketTicket(g: Geometry, s: Ring, t: Tid, v: nat, nonempty: bool, p: nat)
    requires ValidGeometry(g) && |s.m.slots| == g.n && TicketInv(g, s, p)
    requires PcOf(s, t) == Enq(v, nonempty, EnqPc.TakeTicket)
    ensures TicketInv(g, TakeEnqTicket(s, t, v, nonempty), p)
  {
  }

  lemma EnqTicketFrame(g: Geometry, s: Ring, t: Tid, v: nat, nonempty: bool)
    requires ValidGeometry(g) && |s.m.slots| == g.n && TicketInv(g, s, s.m.tail)
    ensures StepFrame(g, s, TakeEnqTicket(s, t, v, nonempty), t)
  {
  }

  lemma EnqTicketKeeps(g: Geometry, s: Ring, t: Tid, v: nat, nonempty: bool)
    requires Inv(g, s) && PcOf(s, t) == Enq(v, nonempty, EnqPc.TakeTicket)
    ensures Good(g, s, TakeEnqTicket(s, t, v, nonempty), t)
  {
    var s' := TakeEnqTicket(s, t, v, nonempty);
    assert TicketInv(g, s, s.m.tail) && ThreadInv(g, s, t);
    forall p ensures TicketInv(g, s', p) {
      assert TicketInv(g, s, p);
      EnqTicketTicket(g, s, t, v, nonempty, p);
    }
    EnqTicketFrame(g, s, t, v, nonempty);
    KeepsInv(g, s, s', t);
  }

  /** A fresh dequeue ticket. */
  function TakeDeqTicket(s: Ring, t: Tid, nonempty: bool): Ring {
    Next(s, t, Deq(nonempty, DeqPc.LoadSlot(s.m.head)),
         s.m.(head := s.m.head + 1), s.h.(deqOwner := s.h.deqOwner[s.m.head := t]))
  }

  lemma DeqTicketTicket(g: Geometry, s: Ring, t: Tid, nonempty: bool, p: nat)
    requires ValidGeometry(g) && |s.m.slots| == g.n && TicketInv(g, s, p)
    requires PcOf(s, t) == Deq(nonempty, DeqPc.TakeTicket)
    ensures TicketInv(g, TakeDeqTicket(s, t, nonempty), p)
  {
  }

  lemma DeqTicketFrame(g: Geometry, s: Ring, t: Tid, nonempty: bool)
    requires ValidGeometry(g) && |s.m.slots| == g.n && TicketInv(g, s, s.m.head)
    ensures StepFrame(g, s, TakeDeqTicket(s, t, nonempty), t)
  {
  }

  lemma DeqTicketKeeps(g: Geometry, s: Ring, t: Tid, nonempty: bool)
    requires Inv(g, s) && PcOf(s, t) == Deq(nonempty, DeqPc.TakeTicket)
    ensures Good(g, s, TakeDeqTicket(s, t, nonempty), t)
  {
    var s' := TakeDeqTicket(s, t, nonempty);
    assert TicketInv(g, s, s.m.head) && ThreadInv(g, s, t);
    forall p ensures TicketInv(g, s', p) {
      assert TicketInv(g, s, p);
      DeqTicketTicket(g, s, t, nonempty, p);
    }
    DeqTicketFrame(g, s, t, nonempty);
    KeepsInv(g, s, s', t);
  }

  /** The word read is still there, so no dequeuer of this ticket, or of a
      later one in the slot, has given up. */
  lemma InstallTicket(g: Geometry, s: Ring, t: Tid, pc: Pc, v: nat, nonempty: bool, ticket: nat, p: nat)
    requires ValidGeometry(g) && |s.m.slots| == g.n && ThreadInv(g, s, t) && TicketInv(g, s, ticket) && TicketInv(g, s, p)
    requires PcOf(s, t) == Enq(v, nonempty, EnqPc.CasSlot(ticket, s.m.slots[g.loc(ticket)]))
    ensures TicketInv(g, Install(g, s, t, pc, v, ticket), p)
  {
  }

  lemma InstallFrame(g: Geometry, s: Ring, t: Tid, pc: Pc, v: nat, ticket: nat)
    requires ValidGeometry(g) && |s.m.slots| == g.n && s.m.slots[g.loc(ticket)].cycle < g.cyc(ticket)
    requires ticket in s.h.enqOwner && s.h.enqOwner[ticket] == t && ticket !in s.h.installed
    ensures StepFrame(g, s, Install(g, s, t, pc, v, ticket), t)
  {
    var m := SetSlot(s.m, g.loc(ticket), Slot(g.cyc(ticket), true, Some(v)));
    SetSlotFrame(g, s.m, g.loc(ticket), Slot(g.cyc(ticket), true, Some(v)));
    NextFrame(g, s, t, pc, m, s.h.(installed := s.h.installed[ticket := v]));
  }

  /** The entry CAS succeeds. */
  lemma InstallKeeps(g: Geometry, s: Ring, t: Tid, pc: Pc, v: nat, nonempty: bool, ticket: nat)
    requires Inv(g, s) && PcOf(s, t) == Enq(v, nonempty, EnqPc.CasSlot(ticket, s.m.slots[g.loc(ticket)]))
    requires pc == Ret(Enqueued(ticket)) || pc == Enq(v, nonempty, LoadThreshold(ticket))
    ensures Good(g, s, Install(g, s, t, pc, v, ticket), t)
  {
    var s' := Install(g, s, t, pc, v, ticket);
    assert ThreadInv(g, s, t) && TicketInv(g, s, ticket);
    forall p ensures TicketInv(g, s', p) {
      assert TicketInv(g, s, p);
      InstallTicket(g, s, t, pc, v, nonempty, ticket, p);
    }
    InstallFrame(g, s, t, pc, v, ticket);
    KeepsInv(g, s, s', t);
  }

  /** The index is taken out of the slot of its own ticket. */
  function Take(g: Geometry, s: Ring, t: Tid, ticket: nat, v: nat): Ring
    requires ValidGeometry(g) && |s.m.slots| == g.n
  {
    Next(s, t, Ret(Dequeued(ticket, v)),
         SetSlot(s.m, g.loc(ticket), s.m.slots[g.loc(ticket)].(val := None)),
         s.h.(taken := s.h.taken[ticket := v]))
  }

  lemma TakeTicket(g: Geometry, s: Ring, t: Tid, nonempty: bool, ticket: nat, v: nat, p: nat)
    requires ValidGeometry(g) && |s.m.slots| == g.n && ThreadInv(g, s, t) && TicketInv(g, s, ticket) && TicketInv(g, s, p)
    requires PcOf(s, t) == Deq(nonempty, Erase(ticket, v))
    ensures TicketInv(g, Take(g, s, t, ticket, v), p)
  {
  }

  lemma TakeFrame(g: Geometry, s: Ring, t: Tid, ticket: nat, v: nat)
    requires ValidGeometry(g) && |s.m.slots| == g.n && s.m.slots[g.loc(ticket)].val.Some?
    requires ticket in s.h.deqOwner && s.h.deqOwner[ticket] == t && ticket !in s.h.taken
    ensures StepFrame(g, s, Take(g, s, t, ticket, v), t)
  {
    var w := s.m.slots[g.loc(ticket)].(val := None);
    SetSlotFrame(g, s.m, g.loc(ticket), w);
    NextFrame(g, s, t, Ret(Dequeued(ticket, v)), SetSlot(s.m, g.loc(ticket), w), s.h.(taken := s.h.taken[ticket := v]));
  }

  /** The index is erased by the dequeuer of its own ticket, which returns it. */
  lemma EraseKeeps(g: Geometry, s: Ring, t: Tid, nonempty: bool, ticket: nat, v: nat)
    requires Inv(g, s) && PcOf(s, t) == Deq(nonempty, Erase(ticket, v))
    ensures s.m.slots[g.loc(ticket)].val == Some(v)
    ensures Good(g, s, Take(g, s, t, ticket, v), t)
  {
    var s' := Take(g, s, t, ticket, v);
    assert ThreadInv(g, s, t) && TicketInv(g, s, ticket);
    forall p ensures TicketInv(g, s', p) {
      assert TicketInv(g, s, p);
      TakeTicket(g, s, t, nonempty, ticket, v, p);
    }
    TakeFrame(g, s, t, ticket, v);
    KeepsInv(g, s, s', t);
  }

  /** The slot of a dequeue ticket that holds a younger word, or an unsafe index. */
  predicate Passed(g: Geometry, e: Slot, ticket: nat) {
    e.cycle > g.cyc(ticket) || (e.cycle < g.cyc(ticket) && e.val.Some? && !e.safe)
  }

  lemma LeaveTicket(g: Geometry, s: Ring, t: Tid, nonempty: bool, ticket: nat, p: nat)
    requires ValidGeometry(g) && |s.m.slots| == g.n && ThreadInv(g, s, t) && TicketInv(g, s, ticket) && TicketInv(g, s, p)
    requires DeqTicket(PcOf(s, t)) == Some(ticket) && Passed(g, s.m.slots[g.loc(ticket)], ticket)
    ensures TicketInv(g, Leave(s, t, nonempty, ticket, s.m), p)
  {
  }

  lemma LeaveFrame(g: Geometry, s: Ring, t: Tid, nonempty: bool, ticket: nat, m: Memory)
    requires ValidGeometry(g) && |s.m.slots| == g.n && MemoryFrame(g, s.m, m)
    requires ticket in s.h.deqOwner && s.h.deqOwner[ticket] == t
    requires SlotPassed(g, ticket, s.m.slots[g.loc(ticket)], m.slots[g.loc(ticket)])
    ensures StepFrame(g, s, Leave(s, t, nonempty, ticket, m), t)
  {
  }

  /** Giving up because the slot has passed. */
  lemma LeaveKeeps(g: Geometry, s: Ring, t: Tid, nonempty: bool, ticket: nat)
    requires Inv(g, s) && DeqTicket(PcOf(s, t)) == Some(ticket) && Passed(g, s.m.slots[g.loc(ticket)], ticket)
    ensures Good(g, s, Leave(s, t, nonempty, ticket, s.m), t)
  {
    var s' := Leave(s, t, nonempty, ticket, s.m);
    assert ThreadInv(g, s, t) && TicketInv(g, s, ticket);
    forall p ensures TicketInv(g, s', p) {
      assert TicketInv(g, s, p);
      LeaveTicket(g, s, t, nonempty, ticket, p);
    }
    LeaveFrame(g, s, t, nonempty, ticket, s.m);
    KeepsInv(g, s, s', t);
  }

  /** Giving up by overwriting the slot. */
  function LeaveOver(g: Geometry, s: Ring, t: Tid, nonempty: bool, ticket: nat): Ring
    requires ValidGeometry(g) && |s.m.slots| == g.n
  {
    Leave(s, t, nonempty, ticket, SetSlot(s.m, g.loc(ticket), Overwrite(g, ticket, s.m.slots[g.loc(ticket)])))
  }

  lemma OverwriteTicket(g: Geometry, s: Ring, t: Tid, nonempty: bool, ticket: nat, p: nat)
    requires ValidGeometry(g) && |s.m.slots| == g.n && ThreadInv(g, s, t) && TicketInv(g, s, ticket) && TicketInv(g, s, p)
    requires PcOf(s, t) == Deq(nonempty, DeqPc.CasSlot(ticket, s.m.slots[g.loc(ticket)]))
    ensures TicketInv(g, LeaveOver(g, s, t, nonempty, ticket), p)
  {
  }

  lemma OverwriteFrame(g: Geometry, s: Ring, t: Tid, nonempty: bool, ticket: nat)
    requires ValidGeometry(g) && |s.m.slots| == g.n
    requires ticket in s.h.deqOwner && s.h.deqOwner[ticket] == t
    requires DeqInv(g, s, DeqPc.CasSlot(ticket, s.m.slots[g.loc(ticket)]))
    ensures StepFrame(g, s, LeaveOver(g, s, t, nonempty, ticket), t)
  {
    var e := s.m.slots[g.loc(ticket)];
    SetSlotFrame(g, s.m, g.loc(ticket), Overwrite(g, ticket, e));
    LeaveFrame(g, s, t, nonempty, ticket, SetSlot(s.m, g.loc(ticket), Overwrite(g, ticket, e)));
  }

  lemma OverwriteKeeps(g: Geometry, s: Ring, t: Tid, nonempty: bool, ticket: nat)
    requires Inv(g, s) && PcOf(s, t) == Deq(nonempty, DeqPc.CasSlot(ticket, s.m.slots[g.loc(ticket)]))
    ensures Good(g, s, LeaveOver(g, s, t, nonempty, ticket), t)
  {
    var s' := LeaveOver(g, s, t, nonempty, ticket);
    assert ThreadInv(g, s, t) && TicketInv(g, s, ticket);
    forall p ensures TicketInv(g, s', p) {
      assert TicketInv(g, s, p);
      OverwriteTicket(g, s, t, nonempty, ticket, p);
    }
    OverwriteFrame(g, s, t, nonempty, ticket);
    KeepsInv(g, s, s', t);
  }

  lemma DeqContinueKeeps(g: Geometry, s: Ring, t: Tid, c: Choice, nonempty: bool, ticket: nat)
    requires Inv(g, s) && DeqTicket(PcOf(s, t)) == Some(ticket)
    ensures Good(g, s, DeqContinue(g, s, t, c, nonempty, ticket), t)
  {
    assert ThreadInv(g, s, t) && TicketInv(g, s, ticket);
    match DeqTest(g, c, ticket, s.m.slots[g.loc(ticket)])
    case Some(pc) => GotoKeeps(g, s, t, Deq(nonempty, pc));
    case None => LeaveKeeps(g, s, t, nonempty, ticket);
  }

  /** The head test of the enqueuer: when it passes, no dequeue ticket from its
      own on has been issued, so none of them has been given up. */
  lemma HeadTestKeeps(g: Geometry, s: Ring, t: Tid, c: Choice, v: nat, nonempty: bool, ticket: nat, e: Slot)
    requires Inv(g, s) && PcOf(s, t) == Enq(v, nonempty, TestHead(ticket, e))
    ensures Good(g, s, EnqStep(g, s, t, c, v, nonempty, TestHead(ticket, e)), t)
  {
    assert ThreadInv(g, s, t);
    if s.m.head <= ticket {
      forall q | q in s.h.gaveUp ensures q < ticket { assert TicketInv(g, s, q); }
    }
    GotoKeeps(g, s, t, Enq(v, nonempty, if s.m.head <= ticket then EnqPc.CasSlot(ticket, e) else EnqPc.TakeTicket));
  }

  lemma EnqTestKeeps(g: Geometry, s: Ring, t: Tid, v: nat, nonempty: bool, ticket: nat)
    requires Inv(g, s) && PcOf(s, t).Enq? && PcOf(s, t).v == v && EnqTicket(PcOf(s, t)) == Some(ticket)
    ensures Good(g, s, Goto(s, t, Enq(v, nonempty, EnqTest(g, ticket, s.m.slots[g.loc(ticket)]))), t)
  {
    assert ThreadInv(g, s, t) && TicketInv(g, s, ticket);
    GotoKeeps(g, s, t, Enq(v, nonempty, EnqTest(g, ticket, s.m.slots[g.loc(ticket)])));
  }

  lemma EnqCasKeeps(g: Geometry, s: Ring, t: Tid, c: Choice, v: nat, nonempty: bool, ticket: nat, e: Slot)
    requires Inv(g, s) && PcOf(s, t) == Enq(v, nonempty, EnqPc.CasSlot(ticket, e))
    ensures Good(g, s, EnqStep(g, s, t, c, v, nonempty, EnqPc.CasSlot(ticket, e)), t)
  {
    if s.m.slots[g.loc(ticket)] == e && c != Alt {
      var pc := if nonempty then Ret(Enqueued(ticket)) else Enq(v, nonempty, LoadThreshold(ticket));
      InstallKeeps(g, s, t, pc, v, nonempty, ticket);
    } else {
      EnqTestKeeps(g, s, t, v, nonempty, ticket);
    }
  }

  lemma EnqStepKeeps(g: Geometry, s: Ring, t: Tid, c: Choice, v: nat, nonempty: bool, pc: EnqPc)
    requires Inv(g, s) && PcOf(s, t) == Enq(v, nonempty, pc)
    ensures Good(g, s, EnqStep(g, s, t, c, v, nonempty, pc), t)
  {
    assert ThreadInv(g, s, t);
    match pc
    case TakeTicket => EnqTicketKeeps(g, s, t, v, nonempty);
    case LoadSlot(ticket) => EnqTestKeeps(g, s, t, v, nonempty, ticket);
    case TestHead(ticket, e) => HeadTestKeeps(g, s, t, c, v, nonempty, ticket, e);
    case CasSlot(ticket, e) => EnqCasKeeps(g, s, t, c, v, nonempty, ticket, e);
    case LoadThreshold(ticket) =>
      GotoKeeps(g, s, t,
                if s.m.threshold != g.threshold then Enq(v, nonempty, StoreThreshold(ticket)) else Ret(Enqueued(ticket)));
    case StoreThreshold(ticket) => CountersKeep(g, s, t, Ret(Enqueued(ticket)), s.m.tail, g.threshold);
  }

  lemma DeqStepKeeps(g: Geometry, s: Ring, t: Tid, c: Choice, nonempty: bool, pc: DeqPc)
    requires Inv(g, s) && PcOf(s, t) == Deq(nonempty, pc)
    ensures Good(g, s, DeqStep(g, s, t, c, nonempty, pc), t)
  {
    assert ThreadInv(g, s, t);
    match pc
    case TestThreshold =>
      if s.m.threshold < 0 { GotoKeeps(g, s, t, Ret(EmptyByThreshold)); }
      else { GotoKeeps(g, s, t, Deq(nonempty, DeqPc.TakeTicket)); }
    case TakeTicket => DeqTicketKeeps(g, s, t, nonempty);
    case LoadSlot(ticket) => DeqContinueKeeps(g, s, t, c, nonempty, ticket);
    case Erase(ticket, v) => EraseKeeps(g, s, t, nonempty, ticket, v);
    case CasSlot(ticket, e) =>
      if s.m.slots[g.loc(ticket)] == e && c != Alt { OverwriteKeeps(g, s, t, nonempty, ticket); }
      else { DeqContinueKeeps(g, s, t, c, nonempty, ticket); }
  }

  lemma EmptyStepKeeps(g: Geometry, s: Ring, t: Tid, c: Choice, ticket: nat, pc: EmptyPc)
    requires Inv(g, s) && PcOf(s, t) == Empty(ticket, pc)
    ensures Good(g, s, EmptyStep(s, t, c, ticket, pc), t)
  {
    var s' := EmptyStep(s, t, c, ticket, pc);
    assert ThreadInv(g, s, t);
    CountersKeep(g, s, t, PcOf(s', t), s'.m.tail, s'.m.threshold);
    assert s'.m == Memory(s.m.head, s'.m.tail, s'.m.threshold, s.m.slots);
  }

  /** Every atomic access of every thread keeps the invariant, and changes
      nothing but what the frame allows. */
  lemma StepKeepsInv(g: Geometry, s: Ring, t: Tid, c: Choice)
    requires Inv(g, s)
    ensures Inv(g, Step(g, s, t, c)) && StepFrame(g, s, Step(g, s, t, c), t)
  {
    assert ThreadInv(g, s, t);
    match PcOf(s, t)
    case Enq(v, nonempty, pc) => EnqStepKeeps(g, s, t, c, v, nonempty, pc);
    case Deq(nonempty, pc) => DeqStepKeeps(g, s, t, c, nonempty, pc);
    case Empty(ticket, pc) => EmptyStepKeeps(g, s, t, c, ticket, pc);
    case _ => if c.Start? { GotoKeeps(g, s, t, StartPc(g, c.op, PcOf(s, t))); }
  }

  /** lfring_init_empty: every word is all ones. */
  function InitEmpty(g: Geometry): Ring {
    Ring(Memory(0, 0, -1, seq(g.n, i => Slot(-1, true, None))), map[], History(map[], map[], {}, map[], map[]))
  }

  lemma InitEmptyInv(g: Geometry)
    requires ValidGeometry(g)
    ensures Inv(g, InitEmpty(g))
  {
    var s := InitEmpty(g);
    forall p ensures TicketInv(g, s, p) {
      assert s.m.slots[g.loc(p)] == Slot(-1, true, None);
    }
  }
}
