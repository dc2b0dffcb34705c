/**
 * What every run of the fetch-and-add ring keeps.
 */
module ScqRuns {
  import opened Options
  import opened ScqRing
  import opened ScqSteps

  /** The state after a schedule: any interleaving of any number of threads. */
  function Exec(g: Geometry, s: Ring, schedule: seq<(Tid, Choice)>): (s': Ring)
    requires ValidGeometry(g) && |s.m.slots| == g.n
    ensures |s'.m.slots| == g.n
    decreases |schedule|
  {
    if schedule == [] then s
    else Exec(g, Step(g, s, schedule[0].0, schedule[0].1), schedule[1..])
  }

  /** How a later state of a run relates to an earlier one. */
  ghost predicate Later(g: Geometry, s: Ring, s': Ring) {
    && MemoryFrame(g, s.m, s'.m)
    && HistoryGrows(s.h, s'.h)
    && (forall p :: p in s'.h.enqOwner && p !in s.h.enqOwner ==> p >= s.m.tail)
    && (forall p :: p in s'.h.deqOwner && p !in s.h.deqOwner ==> p >= s.m.head)
  }

  /** Every reachable state satisfies the invariant; along a run head and tail
      never decrease, slot words only get younger, and no recorded value is
      ever lost or changed. */
  lemma {:induction false} RunKeepsInv(g: Geometry, s: Ring, schedule: seq<(Tid, Choice)>)
    requires Inv(g, s)
    ensures Inv(g, Exec(g, s, schedule)) && Later(g, s, Exec(g, s, schedule))
    decreases |schedule|
  {
    if schedule != [] {
      StepKeepsInv(g, s, schedule[0].0, schedule[0].1);
      RunKeepsInv(g, Step(g, s, schedule[0].0, schedule[0].1), schedule[1..]);
    }
  }

  /** An index installed at ticket p stays in the slot of p until dequeue ticket
      p takes it, and no dequeuer of p has given up: ticket p is still to be
      issued, or its holder is still looking at the slot. */
  lemma InstalledIsNeverLost(g: Geometry, s: Ring, p: nat)
    requires Inv(g, s) && p in s.h.installed && p !in s.h.taken
    ensures s.m.slots[g.loc(p)].cycle == g.cyc(p) && s.m.slots[g.loc(p)].val == Some(s.h.installed[p])
    ensures p !in s.h.gaveUp
    ensures p >= s.m.head || (p in s.h.deqOwner && DeqTicket(PcOf(s, s.h.deqOwner[p])) == Some(p))
  {
    assert TicketInv(g, s, p);
  }

  /** A dequeue that returns does so with the value installed under its own
      ticket, which nobody had taken before. */
  lemma DequeueTakesItsOwnTicket(g: Geometry, s: Ring, t: Tid, c: Choice, p: nat, v: nat)
    requires Inv(g, s) && PcOf(s, t).Deq?
    requires PcOf(Step(g, s, t, c), t) == Ret(Dequeued(p, v))
    ensures p in s.h.installed && s.h.installed[p] == v && p !in s.h.taken
    ensures p in s.h.deqOwner && s.h.deqOwner[p] == t && Step(g, s, t, c).h.taken == s.h.taken[p := v]
  {
    assert ThreadInv(g, s, t);
  }

  /** First in, first out by ticket: once the value of ticket q is out, every
      value installed under a smaller ticket is out too, or is in the hands of
      the dequeuer that holds its ticket. */
  lemma FifoByTicket(g: Geometry, s: Ring, p: nat, q: nat)
    requires Inv(g, s) && p < q && p in s.h.installed && q in s.h.taken
    ensures q in s.h.installed && s.h.taken[q] == s.h.installed[q]
    ensures (p in s.h.taken && s.h.taken[p] == s.h.installed[p])
         || (p in s.h.deqOwner && DeqTicket(PcOf(s, s.h.deqOwner[p])) == Some(p))
  {
    assert TicketInv(g, s, p) && TicketInv(g, s, q);
  }

  /** An enqueue that has installed its value before another takes a ticket has
      the smaller one; likewise a dequeue that has returned. */
  lemma RealTimeOrder(g: Geometry, s: Ring, schedule: seq<(Tid, Choice)>, p: nat, q: nat)
    requires Inv(g, s)
    ensures var s' := Exec(g, s, schedule);
      && (p in s.h.installed && q in s'.h.enqOwner && q !in s.h.enqOwner ==> p < q)
      && (p in s.h.taken && q in s'.h.deqOwner && q !in s.h.deqOwner ==> p < q)
  {
    RunKeepsInv(g, s, schedule);
    assert TicketInv(g, s, p);
  }

  /** In s, the tail test of t's dequeue ticket h would pass; every value that
      is installed and not yet taken belongs to a dequeue ticket below h that
      another thread already holds. */
  ghost predicate NothingLeftFor(s: Ring, t: Tid, h: nat) {
    && PcOf(s, t) == Empty(h, LoadTail) && s.m.tail <= h + 1
    && forall p :: p in s.h.installed && p !in s.h.taken ==>
         && p < h && p in s.h.deqOwner && s.h.deqOwner[p] != t
         && DeqTicket(PcOf(s, s.h.deqOwner[p])) == Some(p)
  }

  lemma TailTestEmptiness(g: Geometry, s: Ring, t: Tid, h: nat)
    requires Inv(g, s) && PcOf(s, t) == Empty(h, LoadTail) && s.m.tail <= h + 1
    ensures NothingLeftFor(s, t, h)
  {
    assert ThreadInv(g, s, t) && TicketInv(g, s, h);
    forall p | p in s.h.installed && p !in s.h.taken
      ensures p < h && p in s.h.deqOwner && DeqTicket(PcOf(s, s.h.deqOwner[p])) == Some(p)
    {
      assert TicketInv(g, s, p);
    }
  }

  /** t has passed the tail test of h, and may have answered. */
  ghost predicate PassedTailTest(pc: Pc, h: nat) {
    || pc == Ret(EmptyByTail(h))
    || (pc.Empty? && pc.ticket == h && pc.empty != LoadTail && pc.empty != LowerThreshold(false))
  }

  lemma PassingIsTheTailTest(g: Geometry, s: Ring, t: Tid, c: Choice, h: nat)
    requires ValidGeometry(g) && |s.m.slots| == g.n
    requires !PassedTailTest(PcOf(s, t), h) && PassedTailTest(PcOf(Step(g, s, t, c), t), h)
    ensures PcOf(s, t) == Empty(h, LoadTail) && s.m.tail <= h + 1
  {
  }

  /** Every EMPTY answered by the tail test, in any run, had a moment during
      the call at which nothing was left for it. */
  lemma {:induction false} EmptyAnswerHasWitness(g: Geometry, s: Ring, schedule: seq<(Tid, Choice)>, t: Tid, h: nat)
    requires Inv(g, s) && !PassedTailTest(PcOf(s, t), h)
    requires PassedTailTest(PcOf(Exec(g, s, schedule), t), h)
    ensures exists k :: 0 <= k < |schedule| && NothingLeftFor(Exec(g, s, schedule[..k]), t, h)
    decreases |schedule|
  {
    var s1 := Step(g, s, schedule[0].0, schedule[0].1);
    StepKeepsInv(g, s, schedule[0].0, schedule[0].1);
    if PassedTailTest(PcOf(s1, t), h) {
      PassingIsTheTailTest(g, s, t, schedule[0].1, h);
      TailTestEmptiness(g, s, t, h);
      assert NothingLeftFor(Exec(g, s, schedule[..0]), t, h);
    } else {
      EmptyAnswerHasWitness(g, s1, schedule[1..], t, h);
      var k :| 0 <= k < |schedule| - 1 && NothingLeftFor(Exec(g, s1, schedule[1..][..k]), t, h);
      assert schedule[..k + 1][1..] == schedule[1..][..k];
      assert NothingLeftFor(Exec(g, s, schedule[..k + 1]), t, h);
    }
  }
}
