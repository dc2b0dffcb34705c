/**
 * What the threshold of the fetch-and-add ring is worth: it never leaves the range
 * of a signed word, and as long as there are no more indices than half the slots,
 * and at most one dequeuer more at work, a threshold below zero means that no index
 * is left but those that dequeuers hold the tickets of, or whose enqueuers are
 * still at work.
 */
module ScqThreshold {
  import opened Bits
  import opened Options
  import opened ScqRing
  import opened ScqRoom
  import opened ScqRoomSteps
  import opened ScqRuns
  import opened ScqSteps

  // ----- what is paid ----------------------------------------------------

  /** The thread has a dequeue ticket that it has not paid for: it has neither
      taken an index nor lowered the threshold. */
  predicate Owes(pc: Pc) { pc.Empty? || (pc.Deq? && !pc.deq.TestThreshold? && !pc.deq.TakeTicket?) }

  function Debtors(s: Ring): set<Tid> { set t | t in s.pcs && Owes(s.pcs[t]) }

  /** The threshold was lowered at most once for each ticket that is paid for. */
  ghost predicate ThresholdInv(g: Geometry, s: Ring) {
    && |Debtors(s)| <= s.m.head
    && |Debtors(s)| - s.m.head - 1 <= s.m.threshold <= g.threshold
  }

  lemma DebtorsStep(s: Ring, s': Ring, t: Tid)
    requires s'.pcs == s.pcs[t := PcOf(s', t)]
    ensures |Debtors(s')| == |Debtors(s)| + Bit(Owes(PcOf(s', t))) - Bit(Owes(PcOf(s, t)))
  {
    assert Debtors(s') == if Owes(PcOf(s', t)) then Debtors(s) + {t} else Debtors(s) - {t};
    if t in Debtors(s) { assert Debtors(s) + {t} == Debtors(s); }
    else { assert Debtors(s) - {t} == Debtors(s); }
  }

  /** A step of t takes a ticket, or lowers the threshold, only for a change of
      what t owes. */
  ghost predicate Pays(g: Geometry, s: Ring, s': Ring, t: Tid) {
    var debt := Bit(Owes(PcOf(s', t))) - Bit(Owes(PcOf(s, t)));
    && s'.pcs == s.pcs[t := PcOf(s', t)]
    && debt <= s'.m.head - s.m.head
    && (s'.m.threshold == g.threshold || s.m.threshold + debt - (s'.m.head - s.m.head) <= s'.m.threshold <= s.m.threshold)
  }

  lemma DeqPays(g: Geometry, s: Ring, t: Tid, c: Choice)
    requires ValidGeometry(g) && |s.m.slots| == g.n && (PcOf(s, t).Deq? || PcOf(s, t).Empty?)
    ensures Pays(g, s, Step(g, s, t, c), t)
  {
  }

  lemma OtherwisePays(g: Geometry, s: Ring, t: Tid, c: Choice)
    requires ValidGeometry(g) && |s.m.slots| == g.n && !PcOf(s, t).Deq? && !PcOf(s, t).Empty?
    ensures Step(g, s, t, c) == s || Pays(g, s, Step(g, s, t, c), t)
  {
  }

  lemma StepKeepsThreshold(g: Geometry, s: Ring, t: Tid, c: Choice)
    requires ValidGeometry(g) && |s.m.slots| == g.n && g.threshold >= -1 && ThresholdInv(g, s)
    ensures ThresholdInv(g, Step(g, s, t, c))
  {
    var s' := Step(g, s, t, c);
    if PcOf(s, t).Deq? || PcOf(s, t).Empty? { DeqPays(g, s, t, c); } else { OtherwisePays(g, s, t, c); }
    if s' != s { DebtorsStep(s, s', t); }
  }

  /** In every run the threshold stays between its reset value and minus one, less
      the number of dequeue tickets issued; so a signed word holds it. */
  lemma {:induction false} ThresholdStaysInRange(g: Geometry, s: Ring, schedule: seq<(Tid, Choice)>)
    requires ValidGeometry(g) && |s.m.slots| == g.n && g.threshold >= -1 && ThresholdInv(g, s)
    ensures ThresholdInv(g, Exec(g, s, schedule))
    ensures var m := Exec(g, s, schedule).m; -1 - m.head <= m.threshold <= g.threshold
    decreases |schedule|
  {
    if schedule != [] {
      StepKeepsThreshold(g, s, schedule[0].0, schedule[0].1);
      ThresholdStaysInRange(g, Step(g, s, schedule[0].0, schedule[0].1), schedule[1..]);
    }
  }

  // ----- what is left ----------------------------------------------------

  /** The enqueuer of ticket p has yet to look at the threshold. */
  predicate Announces(pc: Pc, p: nat) { pc.Enq? && (pc.enq == LoadThreshold(p) || pc.enq == StoreThreshold(p)) }

  /** The index of ticket p is in the ring, and its enqueuer is done with it. */
  ghost predicate Finished(s: Ring, p: nat) {
    p in s.h.installed && p !in s.h.taken && forall t :: !Announces(PcOf(s, t), p)
  }

  /** The threshold pays for every dequeuer at work, and for one more for each
      ticket from the head to p. */
  ghost predicate Reaches(s: Ring, p: nat) { s.m.threshold >= |Debtors(s)| + p - s.m.head }

  ghost predicate AllReached(s: Ring) { forall p :: Finished(s, p) && s.m.head <= p ==> Reaches(s, p) }

  /** What the clients promise: no more indices than half the slots, no more than one
      dequeuer more at work, and enqueuers that look at the threshold. */
  ghost predicate Promised(half: nat, s: Ring) {
    && Room(half, s) && |Debtors(s)| <= half + 1
    && forall t :: PcOf(s, t).Enq? ==> !PcOf(s, t).nonempty
  }

  /** No index is left for t: each one belongs to a ticket that another dequeuer
      holds, or its enqueuer is still at work. */
  ghost predicate NothingFinished(s: Ring, t: Tid) {
    forall p :: Finished(s, p) ==>
      p in s.h.deqOwner && s.h.deqOwner[p] != t && DeqTicket(PcOf(s, s.h.deqOwner[p])) == Some(p)
  }

  /** An enqueuer that looks at the threshold does so after it has installed. */
  lemma InstallAnnounces(g: Geometry, s: Ring, t: Tid, c: Choice, p: nat)
    requires ValidGeometry(g) && |s.m.slots| == g.n && PcOf(s, t).Enq? && !PcOf(s, t).nonempty
    requires p !in s.h.installed && p in Step(g, s, t, c).h.installed
    ensures Announces(PcOf(Step(g, s, t, c), t), p)
  {
  }

  lemma LastLookResets(g: Geometry, s: Ring, t: Tid, c: Choice, p: nat)
    requires ValidGeometry(g) && |s.m.slots| == g.n
    requires Announces(PcOf(s, t), p) && !Announces(PcOf(Step(g, s, t, c), t), p)
    ensures Step(g, s, t, c).m.threshold == g.threshold
  {
  }

  /** A step finishes an index only with the threshold at its reset value. */
  lemma FinishedByReset(g: Geometry, s: Ring, t: Tid, c: Choice, p: nat)
    requires Inv(g, s) && (PcOf(s, t).Enq? ==> !PcOf(s, t).nonempty)
    requires !Finished(s, p) && Finished(Step(g, s, t, c), p)
    ensures Step(g, s, t, c).m.threshold == g.threshold
  {
    hide Step, Tickets, Threads, Announces;
    var s' := Step(g, s, t, c);
    StepKeepsInv(g, s, t, c);
    assert !Announces(PcOf(s', t), p);
    if p !in s.h.installed {
      StepIsKnown(g, s, t, c);
      InstallAnnounces(g, s, t, c, p);
    }
    var u :| Announces(PcOf(s, u), p);
    assert !Announces(PcOf(s', u), p);
    LastLookResets(g, s, t, c, p);
  }

  lemma StepPays(g: Geometry, s: Ring, t: Tid, c: Choice)
    requires ValidGeometry(g) && |s.m.slots| == g.n
    ensures Step(g, s, t, c) == s || Pays(g, s, Step(g, s, t, c), t)
  {
    if PcOf(s, t).Deq? || PcOf(s, t).Empty? { DeqPays(g, s, t, c); } else { OtherwisePays(g, s, t, c); }
  }

  lemma StepKeepsReach(g: Geometry, half: nat, s: Ring, t: Tid, c: Choice)
    requires Inv(g, s) && AllReached(s) && (PcOf(s, t).Enq? ==> !PcOf(s, t).nonempty)
    requires var s' := Step(g, s, t, c); |Debtors(s')| <= half + 1 && s'.m.tail < s'.m.head + g.n
    requires g.threshold == half + g.n - 1
    ensures AllReached(Step(g, s, t, c))
  {
    hide Step, Threads, Debtors, Announces;
    var s' := Step(g, s, t, c);
    StepKeepsInv(g, s, t, c);
    StepPays(g, s, t, c);
    if s' != s {
      DebtorsStep(s, s', t);
      forall p | Finished(s', p) && s'.m.head <= p ensures Reaches(s', p) {
        assert TicketInv(g, s', p) && p in s'.h.installed;
        if Finished(s, p) { assert Reaches(s, p); } else { FinishedByReset(g, s, t, c, p); }
      }
    }
  }

  // ----- what holds throughout -------------------------------------------

  ghost predicate Sound(g: Geometry, half: nat, s: Ring) {
    Inv(g, s) && AllReached(s) && exists ws :: RoomInv(g, half, s, ws)
  }

  /** The geometry of the source, and the reset value of the threshold. */
  ghost predicate Sized(g: Geometry, half: nat) { IsDoubled(g, half) && g.threshold == half + g.n - 1 }

  lemma StepKeepsSound(g: Geometry, half: nat, s: Ring, t: Tid, c: Choice)
    requires Sized(g, half) && Sound(g, half, s) && Promised(half, s) && Promised(half, Step(g, s, t, c))
    ensures Sound(g, half, Step(g, s, t, c))
  {
    hide Step, Tickets, Threads, AllReached, Room, Debtors;
    var ws :| RoomInv(g, half, s, ws);
    var ws' := StepKeepsRoom(g, half, s, t, c, ws);
    StepKeepsInv(g, s, t, c);
    StepKeepsReach(g, half, s, t, c);
    assert RoomInv(g, half, Step(g, s, t, c), ws');
  }

  /** With the threshold below zero, or used up by a dequeuer at work, nothing is
      left for a thread that holds no dequeue ticket. */
  lemma LowMeansNothing(g: Geometry, s: Ring, t: Tid)
    requires Inv(g, s) && AllReached(s) && DeqTicket(PcOf(s, t)) == None
    requires s.m.threshold < |Debtors(s)|
    ensures NothingFinished(s, t)
  {
    hide Debtors, Announces, Threads;
    forall p: nat | Finished(s, p)
      ensures p in s.h.deqOwner && s.h.deqOwner[p] != t && DeqTicket(PcOf(s, s.h.deqOwner[p])) == Some(p)
    {
      assert TicketInv(g, s, p);
      assert !Reaches(s, p) || p < s.m.head;
    }
  }
}
