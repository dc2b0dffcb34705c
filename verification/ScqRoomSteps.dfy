/**
 * Every step of the fetch-and-add ring keeps the tail within a lap of the head, as
 * long as the clients keep room.
 */
module ScqRoomSteps {
  import opened Options
  import opened ScqRing
  import opened ScqRoom
  import opened ScqSteps

  // ----- the kinds of steps ----------------------------------------------

  /** The step is t's alone. */
  ghost predicate Moves(s: Ring, s': Ring, t: Tid) { s'.pcs == s.pcs[t := PcOf(s', t)] }

  ghost predicate SameContents(s: Ring, s': Ring) { s'.h.installed == s.h.installed && s'.h.taken == s.h.taken }

  ghost predicate IsQuiet(s: Ring, s': Ring, t: Tid) {
    && SameContents(s, s') && s'.m.slots == s.m.slots && s'.m.head >= s.m.head
    && (s'.m.tail == s.m.tail || s.m.tail <= s'.m.tail <= s'.m.head)
    && EnqTicket(PcOf(s', t)) == EnqTicket(PcOf(s, t))
  }

  ghost predicate IsIssue(s: Ring, s': Ring, t: Tid) {
    && SameContents(s, s') && s'.m == s.m.(tail := s.m.tail + 1)
    && Pending(PcOf(s, t)) && EnqTicket(PcOf(s, t)) == None && EnqTicket(PcOf(s', t)) == Some(s.m.tail)
  }

  ghost predicate IsInstall(g: Geometry, s: Ring, s': Ring, t: Tid, p: nat, v: nat)
    requires ValidGeometry(g) && |s.m.slots| == g.n
  {
    && EnqTicket(PcOf(s, t)) == Some(p) && EnqTicket(PcOf(s', t)) == None
    && s'.h.installed == s.h.installed[p := v] && s'.h.taken == s.h.taken
    && s'.m == SetSlot(s.m, g.loc(p), Slot(g.cyc(p), true, Some(v)))
  }

  /** The enqueuer of ticket p gives it up: a dequeuer has passed it, or its slot
      does not take an index. */
  ghost predicate IsGivingUp(g: Geometry, s: Ring, s': Ring, t: Tid, p: nat)
    requires ValidGeometry(g) && |s.m.slots| == g.n
  {
    && EnqTicket(PcOf(s, t)) == Some(p) && EnqTicket(PcOf(s', t)) == None && Pending(PcOf(s', t))
    && s'.m == s.m && SameContents(s, s')
    && (p < s.m.head || !(s.m.slots[g.loc(p)].cycle < g.cyc(p) && s.m.slots[g.loc(p)].val.None?))
  }

  /** The dequeuer of ticket p takes the index in its slot. */
  ghost predicate IsTaking(g: Geometry, s: Ring, s': Ring, t: Tid, p: nat, v: nat)
    requires ValidGeometry(g) && |s.m.slots| == g.n
  {
    && p < s.m.head && s'.h.installed == s.h.installed && s'.h.taken == s.h.taken[p := v]
    && s'.m == SetSlot(s.m, g.loc(p), s.m.slots[g.loc(p)].(val := None))
    && EnqTicket(PcOf(s, t)) == None && EnqTicket(PcOf(s', t)) == None
  }

  /** A dequeuer overwrites a slot and gives up. */
  ghost predicate IsPassing(g: Geometry, s: Ring, s': Ring, t: Tid, p: nat)
    requires ValidGeometry(g) && |s.m.slots| == g.n
  {
    && SameContents(s, s') && s'.m == SetSlot(s.m, g.loc(p), Overwrite(g, p, s.m.slots[g.loc(p)]))
    && EnqTicket(PcOf(s, t)) == None && EnqTicket(PcOf(s', t)) == None
  }

  ghost predicate IsKnown(g: Geometry, s: Ring, s': Ring, t: Tid)
    requires ValidGeometry(g) && |s.m.slots| == g.n
  {
    || IsQuiet(s, s', t) || IsIssue(s, s', t)
    || (exists p, v :: IsInstall(g, s, s', t, p, v)) || (exists p, v :: IsTaking(g, s, s', t, p, v))
    || (exists p :: IsPassing(g, s, s', t, p)) || (exists p :: IsGivingUp(g, s, s', t, p))
  }

  lemma EnqIsKnown(g: Geometry, s: Ring, t: Tid, c: Choice)
    requires Inv(g, s) && PcOf(s, t).Enq?
    ensures var s' := Step(g, s, t, c); Moves(s, s', t) && IsKnown(g, s, s', t)
  {
    var pc, s' := PcOf(s, t), Step(g, s, t, c);
    match pc.enq
    case CasSlot(p, e) =>
      if s.m.slots[g.loc(p)] == e && c != Alt {
        assert IsInstall(g, s, s', t, p, pc.v);
      } else if EnqTicket(PcOf(s', t)) == None {
        assert IsGivingUp(g, s, s', t, p);
      }
    case LoadSlot(p) => if EnqTicket(PcOf(s', t)) == None { assert IsGivingUp(g, s, s', t, p); }
    case TestHead(p, _) => if EnqTicket(PcOf(s', t)) == None { assert IsGivingUp(g, s, s', t, p); }
    case _ =>
  }

  lemma EraseIsKnown(g: Geometry, s: Ring, t: Tid, c: Choice, p: nat, v: nat)
    requires Inv(g, s) && PcOf(s, t).Deq? && PcOf(s, t).deq == Erase(p, v)
    ensures var s' := Step(g, s, t, c); Moves(s, s', t) && IsTaking(g, s, s', t, p, v)
  {
    assert ThreadInv(g, s, t) && TicketInv(g, s, p);
  }

  lemma DeqIsKnown(g: Geometry, s: Ring, t: Tid, c: Choice)
    requires Inv(g, s) && PcOf(s, t).Deq?
    ensures var s' := Step(g, s, t, c); Moves(s, s', t) && IsKnown(g, s, s', t)
  {
    var pc, s' := PcOf(s, t), Step(g, s, t, c);
    match pc.deq
    case Erase(p, v) => EraseIsKnown(g, s, t, c, p, v);
    case CasSlot(p, e) => if s.m.slots[g.loc(p)] == e && c != Alt { assert IsPassing(g, s, s', t, p); }
    case _ =>
  }

  lemma RestIsKnown(g: Geometry, s: Ring, t: Tid, c: Choice)
    requires Inv(g, s) && !PcOf(s, t).Enq? && !PcOf(s, t).Deq?
    ensures var s' := Step(g, s, t, c); (s' == s || Moves(s, s', t)) && IsKnown(g, s, s', t)
  {
    assert ThreadInv(g, s, t);
  }

  lemma StepIsKnown(g: Geometry, s: Ring, t: Tid, c: Choice)
    requires Inv(g, s)
    ensures var s' := Step(g, s, t, c); (s' == s || Moves(s, s', t)) && IsKnown(g, s, s', t)
  {
    hide Step, Tickets, Threads, IsKnown;
    if PcOf(s, t).Enq? { EnqIsKnown(g, s, t, c); }
    else if PcOf(s, t).Deq? { DeqIsKnown(g, s, t, c); }
    else { RestIsKnown(g, s, t, c); }
  }

  // ----- live tickets ----------------------------------------------------

  /** Another thread holds enqueue ticket p. */
  ghost predicate HeldByOther(s: Ring, t: Tid, p: nat) { exists u :: u != t && EnqTicket(PcOf(s, u)) == Some(p) }

  lemma HeldIs(s: Ring, t: Tid, p: nat)
    ensures p in HeldTickets(s) <==> EnqTicket(PcOf(s, t)) == Some(p) || HeldByOther(s, t, p)
  {
    if p in HeldTickets(s) {
      var u :| u in s.pcs && EnqTicket(s.pcs[u]) == Some(p);
      assert EnqTicket(PcOf(s, u)) == Some(p);
    }
    if EnqTicket(PcOf(s, t)) == Some(p) { assert t in s.pcs; }
    if u :| u != t && EnqTicket(PcOf(s, u)) == Some(p) { assert u in s.pcs; }
  }

  lemma OthersHold(s: Ring, s': Ring, t: Tid, p: nat)
    requires s' == s || Moves(s, s', t)
    ensures HeldByOther(s', t, p) <==> HeldByOther(s, t, p)
  {
    if u :| u != t && EnqTicket(PcOf(s, u)) == Some(p) { assert EnqTicket(PcOf(s', u)) == Some(p); }
    if u :| u != t && EnqTicket(PcOf(s', u)) == Some(p) { assert EnqTicket(PcOf(s, u)) == Some(p); }
  }

  /** No step makes an issued ticket live again. */
  lemma LiveShrinks(g: Geometry, s: Ring, s': Ring, t: Tid, p: nat)
    requires ValidGeometry(g) && |s.m.slots| == g.n && (s' == s || Moves(s, s', t)) && IsKnown(g, s, s', t)
    requires p in Live(s') && p < s.m.tail
    ensures p in Live(s)
  {
    HeldIs(s, t, p);
    HeldIs(s', t, p);
    OthersHold(s, s', t, p);
    hide HeldTickets, HeldByOther;
  }

  /** A live ticket that no dequeuer has reached stays live, unless its enqueuer
      gives it up. */
  lemma LiveStays(g: Geometry, s: Ring, s': Ring, t: Tid, p: nat)
    requires ValidGeometry(g) && |s.m.slots| == g.n && TicketInv(g, s, p)
    requires (s' == s || Moves(s, s', t)) && IsKnown(g, s, s', t)
    requires p in Live(s) && s.m.head <= p && !IsGivingUp(g, s, s', t, p)
    ensures p in Live(s')
  {
    HeldIs(s, t, p);
    HeldIs(s', t, p);
    OthersHold(s, s', t, p);
    hide HeldTickets, HeldByOther;
  }

  // ----- occupied slots --------------------------------------------------

  /** The step leaves the index in slot j alone, or puts one there. */
  lemma SlotStays(g: Geometry, s: Ring, s': Ring, t: Tid, j: nat)
    requires Inv(g, s) && IsKnown(g, s, s', t) && OccupantInv(g, s) && |s'.m.slots| == g.n
    requires j < g.n && s'.m.slots[j].val.Some?
    ensures exists e :: Occupied(g, s', e, j)
  {
    if p, v :| IsInstall(g, s, s', t, p, v) {
      assert ThreadInv(g, s, t) && TicketInv(g, s, p);
      if g.loc(p) == j { assert Occupied(g, s', p, j); return; }
    }
    var e :| Occupied(g, s, e, j);
    assert Occupied(g, s', e, j);
  }

  // ----- a wasted ticket -------------------------------------------------

  /** The slot at which an enqueuer gives up a ticket that no dequeuer has
      reached holds the index of an older ticket. */
  lemma GivenUpIsBlocked(g: Geometry, half: nat, s: Ring, s': Ring, t: Tid, p: nat) returns (e: nat)
    requires IsDoubled(g, half) && Inv(g, s) && OccupantInv(g, s) && s.m.tail < s.m.head + g.n
    requires IsGivingUp(g, s, s', t, p) && s.m.head <= p
    ensures e in Untaken(s) && e < p && g.loc(e) == g.loc(p)
  {
    assert ThreadInv(g, s, t) && TicketInv(g, s, p);
    var w := s.m.slots[g.loc(p)];
    if w.cycle > g.cyc(p) {
      var q := p + (w.cycle - g.cyc(p)) * g.n;
      LapsAhead(g, half, p, w.cycle - g.cyc(p));
      assert TicketInv(g, s, q);
      WithinALap(g, half, p, q);
      assert false;
    } else {
      e :| Occupied(g, s, e, g.loc(p));
      assert g.cyc(e) < g.cyc(p);
    }
  }

  /** The record stays good over a step that makes no issued ticket live. */
  lemma WasteStays(g: Geometry, half: nat, s: Ring, s': Ring, ws: seq<Waste>)
    requires WasteInv(g, half, s, ws) && s.m.tail <= s'.m.tail
    requires forall x :: x in Live(s') && x < s.m.tail ==> x in Live(s)
    ensures WasteInv(g, half, s', ws)
  {
    hide Live;
    forall i | 0 <= i < |ws| ensures WereLive(Live(s'), ws[i]) { assert WereLive(Live(s), ws[i]); }
  }

  /** What is recorded of a ticket given up. */
  lemma AddWaste(g: Geometry, half: nat, s: Ring, ws: seq<Waste>, w: Waste)
    requires WasteInv(g, half, s, ws) && IsWaste(g, half, w) && w.tail == s.m.tail
    requires w.live == Live(s) && w.blocker in Live(s)
    ensures WasteInv(g, half, s, ws + [w])
  {
    hide Live;
    var ws' := ws + [w];
    forall i | 0 <= i < |ws| ensures BlockedThen(ws[i], w) { assert WereLive(Live(s), ws[i]); }
    forall i, j | 0 <= i <= j < |ws'| ensures BlockedThen(ws'[i], ws'[j]) {
      if j < |ws| { assert BlockedThen(ws[i], ws[j]); }
    }
  }

  lemma WasteIsKept(g: Geometry, half: nat, s: Ring, s': Ring, t: Tid, ws: seq<Waste>, p: nat) returns (w: Waste)
    requires IsDoubled(g, half) && Inv(g, s) && RoomInv(g, half, s, ws) && Room(half, s') && WasteInv(g, half, s', ws)
    requires Moves(s, s', t) && IsGivingUp(g, s, s', t, p) && s.m.head <= p
    ensures w.ticket == p && WasteInv(g, half, s', ws + [w])
  {
    var e := GivenUpIsBlocked(g, half, s, s', t, p);
    w := Waste(p, e, Live(s'), s'.m.tail);
    assert ThreadInv(g, s, t) && TicketInv(g, s, p);
    assert t in Waiting(s') && EnqTicket(s'.pcs[t]) == None;
    LiveBound(half, s', t);
    AddWaste(g, half, s', ws, w);
  }

  // ----- every step ------------------------------------------------------

  /** The tail stays within a lap. */
  lemma TailStaysNear(g: Geometry, half: nat, s: Ring, s': Ring, t: Tid, ws: seq<Waste>)
    requires IsDoubled(g, half) && |s.m.slots| == g.n && RoomInv(g, half, s, ws) && Room(half, s) && IsKnown(g, s, s', t)
    ensures s.m.tail <= s'.m.tail < s'.m.head + g.n && s.m.head <= s'.m.head
    ensures s'.m.tail <= s'.m.head || s'.m.tail <= s.m.tail || (s'.m.tail == s.m.tail + 1 && s.m.tail in Live(s'))
  {
    if IsIssue(s, s', t) {
      assert t in Waiting(s) && t in s'.pcs;
      TailWithinLap(g, half, s, ws, t);
    }
  }

  /** One step of any thread keeps all of it. */
  lemma StepKeepsRoom(g: Geometry, half: nat, s: Ring, t: Tid, c: Choice, ws: seq<Waste>) returns (ws': seq<Waste>)
    requires IsDoubled(g, half) && Inv(g, s) && RoomInv(g, half, s, ws) && Room(half, s) && Room(half, Step(g, s, t, c))
    ensures RoomInv(g, half, Step(g, s, t, c), ws')
  {
    hide Step, IsKnown, Live, Tickets, Threads, WasteInv, Room;
    var s' := Step(g, s, t, c);
    StepIsKnown(g, s, t, c);
    TailStaysNear(g, half, s, s', t, ws);
    forall x | x in Live(s') && x < s.m.tail ensures x in Live(s) { LiveShrinks(g, s, s', t, x); }
    WasteStays(g, half, s, s', ws);
    forall j: nat | j < |s'.m.slots| && s'.m.slots[j].val.Some? ensures exists e :: Occupied(g, s', e, j) {
      SlotStays(g, s, s', t, j);
    }
    ws' := ws;
    if p :| s.m.head <= p && IsGivingUp(g, s, s', t, p) && s' != s {
      var w := WasteIsKept(g, half, s, s', t, ws, p);
      ws' := ws + [w];
      assert ws'[|ws|].ticket == p;
    }
    forall q: nat | s'.m.head <= q < s'.m.tail ensures q in Live(s') || IsWasted(ws', q) {
      StaysAccounted(g, half, s, s', t, ws, ws', q);
    }
  }

  lemma StaysAccounted(g: Geometry, half: nat, s: Ring, s': Ring, t: Tid, ws: seq<Waste>, ws': seq<Waste>, q: nat)
    requires Inv(g, s) && Accounted(s, ws) && (s' == s || Moves(s, s', t)) && IsKnown(g, s, s', t) && ws <= ws'
    requires IsGivingUp(g, s, s', t, q) ==> IsWasted(ws', q)
    requires s'.m.tail <= s'.m.head || s'.m.tail <= s.m.tail || (s'.m.tail == s.m.tail + 1 && s.m.tail in Live(s'))
    requires s.m.head <= s'.m.head <= q < s'.m.tail
    ensures q in Live(s') || IsWasted(ws', q)
  {
    hide IsKnown, IsGivingUp, Live, Threads;
    if q < s.m.tail {
      if IsWasted(ws, q) {
        var i :| 0 <= i < |ws| && ws[i].ticket == q;
        assert ws'[i].ticket == q;
      } else if !IsGivingUp(g, s, s', t, q) {
        assert TicketInv(g, s, q);
        LiveStays(g, s, s', t, q);
      }
    }
  }
}
