/**
 * How far the tail of the fetch-and-add ring can run ahead of the head: with at
 * most half as many indices as slots, never more than one lap.  An enqueuer
 * wastes a ticket that no dequeuer has reached only on a slot that still holds an
 * older index, and within a lap each such index can cost one ticket.
 */
module ScqRoom {
  import opened Options
  import opened ScqRing
  import opened ScqSteps

  /** Slots repeat from lap to lap, and there are twice as many as indices. */
  ghost predicate IsDoubled(g: Geometry, half: nat) {
    && ValidGeometry(g) && half > 0 && g.n == 2 * half
    && forall p: nat :: IsPeriodic(g, p)
  }

  ghost predicate IsPeriodic(g: Geometry, p: nat) { g.loc(p + g.n) == g.loc(p) && g.cyc(p + g.n) == g.cyc(p) + 1 }

  lemma {:induction false} LapsAhead(g: Geometry, half: nat, p: nat, k: nat)
    requires IsDoubled(g, half)
    ensures g.loc(p + k * g.n) == g.loc(p) && g.cyc(p + k * g.n) == g.cyc(p) + k
  {
    if k > 0 {
      LapsAhead(g, half, p, k - 1);
      assert IsPeriodic(g, p + (k - 1) * g.n);
      assert p + (k - 1) * g.n + g.n == p + k * g.n;
    }
  }

  /** Within one lap, tickets have different slots. */
  lemma WithinALap(g: Geometry, half: nat, p: nat, q: nat)
    requires IsDoubled(g, half) && p < q && g.loc(p) == g.loc(q)
    ensures p + g.n <= q && g.cyc(p) < g.cyc(q)
  {
    assert IsPeriodic(g, p) && g.cyc(p) <= g.cyc(q);
    assert q <= p + g.n ==> g.cyc(q) <= g.cyc(p + g.n);
  }

  // ----- what is in the ring ---------------------------------------------

  /** The enqueuers that have not installed their index yet. */
  function Waiting(s: Ring): set<Tid> { set t | t in s.pcs && Pending(s.pcs[t]) }

  /** The tickets whose indices are in the ring. */
  function Untaken(s: Ring): set<nat> { set p | p in s.h.installed && p !in s.h.taken }

  /** The tickets that enqueuers hold. */
  ghost function HeldTickets(s: Ring): set<nat> {
    set t | t in s.pcs && EnqTicket(s.pcs[t]).Some? :: EnqTicket(s.pcs[t]).value
  }

  ghost function Live(s: Ring): set<nat> { Untaken(s) + HeldTickets(s) }

  /** What the clients promise: no more indices than half the slots. */
  ghost predicate Room(half: nat, s: Ring) { |Untaken(s)| + |Waiting(s)| <= half }

  lemma {:induction false} ImageBound(ts: set<Tid>, pcs: map<Tid, Pc>, image: set<nat>)
    requires forall p :: p in image ==> exists t :: t in ts && t in pcs && EnqTicket(pcs[t]) == Some(p)
    ensures |image| <= |ts|
    decreases |image|
  {
    if image != {} {
      var p :| p in image;
      var t :| t in ts && t in pcs && EnqTicket(pcs[t]) == Some(p);
      ImageBound(ts - {t}, pcs, image - {p});
    }
  }

  /** With an enqueuer that has no ticket, one ticket less is live than there is
      room. */
  lemma LiveBound(half: nat, s: Ring, t: Tid)
    requires Room(half, s) && t in Waiting(s) && EnqTicket(s.pcs[t]) == None
    ensures |Live(s)| <= half - 1
  {
    forall p | p in HeldTickets(s) ensures exists u :: u in Waiting(s) - {t} && u in s.pcs && EnqTicket(s.pcs[u]) == Some(p) {
      var u :| u in s.pcs && EnqTicket(s.pcs[u]) == Some(p);
      assert u in Waiting(s) - {t};
    }
    ImageBound(Waiting(s) - {t}, s.pcs, HeldTickets(s));
    assert |Waiting(s) - {t}| == |Waiting(s)| - 1;
    UnionBound(Untaken(s), HeldTickets(s));
  }

  lemma UnionBound(a: set<nat>, b: set<nat>)
    ensures |a + b| <= |a| + |b|
  {
    assert a + b == a + (b - a);
    assert |a + (b - a)| == |a| + |b - a|;
    assert b == (b - a) + (b * a);
    assert |b| == |b - a| + |b * a|;
  }

  // ----- wasted tickets --------------------------------------------------

  /** A slot that holds an index holds that of a ticket not taken yet. */
  ghost predicate Occupied(g: Geometry, s: Ring, e: nat, j: nat)
    requires j < |s.m.slots|
  {
    e in Untaken(s) && g.loc(e) == j && g.cyc(e) == s.m.slots[j].cycle
  }

  ghost predicate OccupantInv(g: Geometry, s: Ring) {
    forall j: nat :: j < |s.m.slots| && s.m.slots[j].val.Some? ==> exists e :: Occupied(g, s, e, j)
  }

  /** An enqueuer wasted a ticket on the slot of a blocker; live holds the tickets
      that were live then, and tail was the tail. */
  datatype Waste = Waste(ticket: nat, blocker: nat, live: set<nat>, tail: nat)

  ghost predicate IsWaste(g: Geometry, half: nat, w: Waste) {
    w.ticket < w.tail && w.blocker < w.ticket && g.loc(w.blocker) == g.loc(w.ticket) && |w.live| <= half - 1
  }

  /** The waste record: what is live now and was issued before a waste was live
      then, and so were the blockers of that waste and later ones. */
  ghost predicate WasteInv(g: Geometry, half: nat, s: Ring, ws: seq<Waste>) {
    && (forall i :: 0 <= i < |ws| ==> IsWaste(g, half, ws[i]) && ws[i].tail <= s.m.tail && WereLive(Live(s), ws[i]))
    && (forall i, j :: 0 <= i <= j < |ws| ==> BlockedThen(ws[i], ws[j]))
  }

  ghost predicate WereLive(live: set<nat>, w: Waste) { forall x :: x in live && x < w.tail ==> x in w.live }

  /** The blocker of the later waste was live at the earlier one, if issued. */
  ghost predicate BlockedThen(earlier: Waste, later: Waste) {
    later.blocker < earlier.tail ==> later.blocker in earlier.live
  }

  ghost predicate IsWasted(ws: seq<Waste>, q: nat) { exists i :: 0 <= i < |ws| && ws[i].ticket == q }

  /** Every ticket from head to tail is live or wasted. */
  ghost predicate Accounted(s: Ring, ws: seq<Waste>) {
    forall q: nat :: s.m.head <= q < s.m.tail ==> q in Live(s) || IsWasted(ws, q)
  }

  ghost predicate RoomInv(g: Geometry, half: nat, s: Ring, ws: seq<Waste>) {
    OccupantInv(g, s) && s.m.tail < s.m.head + g.n && WasteInv(g, half, s, ws) && Accounted(s, ws)
  }

  // ----- counting a lap --------------------------------------------------

  function Range(a: nat, b: nat): (r: set<nat>)
    ensures forall q :: q in r <==> a <= q < b
    ensures |r| == if a <= b then b - a else 0
    decreases b - a
  {
    if a < b then Range(a, b - 1) + {b - 1} else {}
  }

  ghost function WastedWithin(ws: seq<Waste>, a: nat, b: nat): set<nat> { set q: nat | a <= q < b && IsWasted(ws, q) }

  /** The first waste of a ticket of the lap. */
  lemma {:induction false} FirstWithin(ws: seq<Waste>, a: nat, b: nat, i: nat) returns (k: nat)
    requires i < |ws| && a <= ws[i].ticket < b
    ensures k < |ws| && a <= ws[k].ticket < b && forall j :: 0 <= j < k ==> !(a <= ws[j].ticket < b)
  {
    if j :| 0 <= j < i && a <= ws[j].ticket < b { k := FirstWithin(ws, a, b, j); } else { k := i; }
  }

  /** Each wasted ticket of the lap from a has a blocker that was live at the first
      waste of the lap. */
  ghost predicate BlockedBy(g: Geometry, live: set<nat>, q: nat, e: nat) { e in live && g.loc(e) == g.loc(q) }

  lemma BlockerOf(g: Geometry, half: nat, s: Ring, ws: seq<Waste>, a: nat, k: nat, q: nat)
    requires IsDoubled(g, half) && WasteInv(g, half, s, ws) && k < |ws| && a <= ws[k].ticket < a + g.n
    requires IsWasted(ws, q) && a <= q < a + g.n
    requires forall j :: 0 <= j < k ==> !(a <= ws[j].ticket < a + g.n)
    ensures exists e :: BlockedBy(g, ws[k].live, q, e)
  {
    var j: nat :| j < |ws| && ws[j].ticket == q;
    assert IsWaste(g, half, ws[j]) && IsWaste(g, half, ws[k]) && BlockedThen(ws[k], ws[j]);
    WithinALap(g, half, ws[j].blocker, q);
    assert BlockedBy(g, ws[k].live, q, ws[j].blocker);
  }

  /** Tickets of one lap with different slots have different blockers. */
  lemma {:induction false} BlockedBound(g: Geometry, half: nat, live: set<nat>, wasted: set<nat>, a: nat)
    requires IsDoubled(g, half) && forall q :: q in wasted ==> a <= q < a + g.n && exists e :: BlockedBy(g, live, q, e)
    ensures |wasted| <= |live|
    decreases |wasted|
  {
    if wasted != {} {
      var q :| q in wasted;
      var e :| BlockedBy(g, live, q, e);
      forall p | p in wasted - {q} ensures exists d :: BlockedBy(g, live - {e}, p, d) {
        var d :| BlockedBy(g, live, p, d);
        if p < q { LapIsApart(g, half, a, p, q); } else { LapIsApart(g, half, a, q, p); }
        assert BlockedBy(g, live - {e}, p, d);
      }
      BlockedBound(g, half, live - {e}, wasted - {q}, a);
    }
  }

  lemma LapIsApart(g: Geometry, half: nat, a: nat, p: nat, q: nat)
    requires IsDoubled(g, half) && a <= p < q < a + g.n
    ensures g.loc(p) != g.loc(q)
  {
    if g.loc(p) == g.loc(q) { WithinALap(g, half, p, q); }
  }

  /** Within the lap from head, fewer tickets are wasted than half the slots: all
      their blockers were live at the first waste. */
  lemma WastedBound(g: Geometry, half: nat, s: Ring, ws: seq<Waste>)
    requires IsDoubled(g, half) && WasteInv(g, half, s, ws)
    ensures |WastedWithin(ws, s.m.head, s.m.head + g.n)| <= half - 1
  {
    var a := s.m.head;
    var wasted := WastedWithin(ws, a, a + g.n);
    if wasted != {} {
      var q :| q in wasted;
      var i: nat :| i < |ws| && ws[i].ticket == q;
      var k := FirstWithin(ws, a, a + g.n, i);
      forall p | p in wasted ensures exists e :: BlockedBy(g, ws[k].live, p, e) { BlockerOf(g, half, s, ws, a, k, p); }
      BlockedBound(g, half, ws[k].live, wasted, a);
      assert IsWaste(g, half, ws[k]);
    }
  }

  /** So an enqueuer about to take a ticket finds the tail less than a lap ahead,
      and it still is one ticket later. */
  lemma TailWithinLap(g: Geometry, half: nat, s: Ring, ws: seq<Waste>, t: Tid)
    requires IsDoubled(g, half) && RoomInv(g, half, s, ws) && Room(half, s)
    requires t in Waiting(s) && EnqTicket(s.pcs[t]) == None
    ensures s.m.tail + 1 < s.m.head + g.n
  {
    hide Live, WasteInv, OccupantInv, Waiting;
    if s.m.tail + 1 == s.m.head + g.n {
      var a := s.m.head;
      var wasted := WastedWithin(ws, a, a + g.n);
      var lap := Range(a, a + g.n - 1);
      LiveBound(half, s, t);
      WastedBound(g, half, s, ws);
      assert lap <= Live(s) + wasted;
      SubsetSize(lap, Live(s) + wasted);
      UnionBound(Live(s), wasted);
    }
  }

  lemma SubsetSize(a: set<nat>, b: set<nat>)
    requires a <= b
    ensures |a| <= |b|
  {
    assert b == a + (b - a);
  }
}
