/**
 * What every run of the naive ring keeps.
 */
module NcqRuns {
  import Fifo
  import opened NcqRing
  import opened NcqSteps

  ghost function Exec(g: Geometry, s: Ring, schedule: seq<(Tid, Choice)>): (s': Ring)
    requires ValidGeometry(g) && |s.m.slots| == g.n
    ensures |s'.m.slots| == g.n
    decreases |schedule|
  {
    if schedule == [] then s else Exec(g, Step(g, s, schedule[0].0, schedule[0].1), schedule[1..])
  }

  /** The clients keep room at every moment of a run. */
  ghost predicate RoomThroughout(g: Geometry, s: Ring, schedule: seq<(Tid, Choice)>)
    requires ValidGeometry(g) && |s.m.slots| == g.n
    decreases |schedule|
  {
    Room(g, s) && (schedule != [] ==> RoomThroughout(g, Step(g, s, schedule[0].0, schedule[0].1), schedule[1..]))
  }

  lemma {:induction false} RunKeepsInv(g: Geometry, s: Ring, schedule: seq<(Tid, Choice)>)
    requires Inv(g, s) && RoomThroughout(g, s, schedule)
    ensures Inv(g, Exec(g, s, schedule))
    decreases |schedule|
  {
    if schedule != [] {
      StepKeepsInv(g, s, schedule[0].0, schedule[0].1);
      RunKeepsInv(g, Step(g, s, schedule[0].0, schedule[0].1), schedule[1..]);
    }
  }

  /** What a step does to the queue: the entry CAS appends, the head CAS removes
      and returns the front, EMPTY is answered only by an empty queue, and no
      other step changes the content. */
  ghost predicate FifoStep(s: Ring, s': Ring, t: Tid) {
    var pc, pc' := PcOf(s, t), PcOf(s', t);
    if pc.Enq? && !pc.enq.MoveTail? && pc'.Enq? && pc'.enq.MoveTail? then s'.items == s.items + [pc.v]
    else if pc.Deq? && pc'.Ret? && pc'.res.Dequeued? then s.items == [pc'.res.v] + s'.items
    else s'.items == s.items && (pc.Deq? && pc'.Ret? ==> pc'.res.WasEmpty? && s.items == [])
  }

  /** Refinement: each step is an append, a removal of the front, an answer
      EMPTY by an empty queue, or no change of a first-in first-out queue; so
      every operation takes effect in one step of its own thread. */
  lemma StepRefinesFifo(g: Geometry, s: Ring, t: Tid, c: Choice)
    requires Inv(g, s)
    ensures FifoStep(s, Step(g, s, t, c), t)
  {
    assert ThreadInv(g, s, t);
    var pc := PcOf(s, t);
    if pc.Deq? && pc.deq.LoadEntry? { assert SlotInv(g, s, pc.deq.head); }
  }

  predicate IsPending(pc: Pc) { pc.Enq? && !pc.enq.MoveTail? }

  /** A step of t changes what t is waiting for, and nothing about the others. */
  lemma PendingStep(s: Ring, s': Ring, t: Tid)
    requires s'.pcs == s.pcs[t := PcOf(s', t)]
    ensures Pending(s') == if IsPending(PcOf(s', t)) then Pending(s) + {t} else Pending(s) - {t}
    ensures t in Pending(s) <==> IsPending(PcOf(s, t))
  {
  }

  lemma PendingSize(s: Ring, s': Ring, t: Tid)
    requires s'.pcs == s.pcs[t := PcOf(s', t)]
    ensures |Pending(s')| == |Pending(s)| + (if IsPending(PcOf(s', t)) then 1 else 0) - (if IsPending(PcOf(s, t)) then 1 else 0)
  {
    PendingStep(s, s', t);
    if t in Pending(s) { assert Pending(s) + {t} == Pending(s); }
    else { assert Pending(s) - {t} == Pending(s); }
  }

  lemma StepMovesOne(g: Geometry, s: Ring, t: Tid, c: Choice)
    requires ValidGeometry(g) && |s.m.slots| == g.n
    ensures Step(g, s, t, c) == s || Step(g, s, t, c).pcs == s.pcs[t := PcOf(Step(g, s, t, c), t)]
    ensures IsPending(PcOf(Step(g, s, t, c), t)) && !IsPending(PcOf(s, t)) ==>
      c.Start? && c.op.OpEnqueue? && !PcOf(s, t).Enq? && !PcOf(s, t).Deq?
  {
  }

  /** Only starting an enqueue can use up room, so that is where the clients have
      to look. */
  lemma RoomOnlyShrinksAtStart(g: Geometry, s: Ring, t: Tid, c: Choice)
    requires Inv(g, s) && Room(g, s)
    requires c.Start? && c.op.OpEnqueue? && !PcOf(s, t).Enq? && !PcOf(s, t).Deq? ==> |s.items| + |Pending(s)| < g.n
    ensures Room(g, Step(g, s, t, c))
  {
    var s' := Step(g, s, t, c);
    StepMovesOne(g, s, t, c);
    StepRefinesFifo(g, s, t, c);
    if s' != s { PendingSize(s, s', t); }
  }

  /** What a step of t appends, and what it removes. */
  ghost function Appended(s: Ring, s': Ring, t: Tid): seq<nat> {
    var pc, pc' := PcOf(s, t), PcOf(s', t);
    if pc.Enq? && !pc.enq.MoveTail? && pc'.Enq? && pc'.enq.MoveTail? then [pc.v] else []
  }

  ghost function Removed(s: Ring, s': Ring, t: Tid): seq<nat> {
    var pc, pc' := PcOf(s, t), PcOf(s', t);
    if pc.Deq? && pc'.Ret? && pc'.res.Dequeued? then [pc'.res.v] else []
  }

  ghost function AllAppended(g: Geometry, s: Ring, schedule: seq<(Tid, Choice)>): seq<nat>
    requires ValidGeometry(g) && |s.m.slots| == g.n
    decreases |schedule|
  {
    if schedule == [] then []
    else
      var s' := Step(g, s, schedule[0].0, schedule[0].1);
      Appended(s, s', schedule[0].0) + AllAppended(g, s', schedule[1..])
  }

  ghost function AllRemoved(g: Geometry, s: Ring, schedule: seq<(Tid, Choice)>): seq<nat>
    requires ValidGeometry(g) && |s.m.slots| == g.n
    decreases |schedule|
  {
    if schedule == [] then []
    else
      var s' := Step(g, s, schedule[0].0, schedule[0].1);
      Removed(s, s', schedule[0].0) + AllRemoved(g, s', schedule[1..])
  }

  /** Over any run in which the clients keep room: what was in the queue, then
      all that was appended, is all that was returned, then what is left. */
  lemma {:induction false} RunIsFifo(g: Geometry, s: Ring, schedule: seq<(Tid, Choice)>)
    requires Inv(g, s) && RoomThroughout(g, s, schedule)
    ensures s.items + AllAppended(g, s, schedule) == AllRemoved(g, s, schedule) + Exec(g, s, schedule).items
    decreases |schedule|
  {
    if schedule != [] {
      var (t, c) := schedule[0];
      var s' := Step(g, s, t, c);
      StepKeepsInv(g, s, t, c);
      StepRefinesFifo(g, s, t, c);
      RunIsFifo(g, s', schedule[1..]);
      Fifo.Balance(s.items, s'.items, Exec(g, s', schedule[1..]).items, Appended(s, s', t), Removed(s, s', t),
              AllAppended(g, s', schedule[1..]), AllRemoved(g, s', schedule[1..]));
    }
  }
}
