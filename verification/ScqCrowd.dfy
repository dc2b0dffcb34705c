/**
 * Why module ScqEmpty bounds the dequeuers at work: with one index and three of
 * them, a dequeue that runs alone answers EMPTY on a ring whose only index was
 * finished before it started and that no dequeuer has a ticket for.
 */
module ScqCrowd {
  import opened Options
  import opened ScqInit
  import opened ScqRing
  import opened ScqRuns
  import opened ScqThreshold
  import RingMap

  /** The ring of order 0: two slots, one index, and a threshold of two. */
  ghost predicate IsSmall(g: Geometry) {
    && ValidGeometry(g) && g.n == 2 && g.threshold == 2
    && g.loc(0) == 0 && g.loc(1) == 1 && g.loc(2) == 0 && g.loc(3) == 1 && g.loc(4) == 0
    && g.cyc(0) == 0 && g.cyc(1) == 0 && g.cyc(2) == 1 && g.cyc(3) == 1 && g.cyc(4) == 2
  }

  /** A schedule and where it leads. */
  datatype Run = Run(schedule: seq<(Tid, Choice)>, s: Ring)

  ghost predicate Leads(g: Geometry, s0: Ring, r: Run) {
    ValidGeometry(g) && |s0.m.slots| == g.n && |r.s.m.slots| == g.n && Exec(g, s0, r.schedule) == r.s
  }

  lemma {:induction false} ExecAppend(g: Geometry, s: Ring, schedule: seq<(Tid, Choice)>, last: (Tid, Choice))
    requires ValidGeometry(g) && |s.m.slots| == g.n
    ensures Exec(g, s, schedule + [last]) == Step(g, Exec(g, s, schedule), last.0, last.1)
    decreases |schedule|
  {
    hide Step;
    if schedule == [] {
      assert Exec(g, s, [last]) == Exec(g, Step(g, s, last.0, last.1), []);
    } else {
      assert (schedule + [last])[1..] == schedule[1..] + [last];
      ExecAppend(g, Step(g, s, schedule[0].0, schedule[0].1), schedule[1..], last);
    }
  }

  lemma Advance(g: Geometry, s0: Ring, r: Run, t: Tid, c: Choice) returns (r': Run)
    requires Leads(g, s0, r)
    ensures Leads(g, s0, r') && r'.s == Step(g, r.s, t, c) && r'.schedule == r.schedule + [(t, c)]
  {
    r' := Run(r.schedule + [(t, c)], Step(g, r.s, t, c));
    ExecAppend(g, s0, r.schedule, (t, c));
  }

  /** The step changes the memory to m and t's counter to pc, and no index moves. */
  ghost predicate Moved(s: Ring, s': Ring, t: Tid, m: Memory, pc: Pc) {
    s'.m == m && s'.pcs == s.pcs[t := pc] && s'.h.installed == s.h.installed && s'.h.taken == s.h.taken
  }

  const TAKE: Choice := Start(OpDequeue(false))

  /** A dequeuer takes a ticket. */
  lemma TakesTicket(g: Geometry, s0: Ring, r: Run, t: Tid) returns (r': Run)
    requires Leads(g, s0, r) && r.s.m.threshold >= 0 && (PcOf(r.s, t).Idle? || PcOf(r.s, t).Ret?)
    ensures Leads(g, s0, r')
    ensures Moved(r.s, r'.s, t, r.s.m.(head := r.s.m.head + 1), Deq(false, DeqPc.LoadSlot(r.s.m.head)))
  {
    r' := Advance(g, s0, r, t, TAKE);
    assert PcOf(r'.s, t) == Deq(false, TestThreshold);
    r' := Advance(g, s0, r', t, Go);
    assert PcOf(r'.s, t) == Deq(false, DeqPc.TakeTicket);
    r' := Advance(g, s0, r', t, Go);
  }

  /** A dequeuer finds its slot empty and gives its ticket p up. */
  lemma GivesUp(g: Geometry, s0: Ring, r: Run, t: Tid, p: nat) returns (r': Run)
    requires Leads(g, s0, r) && PcOf(r.s, t) == Deq(false, DeqPc.LoadSlot(p))
    requires var e := r.s.m.slots[g.loc(p)]; e.cycle < g.cyc(p) && e.val.None? && e.safe
    ensures Leads(g, s0, r')
    ensures Moved(r.s, r'.s, t, SetSlot(r.s.m, g.loc(p), Slot(g.cyc(p), true, None)), Empty(p, LoadTail))
  {
    r' := Advance(g, s0, r, t, Go);
    assert PcOf(r'.s, t) == Deq(false, DeqPc.CasSlot(p, r.s.m.slots[g.loc(p)]));
    r' := Advance(g, s0, r', t, Go);
  }

  /** A dequeuer that sees the tail ahead lowers the threshold. */
  lemma Lowers(g: Geometry, s0: Ring, r: Run, t: Tid, p: nat) returns (r': Run)
    requires Leads(g, s0, r) && PcOf(r.s, t) == Empty(p, LoadTail) && r.s.m.tail > p + 1
    ensures Leads(g, s0, r')
    ensures Moved(r.s, r'.s, t, r.s.m.(threshold := r.s.m.threshold - 1),
                  if r.s.m.threshold <= 0 then Ret(EmptyByThreshold) else Deq(false, DeqPc.TakeTicket))
  {
    r' := Advance(g, s0, r, t, Go);
    assert PcOf(r'.s, t) == Empty(p, LowerThreshold(false));
    r' := Advance(g, s0, r', t, Go);
  }

  /** A dequeuer that starts with the threshold below zero. */
  lemma AnswersAtOnce(g: Geometry, s0: Ring, r: Run, t: Tid) returns (r': Run)
    requires Leads(g, s0, r) && PcOf(r.s, t).Ret? && r.s.m.threshold < 0
    ensures Leads(g, s0, r') && r'.schedule == r.schedule + [(t, TAKE), (t, Go)]
    ensures Moved(r.s, r'.s, t, r.s.m, Ret(EmptyByThreshold))
  {
    r' := Advance(g, s0, r, t, TAKE);
    assert PcOf(r'.s, t) == Deq(false, TestThreshold);
    r' := Advance(g, s0, r', t, Go);
    assert [(t, TAKE), (t, Go)] == [(t, TAKE)] + [(t, Go)];
  }

  /** A dequeuer that has passed the tail test. */
  lemma LowersLast(g: Geometry, s0: Ring, r: Run, t: Tid, p: nat) returns (r': Run)
    requires Leads(g, s0, r) && PcOf(r.s, t) == Empty(p, LowerThreshold(true))
    ensures Leads(g, s0, r')
    ensures Moved(r.s, r'.s, t, r.s.m.(threshold := r.s.m.threshold - 1), Ret(EmptyByTail(p)))
  {
    r' := Advance(g, s0, r, t, Go);
  }

  /** A dequeuer that does not moves the tail up to its ticket. */
  lemma CatchesUp(g: Geometry, s0: Ring, r: Run, t: Tid, p: nat) returns (r': Run)
    requires Leads(g, s0, r) && PcOf(r.s, t) == Empty(p, LoadTail) && r.s.m.tail <= p + 1
    ensures Leads(g, s0, r')
    ensures Moved(r.s, r'.s, t, r.s.m.(tail := p + 1), Empty(p, LowerThreshold(true)))
  {
    r' := Advance(g, s0, r, t, Go);
    assert PcOf(r'.s, t) == Empty(p, CatchCas(r.s.m.tail, p + 1));
    r' := Advance(g, s0, r', t, Go);
  }

  /** The index of a full ring is taken. */
  lemma IndexIsTaken(g: Geometry, s0: Ring, r: Run, t: Tid) returns (r': Run)
    requires Leads(g, s0, r) && PcOf(r.s, t) == Deq(false, DeqPc.LoadSlot(0))
    requires r.s.m.slots[g.loc(0)] == Slot(g.cyc(0), true, Some(0))
    ensures Leads(g, s0, r') && r'.s.m == SetSlot(r.s.m, g.loc(0), Slot(g.cyc(0), true, None))
    ensures r'.s.pcs == r.s.pcs[t := Ret(Dequeued(0, 0))]
    ensures r'.s.h.installed == r.s.h.installed && r'.s.h.taken == r.s.h.taken[0 := 0]
  {
    r' := Advance(g, s0, r, t, Go);
    assert PcOf(r'.s, t) == Deq(false, Erase(0, 0));
    r' := Advance(g, s0, r', t, Go);
  }

  /** An enqueuer takes a ticket and finds its slot free. */
  lemma FindsSlot(g: Geometry, s0: Ring, r: Run, t: Tid) returns (r': Run)
    requires Leads(g, s0, r) && PcOf(r.s, t) == Idle && 1 < g.n
    requires var e := r.s.m.slots[g.loc(r.s.m.tail)]; e.cycle < g.cyc(r.s.m.tail) && e.val.None? && e.safe
    ensures Leads(g, s0, r')
    ensures Moved(r.s, r'.s, t, r.s.m.(tail := r.s.m.tail + 1),
                  Enq(0, false, EnqPc.CasSlot(r.s.m.tail, r.s.m.slots[g.loc(r.s.m.tail)])))
  {
    r' := Advance(g, s0, r, t, Start(OpEnqueue(0, false)));
    assert PcOf(r'.s, t) == Enq(0, false, EnqPc.TakeTicket);
    r' := Advance(g, s0, r', t, Go);
    assert PcOf(r'.s, t) == Enq(0, false, EnqPc.LoadSlot(r.s.m.tail));
    r' := Advance(g, s0, r', t, Go);
  }

  /** It installs, and finds the threshold at its reset value. */
  lemma Installs(g: Geometry, s0: Ring, r: Run, t: Tid, p: nat) returns (r': Run)
    requires Leads(g, s0, r) && r.s.m.threshold == g.threshold
    requires PcOf(r.s, t) == Enq(0, false, EnqPc.CasSlot(p, r.s.m.slots[g.loc(p)]))
    ensures Leads(g, s0, r') && r'.s.pcs == r.s.pcs[t := Ret(Enqueued(p))]
    ensures r'.s.m == SetSlot(r.s.m, g.loc(p), Slot(g.cyc(p), true, Some(0)))
    ensures r'.s.h.installed == r.s.h.installed[p := 0] && r'.s.h.taken == r.s.h.taken
  {
    r' := Advance(g, s0, r, t, Go);
    assert PcOf(r'.s, t) == Enq(0, false, LoadThreshold(p));
    r' := Advance(g, s0, r', t, Go);
  }

  /** Three dequeuers take tickets on the ring they have emptied, and give them up. */
  lemma ThreeGiveUp(g: Geometry, s0: Ring, r: Run) returns (r': Run)
    requires IsSmall(g) && Leads(g, s0, r) && r.s.pcs == map[] && r.s.h.installed == map[0 := 0] && r.s.h.taken == map[]
    requires r.s.m == Memory(0, 1, 2, [Slot(0, true, Some(0)), ALL_ONES])
    ensures Leads(g, s0, r') && r'.s.m == Memory(4, 1, 2, [Slot(1, true, None), Slot(1, true, None)])
    ensures r'.s.pcs == map[0 := Empty(1, LoadTail), 1 := Empty(2, LoadTail), 2 := Empty(3, LoadTail)]
    ensures r'.s.h.installed == map[0 := 0] && r'.s.h.taken == map[0 := 0]
  {
    hide Leads, Step;
    r' := TakesTicket(g, s0, r, 0);
    r' := IndexIsTaken(g, s0, r', 0);
    r' := TakesTicket(g, s0, r', 0);
    r' := TakesTicket(g, s0, r', 1);
    r' := TakesTicket(g, s0, r', 2);
    r' := GivesUp(g, s0, r', 0, 1);
    r' := GivesUp(g, s0, r', 1, 2);
    r' := GivesUp(g, s0, r', 2, 3);
  }

  /** The index comes back before they look at the tail. */
  lemma IndexComesBack(g: Geometry, s0: Ring, r: Run) returns (r': Run)
    requires IsSmall(g) && Leads(g, s0, r) && r.s.m == Memory(4, 1, 2, [Slot(1, true, None), Slot(1, true, None)])
    requires r.s.pcs == map[0 := Empty(1, LoadTail), 1 := Empty(2, LoadTail), 2 := Empty(3, LoadTail)]
    requires r.s.h.installed == map[0 := 0] && r.s.h.taken == map[0 := 0]
    ensures Leads(g, s0, r') && r'.s.m == Memory(4, 5, 2, [Slot(2, true, Some(0)), Slot(1, true, None)])
    ensures r'.s.pcs == map[0 := Empty(1, LoadTail), 1 := Empty(2, LoadTail), 2 := Empty(3, LowerThreshold(true)),
                            3 := Ret(Enqueued(4))]
    ensures r'.s.h.installed == map[0 := 0, 4 := 0] && r'.s.h.taken == map[0 := 0]
  {
    hide Leads, Step;
    r' := CatchesUp(g, s0, r, 2, 3);
    r' := FindsSlot(g, s0, r', 3);
    r' := Installs(g, s0, r', 3, 4);
  }

  /** All three lower the threshold. */
  lemma ThreeLower(g: Geometry, s0: Ring, r: Run) returns (r': Run)
    requires IsSmall(g) && Leads(g, s0, r) && r.s.m == Memory(4, 5, 2, [Slot(2, true, Some(0)), Slot(1, true, None)])
    requires r.s.pcs == map[0 := Empty(1, LoadTail), 1 := Empty(2, LoadTail), 2 := Empty(3, LowerThreshold(true)),
                            3 := Ret(Enqueued(4))]
    ensures Leads(g, s0, r') && r'.s.m == r.s.m.(threshold := -1)
    ensures r'.s.pcs == map[0 := Deq(false, DeqPc.TakeTicket), 1 := Ret(EmptyByThreshold), 2 := Ret(EmptyByTail(3)),
                            3 := Ret(Enqueued(4))]
    ensures r'.s.h.installed == r.s.h.installed && r'.s.h.taken == r.s.h.taken
  {
    hide Leads, Step;
    r' := LowersLast(g, s0, r, 2, 3);
    r' := Lowers(g, s0, r', 0, 1);
    r' := Lowers(g, s0, r', 1, 2);
  }

  /** A dequeue that starts after the index at ticket p came back, and runs alone,
      answers EMPTY although no dequeuer has come to p. */
  ghost predicate IsToldEmpty(g: Geometry, s: Ring, schedule: seq<(Tid, Choice)>, t: Tid, p: nat)
    requires ValidGeometry(g) && |s.m.slots| == g.n
  {
    var before, after := Exec(g, s, schedule), Exec(g, s, schedule + [(t, TAKE), (t, Go)]);
    && PcOf(before, t).Ret? && Finished(before, p) && before.m.head <= p
    && PcOf(after, t) == Ret(EmptyByThreshold) && after.m == before.m
  }

  lemma CrowdRun(g: Geometry, s: Ring) returns (schedule: seq<(Tid, Choice)>)
    requires IsSmall(g) && s == InitFull(g, [0], [Slot(0, true, Some(0)), ALL_ONES])
    ensures IsToldEmpty(g, s, schedule, 2, 4)
  {
    hide ValidGeometry, Step;
    var r := Run([], s);
    assert Leads(g, s, r) && s.h.installed == map[0 := 0];
    hide Exec;
    r := ThreeGiveUp(g, s, r);
    r := IndexComesBack(g, s, r);
    r := ThreeLower(g, s, r);
    schedule := r.schedule;
    var last := AnswersAtOnce(g, s, r, 2);
  }

  lemma TwoSlotsAlternate(p: nat)
    ensures RingMap.Map(p, 1, 2) == p % 2
  {
  }

  lemma SmallGeometry() returns (g: Geometry)
    ensures g == SourceGeometry(1, 2, 2, 1) && IsSmall(g) && FullSlots(g, [0], [Slot(0, true, Some(0)), ALL_ONES])
  {
    hide RingMap.Map;
    g := SourceGeometry(1, 2, 2, 1);
    SourceGeometryIsValid(1, 2, 2, 1);
    TwoSlotsAlternate(0);
    TwoSlotsAlternate(1);
    TwoSlotsAlternate(2);
    TwoSlotsAlternate(3);
    TwoSlotsAlternate(4);
  }

  /** On the full ring of order 0 there is such a run, of three dequeuers and one
      enqueuer. */
  lemma CrowdMakesEmptyFalse() returns (g: Geometry, s: Ring, schedule: seq<(Tid, Choice)>)
    ensures g == SourceGeometry(1, 2, 2, 1) && ValidGeometry(g) && FullSlots(g, [0], s.m.slots)
    ensures s == InitFull(g, [0], s.m.slots) && IsToldEmpty(g, s, schedule, 2, 4)
  {
    hide IsToldEmpty, SourceGeometry;
    g := SmallGeometry();
    s := InitFull(g, [0], [Slot(0, true, Some(0)), ALL_ONES]);
    schedule := CrowdRun(g, s);
  }
}
