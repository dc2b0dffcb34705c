/**
 * EMPTY is true: with no more indices than half the slots, and at most one dequeuer
 * more at work, every dequeue of the fetch-and-add ring that answers EMPTY, by the tail
 * test or by the threshold, had a moment at which no finished index was left for it.
 */
module ScqEmpty {
  import opened Bits
  import opened Options
  import opened ScqInit
  import opened ScqRing
  import opened ScqRoom
  import opened ScqRuns
  import opened ScqSteps
  import opened ScqThreshold
  import C = ScqCalls
  import L = ScqLayout
  import RingMap
  import W = ScqWordRuns
  import Words = ScqWords

  /** The thread has answered EMPTY, or will. */
  predicate AnsweredEmpty(pc: Pc) {
    match pc
    case Ret(res) => res.EmptyByTail? || res.EmptyByThreshold?
    case Empty(_, pc) => !pc.LoadTail? && pc != LowerThreshold(false)
    case _ => false
  }

  /** What a bystander has seen since t started its latest operation: a moment at
      which nothing was left for t. */
  ghost function Seen(saw: bool, started: bool, s: Ring, t: Tid): bool { (!started && saw) || NothingFinished(s, t) }

  ghost function SawNothing(g: Geometry, s: Ring, schedule: seq<(Tid, Choice)>, t: Tid, saw: bool): bool
    requires ValidGeometry(g) && |s.m.slots| == g.n
    decreases |schedule|
  {
    if schedule == [] then saw
    else
      var (u, c) := schedule[0];
      var s' := Step(g, s, u, c);
      SawNothing(g, s', schedule[1..], t, Seen(saw, C.Started(g, s, u, c, t).Some?, s', t))
  }

  ghost predicate PromisedThroughout(g: Geometry, half: nat, s: Ring, schedule: seq<(Tid, Choice)>)
    requires ValidGeometry(g) && |s.m.slots| == g.n
    decreases |schedule|
  {
    && Promised(half, s)
    && (schedule != [] ==> PromisedThroughout(g, half, Step(g, s, schedule[0].0, schedule[0].1), schedule[1..]))
  }

  ghost predicate Watches(s: Ring, t: Tid, saw: bool) {
    (NothingFinished(s, t) ==> saw) && (AnsweredEmpty(PcOf(s, t)) ==> saw)
  }

  /** A thread comes to answer EMPTY only where nothing is left for it. */
  lemma EmptyIsTrue(g: Geometry, s: Ring, t: Tid, c: Choice)
    requires Inv(g, s) && AllReached(s)
    requires !AnsweredEmpty(PcOf(s, t)) && AnsweredEmpty(PcOf(Step(g, s, t, c), t))
    ensures NothingFinished(s, t)
  {
    var pc := PcOf(s, t);
    if pc.Deq? && pc.deq.TestThreshold? {
      LowMeansNothing(g, s, t);
    } else if pc.Empty? && pc.empty.LoadTail? {
      TailTestEmptiness(g, s, t, pc.ticket);
    } else if pc == Empty(pc.ticket, LowerThreshold(false)) {
      assert t in Debtors(s);
      LowMeansNothing(g, s, t);
    }
  }

  lemma StepKeepsWatch(g: Geometry, s: Ring, u: Tid, c: Choice, t: Tid, saw: bool)
    requires Inv(g, s) && AllReached(s) && Watches(s, t, saw)
    ensures var s' := Step(g, s, u, c); Watches(s', t, Seen(saw, C.Started(g, s, u, c, t).Some?, s', t))
  {
    hide NothingFinished, Tickets, Threads, AllReached, Step;
    var s' := Step(g, s, u, c);
    StepKeepsInv(g, s, u, c);
    if C.Started(g, s, u, c, t).Some? {
      StartIsOpen(g, s, t, c);
    } else if u == t && !AnsweredEmpty(PcOf(s, t)) && AnsweredEmpty(PcOf(s', t)) {
      EmptyIsTrue(g, s, t, c);
    }
  }

  lemma StartIsOpen(g: Geometry, s: Ring, t: Tid, c: Choice)
    requires ValidGeometry(g) && |s.m.slots| == g.n && C.Started(g, s, t, c, t).Some?
    ensures !AnsweredEmpty(PcOf(Step(g, s, t, c), t))
  {
  }

  lemma {:induction false} RunKeepsWatch(g: Geometry, half: nat, s: Ring, schedule: seq<(Tid, Choice)>, t: Tid, saw: bool)
    requires Sized(g, half) && Sound(g, half, s) && PromisedThroughout(g, half, s, schedule) && Watches(s, t, saw)
    ensures Sound(g, half, Exec(g, s, schedule))
    ensures Watches(Exec(g, s, schedule), t, SawNothing(g, s, schedule, t, saw))
    decreases |schedule|
  {
    hide Watches, Promised, AllReached, Step, RoomInv, IsDoubled, Tickets, Threads;
    if schedule != [] {
      var (u, c) := schedule[0];
      var s' := Step(g, s, u, c);
      assert Promised(half, s');
      StepKeepsSound(g, half, s, u, c);
      StepKeepsWatch(g, s, u, c, t, saw);
      RunKeepsWatch(g, half, s', schedule[1..], t, Seen(saw, C.Started(g, s, u, c, t).Some?, s', t));
    }
  }

  // ----- the rings of the source -----------------------------------------

  lemma SourceGeometryIsSized(m: nat, k: nat, n: nat, half: nat)
    requires m > 0 && k > 0 && n == m * k && n == 2 * half
    ensures Sized(SourceGeometry(m, k, n, half), half)
  {
    var g := SourceGeometry(m, k, n, half);
    SourceGeometryIsValid(m, k, n, half);
    forall p: nat ensures IsPeriodic(g, p) {
      RingMap.NextLap(p, m, k);
    }
  }

  lemma InitEmptySound(g: Geometry, half: nat)
    requires Sized(g, half)
    ensures Sound(g, half, InitEmpty(g))
  {
    InitEmptyInv(g);
    assert RoomInv(g, half, InitEmpty(g), []);
  }

  lemma InitFullSound(g: Geometry, half: nat, idx: seq<nat>, slots: seq<Slot>)
    requires Sized(g, half) && Laps(g) && Covered(g) && FullSlots(g, idx, slots)
    requires |idx| < g.n && forall i :: 0 <= i < |idx| ==> idx[i] + 1 < g.n
    ensures Sound(g, half, InitFull(g, idx, slots))
  {
    var s := InitFull(g, idx, slots);
    InitFullInv(g, idx, slots);
    forall j: nat | j < |slots| && slots[j].val.Some? ensures exists e :: Occupied(g, s, e, j) {
      assert IsHit(g, j);
      var i: nat :| i < g.n && g.loc(i) == j;
      assert Occupied(g, s, i, j);
    }
    forall q: nat | q < |idx| ensures q in Live(s) { assert q in Untaken(s); }
    assert RoomInv(g, half, s, []);
  }

  /** In every run of a new ring whose clients keep their promises, every EMPTY,
      whichever test it comes from, follows a moment of its own call at which every
      finished index belonged to a ticket that another dequeuer held. */
  lemma EmptyAnswersAreTrue(g: Geometry, half: nat, s: Ring, schedule: seq<(Tid, Choice)>, t: Tid)
    requires Sized(g, half) && Sound(g, half, s) && s.pcs == map[] && PromisedThroughout(g, half, s, schedule)
    ensures var pc := PcOf(Exec(g, s, schedule), t);
      pc == Ret(EmptyByThreshold) || (pc.Ret? && pc.res.EmptyByTail?) ==>
        SawNothing(g, s, schedule, t, NothingFinished(s, t))
  {
    RunKeepsWatch(g, half, s, schedule, t, NothingFinished(s, t));
  }

  lemma NewRingSound(g: Geometry, l: L.Layout, half: nat, s: Ring, w: W.Ring)
    requires Sized(g, half) && Words.RingOf(g, l) && Laps(g) && Covered(g) && W.NewRing(g, l, s, w) && Room(half, s)
    ensures Sound(g, half, s) && s.pcs == map[]
  {
    if idx: seq<nat> :| W.NewFullRing(g, l, s, w, idx) {
      Words.FullRingStored(g, l, idx, w.words);
      assert Range(0, |idx|) <= Untaken(s);
      SubsetSize(Range(0, |idx|), Untaken(s));
      InitFullSound(g, half, idx, s.m.slots);
    } else {
      InitEmptySound(g, half);
    }
  }

  /** And so on words. */
  lemma WordEmptyAnswers(
      g: Geometry, l: L.Layout, half: nat, s: Ring, w: W.Ring, schedule: seq<(Tid, Choice)>, t: Tid)
    requires Sized(g, half) && Words.RingOf(g, l) && Laps(g) && Covered(g) && W.NewRing(g, l, s, w)
    requires |s.m.slots| == g.n == |w.words| && W.InRange(l, Exec(g, s, schedule).m)
    requires PromisedThroughout(g, half, s, schedule)
    ensures var pc := W.PcOf(W.Exec(g, l, w, schedule), t);
      pc == W.Ret(EmptyByThreshold) || (pc.Ret? && pc.res.EmptyByTail?) ==>
        SawNothing(g, s, schedule, t, NothingFinished(s, t))
  {
    assert Room(half, s);
    hide SawNothing, PromisedThroughout, NothingFinished, W.NewRing;
    NewRingSound(g, l, half, s, w);
    W.NewRingSimulates(g, l, s, w);
    W.RunSimulates(g, l, s, w, schedule);
    EmptyAnswersAreTrue(g, half, s, schedule, t);
    assert W.Matches(l, Exec(g, s, schedule), W.Exec(g, l, w, schedule), t);
  }

  /** The words of the source, of any width and with any LFRING_MIN up to the order. */
  lemma SourceEmptyAnswers(
      l: L.Layout, min: nat, half: nat, s: Ring, w: W.Ring, schedule: seq<(Tid, Choice)>, t: Tid)
    requires min <= l.bits && l.bits > 0 && l.N() == 2 * half
    requires var g := SourceGeometry(Pow2(min), Pow2(l.bits - min), l.N(), half);
      && ValidGeometry(g) && W.NewRing(g, l, s, w) && |s.m.slots| == g.n == |w.words|
      && W.InRange(l, Exec(g, s, schedule).m) && PromisedThroughout(g, half, s, schedule)
    ensures var g := SourceGeometry(Pow2(min), Pow2(l.bits - min), l.N(), half);
      var pc := W.PcOf(W.Exec(g, l, w, schedule), t);
      pc == W.Ret(EmptyByThreshold) || (pc.Ret? && pc.res.EmptyByTail?) ==>
        SawNothing(g, s, schedule, t, NothingFinished(s, t))
  {
    hide Bitwise, SawNothing, PromisedThroughout, NothingFinished, W.NewRing;
    Words.SourceRing(l, min, half, l.bits);
    RingMap.RawMapIsMap(l.bits, min, l.bits, 0);
    SourceGeometryIsSized(Pow2(min), Pow2(l.bits - min), l.N(), half);
    WordEmptyAnswers(SourceGeometry(Pow2(min), Pow2(l.bits - min), l.N(), half), l, half, s, w, schedule, t);
  }
}
