/**
 * EMPTY is true for the token queue: used by at most one thread more than it has
 * indices, a dequeue that answers EMPTY had a moment at which no word was left for it.
 */
module ScqdEmpty {
  import opened Options
  import opened ScqInit
  import opened ScqRing
  import opened ScqRoom
  import opened ScqThreshold
  import opened Scqd
  import opened ScqdRuns
  import Arithmetic
  import Calls = ScqdCalls
  import E = ScqEmpty
  import Known = ScqRoomSteps
  import ScqdSteps

  // ----- the promises ----------------------------------------------------

  /** Tickets and threads that are places of the first n indices are at most n. */
  lemma {:induction false} PlacesBound(place: seq<Place>, n: nat, a: set<nat>, b: set<Tid>)
    requires n <= |place|
    requires forall p :: p in a ==> InAlloc(p) in place[..n]
    requires forall t :: t in b ==> InHand(t) in place[..n]
    ensures |a| + |b| <= n
    decreases n
  {
    if n == 0 {
      if p :| p in a { assert false; }
      if t :| t in b { assert false; }
    } else {
      var last := place[n - 1];
      var a' := if last.InAlloc? then a - {last.ticket} else a;
      var b' := if last.InHand? then b - {last.t} else b;
      assert place[..n] == place[..n - 1] + [last];
      PlacesBound(place, n - 1, a', b');
    }
  }

  /** An index is in one place only, so there are never too many in the ring. */
  lemma AllocHasRoom(g: Geometry, q: Queue)
    requires QInv(g, q)
    ensures Room(|q.vals|, q.aq)
  {
    forall p | p in Untaken(q.aq) ensures InAlloc(p) in q.place[..|q.vals|] {
      assert At(q, InAlloc(p), q.aq.h.installed[p]);
    }
    forall t | t in Waiting(q.aq) ensures InHand(t) in q.place[..|q.vals|] {
      assert QThreadInv(q, t) && QPcOf(q, t).EnqPut?;
      assert At(q, InHand(t), QPcOf(q, t).i);
    }
    PlacesBound(q.place, |q.vals|, Untaken(q.aq), Waiting(q.aq));
  }

  /** Only these threads have used the ring of allocated indices. */
  ghost predicate UsedBy(q: Queue, threads: set<Tid>) { q.aq.pcs.Keys <= threads }

  lemma AllocIsPromised(g: Geometry, q: Queue, threads: set<Tid>)
    requires QInv(g, q) && UsedBy(q, threads) && |threads| <= |q.vals| + 1
    ensures Promised(|q.vals|, q.aq)
  {
    AllocHasRoom(g, q);
    assert Debtors(q.aq) <= threads;
    SubsetSize(Debtors(q.aq), threads);
    forall t | PcOf(q.aq, t).Enq? ensures !PcOf(q.aq, t).nonempty { assert QThreadInv(q, t); }
  }

  lemma StepUsedBy(g: Geometry, q: Queue, u: Tid, qc: QChoice, threads: set<Tid>)
    requires QInv(g, q) && UsedBy(q, threads) && u in threads
    ensures UsedBy(QStep(g, q, u, qc), threads)
  {
    hide QStep, Step, Tokens, Published, Tickets, Threads;
    Calls.AllocProjects(g, q, u, qc);
    if Calls.AllocAccess(q, u, qc).Some? { Known.StepIsKnown(g, q.aq, u, Calls.AllocAccess(q, u, qc).value); }
  }

  lemma SizeStays(g: Geometry, q: Queue, u: Tid, qc: QChoice)
    requires Fits(g, q)
    ensures |QStep(g, q, u, qc).vals| == |q.vals|
  {
    hide Step, PcOf, Pending, InstallTicketOf, ValidGeometry;
  }

  /** The ring of allocated indices stays sound, threshold included. */
  lemma AllocStaysSound(g: Geometry, q: Queue, u: Tid, qc: QChoice, threads: set<Tid>)
    requires Sized(g, |q.vals|) && QInv(g, q) && Sound(g, |q.vals|, q.aq)
    requires UsedBy(q, threads) && u in threads && |threads| <= |q.vals| + 1
    ensures var q' := QStep(g, q, u, qc);
      QInv(g, q') && UsedBy(q', threads) && |q'.vals| == |q.vals| && Sound(g, |q.vals|, q'.aq)
  {
    hide QStep, Sound, Promised, Step, UsedBy, Sized, Tickets, Threads, Tokens, Published;
    var q' := QStep(g, q, u, qc);
    SizeStays(g, q, u, qc);
    ScqdSteps.QStepKeeps(g, q, u, qc);
    StepUsedBy(g, q, u, qc, threads);
    AllocIsPromised(g, q, threads);
    AllocIsPromised(g, q', threads);
    Calls.AllocProjects(g, q, u, qc);
    if Calls.AllocAccess(q, u, qc).Some? {
      StepKeepsSound(g, |q.vals|, q.aq, u, Calls.AllocAccess(q, u, qc).value);
    }
  }

  // ----- every call ------------------------------------------------------

  /** What a bystander has seen since t started its latest operation: a moment at
      which no word was left for t. */
  ghost function SawNothing(g: Geometry, q: Queue, schedule: seq<(Tid, QChoice)>, t: Tid, saw: bool): bool
    requires Fits(g, q)
    decreases |schedule|
  {
    if schedule == [] then saw
    else
      var (u, qc) := schedule[0];
      var q' := QStep(g, q, u, qc);
      SawNothing(g, q', schedule[1..], t, E.Seen(saw, Calls.Started(q, u, qc, t).Some?, q'.aq, t))
  }

  ghost predicate AnsweredEmpty(q: Queue, t: Tid) {
    QPcOf(q, t) == QRet(WasEmpty) || (QPcOf(q, t).DeqGet? && E.AnsweredEmpty(PcOf(q.aq, t)))
  }

  ghost predicate Watches(q: Queue, t: Tid, saw: bool) {
    (NothingFinished(q.aq, t) ==> saw) && (AnsweredEmpty(q, t) ==> saw)
  }

  lemma StartDoesNotAnswer(g: Geometry, q: Queue, t: Tid, qc: QChoice)
    requires QInv(g, q) && Calls.Started(q, t, qc, t).Some?
    ensures !AnsweredEmpty(QStep(g, q, t, qc), t)
  {
    hide Step, Tokens, Published, Tickets, Threads;
    assert QThreadInv(q, t);
    if qc.Take? { E.StartIsOpen(g, q.aq, t, Start(OpDequeue(false))); }
  }

  /** Only a dequeue in its first ring answers EMPTY. */
  lemma OthersDoNotAnswer(g: Geometry, q: Queue, t: Tid, qc: QChoice)
    requires QInv(g, q) && !AnsweredEmpty(q, t) && !QPcOf(q, t).DeqGet?
    ensures !AnsweredEmpty(QStep(g, q, t, qc), t)
  {
    hide Step, StepEnqGet, StepDeqGet, StepEnqPut, StepDeqPut, Tokens, Published, Tickets, Threads;
    var c := if qc == Run(true) then Alt else Go;
    assert QThreadInv(q, t);
    if Calls.Started(q, t, qc, t).Some? {
      StartDoesNotAnswer(g, q, t, qc);
    } else if QPcOf(q, t).EnqGet? {
      Calls.RingStepsKeepCounters(g, q, t, c, 0, 0);
    } else if QPcOf(q, t).EnqPut? || QPcOf(q, t).DeqPut? {
      Calls.RingStepsKeepCounters(g, q, t, c, if QPcOf(q, t).EnqPut? then QPcOf(q, t).d else 0, QPcOf(q, t).i);
    }
  }

  lemma DeqGetAnswers(g: Geometry, q: Queue, t: Tid, qc: QChoice)
    requires QInv(g, q) && !AnsweredEmpty(q, t) && QPcOf(q, t).DeqGet?
    requires AnsweredEmpty(QStep(g, q, t, qc), t)
    ensures Calls.AllocAccess(q, t, qc).Some? && !E.AnsweredEmpty(PcOf(q.aq, t))
    ensures E.AnsweredEmpty(PcOf(Step(g, q.aq, t, Calls.AllocAccess(q, t, qc).value), t))
  {
    hide Step, Tokens, Published, Tickets, Threads;
    assert QThreadInv(q, t);
  }

  /** t comes to answer EMPTY only where no word is left for it. */
  lemma EmptyIsTrue(g: Geometry, q: Queue, t: Tid, qc: QChoice)
    requires QInv(g, q) && AllReached(q.aq)
    requires !AnsweredEmpty(q, t) && AnsweredEmpty(QStep(g, q, t, qc), t)
    ensures NothingFinished(q.aq, t)
  {
    hide Step, QStep, AnsweredEmpty, E.AnsweredEmpty, Tokens, Published, Tickets, Threads, AllReached, NothingFinished;
    if QPcOf(q, t).DeqGet? {
      DeqGetAnswers(g, q, t, qc);
      E.EmptyIsTrue(g, q.aq, t, Calls.AllocAccess(q, t, qc).value);
    } else {
      OthersDoNotAnswer(g, q, t, qc);
    }
  }

  lemma StepKeepsWatch(g: Geometry, q: Queue, u: Tid, qc: QChoice, t: Tid, saw: bool)
    requires QInv(g, q) && AllReached(q.aq) && Watches(q, t, saw)
    ensures var q' := QStep(g, q, u, qc); Watches(q', t, E.Seen(saw, Calls.Started(q, u, qc, t).Some?, q'.aq, t))
  {
    hide NothingFinished, QStep, AllReached, E.AnsweredEmpty, Tokens, Published, Tickets, Threads;
    var q' := QStep(g, q, u, qc);
    if u != t { Calls.OthersStayPut(g, q, u, qc); }
    else if Calls.Started(q, t, qc, t).Some? { StartDoesNotAnswer(g, q, t, qc); }
    else if AnsweredEmpty(q', t) && !AnsweredEmpty(q, t) { EmptyIsTrue(g, q, t, qc); }
  }

  // ----- every run -------------------------------------------------------

  lemma {:induction false} RunKeepsWatch(
      g: Geometry, q: Queue, schedule: seq<(Tid, QChoice)>, threads: set<Tid>, t: Tid, saw: bool)
    requires Sized(g, |q.vals|) && QInv(g, q) && Sound(g, |q.vals|, q.aq) && UsedBy(q, threads) && |threads| <= |q.vals| + 1
    requires (forall i :: 0 <= i < |schedule| ==> schedule[i].0 in threads) && Watches(q, t, saw)
    ensures Watches(QExec(g, q, schedule), t, SawNothing(g, q, schedule, t, saw))
    decreases |schedule|
  {
    hide Watches, QStep, UsedBy, AllReached, RoomInv, Tokens, Published, Tickets, Threads, IsDoubled;
    if schedule != [] {
      var (u, qc) := schedule[0];
      var q' := QStep(g, q, u, qc);
      AllocStaysSound(g, q, u, qc, threads);
      StepKeepsWatch(g, q, u, qc, t, saw);
      RunKeepsWatch(g, q', schedule[1..], threads, t, E.Seen(saw, Calls.Started(q, u, qc, t).Some?, q'.aq, t));
    }
  }

  /** The queue of the source, used by at most one thread more than it has indices: in
      every run, a dequeue that answers EMPTY follows a moment of its own call at which each
      word published and not yet taken belonged to another thread's dequeue, or to an
      enqueue still at work. */
  lemma SourceEmptyIsTrue(
      m: nat, k: nat, half: nat, slots: seq<Slot>, vals: seq<Word>, schedule: seq<(Tid, QChoice)>, threads: set<Tid>, t: Tid)
    requires m > 0 && k > 0 && half == m * k && |vals| == half
    requires ValidGeometry(SourceGeometry(m, 2 * k, 2 * half, half))
    requires FullSlots(SourceGeometry(m, 2 * k, 2 * half, half), FullIndices(m, k, half), slots)
    requires |threads| <= half + 1 && forall i :: 0 <= i < |schedule| ==> schedule[i].0 in threads
    ensures var g := SourceGeometry(m, 2 * k, 2 * half, half);
      var q := QInit(g, FullIndices(m, k, half), FullPositions(m, k, half), slots, vals);
      QPcOf(QExec(g, q, schedule), t) == QRet(WasEmpty) ==> SawNothing(g, q, schedule, t, NothingFinished(q.aq, t))
  {
    hide SawNothing, NothingFinished;
    var g := SourceGeometry(m, 2 * k, 2 * half, half);
    var q := QInit(g, FullIndices(m, k, half), FullPositions(m, k, half), slots, vals);
    assert 2 * half == m * (2 * k);
    Arithmetic.MulPos(m, k);
    E.SourceGeometryIsSized(m, 2 * k, 2 * half, half);
    SourceQueueIsSafe(m, k, half, slots, vals, []);
    E.InitEmptySound(g, half);
    RunKeepsWatch(g, q, schedule, threads, t, NothingFinished(q.aq, t));
  }
}
