/**
 * What every run of the token queue keeps.
 */
module ScqdRuns {
  import opened Options
  import opened Scqd
  import opened ScqdSteps
  import opened ScqInit
  import opened ScqRing
  import opened ScqRuns
  import opened ScqSteps
  import Arithmetic

  function QExec(g: Geometry, q: Queue, schedule: seq<(Tid, QChoice)>): (q': Queue)
    requires Fits(g, q)
    ensures Fits(g, q')
    decreases |schedule|
  {
    if schedule == [] then q else QExec(g, QStep(g, q, schedule[0].0, schedule[0].1), schedule[1..])
  }

  /** queue_init: an empty ring of allocated indices, a full ring of free ones. */
  function QInit(g: Geometry, idx: seq<nat>, pos: seq<nat>, slots: seq<Slot>, vals: seq<Word>): Queue {
    Queue(InitFull(g, idx, slots), InitEmpty(g), vals, map[], map[],
          seq(|pos|, i requires 0 <= i < |pos| => InFree(pos[i])))
  }

  lemma QInitInv(g: Geometry, idx: seq<nat>, pos: seq<nat>, slots: seq<Slot>, vals: seq<Word>)
    requires ValidGeometry(g) && Laps(g) && FullSlots(g, idx, slots)
    requires |idx| == |pos| == |vals| < g.n
    requires forall i :: 0 <= i < |idx| ==> idx[i] < |idx| && pos[i] < |idx| && idx[pos[i]] == i && pos[idx[i]] == i
    ensures QInv(g, QInit(g, idx, pos, slots, vals))
  {
    InitFullInv(g, idx, slots);
    InitEmptyInv(g);
    var q := QInit(g, idx, pos, slots, vals);
    forall place, i: nat | At(q, place, i) ensures i < |q.place| && q.place[i] == place {
      if place.InFree? { assert idx[place.ticket] == i; }
    }
  }

  lemma {:induction false} QRunKeeps(g: Geometry, q: Queue, schedule: seq<(Tid, QChoice)>)
    requires QInv(g, q)
    ensures QInv(g, QExec(g, q, schedule))
    decreases |schedule|
  {
    if schedule != [] {
      QStepKeeps(g, q, schedule[0].0, schedule[0].1);
      QRunKeeps(g, QStep(g, q, schedule[0].0, schedule[0].1), schedule[1..]);
    }
  }

  /** Conservation: each index is in exactly one place, a ticket of one of the
      two rings or the hands of one thread. */
  lemma EachIndexIsInOnePlace(g: Geometry, q: Queue, i: nat)
    requires QInv(g, q)
    ensures i < |q.vals| <==> exists place :: At(q, place, i)
    ensures forall a, b :: At(q, a, i) && At(q, b, i) ==> a == b
  {
    if i < |q.vals| { assert At(q, q.place[i], i); }
  }

  /** A thread about to touch a data cell is alone with it: the index is in
      range, no other thread holds it, and it is in neither ring. */
  lemma IndexIsExclusive(g: Geometry, q: Queue, t: Tid, i: nat)
    requires QInv(g, q)
    requires (QPcOf(q, t).EnqWrite? || QPcOf(q, t).DeqRead?) && QPcOf(q, t).i == i
    ensures i < |q.vals|
    ensures forall u :: u != t ==> Holding(q, u) != Some(i)
    ensures forall p :: !Inside(q.fq.h, p, i) && !Inside(q.aq.h, p, i)
  {
    assert At(q, InHand(t), i);
    forall u | u != t ensures Holding(q, u) != Some(i) { assert At(q, InHand(u), i) ==> InHand(u) == InHand(t); }
    forall p ensures !Inside(q.fq.h, p, i) && !Inside(q.aq.h, p, i) {
      assert At(q, InFree(p), i) ==> InFree(p) == InHand(t);
      assert At(q, InAlloc(p), i) ==> InAlloc(p) == InHand(t);
    }
  }

  /** A dequeue returns the word that was published at its own ticket of the
      allocated ring, and only an enqueue publishes. */
  lemma DequeueReturnsPublishedWord(g: Geometry, q: Queue, t: Tid, p: nat, d: Word)
    requires QInv(g, q) && QPcOf(q, t) == QRet(Got(p, d))
    ensures p in q.aq.h.installed && p in q.published && q.published[p] == d
  {
    assert QThreadInv(q, t);
  }

  ghost predicate PublishesAt(q: Queue, q': Queue, p: nat, d: Word) {
    p !in q.aq.h.installed && p in q'.aq.h.installed && q'.published == q.published[p := d]
  }

  /** The word an enqueue publishes is its argument, at a fresh ticket; no
      other step changes what is published. */
  lemma OnlyEnqueuePublishes(g: Geometry, q: Queue, t: Tid, qc: QChoice)
    requires QInv(g, q)
    ensures var q' := QStep(g, q, t, qc);
      || q'.published == q.published
      || (QPcOf(q, t).EnqPut? && exists p :: PublishesAt(q, q', p, QPcOf(q, t).d))
  {
    assert QThreadInv(q, t);
    if QPcOf(q, t).EnqPut? {
      if PcOf(q.aq, t).Enq? { EnqPutPublishes(g, q, t, if qc == Run(true) then Alt else Go, QPcOf(q, t).d, QPcOf(q, t).i); }
    } else {
      OthersDoNotPublish(g, q, t, qc);
    }
  }

  lemma RingStepsDoNotPublish(g: Geometry, q: Queue, t: Tid, c: Choice, i: nat)
    requires Fits(g, q)
    ensures StepEnqGet(g, q, t, c).published == q.published
    ensures StepDeqGet(g, q, t, c).published == q.published
    ensures StepDeqPut(g, q, t, c, i).published == q.published
  {
  }

  lemma OthersDoNotPublish(g: Geometry, q: Queue, t: Tid, qc: QChoice)
    requires Fits(g, q) && !QPcOf(q, t).EnqPut?
    ensures QStep(g, q, t, qc).published == q.published
  {
    var c := if qc == Run(true) then Alt else Go;
    RingStepsDoNotPublish(g, q, t, c, if QPcOf(q, t).DeqPut? then QPcOf(q, t).i else 0);
  }

  lemma EnqPutPublishes(g: Geometry, q: Queue, t: Tid, c: Choice, d: Word, i: nat)
    requires QInv(g, q) && QPcOf(q, t) == EnqPut(d, i) && PcOf(q.aq, t).Enq?
    ensures var q' := StepEnqPut(g, q, t, c, d, i);
      q'.published == q.published || exists p :: PublishesAt(q, q', p, d)
  {
    EnqueueStepEffect(g, q.aq, t, c);
    if Pending(PcOf(q.aq, t)) && !Pending(PcOf(Step(g, q.aq, t, c), t)) {
      assert PublishesAt(q, StepEnqPut(g, q, t, c, d, i), InstallTicketOf(PcOf(Step(g, q.aq, t, c), t)), d);
    }
  }

  /** lfring_dequeue with nonempty set never answers EMPTY, so the early return
      of enqueue is dead code. */
  lemma EnqueueAlwaysGetsAnIndex(g: Geometry, q: Queue, t: Tid, d: Word)
    requires QInv(g, q) && QPcOf(q, t) == EnqGet(d) && PcOf(q.fq, t).Ret?
    ensures PcOf(q.fq, t).res.Dequeued? && PcOf(q.fq, t).res.v < |q.vals|
  {
    assert QThreadInv(q, t);
    assert At(q, InHand(t), PcOf(q.fq, t).res.v);
  }

  /** First in, first out: when a dequeue has returned the word of ticket p2,
      a word published at a smaller ticket has been taken too, or its ticket is
      in the hands of a dequeuer that is still looking at its slot. */
  lemma EarlierWordsAreOut(g: Geometry, q: Queue, t: Tid, p1: nat, p2: nat, d2: Word)
    requires QInv(g, q) && QPcOf(q, t) == QRet(Got(p2, d2))
    requires p1 < p2 && p1 in q.aq.h.installed
    ensures p1 in q.aq.h.taken || (p1 in q.aq.h.deqOwner && DeqTicket(PcOf(q.aq, q.aq.h.deqOwner[p1])) == Some(p1))
  {
    assert QThreadInv(q, t);
    FifoByTicket(g, q.aq, p1, p2);
  }

  /** The queue of the source, with 2^order indices for any order of at least
      LFRING_MIN: every schedule keeps tokens and published words.  (That the
      geometry is valid holds by SourceGeometryIsValid.) */
  lemma SourceQueueIsSafe(m: nat, k: nat, half: nat, slots: seq<Slot>, vals: seq<Word>, schedule: seq<(Tid, QChoice)>)
    requires m > 0 && k > 0 && half == m * k && |vals| == half
    requires ValidGeometry(SourceGeometry(m, 2 * k, 2 * half, half))
    requires FullSlots(SourceGeometry(m, 2 * k, 2 * half, half), FullIndices(m, k, half), slots)
    ensures var g := SourceGeometry(m, 2 * k, 2 * half, half);
      QInv(g, QExec(g, QInit(g, FullIndices(m, k, half), FullPositions(m, k, half), slots, vals), schedule))
  {
    var g := SourceGeometry(m, 2 * k, 2 * half, half);
    assert 2 * half == m * (2 * k);
    Arithmetic.MulPos(m, k);
    SourceGeometryIsValid(m, 2 * k, 2 * half, half);
    FullIndicesArePermutation(m, k, half);
    var q := QInit(g, FullIndices(m, k, half), FullPositions(m, k, half), slots, vals);
    QInitInv(g, FullIndices(m, k, half), FullPositions(m, k, half), slots, vals);
    QRunKeeps(g, q, schedule);
  }
}
