/**
 * Every step of the token queue keeps the tokens and the published words.
 */
module ScqdSteps {
  import opened Options
  import opened Scqd
  import opened ScqRing
  import opened ScqSteps

  /** A step inside lfring_enqueue either leaves the contents alone or installs
      its index at a fresh ticket. */
  ghost predicate EnqueueEffect(s: Ring, s': Ring, t: Tid)
    requires PcOf(s, t).Enq?
  {
    var pc, pc' := PcOf(s, t), PcOf(s', t);
    && s'.h.taken == s.h.taken
    && EnqueuePc(pc', pc.v, pc.nonempty)
    && (Pending(pc') ==> Pending(pc) && s'.h.installed == s.h.installed)
    && (!Pending(pc) ==> s'.h.installed == s.h.installed && InstallTicketOf(pc') == InstallTicketOf(pc))
    && (Pending(pc) && !Pending(pc') ==> var p := InstallTicketOf(pc');
          p !in s.h.installed && p !in s.h.taken && s'.h.installed == s.h.installed[p := pc.v])
  }

  lemma EnqueueStepContents(g: Geometry, s: Ring, t: Tid, c: Choice, v: nat, nonempty: bool, pc: EnqPc)
    requires ValidGeometry(g) && |s.m.slots| == g.n && PcOf(s, t) == Enq(v, nonempty, pc)
    requires pc.CasSlot? ==> pc.ticket !in s.h.installed && pc.ticket !in s.h.taken
    ensures EnqueueEffect(s, EnqStep(g, s, t, c, v, nonempty, pc), t)
  {
  }

  lemma EnqueueStepEffect(g: Geometry, s: Ring, t: Tid, c: Choice)
    requires Inv(g, s) && PcOf(s, t).Enq?
    ensures var s' := Step(g, s, t, c);
      Inv(g, s') && (forall u :: u != t ==> PcOf(s', u) == PcOf(s, u)) && EnqueueEffect(s, s', t)
  {
    var Enq(v, nonempty, pc) := PcOf(s, t);
    StepKeepsInv(g, s, t, c);
    assert ThreadInv(g, s, t);
    if pc.CasSlot? { assert TicketInv(g, s, pc.ticket); }
    EnqueueStepContents(g, s, t, c, v, nonempty, pc);
  }

  /** A step inside lfring_dequeue either leaves the contents alone or takes
      out the index of its ticket; with nonempty set it never answers EMPTY. */
  lemma DequeueStepEffect(g: Geometry, s: Ring, t: Tid, c: Choice)
    requires Inv(g, s) && PcOf(s, t).Deq? && (PcOf(s, t).nonempty ==> !PcOf(s, t).deq.TestThreshold?)
    ensures var s', pc, pc' := Step(g, s, t, c), PcOf(s, t), PcOf(Step(g, s, t, c), t);
      && Inv(g, s') && (forall u :: u != t ==> PcOf(s', u) == PcOf(s, u))
      && s'.h.installed == s.h.installed
      && DequeuePc(pc', pc.nonempty)
      && (TakenIndex(pc').None? ==> s'.h.taken == s.h.taken)
      && (TakenIndex(pc').Some? ==> Inside(s.h, pc'.res.ticket, pc'.res.v)
                                    && s'.h.taken == s.h.taken[pc'.res.ticket := pc'.res.v])
  {
    StepKeepsInv(g, s, t, c);
    assert ThreadInv(g, s, t);
    var Deq(nonempty, pc) := PcOf(s, t);
    DequeueStepContents(g, s, t, c, nonempty, pc);
  }

  lemma DequeueStepContents(g: Geometry, s: Ring, t: Tid, c: Choice, nonempty: bool, pc: DeqPc)
    requires ValidGeometry(g) && |s.m.slots| == g.n && (nonempty ==> !pc.TestThreshold?)
    ensures var s' := DeqStep(g, s, t, c, nonempty, pc); var pc' := PcOf(s', t);
      && s'.h.installed == s.h.installed && DequeuePc(pc', nonempty)
      && (!pc.Erase? ==> TakenIndex(pc').None? && s'.h.taken == s.h.taken)
      && (pc.Erase? ==> pc' == Ret(Dequeued(pc.ticket, pc.v)) && s'.h.taken == s.h.taken[pc.ticket := pc.v])
  {
    match pc
    case LoadSlot(ticket) => DequeueContinueContents(g, s, t, c, nonempty, ticket);
    case CasSlot(ticket, e) => DequeueContinueContents(g, s, t, c, nonempty, ticket);
    case _ =>
  }

  lemma DequeueContinueContents(g: Geometry, s: Ring, t: Tid, c: Choice, nonempty: bool, ticket: nat)
    requires ValidGeometry(g) && |s.m.slots| == g.n
    ensures var s' := DeqContinue(g, s, t, c, nonempty, ticket); var pc' := PcOf(s', t);
      && s'.h.installed == s.h.installed && DequeuePc(pc', nonempty)
      && TakenIndex(pc').None? && s'.h.taken == s.h.taken
  {
  }

  lemma EmptyStepContents(s: Ring, t: Tid, c: Choice, ticket: nat, pc: EmptyPc)
    ensures var s' := EmptyStep(s, t, c, ticket, pc); var pc' := PcOf(s', t);
      s'.h == s.h && DequeuePc(pc', false) && TakenIndex(pc').None?
  {
  }

  lemma EmptyStepEffect(g: Geometry, s: Ring, t: Tid, c: Choice)
    requires Inv(g, s) && PcOf(s, t).Empty?
    ensures var s', pc' := Step(g, s, t, c), PcOf(Step(g, s, t, c), t);
      && Inv(g, s') && (forall u :: u != t ==> PcOf(s', u) == PcOf(s, u))
      && s'.h == s.h && DequeuePc(pc', false) && TakenIndex(pc').None?
  {
    StepKeepsInv(g, s, t, c);
    EmptyStepContents(s, t, c, PcOf(s, t).ticket, PcOf(s, t).empty);
  }

  /** Starting an operation on a ring changes nothing but the counter. */
  lemma StartEffect(g: Geometry, s: Ring, t: Tid, op: Op)
    requires Inv(g, s) && AtRest(PcOf(s, t)) && (op.OpEnqueue? ==> op.v + 1 < g.n)
    ensures var s', pc' := Step(g, s, t, Start(op)), PcOf(Step(g, s, t, Start(op)), t);
      && Inv(g, s') && (forall u :: u != t ==> PcOf(s', u) == PcOf(s, u)) && s'.h == s.h
      && (op.OpEnqueue? ==> Pending(pc') && EnqueuePc(pc', op.v, op.nonempty))
      && (op.OpDequeue? ==> pc'.Deq? && DequeuePc(pc', op.nonempty))
  {
    StepKeepsInv(g, s, t, Start(op));
  }

  // ----- preservation ----------------------------------------------------

  lemma OneIndexPerPlace(q: Queue, place: Place, i: nat, j: nat)
    ensures At(q, place, i) && At(q, place, j) ==> i == j
  {
  }

  /** If only index i changes its place, from src to dst, the others stay put. */
  lemma TokenMoved(q: Queue, q': Queue, i: nat, src: Place, dst: Place)
    requires Tokens(q) && |q'.vals| == |q.vals| && i < |q.place|
    requires q'.place == q.place[i := dst] && At(q, src, i) && At(q', dst, i)
    requires forall place, j: nat :: place != src && place != dst ==> (At(q', place, j) <==> At(q, place, j))
    requires src != dst ==> forall j: nat :: !At(q', src, j) && !At(q, dst, j)
    requires forall j: nat :: At(q', dst, j) ==> j == i
    ensures Tokens(q')
  {
    forall j: nat | j < |q'.place| ensures At(q', q'.place[j], j) {
      if j != i {
        assert At(q, q.place[j], j);
        OneIndexPerPlace(q, q.place[j], i, j);
      }
    }
  }

  lemma TokensStay(q: Queue, q': Queue)
    requires Tokens(q) && |q'.vals| == |q.vals| && q'.place == q.place
    requires forall place, j: nat :: At(q', place, j) <==> At(q, place, j)
    ensures Tokens(q')
  {
  }

  /** What a step of t leaves alone: the data words, the other threads, and what
      was published and taken. */
  ghost predicate OthersStay(q: Queue, q': Queue, t: Tid) {
    && q'.vals == q.vals
    && (forall u :: u != t ==> PcOf(q'.fq, u) == PcOf(q.fq, u) && PcOf(q'.aq, u) == PcOf(q.aq, u))
    && (forall u :: u != t ==> QPcOf(q', u) == QPcOf(q, u))
    && (forall p, d :: Has(q, p, d) ==> Has(q', p, d))
    && (forall p :: p in q.aq.h.taken ==> p in q'.aq.h.taken)
  }

  lemma OtherFits(q: Queue, q': Queue, t: Tid, u: Tid)
    requires OthersStay(q, q', t) && u != t && QThreadInv(q, u)
    ensures QThreadInv(q', u)
  {
  }

  lemma OthersHold(q: Queue, q': Queue, t: Tid)
    requires OthersStay(q, q', t)
    ensures forall u :: u != t ==> Holding(q', u) == Holding(q, u)
  {
  }

  lemma KeepsQInv(g: Geometry, q: Queue, q': Queue, t: Tid)
    requires QInv(g, q) && OthersStay(q, q', t) && QThreadInv(q', t)
    requires Inv(g, q'.fq) && Inv(g, q'.aq) && Tokens(q') && Published(q')
    ensures QInv(g, q')
  {
    forall u ensures QThreadInv(q', u) {
      if u != t {
        assert QThreadInv(q, u);
        OtherFits(q, q', t, u);
      }
    }
  }

  ghost predicate SameContents(h: History, h': History) { h'.installed == h.installed && h'.taken == h.taken }

  lemma IdleTokens(q: Queue, q': Queue, t: Tid)
    requires Tokens(q) && OthersStay(q, q', t) && q'.place == q.place && Holding(q', t) == Holding(q, t)
    requires SameContents(q.fq.h, q'.fq.h) && SameContents(q.aq.h, q'.aq.h)
    ensures Tokens(q')
  {
    OthersHold(q, q', t);
    forall place, j: nat ensures At(q', place, j) <==> At(q, place, j) {
      if place.InHand? { assert Holding(q', place.t) == Holding(q, place.t); }
    }
    TokensStay(q, q');
  }

  /** A step on the rings that changes no contents. */
  lemma IdleKeeps(g: Geometry, q: Queue, q': Queue, t: Tid)
    requires QInv(g, q) && Inv(g, q'.fq) && Inv(g, q'.aq)
    requires OthersStay(q, q', t) && q'.published == q.published && q'.place == q.place
    requires SameContents(q.fq.h, q'.fq.h) && SameContents(q.aq.h, q'.aq.h)
    requires Holding(q', t) == Holding(q, t) && QThreadInv(q', t)
    ensures QInv(g, q')
  {
    IdleTokens(q, q', t);
    KeepsQInv(g, q, q', t);
  }

  function RingOf(q: Queue, free: bool): Ring { if free then q.fq else q.aq }

  function RingPlace(free: bool, p: nat): Place { if free then InFree(p) else InAlloc(p) }

  /** t takes index i out of one ring, at ticket p. */
  lemma TokenTaken(q: Queue, q': Queue, t: Tid, free: bool, p: nat, i: nat)
    requires Tokens(q) && OthersStay(q, q', t) && RingOf(q', !free) == RingOf(q, !free)
    requires i < |q.place| && q'.place == q.place[i := InHand(t)]
    requires Inside(RingOf(q, free).h, p, i) && Holding(q, t).None? && Holding(q', t) == Some(i)
    requires RingOf(q', free).h.installed == RingOf(q, free).h.installed
    requires RingOf(q', free).h.taken == RingOf(q, free).h.taken[p := i]
    ensures Tokens(q')
  {
    var src := RingPlace(free, p);
    OthersHold(q, q', t);
    forall place, j: nat | place != src && place != InHand(t) ensures At(q', place, j) <==> At(q, place, j) {
      if place.InHand? { assert Holding(q', place.t) == Holding(q, place.t); }
    }
    TokenMoved(q, q', i, src, InHand(t));
  }

  /** t installs the index it holds in one ring, at the fresh ticket p. */
  lemma TokenPut(q: Queue, q': Queue, t: Tid, free: bool, p: nat, i: nat)
    requires Tokens(q) && OthersStay(q, q', t) && RingOf(q', !free).h == RingOf(q, !free).h
    requires i < |q.place| && q'.place == q.place[i := RingPlace(free, p)]
    requires Holding(q, t) == Some(i) && Holding(q', t).None?
    requires p !in RingOf(q, free).h.installed && p !in RingOf(q, free).h.taken
    requires RingOf(q', free).h.installed == RingOf(q, free).h.installed[p := i]
    requires RingOf(q', free).h.taken == RingOf(q, free).h.taken
    ensures Tokens(q')
  {
    var dst := RingPlace(free, p);
    OthersHold(q, q', t);
    forall place, j: nat | place != dst && place != InHand(t) ensures At(q', place, j) <==> At(q, place, j) {
      if place.InHand? { assert Holding(q', place.t) == Holding(q, place.t); }
    }
    TokenMoved(q, q', i, InHand(t), dst);
  }

  // ----- enqueue and dequeue ----------------------------------------------

  /** An index leaves the free ring for the hands of an enqueuer. */
  lemma EnqGetTakes(q: Queue, t: Tid, fq: Ring, p: nat, i: nat)
    requires Tokens(q) && Published(q) && QThreadInv(q, t) && QPcOf(q, t).EnqGet? && PcOf(q.fq, t).Deq?
    requires PcOf(fq, t) == Ret(Dequeued(p, i)) && forall u :: u != t ==> PcOf(fq, u) == PcOf(q.fq, u)
    requires Inside(q.fq.h, p, i)
    requires fq.h.installed == q.fq.h.installed && fq.h.taken == q.fq.h.taken[p := i]
    ensures var q' := SetPlace(WithFree(q, fq), i, InHand(t));
      OthersStay(q, q', t) && QThreadInv(q', t) && Tokens(q') && Published(q')
  {
    var q' := SetPlace(WithFree(q, fq), i, InHand(t));
    assert At(q, InFree(p), i);
    TokenTaken(q, q', t, true, p, i);
  }

  /** An index leaves the allocated ring for the hands of a dequeuer. */
  lemma DeqGetTakes(q: Queue, t: Tid, aq: Ring, p: nat, i: nat)
    requires Tokens(q) && Published(q) && QThreadInv(q, t) && QPcOf(q, t).DeqGet? && !PcOf(q.aq, t).Ret?
    requires PcOf(aq, t) == Ret(Dequeued(p, i)) && forall u :: u != t ==> PcOf(aq, u) == PcOf(q.aq, u)
    requires Inside(q.aq.h, p, i)
    requires aq.h.installed == q.aq.h.installed && aq.h.taken == q.aq.h.taken[p := i]
    ensures var q' := SetPlace(WithAlloc(q, aq), i, InHand(t));
      OthersStay(q, q', t) && QThreadInv(q', t) && Tokens(q') && Published(q')
  {
    var q' := SetPlace(WithAlloc(q, aq), i, InHand(t));
    assert At(q, InAlloc(p), i);
    TokenTaken(q, q', t, false, p, i);
  }

  /** An enqueuer installs its index in the allocated ring, and so publishes. */
  lemma EnqPutInstalls(q: Queue, t: Tid, aq: Ring, d: Word, i: nat, p: nat)
    requires Tokens(q) && Published(q) && QThreadInv(q, t) && QPcOf(q, t) == EnqPut(d, i)
    requires PcOf(q.aq, t).Enq? && Pending(PcOf(q.aq, t)) && EnqueueEffect(q.aq, aq, t)
    requires !Pending(PcOf(aq, t)) && p == InstallTicketOf(PcOf(aq, t))
    requires forall u :: u != t ==> PcOf(aq, u) == PcOf(q.aq, u)
    ensures var q' := SetPlace(Queue(q.fq, aq, q.vals, q.pcs, q.published[p := d], q.place), i, InAlloc(p));
      OthersStay(q, q', t) && QThreadInv(q', t) && Tokens(q') && Published(q')
  {
    var q' := SetPlace(Queue(q.fq, aq, q.vals, q.pcs, q.published[p := d], q.place), i, InAlloc(p));
    assert At(q, InHand(t), i);
    TokenPut(q, q', t, false, p, i);
  }

  /** A dequeuer installs its index in the free ring. */
  lemma DeqPutInstalls(q: Queue, t: Tid, fq: Ring, i: nat, p: nat)
    requires Tokens(q) && Published(q) && QThreadInv(q, t) && QPcOf(q, t).DeqPut? && QPcOf(q, t).i == i
    requires PcOf(q.fq, t).Enq? && Pending(PcOf(q.fq, t)) && EnqueueEffect(q.fq, fq, t)
    requires !Pending(PcOf(fq, t)) && p == InstallTicketOf(PcOf(fq, t))
    requires forall u :: u != t ==> PcOf(fq, u) == PcOf(q.fq, u)
    ensures var q' := SetPlace(WithFree(q, fq), i, InFree(p));
      OthersStay(q, q', t) && QThreadInv(q', t) && Tokens(q') && Published(q')
  {
    var q' := SetPlace(WithFree(q, fq), i, InFree(p));
    assert At(q, InHand(t), i);
    TokenPut(q, q', t, true, p, i);
  }

  lemma EnqGetKeeps(g: Geometry, q: Queue, t: Tid, c: Choice, d: Word)
    requires QInv(g, q) && QPcOf(q, t) == EnqGet(d) && PcOf(q.fq, t).Deq?
    ensures QInv(g, StepEnqGet(g, q, t, c))
  {
    var q' := StepEnqGet(g, q, t, c);
    assert QThreadInv(q, t);
    DequeueStepEffect(g, q.fq, t, c);
    var pc' := PcOf(q'.fq, t);
    if TakenIndex(pc').None? {
      IdleKeeps(g, q, q', t);
    } else {
      EnqGetTakes(q, t, q'.fq, pc'.res.ticket, pc'.res.v);
      KeepsQInv(g, q, q', t);
    }
  }

  lemma DeqGetKeeps(g: Geometry, q: Queue, t: Tid, c: Choice)
    requires QInv(g, q) && QPcOf(q, t) == DeqGet && (PcOf(q.aq, t).Deq? || PcOf(q.aq, t).Empty?)
    ensures QInv(g, StepDeqGet(g, q, t, c))
  {
    var q' := StepDeqGet(g, q, t, c);
    assert QThreadInv(q, t);
    if PcOf(q.aq, t).Deq? { DequeueStepEffect(g, q.aq, t, c); } else { EmptyStepEffect(g, q.aq, t, c); }
    var pc' := PcOf(q'.aq, t);
    if TakenIndex(pc').None? {
      IdleKeeps(g, q, q', t);
    } else {
      DeqGetTakes(q, t, q'.aq, pc'.res.ticket, pc'.res.v);
      KeepsQInv(g, q, q', t);
    }
  }

  lemma EnqPutKeeps(g: Geometry, q: Queue, t: Tid, c: Choice, d: Word, i: nat)
    requires QInv(g, q) && QPcOf(q, t) == EnqPut(d, i) && PcOf(q.aq, t).Enq?
    ensures QInv(g, StepEnqPut(g, q, t, c, d, i))
  {
    var q' := StepEnqPut(g, q, t, c, d, i);
    assert QThreadInv(q, t);
    EnqueueStepEffect(g, q.aq, t, c);
    var pc' := PcOf(q'.aq, t);
    if Pending(PcOf(q.aq, t)) && !Pending(pc') {
      EnqPutInstalls(q, t, q'.aq, d, i, InstallTicketOf(pc'));
      KeepsQInv(g, q, q', t);
    } else {
      IdleKeeps(g, q, q', t);
    }
  }

  lemma DeqPutKeeps(g: Geometry, q: Queue, t: Tid, c: Choice, n: nat, i: nat, d: Word)
    requires QInv(g, q) && QPcOf(q, t) == DeqPut(n, i, d) && PcOf(q.fq, t).Enq?
    ensures QInv(g, StepDeqPut(g, q, t, c, i))
  {
    var q' := StepDeqPut(g, q, t, c, i);
    assert QThreadInv(q, t);
    EnqueueStepEffect(g, q.fq, t, c);
    var pc' := PcOf(q'.fq, t);
    if Pending(PcOf(q.fq, t)) && !Pending(pc') {
      DeqPutInstalls(q, t, q'.fq, i, InstallTicketOf(pc'));
      KeepsQInv(g, q, q', t);
    } else {
      IdleKeeps(g, q, q', t);
    }
  }

  /** The state after t wrote the data cell and started on the ring aq. */
  function Written(q: Queue, t: Tid, aq: Ring, d: Word, i: nat): Queue
    requires i < |q.vals|
  {
    Move(Queue(q.fq, aq, q.vals[i := d], q.pcs, q.published, q.place), t, EnqPut(d, i))
  }

  ghost predicate Writes(q: Queue, t: Tid, aq: Ring, d: Word, i: nat) {
    && QPcOf(q, t) == EnqWrite(d, i) && i < |q.vals| && aq.h == q.aq.h
    && (forall u :: u != t ==> PcOf(aq, u) == PcOf(q.aq, u))
    && Pending(PcOf(aq, t)) && EnqueuePc(PcOf(aq, t), i, false)
  }

  lemma EnqWriteTokens(q: Queue, t: Tid, aq: Ring, d: Word, i: nat)
    requires Tokens(q) && Published(q) && Writes(q, t, aq, d, i)
    ensures Tokens(Written(q, t, aq, d, i)) && Published(Written(q, t, aq, d, i))
  {
    var q' := Written(q, t, aq, d, i);
    assert At(q, InHand(t), i);
    forall place, j: nat ensures At(q', place, j) <==> At(q, place, j) {
      if place.InHand? && place.t != t { assert Holding(q', place.t) == Holding(q, place.t); }
    }
    TokensStay(q, q');
    forall p: nat, j: nat | Inside(q'.aq.h, p, j) && j < |q'.vals| ensures q'.vals[j] == q'.published[p] {
      assert At(q, InAlloc(p), j);
    }
  }

  lemma EnqWriteThreads(q: Queue, t: Tid, aq: Ring, d: Word, i: nat, u: Tid)
    requires Tokens(q) && Writes(q, t, aq, d, i) && QThreadInv(q, t) && QThreadInv(q, u)
    ensures QThreadInv(Written(q, t, aq, d, i), u)
  {
    assert At(q, InHand(t), i);
    if u != t && Holding(q, u).Some? { assert At(q, InHand(u), Holding(q, u).value); }
  }

  /** Writing the data cell: no other thread holds its index, and the index is
      not in the allocated ring. */
  lemma EnqWriteKeeps(g: Geometry, q: Queue, t: Tid, d: Word, i: nat)
    requires QInv(g, q) && QPcOf(q, t) == EnqWrite(d, i) && i < |q.vals|
    ensures QInv(g, Written(q, t, Step(g, q.aq, t, Start(OpEnqueue(i, false))), d, i))
  {
    assert QThreadInv(q, t);
    StartEffect(g, q.aq, t, OpEnqueue(i, false));
    var aq := Step(g, q.aq, t, Start(OpEnqueue(i, false)));
    EnqWriteTokens(q, t, aq, d, i);
    forall u ensures QThreadInv(Written(q, t, aq, d, i), u) {
      assert QThreadInv(q, u);
      EnqWriteThreads(q, t, aq, d, i, u);
    }
  }

  lemma DeqReadKeeps(g: Geometry, q: Queue, t: Tid, p: nat, i: nat)
    requires QInv(g, q) && QPcOf(q, t) == DeqRead(p, i)
    ensures i < |q.vals|
    ensures QInv(g, Move(WithFree(q, Step(g, q.fq, t, Start(OpEnqueue(i, true)))), t, DeqPut(p, i, q.vals[i])))
  {
    assert QThreadInv(q, t);
    assert At(q, InHand(t), i);
    StartEffect(g, q.fq, t, OpEnqueue(i, true));
    IdleKeeps(g, q, Move(WithFree(q, Step(g, q.fq, t, Start(OpEnqueue(i, true)))), t, DeqPut(p, i, q.vals[i])), t);
  }

  lemma LocalKeeps(g: Geometry, q: Queue, t: Tid, pc: QPc)
    requires QInv(g, q) && Holding(Move(q, t, pc), t) == Holding(q, t) && QThreadInv(Move(q, t, pc), t)
    ensures QInv(g, Move(q, t, pc))
  {
    IdleKeeps(g, q, Move(q, t, pc), t);
  }

  lemma QEnqKeeps(g: Geometry, q: Queue, t: Tid, qc: QChoice)
    requires QInv(g, q) && (QPcOf(q, t).EnqGet? || QPcOf(q, t).EnqPut?)
    ensures QInv(g, QStep(g, q, t, qc))
  {
    var c := if qc == Run(true) then Alt else Go;
    assert QThreadInv(q, t);
    if QPcOf(q, t).EnqGet? {
      if PcOf(q.fq, t).Ret? { LocalKeeps(g, q, t, QPcOf(QStep(g, q, t, qc), t)); }
      else { EnqGetKeeps(g, q, t, c, QPcOf(q, t).d); }
    } else {
      if PcOf(q.aq, t).Ret? { LocalKeeps(g, q, t, QPcOf(QStep(g, q, t, qc), t)); }
      else { EnqPutKeeps(g, q, t, c, QPcOf(q, t).d, QPcOf(q, t).i); }
    }
  }

  lemma QDeqKeeps(g: Geometry, q: Queue, t: Tid, qc: QChoice)
    requires QInv(g, q) && (QPcOf(q, t).DeqGet? || QPcOf(q, t).DeqPut?)
    ensures QInv(g, QStep(g, q, t, qc))
  {
    var c := if qc == Run(true) then Alt else Go;
    assert QThreadInv(q, t);
    if QPcOf(q, t).DeqGet? {
      if PcOf(q.aq, t).Ret? { LocalKeeps(g, q, t, QPcOf(QStep(g, q, t, qc), t)); } else { DeqGetKeeps(g, q, t, c); }
    } else {
      if PcOf(q.fq, t).Ret? { LocalKeeps(g, q, t, QPcOf(QStep(g, q, t, qc), t)); }
      else { DeqPutKeeps(g, q, t, c, QPcOf(q, t).ticket, QPcOf(q, t).i, QPcOf(q, t).d); }
    }
  }

  lemma QDataKeeps(g: Geometry, q: Queue, t: Tid, qc: QChoice)
    requires QInv(g, q) && (QPcOf(q, t).EnqWrite? || QPcOf(q, t).DeqRead?)
    ensures QInv(g, QStep(g, q, t, qc))
  {
    assert At(q, InHand(t), QPcOf(q, t).i);
    if QPcOf(q, t).EnqWrite? { EnqWriteKeeps(g, q, t, QPcOf(q, t).d, QPcOf(q, t).i); }
    else { DeqReadKeeps(g, q, t, QPcOf(q, t).ticket, QPcOf(q, t).i); }
  }

  /** Every step of every thread keeps the tokens and the published words. */
  lemma QStepKeeps(g: Geometry, q: Queue, t: Tid, qc: QChoice)
    requires QInv(g, q)
    ensures QInv(g, QStep(g, q, t, qc))
  {
    var pc := QPcOf(q, t);
    if pc.EnqGet? || pc.EnqPut? { QEnqKeeps(g, q, t, qc); }
    else if pc.DeqGet? || pc.DeqPut? { QDeqKeeps(g, q, t, qc); }
    else if pc.EnqWrite? || pc.DeqRead? { QDataKeeps(g, q, t, qc); }
    else { QStartKeeps(g, q, t, qc); }
  }

  lemma QStartKeeps(g: Geometry, q: Queue, t: Tid, qc: QChoice)
    requires QInv(g, q) && (QPcOf(q, t).QIdle? || QPcOf(q, t).QRet?)
    ensures QInv(g, QStep(g, q, t, qc))
  {
    var q' := QStep(g, q, t, qc);
    assert QThreadInv(q, t);
    match qc
    case Put(d) => StartEffect(g, q.fq, t, OpDequeue(true)); IdleKeeps(g, q, q', t);
    case Take => StartEffect(g, q.aq, t, OpDequeue(false)); IdleKeeps(g, q, q', t);
    case Run(_) =>
  }
}
