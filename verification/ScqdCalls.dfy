/**
 * What the answers of the token queue mean: every call from its start, as the
 * scheduler names it, to its result.
 */
module ScqdCalls {
  import opened Options
  import opened Scqd
  import opened ScqdRuns
  import opened ScqdSteps
  import opened ScqInit
  import opened ScqRing
  import C = ScqCalls
  import S = ScqSteps

  /** A thread's latest operation, as a bystander sees it: what the scheduler
      started, and for the ring of allocated indices the tickets at which the
      thread's own steps installed or took since then, and whether since then its
      threshold was below zero, or no index was left in it for this thread. */
  datatype Call = NoCall | Call(op: QChoice, put: set<nat>, got: set<nat>, sawLow: bool, sawNone: bool)

  function Started(q: Queue, u: Tid, qc: QChoice, t: Tid): Option<QChoice> {
    if u == t && !qc.Run? && (QPcOf(q, t).QIdle? || QPcOf(q, t).QRet?) then Some(qc) else None
  }

  ghost function Noted(call: Call, started: Option<QChoice>, own: bool, q: Queue, q': Queue, t: Tid): Call {
    match started
    case Some(op) => Call(op, {}, {}, q'.aq.m.threshold < 0, C.NoneLeft(q'.aq, t))
    case None =>
      if call.NoCall? then NoCall
      else Call(call.op, if own then call.put + (q'.aq.h.installed.Keys - q.aq.h.installed.Keys) else call.put,
                if own then call.got + (q'.aq.h.taken.Keys - q.aq.h.taken.Keys) else call.got,
                call.sawLow || q'.aq.m.threshold < 0, call.sawNone || C.NoneLeft(q'.aq, t))
  }

  ghost function CallAfter(g: Geometry, q: Queue, schedule: seq<(Tid, QChoice)>, t: Tid, call: Call): Call
    requires Fits(g, q)
    decreases |schedule|
  {
    if schedule == [] then call
    else
      var (u, qc) := schedule[0];
      var q' := QStep(g, q, u, qc);
      CallAfter(g, q', schedule[1..], t, Noted(call, Started(q, u, qc, t), u == t, q, q', t))
  }

  predicate Did(call: Call, op: QChoice, put: set<nat>, got: set<nat>) {
    call.Call? && call.op == op && call.put == put && call.got == got
  }

  /** An enqueue that returned published its argument, at one ticket of its own; a
      dequeue published nothing, and took just the ticket of the word it returned, or
      none when it answered EMPTY, which only a dequeue does: then no word was left
      for it at some moment of the call, or the threshold was below zero at one. */
  ghost predicate Explains(q: Queue, call: Call, res: QResult) {
    match res
    case Done(p) => call.Call? && call.op.Put? && Did(call, call.op, {p}, {}) && Has(q, p, call.op.d)
    case Got(p, d) => Did(call, Take, {}, {p}) && Has(q, p, d)
    case WasEmpty => Did(call, Take, {}, {}) && (call.sawLow || call.sawNone)
  }

  /** A dequeue on the ring of allocated indices that has taken nothing. */
  function RingCall(call: Call): C.Call
    requires call.Call?
  {
    C.Call.Call(OpDequeue(false), map[], map[], call.sawLow, call.sawNone)
  }

  ghost predicate CallInv(q: Queue, t: Tid, call: Call) {
    match QPcOf(q, t)
    case QIdle => call.NoCall?
    case EnqGet(d) => Did(call, Put(d), {}, {})
    case EnqWrite(d, _) => Did(call, Put(d), {}, {})
    case EnqPut(d, _) => Did(call, Put(d), if Pending(PcOf(q.aq, t)) then {} else {InstallTicketOf(PcOf(q.aq, t))}, {})
    case DeqGet => (match PcOf(q.aq, t)
      case Ret(Dequeued(p, _)) => Did(call, Take, {}, {p})
      case pc => Did(call, Take, {}, {}) && C.CallInv(pc, RingCall(call)))
    case DeqRead(p, _) => Did(call, Take, {}, {p})
    case DeqPut(p, _, _) => Did(call, Take, {}, {p})
    case QRet(res) => Explains(q, call, res)
  }

  ghost predicate Watches(q: Queue, t: Tid, call: Call) {
    call.Call? ==> (q.aq.m.threshold < 0 ==> call.sawLow) && (C.NoneLeft(q.aq, t) ==> call.sawNone)
  }

  // ----- the ring of allocated indices -----------------------------------

  /** The access to the ring of allocated indices that a step is, if it is one. */
  function AllocAccess(q: Queue, u: Tid, qc: QChoice): Option<Choice> {
    var c := if qc == Run(true) then Alt else Go;
    match QPcOf(q, u)
    case EnqGet(_) => None
    case EnqWrite(_, i) => if i < |q.vals| then Some(Start(OpEnqueue(i, false))) else None
    case EnqPut(_, _) => (match PcOf(q.aq, u) case Ret(Enqueued(_)) => None case _ => Some(c))
    case DeqGet => if PcOf(q.aq, u).Ret? then None else Some(c)
    case DeqRead(_, _) => None
    case DeqPut(_, _, _) => None
    case _ => if qc.Take? then Some(Start(OpDequeue(false))) else None
  }

  lemma AllocProjects(g: Geometry, q: Queue, u: Tid, qc: QChoice)
    requires Fits(g, q)
    ensures QStep(g, q, u, qc).aq
            == match AllocAccess(q, u, qc) case Some(c) => Step(g, q.aq, u, c) case None => q.aq
  {
    hide Step;
  }

  lemma OthersStayPut(g: Geometry, q: Queue, u: Tid, qc: QChoice)
    requires QInv(g, q)
    ensures var q' := QStep(g, q, u, qc);
      && (forall t :: t != u ==> QPcOf(q', t) == QPcOf(q, t) && PcOf(q'.aq, t) == PcOf(q.aq, t))
      && (forall p :: p in q.aq.h.installed ==> p in q'.aq.h.installed)
  {
    hide Tickets, Threads, Tokens, Published, Step, QStep, AllocAccess;
    AllocProjects(g, q, u, qc);
    CountersStay(g, q, u, qc);
    if AllocAccess(q, u, qc).Some? { RingFrame(g, q.aq, u, AllocAccess(q, u, qc).value); }
  }

  lemma CountersStay(g: Geometry, q: Queue, u: Tid, qc: QChoice)
    requires Fits(g, q)
    ensures forall t :: t != u ==> QPcOf(QStep(g, q, u, qc), t) == QPcOf(q, t)
  {
    hide Step, StepEnqGet, StepDeqGet, StepEnqPut, StepDeqPut;
    var c := if qc == Run(true) then Alt else Go;
    RingStepsKeepCounters(g, q, u, c, if QPcOf(q, u).EnqPut? then QPcOf(q, u).d else 0,
                          if QPcOf(q, u).EnqPut? || QPcOf(q, u).DeqPut? then QPcOf(q, u).i else 0);
  }

  lemma RingStepsKeepCounters(g: Geometry, q: Queue, u: Tid, c: Choice, d: Word, i: nat)
    requires Fits(g, q)
    ensures StepEnqGet(g, q, u, c).pcs == q.pcs && StepDeqGet(g, q, u, c).pcs == q.pcs
    ensures StepEnqPut(g, q, u, c, d, i).pcs == q.pcs && StepDeqPut(g, q, u, c, i).pcs == q.pcs
  {
    hide Step;
  }

  lemma RingFrame(g: Geometry, s: Ring, u: Tid, c: Choice)
    requires Inv(g, s)
    ensures var s' := Step(g, s, u, c);
      && (forall t :: t != u ==> PcOf(s', t) == PcOf(s, t)) && (forall p :: p in s.h.installed ==> p in s'.h.installed)
  {
    S.StepKeepsInv(g, s, u, c);
  }

  lemma WordsStay(g: Geometry, q: Queue, u: Tid, qc: QChoice)
    requires QInv(g, q)
    ensures forall p, d :: Has(q, p, d) ==> Has(QStep(g, q, u, qc), p, d)
  {
    hide QStep, Tickets, Threads, Tokens;
    OthersStayPut(g, q, u, qc);
    OnlyEnqueuePublishes(g, q, u, qc);
  }

  // ----- every step ------------------------------------------------------

  /** A step that changes nothing in the ring of allocated indices. */
  lemma LocalNote(call: Call, q: Queue, q': Queue, t: Tid)
    requires call.Call? && q'.aq.h.installed == q.aq.h.installed && q'.aq.h.taken == q.aq.h.taken
    ensures Did(Noted(call, None, true, q, q', t), call.op, call.put, call.got)
    ensures call.sawLow ==> Noted(call, None, true, q, q', t).sawLow
    ensures call.sawNone ==> Noted(call, None, true, q, q', t).sawNone
  {
  }

  lemma EnqGetKeepsCall(g: Geometry, q: Queue, t: Tid, qc: QChoice, call: Call)
    requires QInv(g, q) && QPcOf(q, t).EnqGet? && CallInv(q, t, call)
    ensures var q' := QStep(g, q, t, qc); CallInv(q', t, Noted(call, None, true, q, q', t))
  {
    hide C.NoneLeft, Noted, Tickets, Threads, Tokens, Published;
    if PcOf(q.fq, t).Ret? { EnqueueAlwaysGetsAnIndex(g, q, t, QPcOf(q, t).d); }
    LocalNote(call, q, QStep(g, q, t, qc), t);
  }

  lemma EnqWriteKeepsCall(g: Geometry, q: Queue, t: Tid, qc: QChoice, call: Call)
    requires QInv(g, q) && QPcOf(q, t).EnqWrite? && CallInv(q, t, call)
    ensures var q' := QStep(g, q, t, qc); CallInv(q', t, Noted(call, None, true, q, q', t))
  {
    hide C.NoneLeft, Noted, Tickets, Threads, Published;
    assert QThreadInv(q, t);
    if QPcOf(q, t).i < |q.vals| { StartEffect(g, q.aq, t, OpEnqueue(QPcOf(q, t).i, false)); }
    LocalNote(call, q, QStep(g, q, t, qc), t);
  }

  /** The installing step of an enqueue. */
  lemma InstallNote(call: Call, q: Queue, q': Queue, t: Tid, p: nat, v: nat)
    requires call.Call? && call.put == {} && p !in q.aq.h.installed
    requires q'.aq.h.installed == q.aq.h.installed[p := v] && q'.aq.h.taken == q.aq.h.taken
    ensures Did(Noted(call, None, true, q, q', t), call.op, {p}, call.got)
  {
    hide C.NoneLeft;
    assert q'.aq.h.installed.Keys - q.aq.h.installed.Keys == {p};
  }

  lemma EnqPutKeepsCall(g: Geometry, q: Queue, t: Tid, qc: QChoice, call: Call)
    requires QInv(g, q) && QPcOf(q, t).EnqPut? && CallInv(q, t, call)
    ensures var q' := QStep(g, q, t, qc); CallInv(q', t, Noted(call, None, true, q, q', t))
  {
    hide C.NoneLeft, Noted, Tickets, Threads, Tokens, Published;
    assert QThreadInv(q, t);
    var q', c := QStep(g, q, t, qc), if qc == Run(true) then Alt else Go;
    if PcOf(q.aq, t).Enq? {
      EnqueueStepEffect(g, q.aq, t, c);
      var pc' := PcOf(Step(g, q.aq, t, c), t);
      if Pending(PcOf(q.aq, t)) && !Pending(pc') { InstallNote(call, q, q', t, InstallTicketOf(pc'), QPcOf(q, t).i); }
      else { LocalNote(call, q, q', t); }
    } else {
      LocalNote(call, q, q', t);
    }
  }

  /** The taking step of a dequeue. */
  lemma TakeNote(call: Call, q: Queue, q': Queue, t: Tid, p: nat, v: nat)
    requires call.Call? && call.got == {} && p !in q.aq.h.taken
    requires q'.aq.h.taken == q.aq.h.taken[p := v] && q'.aq.h.installed == q.aq.h.installed
    ensures Did(Noted(call, None, true, q, q', t), call.op, call.put, {p})
  {
    hide C.NoneLeft;
    assert q'.aq.h.taken.Keys - q.aq.h.taken.Keys == {p};
  }

  /** What the ring notes of such a step, the queue notes as well. */
  lemma SameFlags(call: Call, q: Queue, q': Queue, t: Tid)
    requires Did(call, Take, {}, {}) && q'.aq.h.installed == q.aq.h.installed && q'.aq.h.taken == q.aq.h.taken
    ensures var call' := Noted(call, None, true, q, q', t);
      Did(call', Take, {}, {}) && C.Noted(RingCall(call), None, true, q.aq, q'.aq, t) == RingCall(call')
  {
    hide C.NoneLeft;
    C.Unchanged(q.aq.h.installed);
    C.Unchanged(q.aq.h.taken);
  }

  lemma DeqRingKeepsCall(g: Geometry, q: Queue, t: Tid, c: Choice, call: Call)
    requires QInv(g, q) && QPcOf(q, t).DeqGet? && !PcOf(q.aq, t).Ret? && CallInv(q, t, call) && Watches(q, t, call)
    requires c == Go || c == Alt
    ensures var q' := StepDeqGet(g, q, t, c); CallInv(q', t, Noted(call, None, true, q, q', t))
  {
    hide C.NoneLeft, Noted, C.Noted, C.CallInv, Tickets, Threads, Tokens, Published;
    assert QThreadInv(q, t);
    var q' := StepDeqGet(g, q, t, c);
    if PcOf(q.aq, t).Deq? { DequeueStepEffect(g, q.aq, t, c); } else { EmptyStepEffect(g, q.aq, t, c); }
    if TakenIndex(PcOf(q'.aq, t)).Some? {
      TakeNote(call, q, q', t, PcOf(q'.aq, t).res.ticket, PcOf(q'.aq, t).res.v);
    } else {
      RingNotes(g, q, t, c, call);
      SameFlags(call, q, q', t);
    }
  }

  lemma RingNotes(g: Geometry, q: Queue, t: Tid, c: Choice, call: Call)
    requires QInv(g, q) && call.Call? && C.CallInv(PcOf(q.aq, t), RingCall(call)) && Watches(q, t, call)
    requires c == Go || c == Alt
    ensures var aq := Step(g, q.aq, t, c); C.CallInv(PcOf(aq, t), C.Noted(RingCall(call), None, true, q.aq, aq, t))
  {
    hide C.NoneLeft, C.Noted, C.CallInv, Tickets, Threads, Tokens, Published;
    C.StepKeepsCall(g, q.aq, t, c, t, RingCall(call));
  }

  lemma DeqGetKeepsCall(g: Geometry, q: Queue, t: Tid, qc: QChoice, call: Call)
    requires QInv(g, q) && QPcOf(q, t).DeqGet? && CallInv(q, t, call) && Watches(q, t, call)
    ensures var q' := QStep(g, q, t, qc); CallInv(q', t, Noted(call, None, true, q, q', t))
  {
    hide C.NoneLeft, Noted, Tickets, Threads, Tokens, Published;
    assert QThreadInv(q, t);
    if PcOf(q.aq, t).Ret? { LocalNote(call, q, QStep(g, q, t, qc), t); }
    else { DeqRingKeepsCall(g, q, t, if qc == Run(true) then Alt else Go, call); }
  }

  lemma DeqPutKeepsCall(g: Geometry, q: Queue, t: Tid, qc: QChoice, call: Call)
    requires QInv(g, q) && (QPcOf(q, t).DeqRead? || QPcOf(q, t).DeqPut?) && CallInv(q, t, call)
    ensures var q' := QStep(g, q, t, qc); CallInv(q', t, Noted(call, None, true, q, q', t))
  {
    hide C.NoneLeft, Noted, Tickets, Threads, Tokens, Published;
    assert QThreadInv(q, t);
    LocalNote(call, q, QStep(g, q, t, qc), t);
  }

  lemma StartKeepsCall(g: Geometry, q: Queue, t: Tid, qc: QChoice, call: Call)
    requires QInv(g, q) && (QPcOf(q, t).QIdle? || QPcOf(q, t).QRet?) && CallInv(q, t, call)
    ensures var q' := QStep(g, q, t, qc); CallInv(q', t, Noted(call, Started(q, t, qc, t), true, q, q', t))
  {
    hide C.NoneLeft, Tickets, Threads, Tokens, Published;
    assert QThreadInv(q, t);
    if qc.Take? { StartEffect(g, q.aq, t, OpDequeue(false)); }
    else if qc.Run? && call.Call? { LocalNote(call, q, q, t); }
  }

  /** What was published at a ticket stays, and other threads stay where they are. */
  lemma OthersKeepCall(g: Geometry, q: Queue, u: Tid, qc: QChoice, t: Tid, call: Call)
    requires QInv(g, q) && u != t && CallInv(q, t, call)
    ensures var q' := QStep(g, q, u, qc); CallInv(q', t, Noted(call, None, false, q, q', t))
  {
    hide C.NoneLeft, Tickets, Threads, Tokens, Published, QStep;
    OthersStayPut(g, q, u, qc);
    WordsStay(g, q, u, qc);
  }

  lemma StepKeepsCall(g: Geometry, q: Queue, u: Tid, qc: QChoice, t: Tid, call: Call)
    requires QInv(g, q) && CallInv(q, t, call) && Watches(q, t, call)
    ensures var q' := QStep(g, q, u, qc); var call' := Noted(call, Started(q, u, qc, t), u == t, q, q', t);
      CallInv(q', t, call') && Watches(q', t, call')
  {
    hide C.NoneLeft, CallInv, QStep, QInv;
    if u != t { OthersKeepCall(g, q, u, qc, t, call); }
    else if QPcOf(q, t).EnqGet? { EnqGetKeepsCall(g, q, t, qc, call); }
    else if QPcOf(q, t).EnqWrite? { EnqWriteKeepsCall(g, q, t, qc, call); }
    else if QPcOf(q, t).EnqPut? { EnqPutKeepsCall(g, q, t, qc, call); }
    else if QPcOf(q, t).DeqGet? { DeqGetKeepsCall(g, q, t, qc, call); }
    else if QPcOf(q, t).DeqRead? || QPcOf(q, t).DeqPut? { DeqPutKeepsCall(g, q, t, qc, call); }
    else { StartKeepsCall(g, q, t, qc, call); }
  }

  // ----- every run -------------------------------------------------------

  lemma {:induction false} RunKeepsCall(g: Geometry, q: Queue, schedule: seq<(Tid, QChoice)>, t: Tid, call: Call)
    requires QInv(g, q) && CallInv(q, t, call) && Watches(q, t, call)
    ensures CallInv(QExec(g, q, schedule), t, CallAfter(g, q, schedule, t, call))
    decreases |schedule|
  {
    hide CallInv, Watches, QStep;
    if schedule != [] {
      var (u, qc) := schedule[0];
      var q' := QStep(g, q, u, qc);
      QStepKeeps(g, q, u, qc);
      StepKeepsCall(g, q, u, qc, t, call);
      RunKeepsCall(g, q', schedule[1..], t, Noted(call, Started(q, u, qc, t), u == t, q, q', t));
    }
  }

  /** In every run of a new queue every answer is explained by the call it
      answers. */
  lemma AnswersAreExplained(g: Geometry, q: Queue, schedule: seq<(Tid, QChoice)>, t: Tid)
    requires QInv(g, q) && q.pcs == map[]
    ensures var q' := QExec(g, q, schedule);
      QPcOf(q', t).QRet? ==> Explains(q', CallAfter(g, q, schedule, t, NoCall), QPcOf(q', t).res)
  {
    RunKeepsCall(g, q, schedule, t, NoCall);
  }
}
