/**
 * What the answers of the fetch-and-add ring mean: every call from its start, as
 * the scheduler names it, to its result; on slots and on words.
 */
module ScqCalls {
  import opened Options
  import opened ScqInit
  import opened ScqRing
  import opened ScqRuns
  import opened ScqSteps
  import L = ScqLayout
  import W = ScqWordRuns
  import Words = ScqWords

  /** A thread's latest operation, as a bystander sees it: what the scheduler
      started, the indices installed and taken in the thread's own steps since then,
      with their tickets, and whether since then there was a moment at which the
      threshold was below zero, or at which no index was left for this thread. */
  datatype Call = NoCall | Call(op: Op, put: map<nat, nat>, got: map<nat, nat>, sawLow: bool, sawNone: bool)

  /** Every index in the ring belongs to a ticket that another dequeuer holds. */
  ghost predicate NoneLeft(s: Ring, t: Tid) {
    forall p :: p in s.h.installed && p !in s.h.taken ==>
      p in s.h.deqOwner && s.h.deqOwner[p] != t && DeqTicket(PcOf(s, s.h.deqOwner[p])) == Some(p)
  }

  function Started(g: Geometry, s: Ring, u: Tid, c: Choice, t: Tid): Option<Op> {
    if u == t && c.Start? && (PcOf(s, t).Idle? || PcOf(s, t).Ret?) && (c.op.OpEnqueue? ==> c.op.v + 1 < g.n)
    then Some(c.op) else None
  }

  ghost function Noted(call: Call, started: Option<Op>, own: bool, s: Ring, s': Ring, t: Tid): Call {
    match started
    case Some(op) => Call(op, map[], map[], s'.m.threshold < 0, NoneLeft(s', t))
    case None =>
      if call.NoCall? then NoCall
      else Call(call.op, if own then call.put + (s'.h.installed - s.h.installed.Keys) else call.put,
                if own then call.got + (s'.h.taken - s.h.taken.Keys) else call.got,
                call.sawLow || s'.m.threshold < 0, call.sawNone || NoneLeft(s', t))
  }

  ghost function CallAfter(g: Geometry, s: Ring, schedule: seq<(Tid, Choice)>, t: Tid, call: Call): Call
    requires ValidGeometry(g) && |s.m.slots| == g.n
    decreases |schedule|
  {
    if schedule == [] then call
    else
      var (u, c) := schedule[0];
      var s' := Step(g, s, u, c);
      CallAfter(g, s', schedule[1..], t, Noted(call, Started(g, s, u, c, t), u == t, s, s', t))
  }

  predicate Did(call: Call, op: Op, put: map<nat, nat>, got: map<nat, nat>) {
    call.Call? && call.op == op && call.put == put && call.got == got
  }

  /** An enqueue that returned installed its index, once, at the ticket it returns; a
      dequeue installed nothing, and took just the index it returned, at its ticket,
      or nothing when it answered EMPTY.  EMPTY is answered only where that was asked
      for: by the tail test after a moment of the call at which no index was left for
      it, and by the threshold after one at which the threshold was below zero. */
  predicate Explains(call: Call, res: Result) {
    match res
    case Enqueued(p) => call.Call? && call.op.OpEnqueue? && Did(call, call.op, map[p := call.op.v], map[])
    case Dequeued(p, v) => call.Call? && call.op.OpDequeue? && Did(call, call.op, map[], map[p := v])
    case EmptyByTail(_) => Did(call, OpDequeue(false), map[], map[]) && call.sawNone
    case EmptyByThreshold => Did(call, OpDequeue(false), map[], map[]) && call.sawLow
  }

  predicate Installed(pc: EnqPc) { pc.LoadThreshold? || pc.StoreThreshold? }

  predicate CallInv(pc: Pc, call: Call) {
    match pc
    case Idle => call.NoCall?
    case Enq(v, nonempty, pc) =>
      Did(call, OpEnqueue(v, nonempty), if Installed(pc) then map[pc.ticket := v] else map[], map[])
    case Deq(nonempty, pc) => Did(call, OpDequeue(nonempty), map[], map[]) && (pc.TestThreshold? ==> !nonempty)
    case Empty(_, pc) =>
      && Did(call, OpDequeue(false), map[], map[])
      && (!pc.LoadTail? && pc != LowerThreshold(false) ==> call.sawNone)
    case Ret(res) => Explains(call, res)
  }

  /** What holds now has been seen. */
  ghost predicate Watches(s: Ring, t: Tid, call: Call) {
    call.Call? ==> (s.m.threshold < 0 ==> call.sawLow) && (NoneLeft(s, t) ==> call.sawNone)
  }

  // ----- every step ------------------------------------------------------

  lemma Unchanged(m: map<nat, nat>)
    ensures m - m.Keys == map[]
  {
  }

  lemma Added(m: map<nat, nat>, p: nat, v: nat)
    requires p !in m
    ensures m[p := v] - m.Keys == map[p := v] && map[] + map[p := v] == map[p := v]
  {
  }

  /** An own step that neither installs nor takes. */
  lemma QuietNote(call: Call, s: Ring, s': Ring, t: Tid)
    requires call.Call? && s'.h.installed == s.h.installed && s'.h.taken == s.h.taken
    ensures Did(Noted(call, None, true, s, s', t), call.op, call.put, call.got)
    ensures call.sawLow || s'.m.threshold < 0 ==> Noted(call, None, true, s, s', t).sawLow
    ensures call.sawNone ==> Noted(call, None, true, s, s', t).sawNone
  {
    hide NoneLeft;
    Unchanged(s.h.installed);
    Unchanged(s.h.taken);
    assert call.put + map[] == call.put && call.got + map[] == call.got;
  }

  lemma InstallNote(call: Call, s: Ring, s': Ring, t: Tid, p: nat, v: nat)
    requires call.Call? && p !in s.h.installed && s'.h.installed == s.h.installed[p := v] && s'.h.taken == s.h.taken
    requires call.put == map[] && call.got == map[]
    ensures Did(Noted(call, None, true, s, s', t), call.op, map[p := v], map[])
  {
    hide NoneLeft;
    Added(s.h.installed, p, v);
    Unchanged(s.h.taken);
  }

  lemma TakeNote(call: Call, s: Ring, s': Ring, t: Tid, p: nat, v: nat)
    requires call.Call? && p !in s.h.taken && s'.h.taken == s.h.taken[p := v] && s'.h.installed == s.h.installed
    requires call.put == map[] && call.got == map[]
    ensures Did(Noted(call, None, true, s, s', t), call.op, map[], map[p := v])
  {
    hide NoneLeft;
    Added(s.h.taken, p, v);
    Unchanged(s.h.installed);
  }

  lemma EnqKeepsCall(g: Geometry, s: Ring, t: Tid, c: Choice, call: Call)
    requires Inv(g, s) && PcOf(s, t).Enq? && CallInv(PcOf(s, t), call)
    ensures var s' := Step(g, s, t, c); CallInv(PcOf(s', t), Noted(call, None, true, s, s', t))
  {
    hide NoneLeft, Noted;
    assert ThreadInv(g, s, t);
    var pc, s' := PcOf(s, t), Step(g, s, t, c);
    if pc.enq.CasSlot? && s.m.slots[g.loc(pc.enq.ticket)] == pc.enq.e && c != Alt {
      InstallNote(call, s, s', t, pc.enq.ticket, pc.v);
    } else {
      QuietNote(call, s, s', t);
    }
  }

  /** A dequeuer's step short of the atomic or. */
  predicate DeqMoves(s: Ring, s': Ring, nonempty: bool, pc: DeqPc, pc': Pc) {
    && s'.h.installed == s.h.installed && s'.h.taken == s.h.taken && s'.m.threshold == s.m.threshold
    && (|| (pc'.Deq? && pc'.nonempty == nonempty && !pc'.deq.TestThreshold?)
        || (pc'.Empty? && !nonempty && pc'.empty.LoadTail?)
        || (pc' == Ret(EmptyByThreshold) && pc.TestThreshold? && s.m.threshold < 0))
  }

  lemma ContinueMoves(g: Geometry, s: Ring, t: Tid, c: Choice, nonempty: bool, ticket: nat, pc: DeqPc)
    requires ValidGeometry(g) && |s.m.slots| == g.n
    ensures var s' := DeqContinue(g, s, t, c, nonempty, ticket); DeqMoves(s, s', nonempty, pc, PcOf(s', t))
  {
  }

  lemma DeqQuiet(g: Geometry, s: Ring, t: Tid, c: Choice, nonempty: bool, pc: DeqPc)
    requires ValidGeometry(g) && |s.m.slots| == g.n && !pc.Erase?
    ensures var s' := DeqStep(g, s, t, c, nonempty, pc); DeqMoves(s, s', nonempty, pc, PcOf(s', t))
  {
    if pc.LoadSlot? || pc.CasSlot? { ContinueMoves(g, s, t, c, nonempty, pc.ticket, pc); }
  }

  lemma DeqKeepsCall(g: Geometry, s: Ring, t: Tid, c: Choice, call: Call)
    requires Inv(g, s) && PcOf(s, t).Deq? && CallInv(PcOf(s, t), call)
    ensures var s' := Step(g, s, t, c); CallInv(PcOf(s', t), Noted(call, None, true, s, s', t))
  {
    hide NoneLeft, Noted;
    var pc, s' := PcOf(s, t), Step(g, s, t, c);
    if pc.deq.Erase? {
      assert ThreadInv(g, s, t);
      TakeNote(call, s, s', t, pc.deq.ticket, pc.deq.v);
    } else {
      hide Tickets, Threads, DeqStep;
      DeqQuiet(g, s, t, c, pc.nonempty, pc.deq);
      QuietNote(call, s, s', t);
    }
  }

  lemma EmptyKeepsCall(g: Geometry, s: Ring, t: Tid, c: Choice, call: Call)
    requires Inv(g, s) && PcOf(s, t).Empty? && CallInv(PcOf(s, t), call) && Watches(s, t, call)
    ensures var s' := Step(g, s, t, c); CallInv(PcOf(s', t), Noted(call, None, true, s, s', t))
  {
    var pc := PcOf(s, t);
    if pc.empty.LoadTail? && s.m.tail <= pc.ticket + 1 {
      TailTestEmptiness(g, s, t, pc.ticket);
      assert NoneLeft(s, t);
    }
    hide NoneLeft, Noted, Tickets, Threads;
    QuietNote(call, s, Step(g, s, t, c), t);
  }

  /** What is noted of others' steps does not speak against a call. */
  lemma OthersKeepCall(g: Geometry, s: Ring, u: Tid, c: Choice, t: Tid, call: Call)
    requires Inv(g, s) && CallInv(PcOf(s, t), call) && u != t
    ensures var s' := Step(g, s, u, c); CallInv(PcOf(s', t), Noted(call, None, false, s, s', t))
  {
    hide NoneLeft, Step, Tickets, Threads, MemoryFrame, HistoryGrows, OwnTickets;
    StepKeepsInv(g, s, u, c);
  }

  lemma StartKeepsCall(g: Geometry, s: Ring, t: Tid, c: Choice, call: Call)
    requires Inv(g, s) && CallInv(PcOf(s, t), call) && (PcOf(s, t).Idle? || PcOf(s, t).Ret?)
    ensures var s' := Step(g, s, t, c); CallInv(PcOf(s', t), Noted(call, Started(g, s, t, c, t), true, s, s', t))
  {
    hide NoneLeft, Tickets, Threads;
    if Started(g, s, t, c, t) == None && call.Call? { QuietNote(call, s, Step(g, s, t, c), t); }
  }

  lemma Watching(g: Geometry, s: Ring, u: Tid, c: Choice, t: Tid, call: Call)
    requires ValidGeometry(g) && |s.m.slots| == g.n
    ensures var s' := Step(g, s, u, c); Watches(s', t, Noted(call, Started(g, s, u, c, t), u == t, s, s', t))
  {
    hide NoneLeft, Step;
  }

  lemma StepKeepsCall(g: Geometry, s: Ring, u: Tid, c: Choice, t: Tid, call: Call)
    requires Inv(g, s) && CallInv(PcOf(s, t), call) && Watches(s, t, call)
    ensures var s' := Step(g, s, u, c); var call' := Noted(call, Started(g, s, u, c, t), u == t, s, s', t);
      CallInv(PcOf(s', t), call') && Watches(s', t, call')
  {
    hide NoneLeft, CallInv, Watches, Noted, Step;
    Watching(g, s, u, c, t, call);
    if u != t { OthersKeepCall(g, s, u, c, t, call); }
    else if PcOf(s, t).Enq? { EnqKeepsCall(g, s, t, c, call); }
    else if PcOf(s, t).Deq? { DeqKeepsCall(g, s, t, c, call); }
    else if PcOf(s, t).Empty? { EmptyKeepsCall(g, s, t, c, call); }
    else { StartKeepsCall(g, s, t, c, call); }
  }

  lemma {:induction false} RunKeepsCall(g: Geometry, s: Ring, schedule: seq<(Tid, Choice)>, t: Tid, call: Call)
    requires Inv(g, s) && CallInv(PcOf(s, t), call) && Watches(s, t, call)
    ensures CallInv(PcOf(Exec(g, s, schedule), t), CallAfter(g, s, schedule, t, call))
    decreases |schedule|
  {
    hide CallInv, NoneLeft;
    if schedule != [] {
      var (u, c) := schedule[0];
      var s' := Step(g, s, u, c);
      StepKeepsInv(g, s, u, c);
      StepKeepsCall(g, s, u, c, t, call);
      RunKeepsCall(g, s', schedule[1..], t, Noted(call, Started(g, s, u, c, t), u == t, s, s', t));
    }
  }

  /** In every run of a new ring every answer is explained by the call it answers. */
  lemma AnswersAreExplained(g: Geometry, s: Ring, schedule: seq<(Tid, Choice)>, t: Tid)
    requires Inv(g, s) && s.pcs == map[]
    ensures var pc := PcOf(Exec(g, s, schedule), t);
      pc.Ret? ==> Explains(CallAfter(g, s, schedule, t, NoCall), pc.res)
  {
    RunKeepsCall(g, s, schedule, t, NoCall);
  }

  /** And so is every answer of the ring of words. */
  lemma WordAnswersAreExplained(g: Geometry, l: L.Layout, s: Ring, w: W.Ring, schedule: seq<(Tid, Choice)>, t: Tid)
    requires Words.RingOf(g, l) && ValidGeometry(g) && Laps(g) && Covered(g) && g.n > 1 && W.NewRing(g, l, s, w)
    requires |s.m.slots| == g.n == |w.words| && W.InRange(l, Exec(g, s, schedule).m)
    ensures var pc := W.PcOf(W.Exec(g, l, w, schedule), t);
      pc.Ret? ==> Explains(CallAfter(g, s, schedule, t, NoCall), pc.res)
  {
    hide CallInv, Explains;
    W.NewRingSimulates(g, l, s, w);
    W.RunSimulates(g, l, s, w, schedule);
    AnswersAreExplained(g, s, schedule, t);
    assert W.Matches(l, Exec(g, s, schedule), W.Exec(g, l, w, schedule), t);
  }
}
