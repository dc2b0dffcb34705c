/**
 * What the answers of the naive ring mean: every call from its start, as the
 * scheduler names it, to its result, in terms of the ring's content; on entries
 * and on words.
 */
module NcqCalls {
  import opened Fifo
  import opened NcqInit
  import opened NcqRing
  import opened NcqRuns
  import opened NcqSteps
  import opened Options
  import W = NcqWordRuns
  import Words = NcqWords

  /** The operation that t starts when u takes a step with choice c.  An index that
      does not fit the ring is not enqueued. */
  function Started(g: Geometry, s: Ring, u: Tid, c: Choice, t: Tid): Option<Op> {
    if u == t && c.Start? && (PcOf(s, t).Idle? || PcOf(s, t).Ret?) && (c.op.OpEnqueue? ==> c.op.v < g.n)
    then Some(c.op) else None
  }

  ghost function CallAfter(g: Geometry, s: Ring, schedule: seq<(Tid, Choice)>, t: Tid, call: Call<Op, nat>): Call<Op, nat>
    requires ValidGeometry(g) && |s.m.slots| == g.n
    decreases |schedule|
  {
    if schedule == [] then call
    else
      var (u, c) := schedule[0];
      var s' := Step(g, s, u, c);
      CallAfter(g, s', schedule[1..], t, Noted(call, Started(g, s, u, c, t), u == t, s.items, s'.items))
  }

  /** An enqueue that returned appended its index, once, and removed nothing; a
      dequeue appended nothing, and removed just the index it returned, or nothing
      when it answered that the ring was empty, which it was at some moment of the
      call, and which it may answer only if that was asked for. */
  predicate Explains(call: Call<Op, nat>, res: Result) {
    match res
    case Enqueued => call.Call? && call.op.OpEnqueue? && Did(call, call.op, [call.op.v], [])
    case Dequeued(v) => call.Call? && call.op.OpDequeue? && Did(call, call.op, [], [v])
    case WasEmpty => Did(call, OpDequeue(false), [], []) && call.sawEmpty
  }

  ghost predicate CallInv(s: Ring, t: Tid, call: Call<Op, nat>) {
    match PcOf(s, t)
    case Idle => call.NoCall?
    case Enq(v, pc) => Did(call, OpEnqueue(v), if pc.MoveTail? then [v] else [], [])
    case Deq(nonempty, _) => Did(call, OpDequeue(nonempty), [], [])
    case Ret(res) => Explains(call, res)
  }

  lemma EnqKeepsCall(g: Geometry, s: Ring, t: Tid, c: Choice, call: Call<Op, nat>)
    requires Inv(g, s) && PcOf(s, t).Enq? && CallInv(s, t, call)
    ensures var s' := Step(g, s, t, c); CallInv(s', t, Noted(call, None, true, s.items, s'.items))
  {
    StepRefinesFifo(g, s, t, c);
  }

  lemma DeqKeepsCall(g: Geometry, s: Ring, t: Tid, c: Choice, call: Call<Op, nat>)
    requires Inv(g, s) && PcOf(s, t).Deq? && CallInv(s, t, call) && Watches(call, s.items)
    ensures var s' := Step(g, s, t, c); CallInv(s', t, Noted(call, None, true, s.items, s'.items))
  {
    StepRefinesFifo(g, s, t, c);
    assert |s.items| == 0 <==> s.items == [];
  }

  lemma OthersLeaveCall(g: Geometry, s: Ring, u: Tid, c: Choice, t: Tid)
    requires ValidGeometry(g) && |s.m.slots| == g.n && u != t
    ensures PcOf(Step(g, s, u, c), t) == PcOf(s, t) && Started(g, s, u, c, t) == None
  {
  }

  lemma StepKeepsCall(g: Geometry, s: Ring, u: Tid, c: Choice, t: Tid, call: Call<Op, nat>)
    requires Inv(g, s) && CallInv(s, t, call) && Watches(call, s.items)
    ensures var s' := Step(g, s, u, c); var call' := Noted(call, Started(g, s, u, c, t), u == t, s.items, s'.items);
      CallInv(s', t, call') && Watches(call', s'.items)
  {
    if u != t { OthersLeaveCall(g, s, u, c, t); }
    else if PcOf(s, t).Enq? { EnqKeepsCall(g, s, t, c, call); }
    else if PcOf(s, t).Deq? { DeqKeepsCall(g, s, t, c, call); }
  }

  lemma {:induction false} RunKeepsCall(g: Geometry, s: Ring, schedule: seq<(Tid, Choice)>, t: Tid, call: Call<Op, nat>)
    requires Inv(g, s) && RoomThroughout(g, s, schedule) && CallInv(s, t, call) && Watches(call, s.items)
    ensures CallInv(Exec(g, s, schedule), t, CallAfter(g, s, schedule, t, call))
    decreases |schedule|
  {
    if schedule != [] {
      var (u, c) := schedule[0];
      var s' := Step(g, s, u, c);
      StepKeepsInv(g, s, u, c);
      StepKeepsCall(g, s, u, c, t, call);
      RunKeepsCall(g, s', schedule[1..], t, Noted(call, Started(g, s, u, c, t), u == t, s.items, s'.items));
    }
  }

  /** In every run with room, from any ring of the source, every answer is explained
      by the call it answers. */
  lemma AnswersAreExplained(g: Geometry, s: Ring, schedule: seq<(Tid, Choice)>, t: Tid)
    requires ValidGeometry(g) && FirstLap(g) && InitialRing(g, s) && |s.m.slots| == g.n && RoomThroughout(g, s, schedule)
    ensures var pc := PcOf(Exec(g, s, schedule), t);
      pc.Ret? ==> Explains(CallAfter(g, s, schedule, t, NoCall), pc.res)
  {
    InitialRingInv(g, s);
    RunKeepsCall(g, s, schedule, t, NoCall);
  }

  /** And so is every answer of the ring of words: what a thread of words returns is
      explained by the call that the scheduler had it start. */
  lemma WordAnswersAreExplained(g: Geometry, l: Words.EntryLayout, s: Ring, w: W.Ring, schedule: seq<(Tid, Choice)>, t: Tid)
    requires Words.HasLayout(g, l) && ValidGeometry(g) && FirstLap(g) && W.NewRing(g, l, s, w)
    requires |s.m.slots| == g.n == |w.words|
    requires RoomThroughout(g, s, schedule) && W.InRange(l, Exec(g, s, schedule).m)
    ensures var pc := W.PcOf(W.Exec(g, l, w, schedule), t);
      pc.Ret? ==> Explains(CallAfter(g, s, schedule, t, NoCall), pc.res)
  {
    W.NewRingSimulates(g, l, s, w, schedule);
    W.RunSimulates(g, l, s, w, schedule);
    AnswersAreExplained(g, s, schedule, t);
    assert W.Matches(l, Exec(g, s, schedule), W.Exec(g, l, w, schedule), t);
  }
}
