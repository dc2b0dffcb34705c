/**
 * What the answers of the Michael-Scott queue mean: every call from its start,
 * as the scheduler names it, to its result, in terms of the queue's content.
 */
module MsCalls {
  import opened Fifo
  import opened MsQueue
  import opened MsRuns
  import opened MsSteps
  import opened Options

  /** The operation that t starts when u takes a step with choice c. */
  function Started(cfg: Config, s: Queue, u: Tid, c: Choice, t: Tid): Option<Op> {
    if u == t && t in cfg.procs && c.Start? && (PcOf(s, t).Idle? || PcOf(s, t).Ret?) then Some(c.op) else None
  }

  ghost function CallAfter(cfg: Config, s: Queue, schedule: seq<(Tid, Choice)>, t: Tid, call: Call<Op, Word>): Call<Op, Word>
    decreases |schedule|
  {
    if schedule == [] then call
    else
      var (u, c) := schedule[0];
      var s' := Step(cfg, s, u, c);
      CallAfter(cfg, s', schedule[1..], t, Noted(call, Started(cfg, s, u, c, t), u == t, Contents(s), Contents(s')))
  }

  /** An enqueue that returned appended its argument, once, and removed nothing; a
      dequeue appended nothing, and removed just the word it returned, or nothing
      when it answered that the queue was empty, which it was at some moment of the
      call. */
  ghost predicate Explains(call: Call<Op, Word>, res: Result) {
    match res
    case Enqueued => call.Call? && call.op.OpEnqueue? && Did(call, call.op, [call.op.d], [])
    case Dequeued(d) => Did(call, OpDequeue, [], [d])
    case WasEmpty => Did(call, OpDequeue, [], []) && call.sawEmpty
  }

  ghost predicate CallInv(s: Queue, t: Tid, call: Call<Op, Word>) {
    match PcOf(s, t)
    case Idle => call.NoCall?
    case Malloc(d) => Did(call, OpEnqueue(d), [], [])
    case Enq(d, _, pc) => Did(call, OpEnqueue(d), if pc.Final? then [d] else [], [])
    case Deq(pc) => Did(call, OpDequeue, [], []) && (SawNull(Deq(pc)) ==> call.sawEmpty)
    case Retire(_, d) => Did(call, OpDequeue, [], [d])
    case Scan(_, _, d) => Did(call, OpDequeue, [], [d])
    case Sweep(_, _, d) => Did(call, OpDequeue, [], [d])
    case Ret(res) => Explains(call, res)
    case Fault => false
  }

  lemma EnqKeepsCall(cfg: Config, s: Queue, t: Tid, c: Choice, call: Call<Op, Word>)
    requires Inv(cfg, s) && t in cfg.procs && PcOf(s, t).Enq? && CallInv(s, t, call)
    ensures var s' := Step(cfg, s, t, c); CallInv(s', t, Noted(call, None, true, Contents(s), Contents(s')))
  {
    hide Contents;
    assert ThreadInv(s, t);
    StepRefinesFifo(cfg, s, t, c);
  }

  lemma DeqKeepsCall(cfg: Config, s: Queue, t: Tid, c: Choice, call: Call<Op, Word>)
    requires Inv(cfg, s) && t in cfg.procs && PcOf(s, t).Deq? && CallInv(s, t, call) && Watches(call, Contents(s))
    ensures var s' := Step(cfg, s, t, c); CallInv(s', t, Noted(call, None, true, Contents(s), Contents(s')))
  {
    hide Contents;
    assert ThreadInv(s, t);
    StepRefinesFifo(cfg, s, t, c);
    if !SawNull(PcOf(s, t)) && SawNull(PcOf(Step(cfg, s, t, c), t)) { NullReadWhenEmpty(cfg, s, t, c); }
  }

  lemma RetiringKeepsCall(cfg: Config, s: Queue, t: Tid, c: Choice, call: Call<Op, Word>)
    requires Inv(cfg, s) && t in cfg.procs && CallInv(s, t, call)
    requires PcOf(s, t).Retire? || PcOf(s, t).Scan? || PcOf(s, t).Sweep?
    ensures var s' := Step(cfg, s, t, c); CallInv(s', t, Noted(call, None, true, Contents(s), Contents(s')))
  {
    hide Contents;
    DequeueReturnsRemovedValue(cfg, s, t, c);
    StepRefinesFifo(cfg, s, t, c);
  }

  lemma StartKeepsCall(cfg: Config, s: Queue, t: Tid, c: Choice, call: Call<Op, Word>)
    requires Inv(cfg, s) && t in cfg.procs && CallInv(s, t, call)
    requires PcOf(s, t).Idle? || PcOf(s, t).Ret? || PcOf(s, t).Fault? || PcOf(s, t).Malloc?
    ensures var s' := Step(cfg, s, t, c);
      CallInv(s', t, Noted(call, Started(cfg, s, t, c, t), true, Contents(s), Contents(s')))
  {
    hide Contents;
    StepRefinesFifo(cfg, s, t, c);
  }

  lemma StepKeepsCall(cfg: Config, s: Queue, u: Tid, c: Choice, t: Tid, call: Call<Op, Word>)
    requires Inv(cfg, s) && CallInv(s, t, call) && Watches(call, Contents(s))
    ensures var s' := Step(cfg, s, u, c);
      var call' := Noted(call, Started(cfg, s, u, c, t), u == t, Contents(s), Contents(s'));
      CallInv(s', t, call') && Watches(call', Contents(s'))
  {
    if u == t && t in cfg.procs {
      if PcOf(s, t).Enq? { EnqKeepsCall(cfg, s, t, c, call); }
      else if PcOf(s, t).Deq? { DeqKeepsCall(cfg, s, t, c, call); }
      else if PcOf(s, t).Retire? || PcOf(s, t).Scan? || PcOf(s, t).Sweep? { RetiringKeepsCall(cfg, s, t, c, call); }
      else { StartKeepsCall(cfg, s, t, c, call); }
    } else {
      OthersLeaveCall(cfg, s, u, c, t);
    }
  }

  lemma OthersLeaveCall(cfg: Config, s: Queue, u: Tid, c: Choice, t: Tid)
    requires u != t || t !in cfg.procs
    ensures PcOf(Step(cfg, s, u, c), t) == PcOf(s, t) && Started(cfg, s, u, c, t) == None
    ensures u == t ==> Step(cfg, s, u, c) == s
  {
  }

  lemma {:induction false} RunKeepsCall(cfg: Config, s: Queue, schedule: seq<(Tid, Choice)>, t: Tid, call: Call<Op, Word>)
    requires Inv(cfg, s) && CallInv(s, t, call) && Watches(call, Contents(s))
    ensures CallInv(Exec(cfg, s, schedule), t, CallAfter(cfg, s, schedule, t, call))
    decreases |schedule|
  {
    if schedule != [] {
      var (u, c) := schedule[0];
      var s' := Step(cfg, s, u, c);
      StepKeepsInv(cfg, s, u, c);
      StepKeepsCall(cfg, s, u, c, t, call);
      RunKeepsCall(cfg, s', schedule[1..], t,
                   Noted(call, Started(cfg, s, u, c, t), u == t, Contents(s), Contents(s')));
    }
  }

  /** In every run from queue_init, every answer is explained by the call it
      answers. */
  lemma AnswersAreExplained(cfg: Config, dummy: Addr, schedule: seq<(Tid, Choice)>, t: Tid)
    requires dummy != 0
    ensures var pc := PcOf(Exec(cfg, Init(dummy), schedule), t);
      pc.Ret? ==> Explains(CallAfter(cfg, Init(dummy), schedule, t, NoCall), pc.res)
  {
    InitInv(cfg, dummy);
    RunKeepsCall(cfg, Init(dummy), schedule, t, NoCall);
  }
}
