/**
 * What the answers of the two-sided list queue mean: every call from its start to
 * its result, in terms of the queue's content; with given servers (CcQueue), and
 * through the two combining locks (CcCombined).
 */
module CcCalls {
  import opened CcQueue
  import opened CcQueueRuns
  import opened CcQueueSteps
  import opened Fifo
  import opened Options
  import C = CcCombined
  import CR = CcCombinedRuns
  import CS = CcCombinedSteps

  predicate Free(q: Queue, t: Tid) { PcOf(q, t).Idle? || PcOf(q, t).Ret? }

  /** The operation that t starts in action a. */
  function Started(q: Queue, a: Action, t: Tid): Option<Op> {
    if a.Start? && a.t == t && Free(q, t) then Some(a.op) else None
  }

  /** The node that enters the list is t's, or the one that leaves it goes to t. */
  ghost predicate Own(q: Queue, q': Queue, t: Tid) {
    var c, c' := q.sh.chain, q'.sh.chain;
    if |c'| > |c| then PcOf(q, t).AskEnqueue? && c'[|c'| - 1] == PcOf(q, t).node
    else |c'| < |c| && c[0] in q'.sh.kind && q'.sh.kind[c[0]] == Held(t)
  }

  ghost function NotedIn(call: Call<Op, Word>, started: Option<Op>, q: Queue, q': Queue, t: Tid): Call<Op, Word> {
    Noted(call, started, Own(q, q', t), Contents(q), Contents(q'))
  }

  ghost function CallAfter(q: Queue, actions: seq<Action>, t: Tid, call: Call<Op, Word>): Call<Op, Word>
    decreases |actions|
  {
    if actions == [] then call
    else CallAfter(Step(q, actions[0]), actions[1..], t, NotedIn(call, Started(q, actions[0], t), q, Step(q, actions[0]), t))
  }

  /** An enqueue that returned appended its argument, once, and removed nothing; a
      dequeue appended nothing, and removed just the word it returned, or nothing
      when it answered that the queue was empty, which it was at some moment of the
      call. */
  predicate Explains(call: Call<Op, Word>, res: Result) {
    match res
    case Enqueued => call.Call? && call.op.OpEnqueue? && Did(call, call.op, [call.op.d], [])
    case Dequeued(d) => Did(call, OpDequeue, [], [d])
    case WasEmpty => Did(call, OpDequeue, [], []) && call.sawEmpty
  }

  ghost predicate CallInv(q: Queue, t: Tid, call: Call<Op, Word>) {
    match PcOf(q, t)
    case Idle => call.NoCall?
    case Fault => false
    case PickNode(d) => Did(call, OpEnqueue(d), [], [])
    case SetData(_, d) => Did(call, OpEnqueue(d), [], [])
    case SetNext(_, d) => Did(call, OpEnqueue(d), [], [])
    case AskEnqueue(node, d) => Did(call, OpEnqueue(d), if q.srv.enq == MoveTail(t, node) then [d] else [], [])
    case AskDequeue =>
      && Did(call, OpDequeue, [], if q.srv.deq.Store? && q.srv.deq.t == t then [q.srv.deq.d] else [])
      && (q.srv.deq == StoreEmpty(t) ==> call.sawEmpty)
    case TakeData(_, v) => Did(call, OpDequeue, [], [v])
    case KeepNode(_, d) => Did(call, OpDequeue, [], [d])
    case Ret(res) => Explains(call, res)
  }

  // ----- every step ------------------------------------------------------

  /** A step that leaves the list alone. */
  lemma QuietNote(q: Queue, q': Queue, t: Tid, call: Call<Op, Word>)
    requires q'.sh.chain == q.sh.chain && Contents(q') == Contents(q)
    ensures call.NoCall? ==> NotedIn(call, None, q, q', t) == NoCall
    ensures call.Call? ==>
      NotedIn(call, None, q, q', t) == Call(call.op, call.gained, call.lost, call.sawEmpty || |Contents(q)| == 0)
  {
    hide Contents;
    if call.Call? { assert call.gained + [] == call.gained && call.lost + [] == call.lost; }
  }

  lemma StaysCall(q: Queue, q': Queue, t: Tid, call: Call<Op, Word>)
    requires CallInv(q, t, call) && q'.sh.chain == q.sh.chain && Contents(q') == Contents(q)
    requires PcOf(q', t) == PcOf(q, t) && q'.srv == q.srv
    ensures CallInv(q', t, NotedIn(call, None, q, q', t))
  {
    hide Contents;
    QuietNote(q, q', t, call);
  }

  lemma StartKeepsCall(q: Queue, u: Tid, op: Op, t: Tid, call: Call<Op, Word>)
    requires Inv(q) && CallInv(q, t, call)
    ensures var a := Action.Start(u, op); CallInv(Step(q, a), t, NotedIn(call, Started(q, a, t), q, Step(q, a), t))
  {
    hide Contents, KindInv, ChainInv;
    StartRefines(q, u, op);
    if u != t || !Free(q, t) { StaysCall(q, StartStep(q, u, op), t, call); }
  }

  lemma ClientTouches(q: Queue, u: Tid, alloc: Addr)
    ensures var q' := ClientStep(q, u, alloc);
      q'.sh.chain == q.sh.chain && q'.srv == q.srv && forall t :: t != u ==> PcOf(q', t) == PcOf(q, t)
  {
  }

  lemma ClientQuiet(q: Queue, u: Tid, alloc: Addr)
    requires Inv(q)
    ensures Contents(ClientStep(q, u, alloc)) == Contents(q)
  {
    hide Contents, Inv;
    ClientTouches(q, u, alloc);
    ClientRefines(q, u, alloc);
  }

  lemma ClientKeepsCall(q: Queue, u: Tid, alloc: Addr, t: Tid, call: Call<Op, Word>)
    requires Inv(q) && CallInv(q, t, call)
    ensures var q' := ClientStep(q, u, alloc); CallInv(q', t, NotedIn(call, None, q, q', t))
  {
    ClientTouches(q, u, alloc);
    ClientQuiet(q, u, alloc);
    if u != t { StaysCall(q, ClientStep(q, u, alloc), t, call); } else { OwnClientKeepsCall(q, t, alloc, call); }
  }

  lemma OwnClientKeepsCall(q: Queue, t: Tid, alloc: Addr, call: Call<Op, Word>)
    requires Inv(q) && CallInv(q, t, call)
    ensures var q' := ClientStep(q, t, alloc); CallInv(q', t, NotedIn(call, None, q, q', t))
  {
    hide Contents, ChainInv;
    assert ClientInv(q, t);
    if HeldBy(q, t).Some? { HeldIsPrivate(q, t, HeldBy(q, t).value); }
    ClientTouches(q, t, alloc);
    ClientQuiet(q, t, alloc);
    QuietNote(q, ClientStep(q, t, alloc), t, call);
  }

  /** The node being linked belongs to one client. */
  lemma LinkIsOwn(q: Queue, t: Tid)
    requires Inv(q) && q.srv.enq.Link?
    ensures var q' := EnqServerStep(q, 0);
      |q'.sh.chain| == |q.sh.chain| + 1 && (Own(q, q', t) <==> t == q.srv.enq.t)
  {
    var u := q.srv.enq.t;
    HeldIsPrivate(q, u, q.srv.enq.node);
    if PcOf(q, t).AskEnqueue? && PcOf(q, t).node == q.srv.enq.node { HeldIsPrivate(q, t, q.srv.enq.node); }
  }

  lemma EnqueueKeepsCall(q: Queue, u: Tid, t: Tid, call: Call<Op, Word>)
    requires Inv(q) && CallInv(q, t, call)
    ensures var q' := EnqServerStep(q, u); CallInv(q', t, NotedIn(call, None, q, q', t))
  {
    hide Contents, ChainInv, KindInv;
    EnqueueRefines(q, u);
    if q.srv.enq.Link? { LinkIsOwn(q, t); } else { QuietNote(q, EnqServerStep(q, u), t, call); }
  }

  lemma RemovalKeepsCall(q: Queue, u: Tid, t: Tid, call: Call<Op, Word>)
    requires Inv(q) && CallInv(q, t, call) && q.srv.deq.MoveHead?
    ensures var q' := DeqServerStep(q, u); CallInv(q', t, NotedIn(call, None, q, q', t))
  {
    hide Contents, KindInv, EnqServerInv;
    DequeueRefines(q, u);
  }

  lemma DequeueKeepsCall(q: Queue, u: Tid, t: Tid, call: Call<Op, Word>)
    requires Inv(q) && CallInv(q, t, call) && Watches(call, Contents(q))
    ensures var q' := DeqServerStep(q, u); CallInv(q', t, NotedIn(call, None, q, q', t))
  {
    hide Contents, ChainInv, KindInv, EnqServerInv;
    if q.srv.deq.MoveHead? {
      RemovalKeepsCall(q, u, t, call);
    } else {
      DequeueRefines(q, u);
      ReadsStayAtHead(q);
      QuietNote(q, DeqServerStep(q, u), t, call);
    }
  }

  lemma StepKeepsCall(q: Queue, a: Action, t: Tid, call: Call<Op, Word>)
    requires Inv(q) && CallInv(q, t, call) && Watches(call, Contents(q))
    ensures var q' := Step(q, a); var call' := NotedIn(call, Started(q, a, t), q, q', t);
      CallInv(q', t, call') && Watches(call', Contents(q'))
  {
    hide Contents;
    match a
    case Start(u, op) => StartKeepsCall(q, u, op, t, call);
    case Client(u, alloc) => ClientKeepsCall(q, u, alloc, t, call);
    case ServeEnqueue(u) => EnqueueKeepsCall(q, u, t, call);
    case ServeDequeue(u) => DequeueKeepsCall(q, u, t, call);
  }

  // ----- every run -------------------------------------------------------

  lemma {:induction false} RunKeepsCall(q: Queue, actions: seq<Action>, t: Tid, call: Call<Op, Word>)
    requires Inv(q) && CallInv(q, t, call) && Watches(call, Contents(q))
    ensures CallInv(Exec(q, actions), t, CallAfter(q, actions, t, call))
    decreases |actions|
  {
    if actions != [] {
      StepKeepsInv(q, actions[0]);
      StepKeepsCall(q, actions[0], t, call);
      RunKeepsCall(Step(q, actions[0]), actions[1..], t, NotedIn(call, Started(q, actions[0], t), q, Step(q, actions[0]), t));
    }
  }

  /** In every interleaving of clients and servers, every answer is explained by the
      call it answers. */
  lemma AnswersAreExplained(q: Queue, actions: seq<Action>, t: Tid)
    requires Initial(q)
    ensures var pc := PcOf(Exec(q, actions), t); pc.Ret? ==> Explains(CallAfter(q, actions, t, NoCall), pc.res)
  {
    InitialInv(q);
    RunKeepsCall(q, actions, t, NoCall);
  }

  // ----- through the locks -----------------------------------------------

  /** A client starts an operation only outside both locks. */
  function StartedOutside(s: C.Whole, a: C.Action, t: Tid): Option<Op> {
    if a.Start? && a.t == t && C.Outside(s.enq, t) && C.Outside(s.deq, t) && Free(s.q, t) then Some(a.op) else None
  }

  ghost function WholeCallAfter(s: C.Whole, actions: seq<C.Action>, t: Tid, call: Call<Op, Word>): Call<Op, Word>
    decreases |actions|
  {
    if actions == [] then call
    else
      var s' := C.Step(s, actions[0]);
      WholeCallAfter(s', actions[1..], t, NotedIn(call, StartedOutside(s, actions[0], t), s.q, s'.q, t))
  }

  /** Each access through the locks is one of CcQueue for the same started
      operation, or leaves the queue as it is. */
  lemma WholeStepKeepsCall(s: C.Whole, a: C.Action, t: Tid, call: Call<Op, Word>)
    requires C.Inv(s) && CallInv(s.q, t, call) && Watches(call, Contents(s.q))
    ensures var q' := C.Step(s, a).q; var call' := NotedIn(call, StartedOutside(s, a, t), s.q, q', t);
      CallInv(q', t, call') && Watches(call', Contents(q'))
  {
    hide Contents, CallInv, Inv, StartStep, ClientStep, EnqServerStep, DeqServerStep, C.LockStep;
    CR.StepProjects(s, a);
    if C.Step(s, a).q == s.q && StartedOutside(s, a, t) == None {
      StaysCall(s.q, s.q, t, call);
    } else {
      StepKeepsCall(s.q, CR.AccessOf(s, a), t, call);
    }
  }

  lemma {:induction false} WholeRunKeepsCall(s: C.Whole, actions: seq<C.Action>, t: Tid, call: Call<Op, Word>)
    requires C.Inv(s) && CallInv(s.q, t, call) && Watches(call, Contents(s.q))
    ensures CallInv(CR.Exec(s, actions).q, t, WholeCallAfter(s, actions, t, call))
    decreases |actions|
  {
    hide Contents, CallInv;
    if actions != [] {
      var s' := C.Step(s, actions[0]);
      CS.StepKeepsInv(s, actions[0]);
      WholeStepKeepsCall(s, actions[0], t, call);
      WholeRunKeepsCall(s', actions[1..], t, NotedIn(call, StartedOutside(s, actions[0], t), s.q, s'.q, t));
    }
  }

  /** In every run of the whole queue, whoever combined, every answer is explained by
      the call it answers. */
  lemma WholeAnswersAreExplained(s: C.Whole, actions: seq<C.Action>, t: Tid)
    requires C.Initial(s)
    ensures var pc := PcOf(CR.Exec(s, actions).q, t); pc.Ret? ==> Explains(WholeCallAfter(s, actions, t, NoCall), pc.res)
  {
    C.InitialInv(s);
    WholeRunKeepsCall(s, actions, t, NoCall);
  }
}
