/**
 * What every run of the pipeline keeps.
 */
module EngineRuns {
  import opened Engine
  import opened EngineSteps
  import opened OrderBook

  function Exec<V>(view: seq<Item> -> V, s: State<V>, actions: seq<Action>): State<V>
    decreases |actions|
  {
    if actions == [] then s else Exec(view, Step(view, s, actions[0]), actions[1..])
  }

  lemma {:induction false} RunKeepsInv<V>(view: seq<Item> -> V, s: State<V>, actions: seq<Action>)
    requires Inv(view, s)
    ensures Inv(view, Exec(view, s, actions))
    decreases |actions|
  {
    if actions != [] {
      StepKeepsInv(view, s, actions[0]);
      RunKeepsInv(view, Step(view, s, actions[0]), actions[1..]);
    }
  }

  /** In every run of any number of producers, what was published, then the
      snapshot being published, the publish queue and the snapshot about to be
      pushed, are exactly the snapshots that processing the log calls for; and
      the log is the accepted events in order, up to what is still queued. */
  lemma PipelineIsInOrder<V>(view: seq<Item> -> V, actions: seq<Action>)
    ensures var s := Exec(view, Init(), actions);
      && s.h.published + Publishing(s.f.publisher) + s.f.publishQueue.items + Pending(s.f.worker) == Outputs(view, s.h.log)
      && s.h.accepted == Events(s.h.log) + InHand(s.f.worker) + s.f.queue.items
  {
    InitInv(view);
    RunKeepsInv(view, Init(), actions);
  }

  /** When stop has returned, every snapshot that was called for is published,
      and the events that were accepted but not processed are still queued. */
  lemma AllPublishedWhenStopReturns<V>(view: seq<Item> -> V, actions: seq<Action>)
    requires Exec(view, Init(), actions).f.stop.Stopped?
    ensures var s := Exec(view, Init(), actions);
      && s.h.published == Outputs(view, s.h.log)
      && s.h.accepted == Events(s.h.log) + s.f.queue.items
      && s.f.worker.WorkerDone? && s.f.publisher.PublisherDone?
  {
    InitInv(view);
    RunKeepsInv(view, Init(), actions);
  }

  // ----- what is accepted ------------------------------------------------

  /** The events that producers pushed, in order. */
  function Pushes(actions: seq<Action>): seq<BookEvent> {
    if actions == [] then []
    else (if actions[0].Push? then [actions[0].e] else []) + Pushes(actions[1..])
  }

  /** The expectations that were set, in order. */
  function Expectations(actions: seq<Action>): seq<set<string>> {
    if actions == [] then []
    else (if actions[0].SetExpected? then [actions[0].exchanges] else []) + Expectations(actions[1..])
  }

  function ExpectedIn(log: seq<Item>): seq<set<string>> {
    if log == [] then []
    else ExpectedIn(log[..|log| - 1]) + if log[|log| - 1].Expect? then [log[|log| - 1].exchanges] else []
  }

  /** An open queue accepts every push; only stop, in its second step, closes it,
      and it stays closed. */
  lemma StepAccepts<V>(view: seq<Item> -> V, s: State<V>, a: Action)
    ensures var s' := Step(view, s, a);
      && s'.h.accepted == s.h.accepted + (if a.Push? && !s.f.queue.closed then [a.e] else [])
      && s'.f.queue.closed == (s.f.queue.closed || (a.Stop? && s.f.stop.CloseQueue?))
  {
    match a
    case Worker => WorkerLeavesOpen(view, s);
    case _ =>
  }

  lemma WorkerLeavesOpen<V>(view: seq<Item> -> V, s: State<V>)
    ensures WorkerStep(view, s).h.accepted == s.h.accepted && WorkerStep(view, s).f.queue.closed == s.f.queue.closed
  {
  }

  /** While the queue is open, everything pushed was accepted, in order; once it
      is closed, nothing more is. */
  lemma {:induction false} AcceptedIsPushed<V>(view: seq<Item> -> V, s: State<V>, actions: seq<Action>)
    ensures var s' := Exec(view, s, actions);
      && (!s'.f.queue.closed ==> s'.h.accepted == s.h.accepted + Pushes(actions))
      && (s.f.queue.closed ==> s'.f.queue.closed && s'.h.accepted == s.h.accepted)
    decreases |actions|
  {
    if actions != [] {
      StepAccepts(view, s, actions[0]);
      AcceptedIsPushed(view, Step(view, s, actions[0]), actions[1..]);
    }
  }

  lemma StepExpects<V>(view: seq<Item> -> V, s: State<V>, a: Action)
    ensures ExpectedIn(Step(view, s, a).h.log)
            == ExpectedIn(s.h.log) + if a.SetExpected? then [a.exchanges] else []
  {
    match a
    case SetExpected(x) => assert (s.h.log + [Expect(x)])[..|s.h.log|] == s.h.log;
    case Worker =>
      if s.f.worker.Apply? { assert (s.h.log + [Event(s.f.worker.e)])[..|s.h.log|] == s.h.log; }
    case _ =>
  }

  /** Every expectation set takes its place in the log. */
  lemma {:induction false} LogHasExpectations<V>(view: seq<Item> -> V, s: State<V>, actions: seq<Action>)
    ensures ExpectedIn(Exec(view, s, actions).h.log) == ExpectedIn(s.h.log) + Expectations(actions)
    decreases |actions|
  {
    if actions != [] {
      StepExpects(view, s, actions[0]);
      LogHasExpectations(view, Step(view, s, actions[0]), actions[1..]);
    }
  }

  // ----- readiness -------------------------------------------------------

  /** The snapshots that the worker has made: those pushed to the publish queue,
      and the one it is about to push. */
  function Made<V>(s: State<V>): seq<V> { s.h.enqueued + Pending(s.f.worker) }

  ghost predicate ReadyEvent(log: seq<Item>) { log != [] && log[|log| - 1].Event? && Ready(log) }

  /** v is the view right after an event of the log, at a moment when every
      expected exchange had reported. */
  ghost predicate ViewOfReady<V>(view: seq<Item> -> V, log: seq<Item>, v: V) {
    exists k :: 0 < k <= |log| && ReadyEvent(log[..k]) && v == view(log[..k])
  }

  lemma {:induction false} OutputsAreReady<V>(view: seq<Item> -> V, log: seq<Item>, i: nat)
    requires i < |Outputs(view, log)|
    ensures ViewOfReady(view, log, Outputs(view, log)[i])
  {
    var n := |log| - 1;
    if i < |Outputs(view, log[..n])| {
      OutputsAreReady(view, log[..n], i);
      var k :| 0 < k <= n && ReadyEvent(log[..n][..k]) && Outputs(view, log[..n])[i] == view(log[..n][..k]);
      assert log[..n][..k] == log[..k];
    } else {
      assert log[..n + 1] == log && ReadyEvent(log);
    }
  }

  /** In every run, each snapshot the worker made, and so each one published, is
      the view right after an event at which every expected exchange had
      reported. */
  lemma NoSnapshotBeforeReady<V>(view: seq<Item> -> V, actions: seq<Action>)
    ensures var s := Exec(view, Init(), actions);
      && (forall i :: 0 <= i < |Made(s)| ==> ViewOfReady(view, s.h.log, Made(s)[i]))
      && s.h.published <= Made(s)
  {
    InitInv(view);
    RunKeepsInv(view, Init(), actions);
    var s := Exec(view, Init(), actions);
    forall i | 0 <= i < |Made(s)| ensures ViewOfReady(view, s.h.log, Made(s)[i]) {
      OutputsAreReady(view, s.h.log, i);
    }
  }

  /** e is logged, and a snapshot of the log with e is made just when that log is
      ready. */
  ghost predicate AppliesOne<V>(view: seq<Item> -> V, s: State<V>, s': State<V>, e: BookEvent) {
    && s'.h.log == s.h.log + [Event(e)]
    && Made(s') == Made(s) + (if Ready(s'.h.log) then [view(s'.h.log)] else [])
    && (Ready(s.h.log) ==> Ready(s'.h.log))
  }

  lemma ApplyMakesOne<V>(view: seq<Item> -> V, s: State<V>, e: BookEvent)
    requires Inv(view, s) && s.f.worker == Apply(e)
    ensures AppliesOne(view, s, ApplyStep(view, s, e), e)
  {
    var log := s.h.log + [Event(e)];
    var s' := ApplyStep(view, s, e);
    assert log[..|log| - 1] == s.h.log;
    assert s'.f.ready == s'.f.expected * Reported(log);
    CountingDecides(s'.f, log);
  }

  lemma WorkerOtherwiseMakesNone<V>(view: seq<Item> -> V, s: State<V>)
    requires Inv(view, s) && !s.f.worker.Apply?
    ensures Made(WorkerStep(view, s)) == Made(s) && WorkerStep(view, s).h.log == s.h.log
  {
  }

  /** The worker's locked section logs its event and makes exactly one snapshot,
      of the log with that event, if every expected exchange has reported, and
      none otherwise; no other action of any thread makes a snapshot or takes one
      back.  Once ready, the engine is ready after each further event. */
  lemma OneSnapshotPerEvent<V>(view: seq<Item> -> V, s: State<V>, a: Action)
    requires Inv(view, s)
    ensures var s' := Step(view, s, a);
      if a.Worker? && s.f.worker.Apply? then AppliesOne(view, s, s', s.f.worker.e)
      else Made(s') == Made(s) && s'.h.log == if a.SetExpected? then s.h.log + [Expect(a.exchanges)] else s.h.log
  {
    if a.Worker? {
      if s.f.worker.Apply? { ApplyMakesOne(view, s, s.f.worker.e); } else { WorkerOtherwiseMakesNone(view, s); }
    } else if a.Stop? {
      StopTouchesOnlyFlags(s);
    }
  }

  // ----- the books behind the view ---------------------------------------

  /** books_[update.exchange].apply(update). */
  function Books(log: seq<Item>): map<string, Book> {
    if log == [] then map[]
    else
      var before := Books(log[..|log| - 1]);
      match log[|log| - 1]
      case Event(e) =>
        var book := if e.exchange in before then before[e.exchange] else Book(EMPTY, map[], 0, "");
        before[e.exchange := Applied(book, e)]
      case Expect(_) => before
  }

  /** A book only ever sees events of the exchange it is filed under, so apply
      never rejects one for its exchange. */
  lemma {:induction false} NoExchangeMismatch(log: seq<Item>, e: BookEvent)
    ensures forall x :: x in Books(log) ==> Books(log)[x].exchange == x
    ensures e.exchange in Books(log) ==> !Mismatch(Books(log)[e.exchange], e)
  {
    if log != [] { NoExchangeMismatch(log[..|log| - 1], e); }
  }
}
