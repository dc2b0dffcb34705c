/**
 * Every action of producers, worker, publisher and stop keeps the invariant of
 * the pipeline.
 */
module EngineSteps {
  import opened Engine
  import opened OrderBook

  lemma SubsetOfSameSize<T>(a: set<T>, b: set<T>)
    requires a <= b
    ensures |a| == |b| <==> a == b
  {
    assert b == a + (b - a);
    if |b - a| == 0 { assert b - a == {}; }
  }

  /** Comparing the two counts decides readiness. */
  lemma CountingDecides<V>(f: Fields<V>, log: seq<Item>)
    requires f.expected == Expected(log) && f.ready == f.expected * Reported(log)
    ensures CanPublishNow(f) <==> Ready(log)
  {
    SubsetOfSameSize(f.ready, f.expected);
  }

  lemma ApplyKeeps<V>(view: seq<Item> -> V, s: State<V>, e: BookEvent)
    requires Inv(view, s) && s.f.worker == Apply(e)
    ensures Inv(view, ApplyStep(view, s, e))
  {
    var log := s.h.log + [Event(e)];
    assert log[..|log| - 1] == s.h.log;
    var s' := ApplyStep(view, s, e);
    assert s'.f.ready == s'.f.expected * Reported(log);
    CountingDecides(s'.f, log);
    assert Events(log) + InHand(s'.f.worker) + s'.f.queue.items == Events(s.h.log) + [e] + s.f.queue.items;
  }

  lemma WorkerKeeps<V>(view: seq<Item> -> V, s: State<V>)
    requires Inv(view, s)
    ensures Inv(view, WorkerStep(view, s))
  {
    match s.f.worker
    case Apply(e) => ApplyKeeps(view, s, e);
    case Wait =>
      if s.f.queue.items != [] { assert s.f.queue.items == [s.f.queue.items[0]] + s.f.queue.items[1..]; }
    case _ =>
  }

  lemma PublisherKeeps<V>(view: seq<Item> -> V, s: State<V>)
    requires Inv(view, s)
    ensures Inv(view, PublisherStep(s))
  {
    var q := s.f.publishQueue.items;
    if s.f.publisher.WaitSnapshot? && q != [] {
      assert s.h.published + [q[0]] + q[1..] == s.h.published + ([q[0]] + q[1..]) == s.h.published + q;
    }
  }

  lemma PushKeeps<V>(view: seq<Item> -> V, s: State<V>, e: BookEvent)
    requires Inv(view, s)
    ensures Inv(view, PushStep(s, e))
  {
  }

  lemma StopKeeps<V>(view: seq<Item> -> V, s: State<V>)
    requires Inv(view, s)
    ensures Inv(view, StopStep(s))
  {
    StopTouchesOnlyFlags(s);
    SameFlow(view, s, StopStep(s));
  }

  lemma StopTouchesOnlyFlags<V>(s: State<V>)
    requires StopInv(s.f)
    ensures StopInv(StopStep(s).f) && StopStep(s).h == s.h
    ensures var f := StopStep(s).f;
      && f.worker == s.f.worker && f.publisher == s.f.publisher && f.expected == s.f.expected && f.ready == s.f.ready
      && f.queue.items == s.f.queue.items && f.publishQueue.items == s.f.publishQueue.items
  {
  }

  lemma SameFlow<V>(view: seq<Item> -> V, s: State<V>, s': State<V>)
    requires FlowInv(view, s) && ReadyInv(s) && s'.h == s.h
    requires s'.f.worker == s.f.worker && s'.f.publisher == s.f.publisher
    requires s'.f.expected == s.f.expected && s'.f.ready == s.f.ready
    requires s'.f.queue.items == s.f.queue.items && s'.f.publishQueue.items == s.f.publishQueue.items
    ensures FlowInv(view, s') && ReadyInv(s')
  {
  }

  lemma SetExpectedKeeps<V>(view: seq<Item> -> V, s: State<V>, x: set<string>)
    requires Inv(view, s)
    ensures Inv(view, Step(view, s, SetExpected(x)))
  {
    var log := s.h.log + [Expect(x)];
    assert log[..|log| - 1] == s.h.log;
  }

  /** Every step of every thread keeps the invariant. */
  lemma StepKeepsInv<V>(view: seq<Item> -> V, s: State<V>, a: Action)
    requires Inv(view, s)
    ensures Inv(view, Step(view, s, a))
  {
    match a
    case Push(e) => PushKeeps(view, s, e);
    case SetExpected(x) => SetExpectedKeeps(view, s, x);
    case Worker => WorkerKeeps(view, s);
    case Publisher => PublisherKeeps(view, s);
    case Stop => StopKeeps(view, s);
  }
}
