/**
 * The pipeline of the aggregation engine (aggregator.cpp) over its two
 * ConcurrentQueues (common/concurrent_queue.hpp): producers, the worker, the
 * publisher and stop, as a transition system with one step per atomic action.
 */
module Engine {
  import opened OrderBook

  // ----- the queue -------------------------------------------------------

  datatype Channel<T> = Channel(items: seq<T>, closed: bool)

  /** push drops its value once the queue is closed. */
  function Pushed<T>(c: Channel<T>, x: T): Channel<T> { if c.closed then c else Channel(c.items + [x], false) }

  /** wait_pop returns: there is something to pop, or never will be. */
  predicate Awake<T>(c: Channel<T>) { c.closed || c.items != [] }

  function Popped<T>(c: Channel<T>): Channel<T> { if c.items == [] then c else Channel(c.items[1..], c.closed) }

  /** ConcurrentQueue, each method under its lock. */
  class ConcurrentQueue<T> {
    var queue: seq<T>
    var closed: bool

    function State(): Channel<T>
      reads this
    {
      Channel(queue, closed)
    }

    constructor ()
      ensures State() == Channel([], false)
    {
      queue, closed := [], false;
    }

    method Push(value: T)
      modifies this
      ensures State() == Pushed(old(State()), value)
    {
      if !closed { queue := queue + [value]; }
    }

    method TryPop() returns (ok: bool, value: seq<T>)
      modifies this
      ensures State() == Popped(old(State())) && ok == (old(queue) != []) && value == if ok then [old(queue)[0]] else []
    {
      if queue == [] { return false, []; }
      ok, value := true, [queue[0]];
      queue := queue[1..];
    }

    /** The wait is over when the queue is awake. */
    method WaitPop() returns (ok: bool, value: seq<T>)
      requires Awake(State())
      modifies this
      ensures State() == Popped(old(State())) && ok == (old(queue) != []) && value == if ok then [old(queue)[0]] else []
      ensures !ok ==> closed
    {
      ok, value := TryPop();
    }

    method Close()
      modifies this
      ensures State() == Channel(old(queue), true)
    {
      closed := true;
    }
  }

  // ----- the pipeline ----------------------------------------------------

  /** What happened to the engine under its mutex, in order. */
  datatype Item = Event(e: BookEvent) | Expect(exchanges: set<string>)

  datatype WorkerPc<V> = Test | Wait | Apply(e: BookEvent) | Enqueue(v: V) | WorkerDone

  datatype PublisherPc<V> = WaitSnapshot | Publish(v: V) | PublisherDone

  datatype StopPc = NotStopping | CloseQueue | JoinWorker | ClosePublish | JoinPublisher | Stopped

  /** The engine's fields, and the counters of its threads. */
  datatype Fields<V> = Fields(
    queue: Channel<BookEvent>, publishQueue: Channel<V>, running: bool, expected: set<string>, ready: set<string>,
    worker: WorkerPc<V>, publisher: PublisherPc<V>, stop: StopPc)

  /** A record no step reads: events accepted by push, the engine's log, the
      snapshots pushed to the publish queue and those handed to subscribers. */
  datatype History<V> = History(accepted: seq<BookEvent>, log: seq<Item>, enqueued: seq<V>, published: seq<V>)

  datatype State<V> = State(f: Fields<V>, h: History<V>)

  /** Any thread may push an event or set the expected exchanges; the worker,
      the publisher and stop take their next step. */
  datatype Action = Push(e: BookEvent) | SetExpected(exchanges: set<string>) | Worker | Publisher | Stop

  function Init<V>(): State<V> {
    State(Fields(Channel([], false), Channel([], false), true, {}, {}, Test, WaitSnapshot, NotStopping),
          History([], [], [], []))
  }

  function PushStep<V>(s: State<V>, e: BookEvent): State<V> {
    State(s.f.(queue := Pushed(s.f.queue, e)), if s.f.queue.closed then s.h else s.h.(accepted := s.h.accepted + [e]))
  }

  predicate CanPublishNow<V>(f: Fields<V>) { f.expected == {} || |f.ready| == |f.expected| }

  /** The locked section of run; view gives the snapshot after a log. */
  function ApplyStep<V>(view: seq<Item> -> V, s: State<V>, e: BookEvent): State<V> {
    var log := s.h.log + [Event(e)];
    var f := s.f.(ready := if e.exchange in s.f.expected then s.f.ready + {e.exchange} else s.f.ready);
    State(f.(worker := if CanPublishNow(f) then Enqueue(view(log)) else Test), s.h.(log := log))
  }

  function WorkerStep<V>(view: seq<Item> -> V, s: State<V>): State<V> {
    match s.f.worker
    case Test => s.(f := s.f.(worker := if s.f.running then Wait else WorkerDone))
    case Wait =>
      if !Awake(s.f.queue) then s
      else s.(f := s.f.(queue := Popped(s.f.queue),
                        worker := if s.f.queue.items == [] then WorkerDone else Apply(s.f.queue.items[0])))
    case Apply(e) => ApplyStep(view, s, e)
    case Enqueue(v) =>
      State(s.f.(publishQueue := Pushed(s.f.publishQueue, v), worker := Test),
            if s.f.publishQueue.closed then s.h else s.h.(enqueued := s.h.enqueued + [v]))
    case WorkerDone => s
  }

  function PublisherStep<V>(s: State<V>): State<V> {
    match s.f.publisher
    case WaitSnapshot =>
      if !Awake(s.f.publishQueue) then s
      else s.(f := s.f.(publishQueue := Popped(s.f.publishQueue),
                        publisher := if s.f.publishQueue.items == [] then PublisherDone
                                     else Publish(s.f.publishQueue.items[0])))
    case Publish(v) => State(s.f.(publisher := WaitSnapshot), s.h.(published := s.h.published + [v]))
    case PublisherDone => s
  }

  /** stop may be called again after it returned. */
  function StopStep<V>(s: State<V>): State<V> {
    match s.f.stop
    case NotStopping => s.(f := s.f.(running := false, stop := CloseQueue))
    case CloseQueue => s.(f := s.f.(queue := Channel(s.f.queue.items, true), stop := JoinWorker))
    case JoinWorker => if s.f.worker.WorkerDone? then s.(f := s.f.(stop := ClosePublish)) else s
    case ClosePublish => s.(f := s.f.(publishQueue := Channel(s.f.publishQueue.items, true), stop := JoinPublisher))
    case JoinPublisher => if s.f.publisher.PublisherDone? then s.(f := s.f.(stop := Stopped)) else s
    case Stopped => s.(f := s.f.(running := false, stop := CloseQueue))
  }

  function Step<V>(view: seq<Item> -> V, s: State<V>, a: Action): State<V> {
    match a
    case Push(e) => PushStep(s, e)
    case SetExpected(x) => State(s.f.(expected := x, ready := {}), s.h.(log := s.h.log + [Expect(x)]))
    case Worker => WorkerStep(view, s)
    case Publisher => PublisherStep(s)
    case Stop => StopStep(s)
  }

  // ----- what the log stands for -----------------------------------------

  function Events(log: seq<Item>): seq<BookEvent> {
    if log == [] then []
    else Events(log[..|log| - 1]) + if log[|log| - 1].Event? then [log[|log| - 1].e] else []
  }

  /** The exchanges expected at the end of the log. */
  function Expected(log: seq<Item>): set<string> {
    if log == [] then {} else if log[|log| - 1].Expect? then log[|log| - 1].exchanges else Expected(log[..|log| - 1])
  }

  /** The exchanges that have reported since the expectation was last set. */
  function Reported(log: seq<Item>): set<string> {
    if log == [] || log[|log| - 1].Expect? then {}
    else Reported(log[..|log| - 1]) + {log[|log| - 1].e.exchange}
  }

  predicate Ready(log: seq<Item>) { Expected(log) <= Reported(log) }

  /** The snapshots that have to be published: one for each event after which
      every expected exchange has reported. */
  function Outputs<V>(view: seq<Item> -> V, log: seq<Item>): seq<V> {
    if log == [] then []
    else Outputs(view, log[..|log| - 1]) + if log[|log| - 1].Event? && Ready(log) then [view(log)] else []
  }

  // ----- invariant -------------------------------------------------------

  function InHand<V>(pc: WorkerPc<V>): seq<BookEvent> { if pc.Apply? then [pc.e] else [] }

  function Pending<V>(pc: WorkerPc<V>): seq<V> { if pc.Enqueue? then [pc.v] else [] }

  function Publishing<V>(pc: PublisherPc<V>): seq<V> { if pc.Publish? then [pc.v] else [] }

  /** Nothing is lost, doubled or reordered between push and the subscribers. */
  ghost predicate FlowInv<V>(view: seq<Item> -> V, s: State<V>) {
    && s.h.accepted == Events(s.h.log) + InHand(s.f.worker) + s.f.queue.items
    && Outputs(view, s.h.log) == s.h.enqueued + Pending(s.f.worker)
    && s.h.enqueued == s.h.published + Publishing(s.f.publisher) + s.f.publishQueue.items
  }

  ghost predicate ReadyInv<V>(s: State<V>) {
    s.f.expected == Expected(s.h.log) && s.f.ready == s.f.expected * Reported(s.h.log)
  }

  /** The publish queue is closed only behind the worker, and the publisher
      leaves only when it is closed and empty. */
  ghost predicate StopInv<V>(f: Fields<V>) {
    && (f.worker.WorkerDone? ==> f.queue.closed || !f.running)
    && (f.publishQueue.closed ==> f.worker.WorkerDone?)
    && (f.publisher.PublisherDone? ==> f.publishQueue.closed && f.publishQueue.items == [])
    && (f.stop.ClosePublish? ==> f.worker.WorkerDone?)
    && (f.stop.JoinPublisher? ==> f.publishQueue.closed)
    && (f.stop.Stopped? ==> f.publisher.PublisherDone?)
  }

  ghost predicate Inv<V>(view: seq<Item> -> V, s: State<V>) { FlowInv(view, s) && ReadyInv(s) && StopInv(s.f) }

  lemma InitInv<V>(view: seq<Item> -> V)
    ensures Inv(view, Init())
  {
  }
}
