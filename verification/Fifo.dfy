/**
 * Runs of queues: how single steps add up, and what a run shows of one thread's
 * latest operation.
 */
module Fifo {
  import opened Options

  /** c is the content before a step that appends a and removes r, c' the content
      after it; more and less are what the rest of the run appends and removes,
      and last is the content at its end. */
  lemma Balance<T>(c: seq<T>, c': seq<T>, last: seq<T>, a: seq<T>, r: seq<T>, more: seq<T>, less: seq<T>)
    requires c + a == r + c' && c' + more == less + last
    ensures c + (a + more) == r + less + last
  {
    assert c + (a + more) == r + c' + more == r + (c' + more);
  }

  // ----- calls -----------------------------------------------------------

  /** A thread's latest operation, as a bystander sees it: what the scheduler
      started, what the queue gained and lost in the thread's own steps since then,
      and whether the queue was empty at some moment since. */
  datatype Call<Op, W> = NoCall | Call(op: Op, gained: seq<W>, lost: seq<W>, sawEmpty: bool)

  /** What a queue gained at its end, or lost at its front. */
  function Gained<W>(before: seq<W>, after: seq<W>): seq<W> { if |after| > |before| then after[|before|..] else [] }

  function Lost<W>(before: seq<W>, after: seq<W>): seq<W> {
    if |after| < |before| then before[..|before| - |after|] else []
  }

  /** One more step: the thread may start an operation in it, and it may be the
      thread's own. */
  function Noted<Op, W>(call: Call<Op, W>, started: Option<Op>, own: bool, before: seq<W>, after: seq<W>): Call<Op, W> {
    match started
    case Some(op) => Call(op, [], [], |after| == 0)
    case None =>
      if call.NoCall? then NoCall
      else Call(call.op, call.gained + (if own then Gained(before, after) else []),
                call.lost + (if own then Lost(before, after) else []), call.sawEmpty || |after| == 0)
  }

  /** The operation is op, and this is what it did so far. */
  predicate Did<Op(==), W(==)>(call: Call<Op, W>, op: Op, gained: seq<W>, lost: seq<W>) {
    call.Call? && call.op == op && call.gained == gained && call.lost == lost
  }

  /** If the queue is empty, the call has seen it. */
  predicate Watches<Op, W>(call: Call<Op, W>, content: seq<W>) { call.Call? && |content| == 0 ==> call.sawEmpty }
}
