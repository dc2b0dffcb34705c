/**
 * What every run of the combining lock keeps.
 */
module CcSynchRuns {
  import opened CcSynch
  import opened CcSynchSteps

  function Exec(s: Lock, schedule: seq<(Tid, Request)>): Lock
    decreases |schedule|
  {
    if schedule == [] then s else Exec(Step(s, schedule[0].0, schedule[0].1), schedule[1..])
  }

  lemma {:induction false} RunKeepsInv(s: Lock, schedule: seq<(Tid, Request)>)
    requires Inv(s)
    ensures Inv(Exec(s, schedule))
    decreases |schedule|
  {
    if schedule != [] {
      StepKeepsInv(s, schedule[0].0, schedule[0].1);
      RunKeepsInv(Step(s, schedule[0].0, schedule[0].1), schedule[1..]);
    }
  }

  /** In every run, the applied requests are a prefix of the requests in the
      order of their swaps, and at most one thread combines. */
  lemma AppliedInSwapOrder(s: Lock, schedule: seq<(Tid, Request)>, t: Tid, u: Tid)
    requires Initial(s)
    ensures var s' := Exec(s, schedule);
      && s'.h.applied <= s'.h.requests && |s'.h.requests| == |s'.h.owner|
      && (PcOf(s', t).Combine? && PcOf(s', u).Combine? ==> t == u)
  {
    InitialInv(s);
    RunKeepsInv(s, schedule);
    if PcOf(Exec(s, schedule), t).Combine? && PcOf(Exec(s, schedule), u).Combine? { OnlyCombiner(Exec(s, schedule), t, u); }
  }

  /** What a step does to the applied requests: it appends the next one in line,
      or nothing. */
  lemma StepAppliesNext(s: Lock, t: Tid, d: Request)
    requires Inv(s)
    ensures var s' := Step(s, t, d); var m := |s.h.applied|;
      s'.h.applied == s.h.applied || (m < |s.h.requests| && s'.h.applied == s.h.applied + [s.h.requests[m]])
  {
    assert ThreadInv(s, t);
    if t in s.m.handle && PcOf(s, t).Combine? && PcOf(s, t).combine.ApplyOther? {
      assert ThreadInv(s, s.h.owner[|s.h.applied|]);
    }
  }

  /** A caller that has returned has had its own request applied, once: its swap
      number stands for this call alone, and that place of the applied requests
      holds its request. */
  lemma ReturnedMeansApplied(s: Lock, schedule: seq<(Tid, Request)>, t: Tid)
    requires Initial(s) && PcOf(Exec(s, schedule), t).Ret?
    ensures var s' := Exec(s, schedule); var i := PcOf(s', t).i;
      i < |s'.h.applied| && i < |s'.h.owner| && s'.h.applied[i] == PcOf(s', t).d && s'.h.owner[i] == t
  {
    InitialInv(s);
    RunKeepsInv(s, schedule);
    assert ThreadInv(Exec(s, schedule), t);
  }

  /** The number of a call is new when it swaps, and its request is not applied
      before that. */
  lemma SwapTakesNewNumber(s: Lock, t: Tid, d: Request)
    requires Inv(s) && t in s.m.handle && PcOf(s, t).Swap?
    ensures var s' := Step(s, t, d);
      PcOf(s', t).Wait? && PcOf(s', t).i == |s.h.owner| >= |s'.h.applied| && s'.h.owner == s.h.owner + [t]
  {
  }

  /** DONE is set only on an applied request: a thread that finds it returns
      with its request applied, and one that finds WAIT or READY at once has not
      been served yet. */
  lemma StatusTells(s: Lock, t: Tid)
    requires Inv(s) && PcOf(s, t).Wait?
    ensures PcOf(s, t).i < |s.h.chain|
    ensures var i := PcOf(s, t).i; var status := NodeAt(s.m, s.h.chain[i]).status;
      && (status.DONE? ==> i < |s.h.applied|) && (status.READY? ==> i == |s.h.applied| && s.h.baton.None?)
      && (PcOf(s, t).wait.First? ==> !status.DONE?)
  {
    assert ThreadInv(s, t);
  }

  /** The baton is never lost: while nobody combines and some call is not applied
      yet, the next call in line is waiting at a node that says READY. */
  lemma BatonIsNotLost(s: Lock)
    requires Inv(s) && s.h.baton.None? && |s.h.applied| < |s.h.owner|
    ensures var t := s.h.owner[|s.h.applied|];
      && PcOf(s, t).Wait? && PcOf(s, t).i == |s.h.applied|
      && t in s.m.handle && NodeAt(s.m, s.m.handle[t]).status == READY
  {
    assert InLine(s, |s.h.applied|);
    assert ThreadInv(s, s.h.owner[|s.h.applied|]);
  }
}
