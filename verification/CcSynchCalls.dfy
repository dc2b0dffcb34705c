/**
 * What a return from the combining lock means: the call that a thread started,
 * with the request it started it with, was applied, and once.
 */
module CcSynchCalls {
  import opened CcSynch
  import opened CcSynchRuns

  /** A thread's latest call: its request, and how many swaps there were before. */
  datatype Asked = Nothing | Asked(d: Request, since: nat)

  /** A registered thread that is in no call starts one with the request d. */
  function Noted(s: Lock, u: Tid, d: Request, t: Tid, asked: Asked): Asked {
    if u == t && t in s.m.handle && (PcOf(s, t).Idle? || PcOf(s, t).Ret?) then Asked(d, |s.h.owner|) else asked
  }

  function AskedAfter(s: Lock, schedule: seq<(Tid, Request)>, t: Tid, asked: Asked): Asked
    decreases |schedule|
  {
    if schedule == [] then asked
    else
      var (u, d) := schedule[0];
      AskedAfter(Step(s, u, d), schedule[1..], t, Noted(s, u, d, t, asked))
  }

  /** Since the start of its call, t swapped the tail just at numbers in swaps. */
  ghost predicate Swaps(s: Lock, t: Tid, since: nat, swaps: set<nat>) {
    since <= |s.h.owner| && forall j :: since <= j < |s.h.owner| ==> (s.h.owner[j] == t <==> j in swaps)
  }

  ghost predicate AskedInv(s: Lock, t: Tid, asked: Asked) {
    match PcOf(s, t)
    case Idle => asked.Nothing?
    case ResetNext(d) => asked.Asked? && asked.d == d && Swaps(s, t, asked.since, {})
    case ResetStatus(d) => asked.Asked? && asked.d == d && Swaps(s, t, asked.since, {})
    case Swap(d) => asked.Asked? && asked.d == d && Swaps(s, t, asked.since, {})
    case Wait(d, i, _, _) => asked.Asked? && asked.d == d && asked.since <= i < |s.h.owner| && Swaps(s, t, asked.since, {i})
    case Combine(d, i, _) => asked.Asked? && asked.d == d && asked.since <= i < |s.h.owner| && Swaps(s, t, asked.since, {i})
    case Ret(i, d) => asked.Asked? && asked.d == d && asked.since <= i < |s.h.owner| && Swaps(s, t, asked.since, {i})
  }

  /** A step leaves owner as it is, or appends its own thread. */
  lemma OwnerGrows(s: Lock, u: Tid, d: Request)
    ensures var s' := Step(s, u, d);
      && (s'.h.owner == s.h.owner || (PcOf(s, u).Swap? && s'.h.owner == s.h.owner + [u]))
      && (forall t :: t != u ==> PcOf(s', t) == PcOf(s, t))
  {
  }

  lemma OthersLeaveAsked(s: Lock, u: Tid, d: Request, t: Tid, asked: Asked)
    requires AskedInv(s, t, asked) && u != t
    ensures AskedInv(Step(s, u, d), t, asked)
  {
    hide Step;
    OwnerGrows(s, u, d);
  }

  lemma WaitKeepsAsked(s: Lock, t: Tid, d: Request, asked: Asked)
    requires AskedInv(s, t, asked) && PcOf(s, t).Wait?
    ensures AskedInv(Step(s, t, d), t, asked)
  {
  }

  lemma CombineKeepsAsked(s: Lock, t: Tid, d: Request, asked: Asked)
    requires AskedInv(s, t, asked) && PcOf(s, t).Combine?
    ensures AskedInv(Step(s, t, d), t, asked)
  {
  }

  lemma RestKeepsAsked(s: Lock, t: Tid, d: Request, asked: Asked)
    requires AskedInv(s, t, asked) && !PcOf(s, t).Wait? && !PcOf(s, t).Combine?
    ensures AskedInv(Step(s, t, d), t, Noted(s, t, d, t, asked))
  {
  }

  lemma StepKeepsAsked(s: Lock, u: Tid, d: Request, t: Tid, asked: Asked)
    requires AskedInv(s, t, asked)
    ensures AskedInv(Step(s, u, d), t, Noted(s, u, d, t, asked))
  {
    hide AskedInv, Step;
    if u != t { OthersLeaveAsked(s, u, d, t, asked); }
    else if PcOf(s, t).Wait? { WaitKeepsAsked(s, t, d, asked); }
    else if PcOf(s, t).Combine? { CombineKeepsAsked(s, t, d, asked); }
    else { RestKeepsAsked(s, t, d, asked); }
  }

  lemma {:induction false} RunKeepsAsked(s: Lock, schedule: seq<(Tid, Request)>, t: Tid, asked: Asked)
    requires AskedInv(s, t, asked)
    ensures AskedInv(Exec(s, schedule), t, AskedAfter(s, schedule, t, asked))
    decreases |schedule|
  {
    if schedule != [] {
      var (u, d) := schedule[0];
      StepKeepsAsked(s, u, d, t, asked);
      RunKeepsAsked(Step(s, u, d), schedule[1..], t, Noted(s, u, d, t, asked));
    }
  }

  /** In every run, a call that returned swapped the tail exactly once since it was
      started, at the number it returns, and the request applied under that number
      is the one it was started with. */
  lemma ReturnIsExplained(s: Lock, schedule: seq<(Tid, Request)>, t: Tid)
    requires Initial(s) && PcOf(Exec(s, schedule), t).Ret?
    ensures var s' := Exec(s, schedule); var asked, i := AskedAfter(s, schedule, t, Nothing), PcOf(s', t).i;
      && asked.Asked? && asked.since <= i && Swaps(s', t, asked.since, {i})
      && i < |s'.h.applied| && s'.h.applied[i] == asked.d
  {
    RunKeepsAsked(s, schedule, t, Nothing);
    ReturnedMeansApplied(s, schedule, t);
  }
}
