/**
 * The retire lists of the Michael-Scott queue never overflow.
 */
module MsCapacity {
  import opened MsQueue
  import opened MsRuns
  import opened MsSteps
  import opened Sequences

  /** A retire list has room for 2 * nprocs nodes; it is full only while it is
      being scanned, and a sweep keeps only nodes found in hazard slots. */
  ghost predicate Capacity(cfg: Config, s: Queue, t: Tid) {
    var r := Rlist(s.h, t);
    match PcOf(s, t)
    case Scan(todo, found, _) => |r| == 2 * cfg.nprocs && |found| + |todo| <= 2 * (|cfg.procs| - 1)
    case Sweep(k, found, _) =>
      |r| <= 2 * cfg.nprocs && |found| <= 2 * (|cfg.procs| - 1) && (forall i :: 0 <= i < k && i < |r| ==> r[i] in found)
    case _ => |r| < 2 * cfg.nprocs
  }

  ghost predicate CapacityInv(cfg: Config, s: Queue) {
    |cfg.procs| <= cfg.nprocs && forall t :: t in cfg.procs ==> Capacity(cfg, s, t)
  }

  ghost function Pairs(u: set<Tid>): set<(Tid, bool)> { set x: Tid, b: bool | x in u :: (x, b) }

  lemma {:induction false} PairsSize(u: set<Tid>)
    ensures |Pairs(u)| == 2 * |u|
  {
    if u != {} {
      var x :| x in u;
      assert Pairs(u) == Pairs(u - {x}) + {(x, false), (x, true)};
      PairsSize(u - {x});
    }
  }

  lemma CapacityOthers(cfg: Config, s: Queue, s': Queue, t: Tid)
    requires CapacityInv(cfg, s) && Capacity(cfg, s', t)
    requires forall u :: u != t ==> PcOf(s', u) == PcOf(s, u) && Rlist(s'.h, u) == Rlist(s.h, u)
    ensures CapacityInv(cfg, s')
  {
  }

  lemma ScanCapacity(cfg: Config, s: Queue, t: Tid, c: Choice, todo: set<(Tid, bool)>, found: set<Addr>, d: Word)
    requires CapacityInv(cfg, s) && t in cfg.procs && PcOf(s, t) == Scan(todo, found, d)
    ensures CapacityInv(cfg, ScanStep(s, t, c, todo, found, d))
  {
  }

  lemma RetireCapacity(cfg: Config, s: Queue, t: Tid, node: Addr, d: Word)
    requires CapacityInv(cfg, s) && t in cfg.procs && PcOf(s, t) == Retire(node, d)
    ensures CapacityInv(cfg, RetireStep(cfg, s, t, node, d))
  {
    assert Capacity(cfg, s, t);
    assert OtherSlots(cfg, t) == Pairs(cfg.procs - {t});
    PairsSize(cfg.procs - {t});
    CapacityOthers(cfg, s, RetireStep(cfg, s, t, node, d), t);
  }

  lemma SweepCapacity(cfg: Config, s: Queue, t: Tid, k: nat, found: set<Addr>, d: Word)
    requires Inv(cfg, s) && CapacityInv(cfg, s) && t in cfg.procs && PcOf(s, t) == Sweep(k, found, d)
    ensures CapacityInv(cfg, SweepStep(s, t, k, found, d))
  {
    var r := Rlist(s.h, t);
    assert Capacity(cfg, s, t) && ThreadInv(s, t);
    if k >= |r| { DistinctWithin(r, found); }
    else { assert Awaits(s, t, r[k]); }
    CapacityOthers(cfg, s, SweepStep(s, t, k, found, d), t);
  }

  lemma StepKeepsCapacity(cfg: Config, s: Queue, t: Tid, c: Choice)
    requires Inv(cfg, s) && CapacityInv(cfg, s)
    ensures CapacityInv(cfg, Step(cfg, s, t, c))
  {
    if t in cfg.procs {
      assert Capacity(cfg, s, t);
      match PcOf(s, t)
      case Retire(node, d) => RetireCapacity(cfg, s, t, node, d);
      case Scan(todo, found, d) => ScanCapacity(cfg, s, t, c, todo, found, d);
      case Sweep(k, found, d) => SweepCapacity(cfg, s, t, k, found, d);
      case _ => OtherCapacity(cfg, s, t, c);
    }
  }

  /** t retires nothing, and is not scanning. */
  ghost predicate SameLists(s: Queue, s': Queue, t: Tid) {
    && s'.h.rlist == s.h.rlist && !PcOf(s', t).Scan? && !PcOf(s', t).Sweep?
    && forall u :: u != t ==> PcOf(s', u) == PcOf(s, u)
  }

  lemma EnqLists(s: Queue, t: Tid, d: Word, node: Addr, pc: EnqPc)
    ensures SameLists(s, EnqStep(s, t, d, node, pc), t)
  {
  }

  lemma DeqLists(s: Queue, t: Tid, pc: DeqPc)
    ensures SameLists(s, DeqStep(s, t, pc), t)
  {
  }

  lemma OtherCapacity(cfg: Config, s: Queue, t: Tid, c: Choice)
    requires CapacityInv(cfg, s) && t in cfg.procs && Plain(PcOf(s, t))
    ensures CapacityInv(cfg, Step(cfg, s, t, c))
  {
    assert Capacity(cfg, s, t);
    var s' := Step(cfg, s, t, c);
    if PcOf(s, t).Enq? { EnqLists(s, t, PcOf(s, t).d, PcOf(s, t).node, PcOf(s, t).enq); }
    if PcOf(s, t).Deq? { DeqLists(s, t, PcOf(s, t).deq); }
    CapacityOthers(cfg, s, s', t);
  }

  lemma {:induction false} RunKeepsCapacity(cfg: Config, s: Queue, schedule: seq<(Tid, Choice)>)
    requires Inv(cfg, s) && CapacityInv(cfg, s)
    ensures CapacityInv(cfg, Exec(cfg, s, schedule))
    decreases |schedule|
  {
    if schedule != [] {
      StepKeepsInv(cfg, s, schedule[0].0, schedule[0].1);
      StepKeepsCapacity(cfg, s, schedule[0].0, schedule[0].1);
      RunKeepsCapacity(cfg, Step(cfg, s, schedule[0].0, schedule[0].1), schedule[1..]);
    }
  }

  /** Nothing is retired at first, and one handle is enough to make room for it. */
  lemma InitCapacity(cfg: Config, dummy: Addr)
    requires |cfg.procs| <= cfg.nprocs
    ensures CapacityInv(cfg, Init(dummy))
  {
    forall t | t in cfg.procs ensures Capacity(cfg, Init(dummy), t) {
      assert {t} <= cfg.procs;
      SubsetSize({t}, cfg.procs);
    }
  }

  lemma SubsetSize(a: set<Tid>, b: set<Tid>)
    requires a <= b
    ensures |a| <= |b|
  {
    assert b == a + (b - a);
  }

  /** With two hazard slots per handle and at most nprocs handles, the retire
      array of 2 * nprocs entries never overflows: in every state that a run
      from queue_init reaches, a thread about to append has room, because a scan
      always frees enough. */
  lemma RetireListNeverOverflows(cfg: Config, dummy: Addr, schedule: seq<(Tid, Choice)>, t: Tid)
    requires dummy != 0 && |cfg.procs| <= cfg.nprocs && t in cfg.procs
    ensures var s := Exec(cfg, Init(dummy), schedule);
      |Rlist(s.h, t)| <= 2 * cfg.nprocs && (PcOf(s, t).Retire? ==> |Rlist(s.h, t)| < 2 * cfg.nprocs)
  {
    InitInv(cfg, dummy);
    InitCapacity(cfg, dummy);
    RunKeepsCapacity(cfg, Init(dummy), schedule);
    assert Capacity(cfg, Exec(cfg, Init(dummy), schedule), t);
  }
}
