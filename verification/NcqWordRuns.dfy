/**
 * The naive ring of lfring_naive.h on the words of the program: every test and
 * store is the expression of the source.  Over every schedule whose positions
 * stay in the lower half of the range of a word, the ring of words is the ring of
 * entries of module NcqRing, and so a first-in first-out queue.
 */
module NcqWordRuns {
  import opened Bits
  import opened NcqInit
  import opened NcqWords
  import Arithmetic
  import N = NcqRing
  import NcqRuns

  // ----- the ring of words -----------------------------------------------

  /** The counters of module NcqRing, with words in the place of entries. */
  datatype Pc = Idle | Ret(res: N.Result) | Enq(v: nat, enq: EnqPc) | Deq(nonempty: bool, deq: DeqPc)

  datatype EnqPc =
    | LoadTail
    | LoadEntry(tail: nat)
    | HelpTail(tail: nat)
    | CasEntry(tail: nat, entry: nat)
    | MoveTail(tail: nat)

  datatype DeqPc =
    | LoadHead
    | LoadEntry(head: nat)
    | CasHead(head: nat, entry: nat)

  datatype Ring = Ring(head: nat, tail: nat, words: seq<nat>, pcs: map<N.Tid, Pc>)

  function PcOf(w: Ring, t: N.Tid): Pc { if t in w.pcs then w.pcs[t] else Idle }

  function Goto(w: Ring, t: N.Tid, pc: Pc): Ring { w.(pcs := w.pcs[t := pc]) }

  /** x + 1, in the width of a word. */
  function Increment(l: EntryLayout, x: nat): nat { if x + 1 < l.Range() then x + 1 else 0 }

  function EntryTest(l: EntryLayout, tail: nat, entry: nat): EnqPc {
    if Cycle(l, entry) == Cycle(l, tail) then HelpTail(tail)
    else if NextCycle(l, Cycle(l, entry)) != Cycle(l, tail) then LoadTail
    else CasEntry(tail, entry)
  }

  /** CAS(&q->tail, tail, tail + 1). */
  function CasTail(l: EntryLayout, w: Ring, tail: nat): Ring {
    if w.tail == tail then w.(tail := Increment(l, tail)) else w
  }

  function EnqStep(g: N.Geometry, l: EntryLayout, w: Ring, t: N.Tid, c: N.Choice, v: nat, pc: EnqPc): Ring
    requires N.ValidGeometry(g) && |w.words| == g.n
  {
    match pc
    case LoadTail => Goto(w, t, Enq(v, EnqPc.LoadEntry(w.tail)))
    case LoadEntry(tail) => Goto(w, t, Enq(v, EntryTest(l, tail, w.words[g.loc(tail)])))
    case HelpTail(tail) =>
      Goto(CasTail(l, w, tail), t, Enq(v, EnqPc.LoadEntry(if w.tail == tail then Increment(l, tail) else w.tail)))
    case CasEntry(tail, entry) =>
      if w.words[g.loc(tail)] == entry then
        Goto(w.(words := w.words[g.loc(tail) := EnqueueWord(l, tail, v)]), t, Enq(v, MoveTail(tail)))
      else Goto(w, t, Enq(v, EntryTest(l, tail, w.words[g.loc(tail)])))
    case MoveTail(tail) => Goto(if c == N.Alt then w else CasTail(l, w, tail), t, Ret(N.Enqueued))
  }

  function DeqStep(g: N.Geometry, l: EntryLayout, w: Ring, t: N.Tid, c: N.Choice, nonempty: bool, pc: DeqPc): Ring
    requires N.ValidGeometry(g) && |w.words| == g.n
  {
    match pc
    case LoadHead => Goto(w, t, Deq(nonempty, DeqPc.LoadEntry(w.head)))
    case LoadEntry(head) =>
      var entry := w.words[g.loc(head)];
      Goto(w, t, if Cycle(l, entry) == Cycle(l, head) then Deq(nonempty, CasHead(head, entry))
                 else if !nonempty && NextCycle(l, Cycle(l, entry)) == Cycle(l, head) then Ret(N.WasEmpty)
                 else Deq(nonempty, LoadHead))
    case CasHead(head, entry) =>
      if w.head == head && c != N.Alt then
        Goto(w.(head := Increment(l, head)), t, Ret(N.Dequeued(And(entry, l.N() - 1))))
      else Goto(w, t, Deq(nonempty, DeqPc.LoadEntry(w.head)))
  }

  function StartPc(l: EntryLayout, op: N.Op, current: Pc): Pc {
    match op
    case OpEnqueue(v) => if v < l.N() then Enq(v, LoadTail) else current
    case OpDequeue(nonempty) => Deq(nonempty, LoadHead)
  }

  /** One atomic access by thread t; of the geometry only the slot of a position
      is used. */
  function Step(g: N.Geometry, l: EntryLayout, w: Ring, t: N.Tid, c: N.Choice): (w': Ring)
    requires N.ValidGeometry(g) && |w.words| == g.n
    ensures |w'.words| == g.n
  {
    match PcOf(w, t)
    case Enq(v, pc) => EnqStep(g, l, w, t, c, v, pc)
    case Deq(nonempty, pc) => DeqStep(g, l, w, t, c, nonempty, pc)
    case _ => if c.Start? then Goto(w, t, StartPc(l, c.op, PcOf(w, t))) else w
  }

  function Exec(g: N.Geometry, l: EntryLayout, w: Ring, schedule: seq<(N.Tid, N.Choice)>): (w': Ring)
    requires N.ValidGeometry(g) && |w.words| == g.n
    ensures |w'.words| == g.n
    decreases |schedule|
  {
    if schedule == [] then w else Exec(g, l, Step(g, l, w, schedule[0].0, schedule[0].1), schedule[1..])
  }

  /** What the dequeues of a run return, in the order of their head CAS. */
  function Returned(w: Ring, w': Ring, t: N.Tid): seq<nat> {
    var pc, pc' := PcOf(w, t), PcOf(w', t);
    if pc.Deq? && pc'.Ret? && pc'.res.Dequeued? then [pc'.res.v] else []
  }

  function AllReturned(g: N.Geometry, l: EntryLayout, w: Ring, schedule: seq<(N.Tid, N.Choice)>): seq<nat>
    requires N.ValidGeometry(g) && |w.words| == g.n
    decreases |schedule|
  {
    if schedule == [] then []
    else
      var w' := Step(g, l, w, schedule[0].0, schedule[0].1);
      Returned(w, w', schedule[0].0) + AllReturned(g, l, w', schedule[1..])
  }

  /** What the enqueues of a run store, in the order of their entry CAS. */
  function StoredBy(w: Ring, w': Ring, t: N.Tid): seq<nat> {
    var pc, pc' := PcOf(w, t), PcOf(w', t);
    if pc.Enq? && !pc.enq.MoveTail? && pc'.Enq? && pc'.enq.MoveTail? then [pc.v] else []
  }

  function AllStored(g: N.Geometry, l: EntryLayout, w: Ring, schedule: seq<(N.Tid, N.Choice)>): seq<nat>
    requires N.ValidGeometry(g) && |w.words| == g.n
    decreases |schedule|
  {
    if schedule == [] then []
    else
      var w' := Step(g, l, w, schedule[0].0, schedule[0].1);
      StoredBy(w, w', schedule[0].0) + AllStored(g, l, w', schedule[1..])
  }

  // ----- what it stands for ----------------------------------------------

  function EnqMeaning(l: EntryLayout, pc: EnqPc): N.EnqPc {
    match pc
    case LoadTail => N.LoadTail
    case LoadEntry(tail) => N.EnqPc.LoadEntry(tail)
    case HelpTail(tail) => N.HelpTail(tail)
    case CasEntry(tail, entry) => N.CasEntry(tail, EntryOf(l, entry))
    case MoveTail(tail) => N.MoveTail(tail)
  }

  function DeqMeaning(l: EntryLayout, pc: DeqPc): N.DeqPc {
    match pc
    case LoadHead => N.LoadHead
    case LoadEntry(head) => N.DeqPc.LoadEntry(head)
    case CasHead(head, entry) => N.CasHead(head, EntryOf(l, entry))
  }

  function Meaning(l: EntryLayout, pc: Pc): N.Pc {
    match pc
    case Idle => N.Idle
    case Ret(res) => N.Ret(res)
    case Enq(v, pc) => N.Enq(v, EnqMeaning(l, pc))
    case Deq(nonempty, pc) => N.Deq(nonempty, DeqMeaning(l, pc))
  }

  /** Positions are in the lower half, and entries are words. */
  ghost predicate EnqOk(l: EntryLayout, pc: EnqPc) {
    match pc
    case LoadTail => true
    case LoadEntry(tail) => tail < l.Positions()
    case HelpTail(tail) => tail < l.Positions()
    case CasEntry(tail, entry) => tail < l.Positions() && entry < l.Range()
    case MoveTail(tail) => tail < l.Positions()
  }

  ghost predicate DeqOk(l: EntryLayout, pc: DeqPc) {
    match pc
    case LoadHead => true
    case LoadEntry(head) => head < l.Positions()
    case CasHead(head, entry) => head < l.Positions() && entry < l.Range()
  }

  ghost predicate Ok(l: EntryLayout, pc: Pc) {
    match pc
    case Enq(v, pc) => v < l.N() && EnqOk(l, pc)
    case Deq(_, pc) => DeqOk(l, pc)
    case _ => true
  }

  ghost predicate Matches(l: EntryLayout, s: N.Ring, w: Ring, t: N.Tid) {
    N.PcOf(s, t) == Meaning(l, PcOf(w, t)) && Ok(l, PcOf(w, t))
  }

  ghost predicate InRange(l: EntryLayout, m: N.Memory) { m.head < l.Positions() && m.tail < l.Positions() }

  ghost predicate SameMemory(g: N.Geometry, l: EntryLayout, m: N.Memory, w: Ring) {
    Holds(g, l, m, w.words) && m.head == w.head && m.tail == w.tail && InRange(l, m)
  }

  /** The ring of words w is the ring of entries s. */
  ghost predicate Simulates(g: N.Geometry, l: EntryLayout, s: N.Ring, w: Ring) {
    SameMemory(g, l, s.m, w) && forall t :: Matches(l, s, w, t)
  }

  // ----- every step ------------------------------------------------------

  /** A step of t that changes memory and t's counter alike. */
  lemma Moved(g: N.Geometry, l: EntryLayout, s: N.Ring, w: Ring, s': N.Ring, w': Ring, t: N.Tid, pc: Pc)
    requires Simulates(g, l, s, w) && SameMemory(g, l, s'.m, w') && Ok(l, pc)
    requires s'.pcs == s.pcs[t := Meaning(l, pc)] && w'.pcs == w.pcs[t := pc]
    ensures Simulates(g, l, s', w')
  {
    forall u ensures Matches(l, s', w', u) { assert Matches(l, s, w, u); }
  }

  lemma Incremented(l: EntryLayout, x: nat)
    requires x < l.Positions()
    ensures Increment(l, x) == x + 1
  {
    Arithmetic.Associates(2, Pow2(l.spare), l.N());
  }

  lemma EntryTestAgrees(g: N.Geometry, l: EntryLayout, tail: nat, entry: nat)
    requires HasLayout(g, l) && entry < l.Range() && tail < l.Positions()
    ensures EnqMeaning(l, EntryTest(l, tail, entry)) == N.EntryTest(g, tail, EntryOf(l, entry))
    ensures EnqOk(l, EntryTest(l, tail, entry))
  {
    hide Bitwise, Pow2;
    EnqueueTest(g, l, entry, tail);
  }

  lemma EnqCasSimulates(g: N.Geometry, l: EntryLayout, s: N.Ring, w: Ring, t: N.Tid, c: N.Choice,
                        v: nat, tail: nat, entry: nat)
    requires Simulates(g, l, s, w) && PcOf(w, t) == Enq(v, CasEntry(tail, entry))
    ensures Simulates(g, l, N.Step(g, s, t, c), Step(g, l, w, t, c))
  {
    hide Bitwise, Pow2, Cycle, NextCycle, EntryTest, EntryOf, EnqueueWord;
    assert Matches(l, s, w, t);
    EntryDeterminesWord(l, w.words[g.loc(tail)], entry);
    if w.words[g.loc(tail)] == entry {
      InstallStores(g, l, s, w.words, t, v, tail);
      Moved(g, l, s, w, N.Step(g, s, t, c), Step(g, l, w, t, c), t, Enq(v, MoveTail(tail)));
    } else {
      EntryTestAgrees(g, l, tail, w.words[g.loc(tail)]);
      Moved(g, l, s, w, N.Step(g, s, t, c), Step(g, l, w, t, c), t, Enq(v, EntryTest(l, tail, w.words[g.loc(tail)])));
    }
  }

  lemma EnqSimulates(g: N.Geometry, l: EntryLayout, s: N.Ring, w: Ring, t: N.Tid, c: N.Choice, v: nat, pc: EnqPc)
    requires Simulates(g, l, s, w) && PcOf(w, t) == Enq(v, pc) && InRange(l, N.Step(g, s, t, c).m)
    ensures Simulates(g, l, N.Step(g, s, t, c), Step(g, l, w, t, c))
  {
    hide Bitwise, Pow2, Cycle, NextCycle, EntryTest, EntryOf, EnqueueWord;
    assert Matches(l, s, w, t);
    var w' := Step(g, l, w, t, c);
    match pc
    case LoadTail => Moved(g, l, s, w, N.Step(g, s, t, c), w', t, PcOf(w', t));
    case LoadEntry(tail) =>
      EntryTestAgrees(g, l, tail, w.words[g.loc(tail)]);
      Moved(g, l, s, w, N.Step(g, s, t, c), w', t, PcOf(w', t));
    case HelpTail(tail) =>
      Incremented(l, tail);
      Moved(g, l, s, w, N.Step(g, s, t, c), w', t, PcOf(w', t));
    case CasEntry(tail, entry) => EnqCasSimulates(g, l, s, w, t, c, v, tail, entry);
    case MoveTail(tail) =>
      Incremented(l, tail);
      Moved(g, l, s, w, N.Step(g, s, t, c), w', t, PcOf(w', t));
  }

  lemma DeqSimulates(g: N.Geometry, l: EntryLayout, s: N.Ring, w: Ring, t: N.Tid, c: N.Choice, nonempty: bool, pc: DeqPc)
    requires Simulates(g, l, s, w) && PcOf(w, t) == Deq(nonempty, pc) && InRange(l, N.Step(g, s, t, c).m)
    ensures Simulates(g, l, N.Step(g, s, t, c), Step(g, l, w, t, c))
  {
    hide Bitwise, Pow2, Cycle, NextCycle, EntryOf;
    assert Matches(l, s, w, t);
    var w' := Step(g, l, w, t, c);
    match pc
    case LoadHead => Moved(g, l, s, w, N.Step(g, s, t, c), w', t, PcOf(w', t));
    case LoadEntry(head) =>
      DequeueTest(g, l, s, t, c, nonempty, w.words[g.loc(head)], head);
      Moved(g, l, s, w, N.Step(g, s, t, c), w', t, PcOf(w', t));
    case CasHead(head, entry) =>
      Incremented(l, head);
      IndexIsMasked(l, entry);
      Moved(g, l, s, w, N.Step(g, s, t, c), w', t, PcOf(w', t));
  }

  lemma IndexIsMasked(l: EntryLayout, entry: nat)
    ensures EntryOf(l, entry).idx == And(entry, l.N() - 1)
  {
    LowBits(entry, l.bits);
  }

  /** Every access of any thread in the ring of words is that access in the ring
      of entries, and stores or returns the same index. */
  lemma StepSimulates(g: N.Geometry, l: EntryLayout, s: N.Ring, w: Ring, t: N.Tid, c: N.Choice)
    requires Simulates(g, l, s, w) && InRange(l, N.Step(g, s, t, c).m)
    ensures Simulates(g, l, N.Step(g, s, t, c), Step(g, l, w, t, c))
    ensures Returned(w, Step(g, l, w, t, c), t) == NcqRuns.Removed(s, N.Step(g, s, t, c), t)
    ensures StoredBy(w, Step(g, l, w, t, c), t) == NcqRuns.Appended(s, N.Step(g, s, t, c), t)
  {
    hide Bitwise, Pow2;
    var w' := Step(g, l, w, t, c);
    assert Matches(l, s, w, t);
    match PcOf(w, t) {
      case Enq(v, pc) => EnqSimulates(g, l, s, w, t, c, v, pc);
      case Deq(nonempty, pc) => DeqSimulates(g, l, s, w, t, c, nonempty, pc);
      case pc => if c.Start? { Moved(g, l, s, w, N.Step(g, s, t, c), w', t, StartPc(l, c.op, pc)); }
    }
    assert Matches(l, N.Step(g, s, t, c), w', t);
  }

  // ----- every run -------------------------------------------------------

  lemma {:induction false} CountersGrow(g: N.Geometry, s: N.Ring, schedule: seq<(N.Tid, N.Choice)>)
    requires N.ValidGeometry(g) && |s.m.slots| == g.n
    ensures var m := NcqRuns.Exec(g, s, schedule).m; m.head >= s.m.head && m.tail >= s.m.tail
    decreases |schedule|
  {
    if schedule != [] { CountersGrow(g, N.Step(g, s, schedule[0].0, schedule[0].1), schedule[1..]); }
  }

  /** Over every schedule that reaches no position beyond the range, the ring of
      words stays the ring of entries, and stores and returns the same. */
  lemma {:induction false} RunSimulates(g: N.Geometry, l: EntryLayout, s: N.Ring, w: Ring,
                                        schedule: seq<(N.Tid, N.Choice)>)
    requires Simulates(g, l, s, w) && InRange(l, NcqRuns.Exec(g, s, schedule).m)
    ensures Simulates(g, l, NcqRuns.Exec(g, s, schedule), Exec(g, l, w, schedule))
    ensures AllReturned(g, l, w, schedule) == NcqRuns.AllRemoved(g, s, schedule)
    ensures AllStored(g, l, w, schedule) == NcqRuns.AllAppended(g, s, schedule)
    decreases |schedule|
  {
    hide Bitwise, Pow2;
    if schedule != [] {
      var (t, c) := schedule[0];
      CountersGrow(g, N.Step(g, s, t, c), schedule[1..]);
      StepSimulates(g, l, s, w, t, c);
      RunSimulates(g, l, N.Step(g, s, t, c), Step(g, l, w, t, c), schedule[1..]);
    }
  }

  // ----- the rings of the source -----------------------------------------

  /** A ring as one of the three initialisers leaves it, in entries and in
      words. */
  ghost predicate NewRing(g: N.Geometry, l: EntryLayout, s: N.Ring, w: Ring)
    requires N.ValidGeometry(g)
  {
    && w.pcs == map[] && NewWords(g, l, w.words, w.head, w.tail)
    && InitialRing(g, s) && s.m == N.Memory(w.head, w.tail, EntriesOf(l, w.words)) && Holds(g, l, s.m, w.words)
  }

  lemma FilledWordStands(l: EntryLayout, p: nat, start: nat, end: nat)
    requires p < l.N()
    ensures FilledWord(l, p, start, end) < l.Range()
    ensures EntryOf(l, FilledWord(l, p, start, end)) == FilledSlot(p, start, end)
  {
    InitialWords(l, p);
    InitialWords(l, 0);
  }

  /** The words of each initialiser stand for the entries of the initial ring that
      module NcqInit describes. */
  lemma NewWordsStand(g: N.Geometry, l: EntryLayout, w: Ring) returns (s: N.Ring)
    requires HasLayout(g, l) && N.ValidGeometry(g) && FirstLap(g)
    requires w.pcs == map[] && NewWords(g, l, w.words, w.head, w.tail)
    ensures NewRing(g, l, s, w)
  {
    hide Bitwise, Pow2, EntryOf;
    var m := N.Memory(w.head, w.tail, EntriesOf(l, w.words));
    forall i: nat | i < g.n ensures i < l.Range() && EntryOf(l, i) == N.Slot(0, i) { InitialWords(l, i); }
    if w.words == seq(g.n, i => 0) && w.head == w.tail == g.n {
      assert EntriesOf(l, w.words) == seq(g.n, i => N.Slot(0, 0));
      s := N.Ring(m, map[], []);
    } else if w.words == seq(g.n, i requires 0 <= i => i) && w.head == 0 && w.tail == g.n {
      assert EntriesOf(l, w.words) == seq(g.n, i requires 0 <= i => N.Slot(0, i));
      s := N.Ring(m, map[], seq(g.n, (p: nat) => g.loc(p)));
    } else {
      s := FilledStands(g, l, w);
    }
  }

  lemma FilledStands(g: N.Geometry, l: EntryLayout, w: Ring) returns (s: N.Ring)
    requires HasLayout(g, l) && N.ValidGeometry(g) && FirstLap(g) && w.pcs == map[]
    requires |w.words| == g.n && w.head <= w.tail <= g.n
    requires forall p: nat :: p < g.n ==> w.words[g.loc(p)] == FilledWord(l, p, w.head, w.tail)
    ensures NewRing(g, l, s, w)
  {
    hide Bitwise, Pow2, EntryOf;
    forall p: nat | p < g.n
      ensures w.words[g.loc(p)] < l.Range() && EntriesOf(l, w.words)[g.loc(p)] == FilledSlot(p, w.head, w.tail)
    {
      FilledWordStands(l, p, w.head, w.tail);
    }
    forall j | 0 <= j < |w.words| ensures w.words[j] < l.Range() { assert IsHit(g, j); }
    s := N.Ring(N.Memory(w.head, w.tail, EntriesOf(l, w.words)), map[],
                seq(w.tail - w.head, i requires 0 <= i => w.head + i));
    assert IsFilled(g, s, w.head, w.tail);
  }

  lemma NewRingSimulates(g: N.Geometry, l: EntryLayout, s: N.Ring, w: Ring, schedule: seq<(N.Tid, N.Choice)>)
    requires N.ValidGeometry(g) && NewRing(g, l, s, w) && |s.m.slots| == g.n
    requires InRange(l, NcqRuns.Exec(g, s, schedule).m)
    ensures Simulates(g, l, s, w)
  {
    CountersGrow(g, s, schedule);
    forall t ensures Matches(l, s, w, t) {
    }
  }

  /** The whole of it, for the ring of the source with its bitwise map, on words
      of any width: from the words that any of the three initialisers leaves,
      over every schedule in which the clients keep room and no position leaves the
      range, what was there and all that the enqueues stored is all that the
      dequeues returned and what is left. */
  lemma SourceWordsAreFifo(l: EntryLayout, min: nat, s: N.Ring, w: Ring, schedule: seq<(N.Tid, N.Choice)>)
    requires min <= l.bits
    requires var g := SourceGeometry(Pow2(min), Pow2(l.bits - min), l.N());
      && N.ValidGeometry(g) && NewRing(g, l, s, w)
      && NcqRuns.RoomThroughout(g, s, schedule) && InRange(l, NcqRuns.Exec(g, s, schedule).m)
    ensures var g := SourceGeometry(Pow2(min), Pow2(l.bits - min), l.N());
      var s' := NcqRuns.Exec(g, s, schedule);
      && Simulates(g, l, s', Exec(g, l, w, schedule)) && N.Inv(g, s')
      && s.items + AllStored(g, l, w, schedule) == AllReturned(g, l, w, schedule) + s'.items
  {
    hide Bitwise;
    var g := SourceGeometry(Pow2(min), Pow2(l.bits - min), l.N());
    SourceRing(l, min, l.bits);
    InitialRingInv(g, s);
    NewRingSimulates(g, l, s, w, schedule);
    RunSimulates(g, l, s, w, schedule);
    NcqRuns.RunKeepsInv(g, s, schedule);
    NcqRuns.RunIsFifo(g, s, schedule);
  }
}
