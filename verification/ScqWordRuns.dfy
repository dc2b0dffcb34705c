/**
 * The fetch-and-add ring of lfring_cas1.h on the words of the program: the
 * shared array, the counters and the local variables are words, and every test
 * and store is the expression of the source.  Over every schedule that issues
 * fewer tickets than an eighth of the range of a word, the ring of words is the
 * ring of slots of module ScqRing.
 */
module ScqWordRuns {
  import opened Bits
  import opened Options
  import opened ScqInit
  import opened ScqLayout
  import opened ScqWords
  import Arithmetic
  import R = ScqRing
  import ScqRuns
  import ScqSteps
  import T = ScqThreshold

  // ----- the ring of words -----------------------------------------------

  /** The counters of module ScqRing, with words in the place of slots. */
  datatype Pc =
    | Idle
    | Ret(res: R.Result)
    | Enq(v: nat, nonempty: bool, enq: EnqPc)
    | Deq(nonempty: bool, deq: DeqPc)
    | Empty(ticket: nat, empty: R.EmptyPc)

  datatype EnqPc =
    | TakeTicket
    | LoadSlot(ticket: nat)
    | TestHead(ticket: nat, entry: nat)
    | CasSlot(ticket: nat, entry: nat)
    | LoadThreshold(ticket: nat)
    | StoreThreshold(ticket: nat)

  datatype DeqPc =
    | TestThreshold
    | TakeTicket
    | LoadSlot(ticket: nat)
    | Erase(ticket: nat, entry: nat)
    | CasSlot(ticket: nat, entry: nat)

  /** The threshold is the number that its signed word stands for. */
  datatype Ring = Ring(head: nat, tail: nat, threshold: int, words: seq<nat>, pcs: map<R.Tid, Pc>)

  function PcOf(w: Ring, t: R.Tid): Pc { if t in w.pcs then w.pcs[t] else Idle }

  function Goto(w: Ring, t: R.Tid, pc: Pc): Ring { w.(pcs := w.pcs[t := pc]) }

  /** x + 1, in the width of a word. */
  function Increment(l: Layout, x: nat): nat { if x + 1 < l.Range() then x + 1 else 0 }

  function EnqTest(l: Layout, ticket: nat, entry: nat): EnqPc {
    var ecycle, tcycle := EntryCycle(l, entry), TicketCycle(l, ticket);
    if Less(l, ecycle, tcycle) && entry == ecycle then EnqPc.CasSlot(ticket, entry)
    else if Less(l, ecycle, tcycle) && entry == Xor(ecycle, l.N()) then TestHead(ticket, entry)
    else EnqPc.TakeTicket
  }

  function EnqStep(g: R.Geometry, l: Layout, w: Ring, t: R.Tid, c: R.Choice, v: nat, nonempty: bool, pc: EnqPc): Ring
    requires R.ValidGeometry(g) && |w.words| == g.n
  {
    match pc
    case TakeTicket => Goto(w.(tail := Increment(l, w.tail)), t, Enq(v, nonempty, EnqPc.LoadSlot(w.tail)))
    case LoadSlot(ticket) => Goto(w, t, Enq(v, nonempty, EnqTest(l, ticket, w.words[g.loc(ticket)])))
    case TestHead(ticket, entry) =>
      Goto(w, t, Enq(v, nonempty, if AtMost(l, w.head, ticket) then EnqPc.CasSlot(ticket, entry) else EnqPc.TakeTicket))
    case CasSlot(ticket, entry) =>
      if w.words[g.loc(ticket)] == entry && c != R.Alt then
        Goto(w.(words := w.words[g.loc(ticket) := EnqueueWord(l, ticket, v)]), t,
             if nonempty then Ret(R.Enqueued(ticket)) else Enq(v, nonempty, LoadThreshold(ticket)))
      else Goto(w, t, Enq(v, nonempty, EnqTest(l, ticket, w.words[g.loc(ticket)])))
    case LoadThreshold(ticket) =>
      Goto(w, t, if w.threshold != g.threshold then Enq(v, nonempty, StoreThreshold(ticket)) else Ret(R.Enqueued(ticket)))
    case StoreThreshold(ticket) => Goto(w.(threshold := g.threshold), t, Ret(R.Enqueued(ticket)))
  }

  function DeqTest(l: Layout, c: R.Choice, ticket: nat, entry: nat): Option<DeqPc> {
    var n, ecycle, hcycle := l.N(), EntryCycle(l, entry), TicketCycle(l, ticket);
    if ecycle == hcycle then Some(Erase(ticket, entry))
    else if Or(entry, n) != ecycle && entry == AndNot(entry, n) then None
    else if Or(entry, n) == ecycle && c == R.Alt then Some(DeqPc.LoadSlot(ticket))
    else if Less(l, ecycle, hcycle) then Some(DeqPc.CasSlot(ticket, entry))
    else None
  }

  function Leave(w: Ring, t: R.Tid, nonempty: bool, ticket: nat): Ring {
    Goto(w, t, if nonempty then Deq(true, DeqPc.TakeTicket) else Empty(ticket, R.LoadTail))
  }

  function DeqContinue(g: R.Geometry, l: Layout, w: Ring, t: R.Tid, c: R.Choice, nonempty: bool, ticket: nat): Ring
    requires R.ValidGeometry(g) && |w.words| == g.n
  {
    match DeqTest(l, c, ticket, w.words[g.loc(ticket)])
    case Some(pc) => Goto(w, t, Deq(nonempty, pc))
    case None => Leave(w, t, nonempty, ticket)
  }

  function DeqStep(g: R.Geometry, l: Layout, w: Ring, t: R.Tid, c: R.Choice, nonempty: bool, pc: DeqPc): Ring
    requires R.ValidGeometry(g) && |w.words| == g.n
  {
    match pc
    case TestThreshold => Goto(w, t, if w.threshold < 0 then Ret(R.EmptyByThreshold) else Deq(nonempty, DeqPc.TakeTicket))
    case TakeTicket => Goto(w.(head := Increment(l, w.head)), t, Deq(nonempty, DeqPc.LoadSlot(w.head)))
    case LoadSlot(ticket) => DeqContinue(g, l, w, t, c, nonempty, ticket)
    case Erase(ticket, entry) =>
      Goto(w.(words := w.words[g.loc(ticket) := Or(w.words[g.loc(ticket)], l.N() - 1)]), t,
           Ret(R.Dequeued(ticket, And(entry, l.N() - 1))))
    case CasSlot(ticket, entry) =>
      if w.words[g.loc(ticket)] == entry && c != R.Alt then
        Leave(w.(words := w.words[g.loc(ticket) := DequeueWord(l, ticket, entry)]), t, nonempty, ticket)
      else DeqContinue(g, l, w, t, c, nonempty, ticket)
  }

  function EmptyStep(l: Layout, w: Ring, t: R.Tid, c: R.Choice, ticket: nat, pc: R.EmptyPc): Ring {
    match pc
    case LoadTail =>
      Goto(w, t, Empty(ticket, if AtMost(l, w.tail, ticket + 1) then R.CatchCas(w.tail, ticket + 1)
                               else R.LowerThreshold(false)))
    case CatchCas(tail, target) =>
      if w.tail == tail && c != R.Alt then Goto(w.(tail := target), t, Empty(ticket, R.LowerThreshold(true)))
      else Goto(w, t, Empty(ticket, R.CatchHead))
    case CatchHead => Goto(w, t, Empty(ticket, R.CatchTail(w.head)))
    case CatchTail(target) =>
      Goto(w, t, Empty(ticket, if !Less(l, w.tail, target) then R.LowerThreshold(true) else R.CatchCas(w.tail, target)))
    case LowerThreshold(found) =>
      Goto(w.(threshold := w.threshold - 1), t,
           if found then Ret(R.EmptyByTail(ticket))
           else if w.threshold <= 0 then Ret(R.EmptyByThreshold)
           else Deq(false, DeqPc.TakeTicket))
  }

  function StartPc(l: Layout, op: R.Op, current: Pc): Pc {
    match op
    case OpEnqueue(v, nonempty) => if v + 1 < l.N() then Enq(v, nonempty, EnqPc.TakeTicket) else current
    case OpDequeue(nonempty) => Deq(nonempty, if nonempty then DeqPc.TakeTicket else TestThreshold)
  }

  /** One atomic access by thread t; of the geometry only the slot of a position
      and the threshold are used. */
  function Step(g: R.Geometry, l: Layout, w: Ring, t: R.Tid, c: R.Choice): (w': Ring)
    requires R.ValidGeometry(g) && |w.words| == g.n
    ensures |w'.words| == g.n
  {
    match PcOf(w, t)
    case Enq(v, nonempty, pc) => EnqStep(g, l, w, t, c, v, nonempty, pc)
    case Deq(nonempty, pc) => DeqStep(g, l, w, t, c, nonempty, pc)
    case Empty(ticket, pc) => EmptyStep(l, w, t, c, ticket, pc)
    case _ => if c.Start? then Goto(w, t, StartPc(l, c.op, PcOf(w, t))) else w
  }

  function Exec(g: R.Geometry, l: Layout, w: Ring, schedule: seq<(R.Tid, R.Choice)>): (w': Ring)
    requires R.ValidGeometry(g) && |w.words| == g.n
    ensures |w'.words| == g.n
    decreases |schedule|
  {
    if schedule == [] then w else Exec(g, l, Step(g, l, w, schedule[0].0, schedule[0].1), schedule[1..])
  }

  // ----- what it stands for ----------------------------------------------

  function EnqMeaning(l: Layout, pc: EnqPc): R.EnqPc {
    match pc
    case TakeTicket => R.EnqPc.TakeTicket
    case LoadSlot(ticket) => R.EnqPc.LoadSlot(ticket)
    case TestHead(ticket, entry) => R.TestHead(ticket, SlotOf(l, entry))
    case CasSlot(ticket, entry) => R.EnqPc.CasSlot(ticket, SlotOf(l, entry))
    case LoadThreshold(ticket) => R.LoadThreshold(ticket)
    case StoreThreshold(ticket) => R.StoreThreshold(ticket)
  }

  function DeqMeaning(l: Layout, pc: DeqPc): R.DeqPc {
    match pc
    case TestThreshold => R.TestThreshold
    case TakeTicket => R.DeqPc.TakeTicket
    case LoadSlot(ticket) => R.DeqPc.LoadSlot(ticket)
    case Erase(ticket, entry) => R.Erase(ticket, And(entry, l.N() - 1))
    case CasSlot(ticket, entry) => R.DeqPc.CasSlot(ticket, SlotOf(l, entry))
  }

  function Meaning(l: Layout, pc: Pc): R.Pc {
    match pc
    case Idle => R.Idle
    case Ret(res) => R.Ret(res)
    case Enq(v, nonempty, pc) => R.Enq(v, nonempty, EnqMeaning(l, pc))
    case Deq(nonempty, pc) => R.Deq(nonempty, DeqMeaning(l, pc))
    case Empty(ticket, pc) => R.Empty(ticket, pc)
  }

  /** The words a thread holds are those of tickets in range. */
  ghost predicate EnqOk(l: Layout, pc: EnqPc) {
    match pc
    case TakeTicket => true
    case LoadSlot(ticket) => ticket < l.Tickets()
    case TestHead(ticket, entry) => ticket < l.Tickets() && Proper(l, entry)
    case CasSlot(ticket, entry) => ticket < l.Tickets() && Proper(l, entry)
    case LoadThreshold(_) => true
    case StoreThreshold(_) => true
  }

  ghost predicate DeqOk(l: Layout, pc: DeqPc) {
    match pc
    case TestThreshold => true
    case TakeTicket => true
    case LoadSlot(ticket) => ticket < l.Tickets()
    case Erase(_, _) => true
    case CasSlot(ticket, entry) => ticket < l.Tickets() && Proper(l, entry)
  }

  ghost predicate EmptyOk(l: Layout, pc: R.EmptyPc) {
    match pc
    case CatchCas(_, target) => target <= l.Tickets()
    case CatchTail(target) => target <= l.Tickets()
    case _ => true
  }

  ghost predicate Ok(l: Layout, pc: Pc) {
    match pc
    case Enq(v, _, pc) => v + 1 < l.N() && EnqOk(l, pc)
    case Deq(_, pc) => DeqOk(l, pc)
    case Empty(ticket, pc) => ticket < l.Tickets() && EmptyOk(l, pc)
    case _ => true
  }

  ghost predicate Matches(l: Layout, s: R.Ring, w: Ring, t: R.Tid) {
    R.PcOf(s, t) == Meaning(l, PcOf(w, t)) && Ok(l, PcOf(w, t))
  }

  /** The shared words of w are those of m, and no ticket beyond the range was
      issued. */
  ghost predicate SameMemory(g: R.Geometry, l: Layout, m: R.Memory, w: Ring) {
    && Stored(g, l, m, w.words) && m.head == w.head <= l.Tickets() && m.tail == w.tail <= l.Tickets()
    && m.threshold == w.threshold
  }

  /** The ring of words w is the ring of slots s. */
  ghost predicate Simulates(g: R.Geometry, l: Layout, s: R.Ring, w: Ring) {
    SameMemory(g, l, s.m, w) && forall t :: Matches(l, s, w, t)
  }

  // ----- every step ------------------------------------------------------

  /** A step of t that changes memory and t's counter alike. */
  lemma Moved(g: R.Geometry, l: Layout, s: R.Ring, w: Ring, s': R.Ring, w': Ring, t: R.Tid, pc: Pc)
    requires Simulates(g, l, s, w) && SameMemory(g, l, s'.m, w') && Ok(l, pc)
    requires s'.pcs == s.pcs[t := Meaning(l, pc)] && w'.pcs == w.pcs[t := pc]
    ensures Simulates(g, l, s', w')
  {
    forall u ensures Matches(l, s', w', u) { assert Matches(l, s, w, u); }
  }

  lemma EnqTestAgrees(g: R.Geometry, l: Layout, ticket: nat, entry: nat)
    requires RingOf(g, l) && Proper(l, entry) && ticket < l.Tickets()
    ensures EnqMeaning(l, EnqTest(l, ticket, entry)) == R.EnqTest(g, ticket, SlotOf(l, entry))
    ensures EnqOk(l, EnqTest(l, ticket, entry))
  {
    hide Bitwise, Pow2;
    EnqueueTest(g, l, entry, ticket);
  }

  lemma DeqTestAgrees(g: R.Geometry, l: Layout, c: R.Choice, ticket: nat, entry: nat)
    requires RingOf(g, l) && Proper(l, entry) && ticket < l.Tickets()
    ensures var a, b := R.DeqTest(g, c, ticket, SlotOf(l, entry)), DeqTest(l, c, ticket, entry);
      match b case Some(pc) => a == Some(DeqMeaning(l, pc)) && DeqOk(l, pc) case None => a == None
  {
    hide Bitwise, Pow2;
    DequeueTest(g, l, c, entry, ticket);
  }

  /** Fewer tickets were issued than the words can count. */
  ghost predicate InRange(l: Layout, m: R.Memory) { m.head <= l.Tickets() && m.tail <= l.Tickets() }

  lemma Incremented(l: Layout, x: nat)
    requires x < l.Tickets()
    ensures Increment(l, x) == x + 1
  {
    RangeIsTickets(l);
  }

  lemma EnqCasSimulates(g: R.Geometry, l: Layout, s: R.Ring, w: Ring, t: R.Tid, c: R.Choice,
                        v: nat, nonempty: bool, ticket: nat, entry: nat)
    requires Simulates(g, l, s, w) && PcOf(w, t) == Enq(v, nonempty, EnqPc.CasSlot(ticket, entry))
    ensures Simulates(g, l, R.Step(g, s, t, c), Step(g, l, w, t, c))
  {
    hide Bitwise, Pow2, TicketCycle, EntryCycle, EnqTest, EnqueueWord, SlotOf, Proper;
    assert Matches(l, s, w, t);
    CasTest(g, l, s.m, w.words, g.loc(ticket), entry);
    if w.words[g.loc(ticket)] == entry && c != R.Alt {
      var pc := if nonempty then Ret(R.Enqueued(ticket)) else Enq(v, nonempty, LoadThreshold(ticket));
      InstallStores(g, l, s, w.words, t, Meaning(l, pc), v, ticket);
      Moved(g, l, s, w, R.Step(g, s, t, c), Step(g, l, w, t, c), t, pc);
    } else {
      EnqTestAgrees(g, l, ticket, w.words[g.loc(ticket)]);
      var pc := Enq(v, nonempty, EnqTest(l, ticket, w.words[g.loc(ticket)]));
      Moved(g, l, s, w, R.Step(g, s, t, c), Step(g, l, w, t, c), t, pc);
    }
  }

  lemma EnqSimulates(g: R.Geometry, l: Layout, s: R.Ring, w: Ring, t: R.Tid, c: R.Choice,
                     v: nat, nonempty: bool, pc: EnqPc)
    requires Simulates(g, l, s, w) && PcOf(w, t) == Enq(v, nonempty, pc) && InRange(l, R.Step(g, s, t, c).m)
    ensures Simulates(g, l, R.Step(g, s, t, c), Step(g, l, w, t, c))
  {
    hide Bitwise, Pow2, TicketCycle, EntryCycle, EnqTest, EnqueueWord, SlotOf, Proper;
    assert Matches(l, s, w, t);
    var w' := Step(g, l, w, t, c);
    match pc
    case TakeTicket =>
      Incremented(l, w.tail);
      Moved(g, l, s, w, R.Step(g, s, t, c), w', t, PcOf(w', t));
    case LoadSlot(ticket) =>
      EnqTestAgrees(g, l, ticket, w.words[g.loc(ticket)]);
      Moved(g, l, s, w, R.Step(g, s, t, c), w', t, PcOf(w', t));
    case TestHead(ticket, _) =>
      CounterTests(l, w.head, ticket);
      Moved(g, l, s, w, R.Step(g, s, t, c), w', t, PcOf(w', t));
    case CasSlot(ticket, entry) => EnqCasSimulates(g, l, s, w, t, c, v, nonempty, ticket, entry);
    case _ => Moved(g, l, s, w, R.Step(g, s, t, c), w', t, PcOf(w', t));
  }

  lemma ContinueSimulates(g: R.Geometry, l: Layout, s: R.Ring, w: Ring, t: R.Tid, c: R.Choice, nonempty: bool, ticket: nat)
    requires Simulates(g, l, s, w) && ticket < l.Tickets()
    ensures Simulates(g, l, R.DeqContinue(g, s, t, c, nonempty, ticket), DeqContinue(g, l, w, t, c, nonempty, ticket))
  {
    hide Bitwise, Pow2, TicketCycle, EntryCycle, DeqTest, SlotOf, Proper;
    var w' := DeqContinue(g, l, w, t, c, nonempty, ticket);
    DeqTestAgrees(g, l, c, ticket, w.words[g.loc(ticket)]);
    Moved(g, l, s, w, R.DeqContinue(g, s, t, c, nonempty, ticket), w', t, PcOf(w', t));
  }

  lemma DeqCasSimulates(g: R.Geometry, l: Layout, s: R.Ring, w: Ring, t: R.Tid, c: R.Choice,
                        nonempty: bool, ticket: nat, entry: nat)
    requires Simulates(g, l, s, w) && PcOf(w, t) == Deq(nonempty, DeqPc.CasSlot(ticket, entry))
    ensures Simulates(g, l, R.Step(g, s, t, c), Step(g, l, w, t, c))
  {
    hide Bitwise, Pow2, TicketCycle, EntryCycle, DeqTest, DequeueWord, SlotOf, Proper;
    assert Matches(l, s, w, t);
    var w' := Step(g, l, w, t, c);
    CasTest(g, l, s.m, w.words, g.loc(ticket), entry);
    if w.words[g.loc(ticket)] == entry && c != R.Alt {
      OverwriteStores(g, l, s, w.words, t, c, nonempty, ticket);
      Moved(g, l, s, w, R.Step(g, s, t, c), w', t, PcOf(w', t));
    } else {
      ContinueSimulates(g, l, s, w, t, c, nonempty, ticket);
    }
  }

  lemma DeqSimulates(g: R.Geometry, l: Layout, s: R.Ring, w: Ring, t: R.Tid, c: R.Choice, nonempty: bool, pc: DeqPc)
    requires Simulates(g, l, s, w) && PcOf(w, t) == Deq(nonempty, pc) && InRange(l, R.Step(g, s, t, c).m)
    ensures Simulates(g, l, R.Step(g, s, t, c), Step(g, l, w, t, c))
  {
    hide Bitwise, Pow2, TicketCycle, EntryCycle, DeqTest, DequeueWord, SlotOf, Proper;
    assert Matches(l, s, w, t);
    var w' := Step(g, l, w, t, c);
    match pc
    case TestThreshold => Moved(g, l, s, w, R.Step(g, s, t, c), w', t, PcOf(w', t));
    case TakeTicket =>
      Incremented(l, w.head);
      Moved(g, l, s, w, R.Step(g, s, t, c), w', t, PcOf(w', t));
    case LoadSlot(ticket) => ContinueSimulates(g, l, s, w, t, c, nonempty, ticket);
    case Erase(ticket, entry) =>
      EraseStores(g, l, s, w.words, t, c, nonempty, ticket, And(entry, l.N() - 1));
      Moved(g, l, s, w, R.Step(g, s, t, c), w', t, PcOf(w', t));
    case CasSlot(ticket, entry) => DeqCasSimulates(g, l, s, w, t, c, nonempty, ticket, entry);
  }

  lemma EmptySimulates(g: R.Geometry, l: Layout, s: R.Ring, w: Ring, t: R.Tid, c: R.Choice, ticket: nat, pc: R.EmptyPc)
    requires Simulates(g, l, s, w) && PcOf(w, t) == Empty(ticket, pc)
    ensures Simulates(g, l, R.Step(g, s, t, c), Step(g, l, w, t, c))
  {
    hide Bitwise, Pow2, AtMost, Less;
    assert Matches(l, s, w, t);
    var w' := Step(g, l, w, t, c);
    CounterTests(l, w.tail, ticket + 1);
    if pc.CatchTail? { CounterTests(l, w.tail, pc.target); }
    Moved(g, l, s, w, R.Step(g, s, t, c), w', t, PcOf(w', t));
  }

  /** Every access of any thread in the ring of words is that access in the ring
      of slots: same outcome of each test, CAS and load, same words stored. */
  lemma StepSimulates(g: R.Geometry, l: Layout, s: R.Ring, w: Ring, t: R.Tid, c: R.Choice)
    requires Simulates(g, l, s, w) && InRange(l, R.Step(g, s, t, c).m)
    ensures Simulates(g, l, R.Step(g, s, t, c), Step(g, l, w, t, c))
  {
    hide Bitwise, Pow2;
    assert Matches(l, s, w, t);
    match PcOf(w, t)
    case Enq(v, nonempty, pc) => EnqSimulates(g, l, s, w, t, c, v, nonempty, pc);
    case Deq(nonempty, pc) => DeqSimulates(g, l, s, w, t, c, nonempty, pc);
    case Empty(ticket, pc) => EmptySimulates(g, l, s, w, t, c, ticket, pc);
    case pc => if c.Start? { Moved(g, l, s, w, R.Step(g, s, t, c), Step(g, l, w, t, c), t, StartPc(l, c.op, pc)); }
  }

  // ----- every run -------------------------------------------------------

  /** Over every schedule that issues no ticket beyond the range, the ring of
      words stays the ring of slots. */
  lemma {:induction false} RunSimulates(g: R.Geometry, l: Layout, s: R.Ring, w: Ring, schedule: seq<(R.Tid, R.Choice)>)
    requires Simulates(g, l, s, w) && R.Inv(g, s) && InRange(l, ScqRuns.Exec(g, s, schedule).m)
    ensures Simulates(g, l, ScqRuns.Exec(g, s, schedule), Exec(g, l, w, schedule))
    decreases |schedule|
  {
    hide Bitwise, Pow2;
    if schedule != [] {
      var (t, c) := schedule[0];
      ScqSteps.StepKeepsInv(g, s, t, c);
      ScqRuns.RunKeepsInv(g, R.Step(g, s, t, c), schedule[1..]);
      StepSimulates(g, l, s, w, t, c);
      RunSimulates(g, l, R.Step(g, s, t, c), Step(g, l, w, t, c), schedule[1..]);
    }
  }

  // ----- the rings of the source -----------------------------------------

  /** The counters of a new ring never leave the range. */
  lemma SlotsInRange(l: Layout)
    ensures l.N() <= l.Tickets()
  {
    Arithmetic.MulMonotone(1, Pow2(l.spare), l.N());
  }

  /** A ring as lfring_init_empty or lfring_init_full leaves it, in slots and in
      words. */
  ghost predicate NewRing(g: R.Geometry, l: Layout, s: R.Ring, w: Ring)
    requires R.ValidGeometry(g)
  {
    || (s == ScqSteps.InitEmpty(g) && w == Ring(0, 0, -1, seq(g.n, i => l.Range() - 1), map[]))
    || exists idx: seq<nat> :: NewFullRing(g, l, s, w, idx)
  }

  ghost predicate NewFullRing(g: R.Geometry, l: Layout, s: R.Ring, w: Ring, idx: seq<nat>)
    requires R.ValidGeometry(g)
  {
    && FullWords(g, l, idx, w.words) && w == Ring(0, |idx|, g.threshold, w.words, map[])
    && s == InitFull(g, idx, SlotsOf(l, w.words))
    && forall i :: 0 <= i < |idx| ==> idx[i] + 1 < g.n
  }

  lemma NewRingSimulates(g: R.Geometry, l: Layout, s: R.Ring, w: Ring)
    requires RingOf(g, l) && R.ValidGeometry(g) && Laps(g) && Covered(g) && g.n > 1 && NewRing(g, l, s, w)
    ensures R.Inv(g, s) && Simulates(g, l, s, w)
  {
    hide Bitwise, Pow2, SlotOf, Proper;
    SlotsInRange(l);
    if idx :| NewFullRing(g, l, s, w, idx) {
      FullRingStored(g, l, idx, w.words);
      InitFullInv(g, idx, s.m.slots);
    } else {
      EmptyRingStored(g, l);
      ScqSteps.InitEmptyInv(g);
    }
    forall t ensures Matches(l, s, w, t) {
    }
  }

  /** An index that a dequeue of words returned was installed under its ticket. */
  ghost predicate ReturnsInstalled(s: R.Ring, w: Ring) {
    forall t, p, v :: PcOf(w, t) == Ret(R.Dequeued(p, v)) ==> p in s.h.installed && s.h.installed[p] == v
  }

  lemma ReturnedWasInstalled(g: R.Geometry, l: Layout, s: R.Ring, w: Ring)
    requires Simulates(g, l, s, w) && R.Inv(g, s)
    ensures ReturnsInstalled(s, w)
  {
    forall t, p, v | PcOf(w, t) == Ret(R.Dequeued(p, v)) ensures p in s.h.installed && s.h.installed[p] == v {
      assert Matches(l, s, w, t) && R.ThreadInv(g, s, t);
      assert R.TicketInv(g, s, p);
    }
  }

  lemma NewRingRun(g: R.Geometry, l: Layout, s: R.Ring, w: Ring, schedule: seq<(R.Tid, R.Choice)>)
    requires RingOf(g, l) && R.ValidGeometry(g) && Laps(g) && Covered(g) && g.n > 1 && NewRing(g, l, s, w)
    requires |s.m.slots| == g.n == |w.words| && InRange(l, ScqRuns.Exec(g, s, schedule).m) && g.threshold >= -1
    ensures var (s', w') := (ScqRuns.Exec(g, s, schedule), Exec(g, l, w, schedule));
      && Simulates(g, l, s', w') && R.Inv(g, s') && ReturnsInstalled(s', w')
      && -1 - l.Tickets() <= w'.threshold <= g.threshold
  {
    NewRingSimulates(g, l, s, w);
    assert T.Debtors(s) == {};
    T.ThresholdStaysInRange(g, s, schedule);
    RunSimulates(g, l, s, w, schedule);
    ScqRuns.RunKeepsInv(g, s, schedule);
    ReturnedWasInstalled(g, l, ScqRuns.Exec(g, s, schedule), Exec(g, l, w, schedule));
  }

  /** The whole of it, for the ring of the source with its bitwise map, on words
      of any width and with any LFRING_MIN up to the order: from the words of an
      empty or of a full ring, every schedule of any number of threads that issues
      no ticket beyond the range leads to the words of a ring that meets the
      invariant; in particular an index that a dequeue returned was installed
      under its ticket, and the threshold never wraps around. */
  lemma SourceWordsAreTheRing(l: Layout, min: nat, half: nat, s: R.Ring, w: Ring, schedule: seq<(R.Tid, R.Choice)>)
    requires min <= l.bits && l.bits > 0
    requires var g := SourceGeometry(Pow2(min), Pow2(l.bits - min), l.N(), half);
      && R.ValidGeometry(g) && NewRing(g, l, s, w) && |s.m.slots| == g.n == |w.words|
      && InRange(l, ScqRuns.Exec(g, s, schedule).m)
    ensures var g := SourceGeometry(Pow2(min), Pow2(l.bits - min), l.N(), half);
      var (s', w') := (ScqRuns.Exec(g, s, schedule), Exec(g, l, w, schedule));
      && Simulates(g, l, s', w') && R.Inv(g, s') && ReturnsInstalled(s', w')
      && -1 - l.Tickets() <= w'.threshold <= g.threshold
  {
    SourceRing(l, min, half, l.bits);
    NewRingRun(SourceGeometry(Pow2(min), Pow2(l.bits - min), l.N(), half), l, s, w, schedule);
  }
}
