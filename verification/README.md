# Verified models of Hermeneutic

Hermeneutic aggregates the order books of several exchanges into one view and
publishes price and volume bands derived from it; it carries a vendored library
of concurrent queues. This project models the parts of both in which something
has to stay true over every run, and proves it.

Two groups of modules:

- **Concurrent queues.** Each protocol is a transition system: the shared words, a
  program counter with its local variables for each thread, and one step per
  atomic access, interleaved in any order by any number of threads. `Step` is the
  program; a `History`, `Shadow` or `items` component records what no step
  reads. An invariant is kept by every step, and the statements about runs follow
  for every schedule. `Scq` is the fetch-and-add ring, with its slot words
  (`ScqLayout`, `ScqWords`), the same ring run on those words (`ScqWordRuns`), slot map
  (`RingMap`) and initial states (`ScqInit`); `Scqd` puts two of them and a data array
  together. `ScqRoom` (with `ScqRoomSteps`) bounds how far the tail runs ahead,
  `ScqThreshold` shows what the threshold is worth, `ScqEmpty` and `ScqdEmpty` that
  EMPTY is true, and `ScqCrowd` why that needs a bound on the dequeuers. `Ncq`,
  `NcqInit`, `NcqWords` and `NcqWordRuns` are the ring that works by
  CAS alone, on entries and on words; `Bits` has the bitwise operators of C as
  functions on numbers; `MsQueue` is the Michael-Scott queue with hazard pointers
  over one heap in which freed addresses are allocated again, and `HazardScan` is the
  table and the in-place compaction behind one scan; `CcSynch` is the combining lock,
  `CcQueue` the list with one server per side, and `CcCombined` the whole queue, in
  which the combiners of two locks are those servers. The larger ones are split: the
  file named after the protocol holds its steps and its invariant, `...Steps`
  shows that every step keeps it, `...Runs` what follows for whole runs
  (`MsCapacity` for the retire lists), and `...Calls` what every answer means: each
  call, from the operation that the scheduler names to its result, is followed by a
  bystander who sees what the thread's own steps do to the content and which moments
  the call passes through. `Fifo` adds single steps up to runs and has what these
  bystanders share, `Sequences` has what several modules need of sequences, and
  `Options` is the usual option type.
- **The trading pipeline.** Code that updates objects is a class whose methods are
  proved against functions on values, and the properties are lemmas about those
  functions. `OrderBook` is one exchange's book, `OrderBookEvents` what each event
  does to it in terms of the event's fields, and `OrderBookRuns` what it keeps over
  runs, `Uncross` and `Consolidate` build the aggregated view, `Engine`
  (split likewise) is the pipeline of producers, worker, publisher and stop, `Decimal`
  and `DecimalText` are the fixed-point type, `GrpcTrip` is the way of a book through
  the wire format, and `PriceBands` and `VolumeBands` are the derived bands
  (`WireBands`: of a book that came over the wire). `XxHash` and `XxHashWords` are
  streaming xxHash, and `XxHashChecks` has its check values. `Levels` and
  `Arithmetic` hold shared definitions and division facts.

Prices and quantities are raw fixed-point integers (units of 10^-18). In `Decimal`,
its text and the bands, where the program has undefined signed overflow the model
has an explicit `Overflow`, `TooLarge` or `OutOfRange` outcome, and the lemmas say
exactly when it is reached. The books and the aggregated view add quantities as
unbounded integers (see Left out).

Findings, each with a lemma that gives a concrete case or the exact condition:

- A published view can be crossed: when the match takes every ask, the remembered
  best ask stands in, and it may lie at or below the best bid that is left
  (`Consolidate.CrossedIff`, `Consolidate.StaleAskCrosses`). The debug check in
  `validateAggregatedView` would fail there.
- The default 128 bit `Decimal` cannot multiply 20 by 20, although the comment in
  `decimal.hpp` speaks of ample headroom (`Decimal.TwentyTimesTwenty`,
  `Decimal.MultiplyExactIff`).
- A price band is within one unit of the exact price, whatever the price, only when
  the offset has at most 14 decimals of a basis point
  (`PriceBands.WithinOneUnitIff`).
- In a volume band the answer 0 stands for "not reached" exactly when the threshold
  is positive (`VolumeBands.ZeroMeansUnreachedIff`); and a level of notional 2^128
  wraps to nothing (`VolumeBands.HugeLevelCountsAsNothing`).
- With orders of negative quantity a book loses its balance, until the next snapshot,
  exactly when an event takes a level below zero: a new order, or the removal of an
  order by a cancel or a replacement (`OrderBookRuns.AppliedConservesIff`,
  `OrderBookRuns.RunConservesIff`). So a cancel can unbalance a book although no order
  took its level below zero when it was placed (`OrderBookRuns.CancelCanUnbalance`).
- With such orders a cancel can also cross a book, exactly when the order it takes
  out had kept down a level that reaches the other side
  (`OrderBookRuns.AppliedUncrossedIff`, `OrderBookRuns.CancelCanCross`).
- The wire format keeps eight decimals. A side of a book arrives as one exactly when
  no two neighbouring prices agree in eight decimals and no quantity is below one unit
  of the eighth; otherwise prices arrive equal or quantities arrive zero
  (`GrpcTrip.ValidSideArrivesIff`, `GrpcTrip.StrictOrderCanBeLost`). Two uncrossed sides
  arrive touching exactly when their best prices agree in eight decimals
  (`GrpcTrip.UncrossedArrivesIff`).
- The SCQ threshold vouches for emptiness only while the dequeuers are few: with
  `half` indices, at most `half + 1` dequeuers at work are always told the truth
  (`ScqEmpty.EmptyAnswersAreTrue`), and on the ring with one index three of them bring
  about an EMPTY on a ring that holds it (`ScqCrowd.CrowdMakesEmptyFalse`). The source
  states no such bound.
- With three hazard slots per handle, three handles can keep a full retire array
  full (`HazardScan.ScanMakesRoomIff`); the queues here use at most two.

`dafny verify dfyconfig.toml` checks the whole project.

## Model

| member | source | states |
|---|---|---|
| `ScqSteps.StepKeepsInv` | lockfree-waitfree/lfqueue-708c0052872950dcb15b487fa7a5dd77ce2a2746/lfring_cas1.h:164-267 | every atomic access of any thread, in enqueue, dequeue and catch-up, keeps the ring's invariant; head and tail only grow, slot words only get younger (cycle up, then index erased, then unsafe), and other threads' tickets are untouched |
| `ScqRuns.RunKeepsInv` | lockfree-waitfree/lfqueue-708c0052872950dcb15b487fa7a5dd77ce2a2746/lfring_cas1.h:164-267 | the same over every schedule of any number of threads: no recorded value, ticket or slot word is ever lost or goes back |
| `ScqRuns.InstalledIsNeverLost` | lockfree-waitfree/lfqueue-708c0052872950dcb15b487fa7a5dd77ce2a2746/lfring_cas1.h:185-192 | an index installed at ticket p stays in the slot of p until dequeue ticket p takes it, and the dequeuer of p never gives up |
| `ScqRuns.DequeueTakesItsOwnTicket` | lockfree-waitfree/lfqueue-708c0052872950dcb15b487fa7a5dd77ce2a2746/lfring_cas1.h:233-237 | a dequeue returns the index installed under its own ticket, which nobody had taken |
| `ScqRuns.FifoByTicket` | lockfree-waitfree/lfqueue-708c0052872950dcb15b487fa7a5dd77ce2a2746/lfring_cas1.h:211-267 | once the index of a ticket is out, every smaller installed ticket is out or in the hands of the dequeuer that holds it |
| `ScqRuns.RealTimeOrder` | lockfree-waitfree/lfqueue-708c0052872950dcb15b487fa7a5dd77ce2a2746/lfring_cas1.h:164-195 | an enqueue that installed before another takes a ticket has the smaller ticket; likewise a dequeue that has taken |
| `ScqRuns.TailTestEmptiness` | lockfree-waitfree/lfqueue-708c0052872950dcb15b487fa7a5dd77ce2a2746/lfring_cas1.h:253-260 | when the tail test passes, every index installed and not taken belongs to a smaller dequeue ticket that another thread holds |
| `ScqRuns.EmptyAnswerHasWitness` | lockfree-waitfree/lfqueue-708c0052872950dcb15b487fa7a5dd77ce2a2746/lfring_cas1.h:197-209 | every EMPTY by the tail test, in every run and through any number of catch-up rounds, has such a moment within its call |
| `ScqSteps.InitEmptyInv` | lockfree-waitfree/lfqueue-708c0052872950dcb15b487fa7a5dd77ce2a2746/lfring_cas1.h:118-129 | the empty ring satisfies the invariant |
| `ScqLayout.SlotDeterminesWord` | lockfree-waitfree/lfqueue-708c0052872950dcb15b487fa7a5dd77ce2a2746/lfring_cas1.h:185-187 | two words stand for the same slot exactly when they are equal, so a CAS on the word is a CAS on the modelled slot |
| `ScqLayout.TicketOrder` | lockfree-waitfree/lfqueue-708c0052872950dcb15b487fa7a5dd77ce2a2746/lfring_cas1.h:175 | the cycle words of two tickets are equal, or in order, exactly when the tickets' quotients by n are |
| `ScqLayout.CycleTest` | lockfree-waitfree/lfqueue-708c0052872950dcb15b487fa7a5dd77ce2a2746/lfring_cas1.h:179-180 | the signed comparison of an entry's cycle word with a ticket's, in words of any width, compares the slot's cycle with the ticket's quotient by n; likewise for equality |
| `ScqWords.EnqueueTest` | lockfree-waitfree/lfqueue-708c0052872950dcb15b487fa7a5dd77ce2a2746/lfring_cas1.h:179-183 | the enqueuer's test of a word, with its comparison, its or and its exclusive or, is the model's test of the slot |
| `ScqWords.DequeueTest` | lockfree-waitfree/lfqueue-708c0052872950dcb15b487fa7a5dd77ce2a2746/lfring_cas1.h:231-248 | the dequeuer's loop body on a word, in the order of the source, is the model's on the slot, down to the index it returns |
| `ScqWords.CounterTests` | lockfree-waitfree/lfqueue-708c0052872950dcb15b487fa7a5dd77ce2a2746/lfring_cas1.h:82 | the signed comparisons of head and tail compare the counters |
| `ScqWords.CasTest` | lockfree-waitfree/lfqueue-708c0052872950dcb15b487fa7a5dd77ce2a2746/lfring_cas1.h:185-188 | a CAS on the array word succeeds exactly when the model's CAS on the slot does |
| `ScqWords.InstallStores` | lockfree-waitfree/lfqueue-708c0052872950dcb15b487fa7a5dd77ce2a2746/lfring_cas1.h:171-187 | the word an enqueuer stores, tcycle ^ eidx, is the slot the model installs: the ticket's cycle, safe, the index |
| `ScqWords.OverwriteStores` | lockfree-waitfree/lfqueue-708c0052872950dcb15b487fa7a5dd77ce2a2746/lfring_cas1.h:239-251 | the word a dequeuer stores is the slot with which the model overwrites: unsafe, or moved to the dequeuer's cycle with the old safe bit |
| `ScqWords.EraseStores` | lockfree-waitfree/lfqueue-708c0052872950dcb15b487fa7a5dd77ce2a2746/lfring_cas1.h:233-236 | the atomic or with n - 1 erases the index and nothing else |
| `ScqWords.InitialWords` | lockfree-waitfree/lfqueue-708c0052872950dcb15b487fa7a5dd77ce2a2746/lfring_cas1.h:136-157 | all ones is safe, empty and of cycle -1; 2 * n - 1 and n + i are of cycle 0, empty and with index i |
| `ScqWords.EmptyRingStored` | lockfree-waitfree/lfqueue-708c0052872950dcb15b487fa7a5dd77ce2a2746/lfring_cas1.h:123-124 | the array filled with all ones stands for the slots of the empty ring |
| `ScqWords.FullRingStored` | lockfree-waitfree/lfqueue-708c0052872950dcb15b487fa7a5dd77ce2a2746/lfring_cas1.h:136-139 | the words n + idx[i] at the positions of the first half, and all ones at the others, stand for the slots of the full ring |
| `ScqWords.SourceRing` | lockfree-waitfree/lfqueue-708c0052872950dcb15b487fa7a5dd77ce2a2746/lfring_cas1.h:84-100 | for every order of at least LFRING_MIN the source's bitwise map and its cycles make a geometry in which the protocol is safe and every slot is hit |
| `ScqWordRuns.StepSimulates` | lockfree-waitfree/lfqueue-708c0052872950dcb15b487fa7a5dd77ce2a2746/lfring_cas1.h:164-267 | one access of any thread in the ring of words, every test and store being the source's expression, is the same access in the ring of slots, while tickets stay below an eighth of the range of a word |
| `ScqWordRuns.RunSimulates` | lockfree-waitfree/lfqueue-708c0052872950dcb15b487fa7a5dd77ce2a2746/lfring_cas1.h:164-267 | the same over every schedule: the words of array, counters and local variables stand for the ring of slots throughout |
| `ScqWordRuns.SourceWordsAreTheRing` | lockfree-waitfree/lfqueue-708c0052872950dcb15b487fa7a5dd77ce2a2746/lfring_cas1.h:84-267 | from the words of lfring_init_empty or lfring_init_full, with the bitwise map, every schedule with tickets in range leads to words of a ring that meets the invariant; an index a dequeue of words returned was installed under its ticket, and the threshold does not wrap around |
| `ScqThreshold.ThresholdStaysInRange` | lockfree-waitfree/lfqueue-708c0052872950dcb15b487fa7a5dd77ce2a2746/lfring_cas1.h:253-264 | in every run the threshold is lowered at most once for each dequeue ticket, so it stays between its reset value and minus one less the tickets issued |
| `ScqCalls.AnswersAreExplained` | lockfree-waitfree/lfqueue-708c0052872950dcb15b487fa7a5dd77ce2a2746/lfring_cas1.h:164-267 | in every run of a new ring: an enqueue that returned has, since its start, installed its index exactly once, at the ticket it returns, and taken nothing; a dequeue has installed nothing and taken exactly the index it returns, or nothing when it answers EMPTY, which only a dequeue that asked for the test does, after a moment of its call at which no index was left for it (tail test) or the threshold was below zero |
| `ScqCalls.WordAnswersAreExplained` | lockfree-waitfree/lfqueue-708c0052872950dcb15b487fa7a5dd77ce2a2746/lfring_cas1.h:164-267 | the same for the answers of the ring of words |
| `ScqRoomSteps.StepKeepsRoom` | lockfree-waitfree/lfqueue-708c0052872950dcb15b487fa7a5dd77ce2a2746/lfring_cas1.h:173-193 | while there are no more indices than half the slots, every step keeps the tail less than a lap ahead of the head, together with the record of the tickets that enqueuers wasted and of the older indices that blocked them |
| `ScqRoom.TailWithinLap` | lockfree-waitfree/lfqueue-708c0052872950dcb15b487fa7a5dd77ce2a2746/lfring_cas1.h:173-193 | within a lap from the head fewer tickets are wasted than half the slots, so an enqueuer about to take a ticket finds the tail at least two tickets short of a lap |
| `ScqThreshold.StepKeepsReach` | lockfree-waitfree/lfqueue-708c0052872950dcb15b487fa7a5dd77ce2a2746/lfring_cas1.h:189-264 | the threshold always pays for every dequeuer at work and for each ticket from the head to any index whose enqueue is finished; resetting it after an install, and half + n - 1 as the reset value, is what keeps this |
| `ScqThreshold.LowMeansNothing` | lockfree-waitfree/lfqueue-708c0052872950dcb15b487fa7a5dd77ce2a2746/lfring_cas1.h:219-220 | so with the threshold below zero, or used up by a dequeuer at work, every finished index belongs to a ticket that a dequeuer holds |
| `ScqEmpty.EmptyAnswersAreTrue` | lockfree-waitfree/lfqueue-708c0052872950dcb15b487fa7a5dd77ce2a2746/lfring_cas1.h:211-267 | in every run with no more indices than half the slots, at most one dequeuer more at work, and enqueuers that look at the threshold, every EMPTY, by the threshold or by the tail test, follows a moment of its own call at which every index whose enqueue was finished belonged to a ticket that another dequeuer held |
| `ScqEmpty.SourceEmptyAnswers` | lockfree-waitfree/lfqueue-708c0052872950dcb15b487fa7a5dd77ce2a2746/lfring_cas1.h:84-267 | the same for the words of the source, from both initialisers and with tickets in range |
| `ScqCrowd.CrowdMakesEmptyFalse` | lockfree-waitfree/lfqueue-708c0052872950dcb15b487fa7a5dd77ce2a2746/lfring_cas1.h:211-267 | a concrete run of three dequeuers on the ring with one index, after which a dequeue that runs alone answers EMPTY although the index is in the ring, its enqueue has returned and no dequeuer has come to its ticket; so the bound on dequeuers cannot be left out |
| `RingMap.RawMapIsMap` | lockfree-waitfree/lfqueue-708c0052872950dcb15b487fa7a5dd77ce2a2746/lfring_cas1.h:85-89 | shift, mask and or of the map are the sum of Map, for words of any width and any LFRING_MIN |
| `RingMap.MapIsBijective` | lockfree-waitfree/lfqueue-708c0052872950dcb15b487fa7a5dd77ce2a2746/lfring_cas1.h:84-100 | the map sends every position into the ring, and two positions to one slot exactly when they are congruent modulo its size |
| `RingMap.UnmapInverts` | lockfree-waitfree/lfqueue-708c0052872950dcb15b487fa7a5dd77ce2a2746/lfring_cas1.h:85-89 | on the first lap the map has an inverse, on both sides |
| `RingMap.SlotAndLap` | lockfree-waitfree/lfqueue-708c0052872950dcb15b487fa7a5dd77ce2a2746/lfring_cas1.h:175-176 | slot and lap determine the position |
| `ScqInit.SourceGeometryIsValid` | lockfree-waitfree/lfqueue-708c0052872950dcb15b487fa7a5dd77ce2a2746/lfring_cas1.h:97-102 | the source's map and cycles have all that the protocol needs |
| `ScqInit.FillFull` | lockfree-waitfree/lfqueue-708c0052872950dcb15b487fa7a5dd77ce2a2746/lfring_cas1.h:131-144 | the two loops of lfring_init_full put index map(i) in the slot of position i for the first half, and leave the rest all ones |
| `ScqInit.FillEmpty` | lockfree-waitfree/lfqueue-708c0052872950dcb15b487fa7a5dd77ce2a2746/lfring_cas1.h:118-124 | the loop of lfring_init_empty leaves every word all ones |
| `ScqInit.InitFullInv` | lockfree-waitfree/lfqueue-708c0052872950dcb15b487fa7a5dd77ce2a2746/lfring_cas1.h:131-144 | the full ring satisfies the invariant, with one ticket per index |
| `ScqInit.FullIndicesArePermutation` | lockfree-waitfree/lfqueue-708c0052872950dcb15b487fa7a5dd77ce2a2746/lfring_cas1.h:136-137 | the indices of a full ring are each index below half exactly once |
| `ScqdSteps.QStepKeeps` | lockfree-waitfree/lfqueue-708c0052872950dcb15b487fa7a5dd77ce2a2746/benchmark/scqd.c:17-35 | every step of enqueue and dequeue keeps the tokens where the record says and the data cells as published |
| `ScqdRuns.QRunKeeps` | lockfree-waitfree/lfqueue-708c0052872950dcb15b487fa7a5dd77ce2a2746/benchmark/scqd.c:17-35 | the same over every schedule |
| `ScqdRuns.EachIndexIsInOnePlace` | lockfree-waitfree/lfqueue-708c0052872950dcb15b487fa7a5dd77ce2a2746/benchmark/scqd.c:17-35 | each index is in exactly one place: a ticket of the free ring, a ticket of the allocated ring, or one thread's hands |
| `ScqdRuns.IndexIsExclusive` | lockfree-waitfree/lfqueue-708c0052872950dcb15b487fa7a5dd77ce2a2746/benchmark/scqd.c:22-32 | a thread about to write or read a data cell is alone with it, and the index is in range |
| `ScqdRuns.DequeueReturnsPublishedWord` | lockfree-waitfree/lfqueue-708c0052872950dcb15b487fa7a5dd77ce2a2746/benchmark/scqd.c:26-35 | a dequeue returns the word published at its own ticket |
| `ScqdRuns.OnlyEnqueuePublishes` | lockfree-waitfree/lfqueue-708c0052872950dcb15b487fa7a5dd77ce2a2746/benchmark/scqd.c:17-24 | only an enqueue publishes, its own argument, at a fresh ticket |
| `ScqdRuns.EnqueueAlwaysGetsAnIndex` | lockfree-waitfree/lfqueue-708c0052872950dcb15b487fa7a5dd77ce2a2746/benchmark/scqd.c:20-21 | the early return of enqueue is never taken |
| `ScqdRuns.EarlierWordsAreOut` | lockfree-waitfree/lfqueue-708c0052872950dcb15b487fa7a5dd77ce2a2746/benchmark/scqd.c:26-35 | when a dequeue has returned, every word published at a smaller ticket is taken or in the hands of its dequeuer |
| `ScqdRuns.SourceQueueIsSafe` | lockfree-waitfree/lfqueue-708c0052872950dcb15b487fa7a5dd77ce2a2746/benchmark/scqd.c:6-35 | from queue_init with 2^order indices, every schedule keeps tokens and words |
| `ScqdCalls.AnswersAreExplained` | lockfree-waitfree/lfqueue-708c0052872950dcb15b487fa7a5dd77ce2a2746/benchmark/scqd.c:17-35 | in every run of a new queue: an enqueue that returned has published its argument, at one ticket of its own; a dequeue has published nothing and taken just the ticket of the word it returns, or none when it answers EMPTY, after a moment of its call at which no word was left for it or the threshold was below zero |
| `ScqdEmpty.SourceEmptyIsTrue` | lockfree-waitfree/lfqueue-708c0052872950dcb15b487fa7a5dd77ce2a2746/benchmark/scqd.c:6-35 | from queue_init, with any number of enqueues and dequeues by at most one thread more than there are indices, a dequeue that answers EMPTY follows a moment of its own call at which every word published and not taken belonged to another dequeue or to an enqueue still at work |
| `ScqdEmpty.AllocHasRoom` | lockfree-waitfree/lfqueue-708c0052872950dcb15b487fa7a5dd77ce2a2746/benchmark/scqd.c:17-35 | the ring of allocated indices never holds, with what is about to be put in, more indices than half its slots |
| `NcqSteps.StepKeepsInv` | lockfree-waitfree/lfqueue-708c0052872950dcb15b487fa7a5dd77ce2a2746/lfring_naive.h:152-223 | while clients keep room, every step keeps the ring's invariant, with the tail lagging the last install by at most one |
| `NcqRuns.RunKeepsInv` | lockfree-waitfree/lfqueue-708c0052872950dcb15b487fa7a5dd77ce2a2746/lfring_naive.h:152-223 | the same over every schedule |
| `NcqRuns.StepRefinesFifo` | lockfree-waitfree/lfqueue-708c0052872950dcb15b487fa7a5dd77ce2a2746/lfring_naive.h:185-220 | the entry CAS appends, the head CAS removes and returns the front, EMPTY is answered only by a queue that is empty at that load, and no other step changes the content; that each call takes exactly its own such step is NcqCalls.AnswersAreExplained |
| `NcqRuns.RunIsFifo` | lockfree-waitfree/lfqueue-708c0052872950dcb15b487fa7a5dd77ce2a2746/lfring_naive.h:152-223 | over any run, what was there followed by all that was appended is all that was returned followed by what is left |
| `NcqCalls.AnswersAreExplained` | lockfree-waitfree/lfqueue-708c0052872950dcb15b487fa7a5dd77ce2a2746/lfring_naive.h:152-223 | in every run with room: an enqueue that returned has appended its own index exactly once since its start and removed nothing; a dequeue has appended nothing and removed exactly the index it returns, or nothing when it answers EMPTY, after a moment of its call at which the ring was empty |
| `NcqRuns.RoomOnlyShrinksAtStart` | lockfree-waitfree/lfqueue-708c0052872950dcb15b487fa7a5dd77ce2a2746/lfring_naive.h:152-154 | the clients' promise, elements plus pending enqueues at most n, can only be broken by starting an enqueue |
| `NcqInit.SourceGeometryIsValid` | lockfree-waitfree/lfqueue-708c0052872950dcb15b487fa7a5dd77ce2a2746/lfring_naive.h:82-86 | the map is a bijection on any n consecutive positions |
| `NcqInit.EmptyRingInv` | lockfree-waitfree/lfqueue-708c0052872950dcb15b487fa7a5dd77ce2a2746/lfring_naive.h:107-118 | the empty ring satisfies the invariant with no content |
| `NcqInit.FullRingInv` | lockfree-waitfree/lfqueue-708c0052872950dcb15b487fa7a5dd77ce2a2746/lfring_naive.h:120-131 | the full ring, filled without the map, holds every index below n exactly once |
| `NcqInit.FillRange` | lockfree-waitfree/lfqueue-708c0052872950dcb15b487fa7a5dd77ce2a2746/lfring_naive.h:133-151 | the three loops of lfring_init_fill fill the slots of positions before, in and behind the range |
| `NcqInit.FilledRingInv` | lockfree-waitfree/lfqueue-708c0052872950dcb15b487fa7a5dd77ce2a2746/lfring_naive.h:133-150 | a ring so filled satisfies the invariant and holds the range in order |
| `NcqInit.SourceRingIsFifo` | lockfree-waitfree/lfqueue-708c0052872950dcb15b487fa7a5dd77ce2a2746/lfring_naive.h:82-223 | the source's ring refines a bounded first-in first-out queue in every run in which clients keep room |
| `NcqWords.EnqueueTest` | lockfree-waitfree/lfqueue-708c0052872950dcb15b487fa7a5dd77ce2a2746/lfring_naive.h:163-182 | the tests of an entry's cycle bits, with the wrap-around of ecycle + n, are the model's |
| `NcqWords.DequeueTest` | lockfree-waitfree/lfqueue-708c0052872950dcb15b487fa7a5dd77ce2a2746/lfring_naive.h:208-222 | the dequeuer's tests on the word are the model's, and so is the index it returns |
| `NcqWords.EnqueueStore` | lockfree-waitfree/lfqueue-708c0052872950dcb15b487fa7a5dd77ce2a2746/lfring_naive.h:185-187 | the word stored has the position's cycle and the index, whether __LFMERGE is an or or a sum |
| `NcqWords.InitialWords` | lockfree-waitfree/lfqueue-708c0052872950dcb15b487fa7a5dd77ce2a2746/lfring_naive.h:107-147 | the words i and -n are the entries of index i in cycle 0 and of cycle -1 |
| `NcqWords.SourceRing` | lockfree-waitfree/lfqueue-708c0052872950dcb15b487fa7a5dd77ce2a2746/lfring_naive.h:82-86 | the source's bitwise map and cycles make a geometry that is valid for the ring and hits every slot on its first lap |
| `NcqWordRuns.StepSimulates` | lockfree-waitfree/lfqueue-708c0052872950dcb15b487fa7a5dd77ce2a2746/lfring_naive.h:152-223 | one access of any thread in the ring of words is the same access in the ring of entries, and stores or returns the same index, while positions stay in the lower half of the range of a word |
| `NcqWordRuns.RunSimulates` | lockfree-waitfree/lfqueue-708c0052872950dcb15b487fa7a5dd77ce2a2746/lfring_naive.h:152-223 | the same over every schedule, with what all enqueues store and all dequeues return |
| `NcqWordRuns.NewWordsStand` | lockfree-waitfree/lfqueue-708c0052872950dcb15b487fa7a5dd77ce2a2746/lfring_naive.h:107-150 | the words that each of the three initialisers leaves stand for an initial ring |
| `NcqWordRuns.SourceWordsAreFifo` | lockfree-waitfree/lfqueue-708c0052872950dcb15b487fa7a5dd77ce2a2746/lfring_naive.h:82-223 | on words, from each initialiser and over every run with room and with positions in range: what was there and all that enqueues stored is all that dequeues returned and what is left |
| `NcqCalls.WordAnswersAreExplained` | lockfree-waitfree/lfqueue-708c0052872950dcb15b487fa7a5dd77ce2a2746/lfring_naive.h:152-223 | the same for the answers of the ring of words: what a thread of words returns is explained by the call it was started with |
| `MsSteps.StepKeepsInv` | lockfree-waitfree/lfqueue-708c0052872950dcb15b487fa7a5dd77ce2a2746/benchmark/msqueue.c:21-82 | every access of enqueue, dequeue, retire and scan keeps the list, the protection of hazard pointers and the ownership of nodes |
| `MsRuns.NoUseAfterFree` | lockfree-waitfree/lfqueue-708c0052872950dcb15b487fa7a5dd77ce2a2746/benchmark/hzdptr.h:26-83 | with all handles registered, in every run each access goes through an address the thread follows (its own new node, or one it has validated), and no step of any thread frees a node that a thread follows; so an access never meets a node that was freed and allocated again |
| `MsRuns.FollowedStays` | lockfree-waitfree/lfqueue-708c0052872950dcb15b487fa7a5dd77ce2a2746/benchmark/hzdptr.h:26-83 | from its validation until the thread lets go of it, over any stretch of any run, a node stays allocated and keeps its word, so it is the node that was validated |
| `MsRuns.ValidatedWhileLinked` | lockfree-waitfree/lfqueue-708c0052872950dcb15b487fa7a5dd77ce2a2746/benchmark/hzdptr.h:44-60 | a thread begins to follow a node only while the node is linked in the queue, or its own |
| `MsRuns.TailIsLinked` | lockfree-waitfree/lfqueue-708c0052872950dcb15b487fa7a5dd77ce2a2746/benchmark/msqueue.c:39-47 | the tail is one of the linked nodes and lags the last by at most one; the head is the first |
| `MsRuns.StepRefinesFifo` | lockfree-waitfree/lfqueue-708c0052872950dcb15b487fa7a5dd77ce2a2746/benchmark/msqueue.c:44-77 | the next CAS appends the word, the head CAS removes the front, and no other step changes the content; that each call takes exactly its own such step is MsCalls.AnswersAreExplained |
| `MsRuns.RunIsFifo` | lockfree-waitfree/lfqueue-708c0052872950dcb15b487fa7a5dd77ce2a2746/benchmark/msqueue.c:21-82 | over any run of unboundedly many threads no word is lost, doubled or overtaken |
| `MsRuns.DequeueReturnsRemovedValue` | lockfree-waitfree/lfqueue-708c0052872950dcb15b487fa7a5dd77ce2a2746/benchmark/msqueue.c:76-81 | a dequeue returns the value its head CAS removed, through retire and scan |
| `MsRuns.EmptyAnswerHasWitness` | lockfree-waitfree/lfqueue-708c0052872950dcb15b487fa7a5dd77ce2a2746/benchmark/msqueue.c:61-69 | every empty answer has a moment within the call at which the queue was empty |
| `MsCalls.AnswersAreExplained` | lockfree-waitfree/lfqueue-708c0052872950dcb15b487fa7a5dd77ce2a2746/benchmark/msqueue.c:21-82 | in every run from queue_init: an enqueue that returned has appended its own argument exactly once since its start and removed nothing; a dequeue has appended nothing and removed exactly the word it returns, or nothing when it answers empty, after a moment of its call at which the queue was empty |
| `MsCapacity.RetireListNeverOverflows` | lockfree-waitfree/lfqueue-708c0052872950dcb15b487fa7a5dd77ce2a2746/benchmark/hzdptr.h:74-83 | in every run from queue_init, with two slots per handle and at most nprocs handles, the retire list of 2 * nprocs entries has room for the next node |
| `HazardScan.Insert` | lockfree-waitfree/lfqueue-708c0052872950dcb15b487fa7a5dd77ce2a2746/benchmark/hzdptr.c:12-32 | an insert adds the pointer and keeps every pointer findable by probing, and fails only when the table is full |
| `HazardScan.Lookup` | lockfree-waitfree/lfqueue-708c0052872950dcb15b487fa7a5dd77ce2a2746/benchmark/hzdptr.c:34-56 | a lookup is true exactly for the pointers inserted, for any hash |
| `HazardScan.Collect` | lockfree-waitfree/lfqueue-708c0052872950dcb15b487fa7a5dd77ce2a2746/benchmark/hzdptr.c:70-86 | the table of 4 * nprocs * nptrs places takes all hazard pointers of the other handles; no insert fails |
| `HazardScan.CompactList` | lockfree-waitfree/lfqueue-708c0052872950dcb15b487fa7a5dd77ce2a2746/benchmark/hzdptr.c:88-100 | the in-place compaction keeps exactly the retired pointers in the table, in order, and frees the rest |
| `HazardScan.SplitKeepsAll` | lockfree-waitfree/lfqueue-708c0052872950dcb15b487fa7a5dd77ce2a2746/benchmark/hzdptr.c:92-100 | kept and freed pointers together are the retired ones, none lost or doubled |
| `HazardScan.KeptBound` | lockfree-waitfree/lfqueue-708c0052872950dcb15b487fa7a5dd77ce2a2746/benchmark/hzdptr.c:77-100 | at most (nprocs - 1) * nptrs distinct pointers are kept |
| `HazardScan.Handle.Retire` | lockfree-waitfree/lfqueue-708c0052872950dcb15b487fa7a5dd77ce2a2746/benchmark/hzdptr.h:74-83 | retire appends, and at 2 * nprocs entries keeps and frees exactly what the scan says; the list has room again when (nprocs - 1) * nptrs < 2 * nprocs |
| `HazardScan.ScanMakesRoomIff` | lockfree-waitfree/lfqueue-708c0052872950dcb15b487fa7a5dd77ce2a2746/benchmark/hzdptr.h:14 | a scan makes room for every retire list and every content of the slots exactly when (nprocs - 1) * nptrs < 2 * nprocs, so always for nptrs at most 2 |
| `CcSynchSteps.StepKeepsInv` | lockfree-waitfree/lfqueue-708c0052872950dcb15b487fa7a5dd77ce2a2746/benchmark/ccsynch.h:26-68 | every access of ccsynch_apply keeps the waiting line, the statuses and the ownership of recycled nodes |
| `CcSynchRuns.AppliedInSwapOrder` | lockfree-waitfree/lfqueue-708c0052872950dcb15b487fa7a5dd77ce2a2746/benchmark/ccsynch.h:34-64 | in every run the applied requests are a prefix of the order of tail swaps, and at most one thread combines |
| `CcSynchRuns.StepAppliesNext` | lockfree-waitfree/lfqueue-708c0052872950dcb15b487fa7a5dd77ce2a2746/benchmark/ccsynch.h:50-60 | a step applies the next request in line or none |
| `CcSynchRuns.ReturnedMeansApplied` | lockfree-waitfree/lfqueue-708c0052872950dcb15b487fa7a5dd77ce2a2746/benchmark/ccsynch.h:26-68 | a caller that has returned has had its own request applied, at the place of its own swap |
| `CcSynchRuns.StatusTells` | lockfree-waitfree/lfqueue-708c0052872950dcb15b487fa7a5dd77ce2a2746/benchmark/ccsynch.h:37-49 | DONE is set only on an applied request, and READY only for the next in line while nobody combines |
| `CcSynchRuns.BatonIsNotLost` | lockfree-waitfree/lfqueue-708c0052872950dcb15b487fa7a5dd77ce2a2746/benchmark/ccsynch.h:58-66 | while nobody combines and a request is left, the next caller in line is waiting at a READY node |
| `CcSynch.InitialInv` | lockfree-waitfree/lfqueue-708c0052872950dcb15b487fa7a5dd77ce2a2746/benchmark/ccsynch.h:70-82 | the initial lock and handles satisfy the invariant |
| `CcSynchRuns.SwapTakesNewNumber` | lockfree-waitfree/lfqueue-708c0052872950dcb15b487fa7a5dd77ce2a2746/benchmark/ccsynch.h:34-35 | a call is numbered when it swaps the tail, with a number no other call has, and is not applied before |
| `CcSynchCalls.ReturnIsExplained` | lockfree-waitfree/lfqueue-708c0052872950dcb15b487fa7a5dd77ce2a2746/benchmark/ccsynch.h:26-68 | a caller that has returned from a request d swapped the tail exactly once since it asked, at a number that was free then, and d was applied at that number |
| `CcQueueSteps.StepKeepsInv` | lockfree-waitfree/lfqueue-708c0052872950dcb15b487fa7a5dd77ce2a2746/benchmark/ccqueue.c:6-33 | every read and write of the two servers and the clients keeps the list and the ownership of nodes |
| `CcQueueRuns.NoUseAfterFree` | lockfree-waitfree/lfqueue-708c0052872950dcb15b487fa7a5dd77ce2a2746/benchmark/ccqueue.c:56-85 | in every run no access goes through an unallocated node, and a node that a server or client follows is freed only by the one client that holds it, when no server and no other client follows it, although nodes are reused through handle->next and malloc |
| `CcQueueRuns.FollowedIsNotFreed` | lockfree-waitfree/lfqueue-708c0052872950dcb15b487fa7a5dd77ce2a2746/benchmark/ccqueue.c:6-85 | the same for each single action in any state that meets the invariant |
| `CcQueueRuns.StepRefinesFifo` | lockfree-waitfree/lfqueue-708c0052872950dcb15b487fa7a5dd77ce2a2746/benchmark/ccqueue.c:6-33 | the store to next appends, the store to head removes the front, a NULL next is read only of an empty queue, and nothing else changes the content; that each call has exactly its own such step is CcCalls.AnswersAreExplained |
| `CcQueueRuns.RunIsFifo` | lockfree-waitfree/lfqueue-708c0052872950dcb15b487fa7a5dd77ce2a2746/benchmark/ccqueue.c:6-85 | over every interleaving no word is lost, doubled or overtaken |
| `CcQueueRuns.DequeueReturnsRemovedValue` | lockfree-waitfree/lfqueue-708c0052872950dcb15b487fa7a5dd77ce2a2746/benchmark/ccqueue.c:25-32 | the caller returns the value its server removed, read back from the old dummy |
| `CcCalls.AnswersAreExplained` | lockfree-waitfree/lfqueue-708c0052872950dcb15b487fa7a5dd77ce2a2746/benchmark/ccqueue.c:6-85 | over every interleaving from a new queue: an enqueue that returned has had its own argument appended exactly once since its start; a dequeue has had exactly the word it returns removed, or nothing when it answers empty, after a moment of its call at which the queue was empty |
| `CcCombinedSteps.StepKeepsInv` | lockfree-waitfree/lfqueue-708c0052872950dcb15b487fa7a5dd77ce2a2746/benchmark/ccqueue.c:6-85 | every access of every thread through both locks keeps the list, the locks, and what ties them together: what a line of calls asks for is what its clients wait for, and apply is executed by the holder of the baton |
| `CcCombinedSteps.BeginIsServe` | lockfree-waitfree/lfqueue-708c0052872950dcb15b487fa7a5dd77ce2a2746/benchmark/ccsynch.h:49-59 | the argument that a combiner passes to apply, its own or the one read from a node, is the request of the next call in line |
| `CcCombinedRuns.ServerHoldsBaton` | lockfree-waitfree/lfqueue-708c0052872950dcb15b487fa7a5dd77ce2a2746/benchmark/ccsynch.h:49-66 | in every run serialEnqueue is executed by at most one thread, the holder of the baton, for the next call in line; likewise serialDequeue |
| `CcCombinedRuns.NoUseAfterFree` | lockfree-waitfree/lfqueue-708c0052872950dcb15b487fa7a5dd77ce2a2746/benchmark/ccqueue.c:6-85 | through both locks, no access of any run goes through an unallocated node, and a node that a combiner or client follows is freed only by the one client that holds it, when nobody else follows it |
| `CcCombinedRuns.StepRefinesFifo` | lockfree-waitfree/lfqueue-708c0052872950dcb15b487fa7a5dd77ce2a2746/benchmark/ccqueue.c:6-33 | with combiners as servers, each access appends the word of an enqueue, removes the front, or leaves the content alone |
| `CcCombinedRuns.RunIsFifo` | lockfree-waitfree/lfqueue-708c0052872950dcb15b487fa7a5dd77ce2a2746/benchmark/ccqueue.c:6-85 | over any run of the whole queue no word is lost, doubled or overtaken |
| `CcCalls.WholeAnswersAreExplained` | lockfree-waitfree/lfqueue-708c0052872950dcb15b487fa7a5dd77ce2a2746/benchmark/ccqueue.c:6-85 | the same for the whole queue, through both locks, whoever combined |
| `CcCombinedRuns.ReturnedIsAnswered` | lockfree-waitfree/lfqueue-708c0052872950dcb15b487fa7a5dd77ce2a2746/benchmark/ccqueue.c:66-72 | a thread that comes out of ccsynch_apply has had its node linked, or its answer stored, whoever combined |
| `CcCombinedRuns.AppendsInSwapOrder` | lockfree-waitfree/lfqueue-708c0052872950dcb15b487fa7a5dd77ce2a2746/benchmark/ccqueue.c:6-14 | words are appended in the order in which their calls swapped the tail of the enqueue lock |
| `Uncross.VirtualUncross` | src/aggregator/aggregator.cpp:24-67 | the match terminates and takes, from the best prices of both sides, the largest volume that any single price can trade |
| `Uncross.UncrossedIsOptimal` | src/aggregator/aggregator.cpp:37-52 | a volume that leaves no crossing, and that some price offers on both sides, is the maximum over all prices of the smaller of bid and ask volume |
| `Uncross.ResidueIsUncrossed` | src/aggregator/aggregator.cpp:53-66 | what the optimal match leaves is sorted, positive and uncrossed, and matching it again changes nothing |
| `Uncross.SameVolumeRemoved` | src/aggregator/aggregator.cpp:43-45 | both sides lose exactly the matched volume |
| `Uncross.LeftAt` | src/aggregator/aggregator.cpp:53-62 | at each price or better, what is left is what was offered there less the matched volume, or nothing |
| `Uncross.ConsumeKeepsSide` | src/aggregator/aggregator.cpp:53-62 | what is left is the side without its best units: sorted, positive, and no better than before |
| `Consolidate.Consolidator.Consolidate` | src/aggregator/aggregator.cpp:184-258 | the view is the price-by-price sums of the books, optimally uncrossed, with the last best ask remembered or standing in; what it shows of each side, with and without live asks, is BidsAreShown and AsksAreShown |
| `Consolidate.Aggregate` | src/aggregator/aggregator.cpp:199-234 | the levels are sorted and at each price exactly the positive sum over the books |
| `Consolidate.TotalOfPermutation` | src/aggregator/aggregator.cpp:199-206 | the sum at a price does not depend on the order of visiting the books |
| `Consolidate.OrderDoesNotMatter` | src/aggregator/aggregator.cpp:184-258 | the whole view does not depend on that order |
| `Consolidate.LiveViewIsProper` | src/aggregator/aggregator.cpp:238-249 | with asks left, the view is sorted, positive, uncrossed, headed by its best quotes, and shows the summed volume less what matched |
| `Consolidate.BidsAreShown` | src/aggregator/aggregator.cpp:236-244 | whether asks are left or not, every view shows bids that are sorted and positive and at each price or better are the summed volume less what matched, headed by the first of them, or by zeros exactly when there is none, and it counts the books |
| `Consolidate.AsksAreShown` | src/aggregator/aggregator.cpp:246-258 | the asks likewise; when the match takes them all, exactly the remembered best ask is shown, as level and as quote, or nothing before the first one |
| `Consolidate.FallbackIff` | src/aggregator/aggregator.cpp:250-258 | the remembered ask, or nothing, is shown exactly when the match takes the whole ask volume |
| `Consolidate.CrossedIff` | src/aggregator/aggregator.cpp:250-256 | a view is crossed exactly when the stand-in is used and the best bid left reaches it |
| `Consolidate.StaleAskCrosses` | src/aggregator/aggregator.cpp:250-256 | two concrete views after which a crossed one is published |
| `OrderBook.LimitOrderBook.Apply` | src/lob/order_book.cpp:96-203 | apply computes the modelled event on levels, orders, sequence and name, and reports an exchange mismatch without changing anything; what each event does, in terms of its own fields, is in OrderBookEvents |
| `OrderBook.LimitOrderBook.ApplyDelta` | src/lob/order_book.cpp:18-52 | a level changes by the delta, and goes when nothing is left |
| `OrderBook.BestPrice` | src/lob/order_book.cpp:205-219 | the best price of a side is one of its prices and at least as good as all |
| `OrderBookEvents.HeaderOf` | src/lob/order_book.cpp:97-125 | the name is taken from the first event, the sequence number is exactly that of the last sequenced event that was taken, and what is not taken changes neither levels nor orders |
| `OrderBookEvents.SnapshotLoads` | src/lob/order_book.cpp:128-145 | after an accepted snapshot, at every price the bids show the last positive quantity among the event's bids at that price and the asks that among its asks, there is no level where there is none, and all orders are forgotten |
| `OrderBookEvents.LoadsUncrossedIff` | src/lob/order_book.cpp:134-143 | a snapshot loads uncrossed exactly when no positive bid entry of the event reaches a positive ask entry |
| `OrderBookEvents.RejectedIff` | src/lob/order_book.cpp:159-181 | an order is rejected exactly when its price reaches some level of the other side |
| `OrderBookEvents.NewOrderPlaces` | src/lob/order_book.cpp:146-184 | a fresh order that is not rejected is remembered as it came and adds its quantity at its side and price and nowhere else; a rejected one changes nothing |
| `OrderBookEvents.CancelRemoves` | src/lob/order_book.cpp:186-199 | a cancel forgets the order and takes the remembered quantity from the remembered side and price and nowhere else |
| `OrderBookEvents.NothingToChange` | src/lob/order_book.cpp:149-195 | an order id of 0, or a cancel of an unknown order, changes neither levels nor orders |
| `OrderBookEvents.ReplacementIsCancelThenNew` | src/lob/order_book.cpp:153-158 | a new order whose id is in use acts as a cancel followed by a new order |
| `OrderBookRuns.RunConserves` | src/lob/order_book.cpp:127-201 | over every run that places no negative order each level is the last snapshot's quantity plus the live orders there, and is absent exactly when that is zero |
| `OrderBookRuns.NewOrderConservesIff` | src/lob/order_book.cpp:159-184 | placing an accepted order of any sign leaves the book balanced exactly when it was and the order does not take its level below zero |
| `OrderBookRuns.WithoutOrderConservesIff` | src/lob/order_book.cpp:186-199 | taking an order of any sign out leaves the book balanced exactly when it was and the level has at least the order's quantity |
| `OrderBookRuns.AppliedConservesIff` | src/lob/order_book.cpp:96-203 | after any event, snapshot, cancel, new order or replacement, the book is balanced exactly when it restarts from a snapshot, or was balanced and the event takes no level below zero |
| `OrderBookRuns.RunConservesIff` | src/lob/order_book.cpp:96-203 | over every run, with orders of any sign, the levels are the last snapshot plus the live orders exactly when no event since that snapshot took a level below zero |
| `OrderBookRuns.CancelCanUnbalance` | src/lob/order_book.cpp:186-199 | a concrete book that no placed order took below zero and that a cancel unbalances |
| `OrderBookRuns.NegativeOrderBreaksConservation` | src/lob/order_book.cpp:182-183 | a concrete order that unbalances a book |
| `OrderBookRuns.RunNeverCrosses` | src/lob/order_book.cpp:159-181 | a book fed uncrossed snapshots, and no negative order, is never crossed |
| `OrderBookRuns.WithoutOrderUncrossedIff` | src/lob/order_book.cpp:186-199 | taking an order out of an uncrossed book crosses it exactly when that leaves a level which reaches the other side |
| `OrderBookRuns.WithOrderUncrossedIff` | src/lob/order_book.cpp:159-184 | placing an order, accepted or rejected, neither crosses nor uncrosses a book |
| `OrderBookRuns.AppliedUncrossedIff` | src/lob/order_book.cpp:96-203 | any event, with orders of any sign, leaves an uncrossed book uncrossed exactly when its snapshot is uncrossed or what it takes out uncovers no such level |
| `OrderBookRuns.NeverCrossedIff` | src/lob/order_book.cpp:96-203 | over every run, with orders of any sign, the book is uncrossed after each event exactly when every event is of that kind |
| `OrderBookRuns.CancelCanCross` | src/lob/order_book.cpp:186-199 | a concrete book, balanced throughout, that a cancel crosses |
| `OrderBookRuns.NewBookStaysSound` | src/lob/order_book.cpp:96-203 | from a new book on, over every run without negative orders and with uncrossed snapshots, the levels are the last snapshot plus the live orders and no bid reaches an ask |
| `OrderBookRuns.BestPricesTellCrossing` | src/lob/order_book.cpp:84-92 | comparing the two best prices decides whether a book is crossed |
| `OrderBookRuns.NewThenCancelRestoresIff` | src/lob/order_book.cpp:146-200 | placing and cancelling a fresh order restores the orders always, and the levels exactly when the order does not take its level below zero |
| `OrderBookRuns.NoChange` | src/lob/order_book.cpp:97-122 | stale and mismatched events change neither levels nor orders |
| `OrderBookRuns.RejectedReplacementRemoves` | src/lob/order_book.cpp:153-181 | a rejected replacement still removes the order it replaces, and the balance holds exactly as after its cancel, for orders of any sign |
| `OrderBookRuns.SequenceGrows` | src/lob/order_book.cpp:120-125 | the sequence never goes back, and a sequenced event repeated changes no level |
| `Decimal.MultiplyExactIff` | src/common/include/hermeneutic/common/decimal.hpp:205-212 | for all operands, multiplication rounds the exact product toward zero exactly while neither operand is -2^127 and the double-scaled product (128 bit) or the result (256 bit) stays below 2^127 |
| `Decimal.DivideExactIff` | src/common/include/hermeneutic/common/decimal.hpp:214-224 | the same for division by anything but zero |
| `Decimal.ProductRounding` | src/common/include/hermeneutic/common/decimal.hpp:205-212 | the rounded product is less than one unit below the exact magnitude, with the right sign |
| `Decimal.QuotientRounding` | src/common/include/hermeneutic/common/decimal.hpp:214-224 | the rounded quotient is less than one unit below the exact magnitude, with the right sign |
| `Decimal.WideIntermediatesFit` | src/common/include/hermeneutic/common/decimal.hpp:263-276 | no 256 bit intermediate wraps around |
| `Decimal.TwentyTimesTwenty` | src/common/include/hermeneutic/common/decimal.hpp:254-261 | the default backend overflows on 20 * 20 |
| `Decimal.IntegerFactorDividesBack` | src/common/include/hermeneutic/common/decimal.hpp:205-224 | multiplying by an integer is exact, and dividing by it again gives back the factor |
| `DecimalText.FromString` | src/common/include/hermeneutic/common/decimal.hpp:51-100 | the loops of the parser compute Parse, with empty, invalid and too large input told apart, and never leave 128 bits |
| `DecimalText.ToString` | src/common/include/hermeneutic/common/decimal.hpp:107-140 | the printer writes sign, integral digits and as many decimals as asked for |
| `DecimalText.PrintHasLayout` | src/common/include/hermeneutic/common/decimal.hpp:107-140 | every printed text is a minus sign just for a negative value, the integral part without leading zeros and, if decimals are asked for, a point and exactly that many (at most 18) digits of the value cut off there |
| `DecimalText.LayoutIsPrint` | src/common/include/hermeneutic/common/decimal.hpp:107-140 | and it is the only text of that layout |
| `DecimalText.IntegerToString` | src/common/include/hermeneutic/common/decimal.hpp:237-251 | the digits pushed from the last on and reversed are the number's digits |
| `DecimalText.AcceptsIff` | src/common/include/hermeneutic/common/decimal.hpp:51-100 | the parser accepts exactly the texts that are a sign, digits and perhaps a point with digits and whose magnitude fits, with the value they denote, decimals past the 18th cut off |
| `DecimalText.RoundTrip` | src/common/include/hermeneutic/common/decimal.hpp:51-140 | for every value but the smallest and every precision, printing and parsing truncates toward zero to the printed decimals, with no overflow on the way |
| `DecimalText.FullPrecisionIsLossless` | src/common/include/hermeneutic/common/decimal.hpp:107-132 | at 18 decimals the trip is the identity |
| `DecimalText.TruncationKeepsOrder` | src/common/include/hermeneutic/common/decimal.hpp:130-132 | truncation keeps the order of values |
| `DecimalText.SurvivesIff` | src/common/include/hermeneutic/common/decimal.hpp:130-132 | a value survives exactly when it has no digits past the printed ones |
| `GrpcTrip.FromDomain` | services/common/grpc_helpers.hpp:53-86 | each price and quantity is written with eight decimals, level by level |
| `GrpcTrip.MessageShows` | services/common/grpc_helpers.hpp:53-86 | every level is on the wire in its place, its price and its quantity each with exactly eight decimals |
| `GrpcTrip.ToDomain` | services/common/grpc_helpers.hpp:13-51 | each is parsed, and any invalid one rejects the message |
| `GrpcTrip.BookArrives` | services/common/grpc_helpers.hpp:13-86 | a written book is never rejected and arrives truncated value by value |
| `GrpcTrip.TripKeepsOrder` | services/common/grpc_helpers.hpp:34-43 | sorted levels arrive sorted, perhaps not strictly |
| `GrpcTrip.LosslessIff` | services/common/grpc_helpers.hpp:53-86 | levels arrive unchanged exactly when none has more than eight decimals |
| `GrpcTrip.StrictOrderArrivesIff` | services/common/grpc_helpers.hpp:53-86 | strictly sorted levels arrive strictly sorted exactly when no two neighbouring prices agree in eight decimals |
| `GrpcTrip.PositiveArrivesIff` | services/common/grpc_helpers.hpp:53-86 | all quantities arrive positive exactly when each is at least one unit of the eighth decimal |
| `GrpcTrip.ValidSideArrivesIff` | services/common/grpc_helpers.hpp:53-86 | a sorted side with positive quantities arrives as one exactly when both hold |
| `GrpcTrip.UncrossedArrivesIff` | services/common/grpc_helpers.hpp:53-86 | two uncrossed sides arrive uncrossed exactly when their best prices do not agree in eight decimals |
| `GrpcTrip.StrictOrderCanBeLost` | services/common/grpc_helpers.hpp:69-78 | a concrete sorted side whose two prices arrive equal, with no quantity |
| `PriceBands.PriceBandsCalculator.Compute` | src/price_bands/price_bands_publisher.cpp:59-120 | a live pair replaces the cached one, a dead one uses it, and there is one quote per offset, or none before the first live pair |
| `PriceBands.AdjustedIs` | src/price_bands/price_bands_publisher.cpp:17-28 | for prices below 2^126 and offsets up to 10000 bps every intermediate fits, and the result is the rounded product |
| `PriceBands.BandIsOrdered` | src/price_bands/price_bands_publisher.cpp:101-105 | bid' <= bid < ask <= ask' |
| `PriceBands.BandWidens` | src/price_bands/price_bands_publisher.cpp:17-28 | a larger offset gives a band that contains the smaller one's |
| `PriceBands.ErrorIs` | src/price_bands/price_bands_publisher.cpp:23-26 | the exact error of an adjusted price |
| `PriceBands.WithinOneUnitIff` | src/price_bands/price_bands_publisher.cpp:23-26 | it is below one unit for all prices exactly when the raw offset is a multiple of 10000 |
| `PriceBands.WholeBasisPointsWithinOneUnit` | src/price_bands/price_bands_publisher.cpp:122-130 | so every whole number of basis points, all default offsets among them, is within one unit for every price |
| `PriceBands.IntermediatesFit256Bits` | src/price_bands/price_bands_publisher.cpp:20-26 | no product of the computation leaves 256 bits |
| `PriceBands.RunBandsAreOrdered` | src/price_bands/price_bands_publisher.cpp:63-118 | over any sequence of views, crossed and one-sided ones included, every published quote contains an uncrossed pair |
| `PriceBands.BandsRestOnLastPair` | src/price_bands/price_bands_publisher.cpp:59-95 | after any sequence of views the bands rest on the pair of the last view that showed a bid below an ask, each as its quote or, when the quote is of nothing, as its first level; and on none exactly when no view did |
| `VolumeBands.FindPriceForThreshold` | src/volume_bands/volume_bands_publisher.cpp:17-28 | the answer is the price of the first level at which the running notional reaches the threshold, 0 when none does |
| `VolumeBands.VolumeBandsCalculator.Compute` | src/volume_bands/volume_bands_publisher.cpp:45-59 | one quote per threshold, on the levels or, without levels, on the best quote |
| `VolumeBands.BandsOfConsolidated` | src/volume_bands/volume_bands_publisher.cpp:45-59 | for a consolidated view the bands rest on exactly the levels it shows |
| `VolumeBands.BandsOfQuote` | src/volume_bands/volume_bands_publisher.cpp:45-59 | for any view, a side without levels is banded on its quote, if that is of something |
| `VolumeBands.ZeroMeansUnreachedIff` | src/volume_bands/volume_bands_publisher.cpp:17-28 | over all sides, with prices and quantities of any sign and size, the answer 0 means that no level stops the sum exactly when the threshold is positive |
| `VolumeBands.FreeLevelReachesZero` | src/volume_bands/volume_bands_publisher.cpp:21-27 | a concrete side on which a threshold that is not positive is reached and answered with 0 |
| `VolumeBands.PricesNeverImprove` | src/volume_bands/volume_bands_publisher.cpp:53-57 | on every side ordered best price first, perhaps with several levels at one price, a larger threshold is never reached where a smaller one is not, and never finds a better price |
| `VolumeBands.AccumulatedIsTotal` | src/volume_bands/volume_bands_publisher.cpp:19-22 | for prices and quantities of any sign, up to and including the level where the loop stops, the running sum is the exact total, as long as each level looked at is countable (a notional below 2^127 units in magnitude) |
| `VolumeBands.AnswerMeans` | src/volume_bands/volume_bands_publisher.cpp:17-28 | on such a side the answer is 0 when no total reaches the threshold or leaves 128 bits, and else the price of the level with which the exact total first reaches it, unless that total is the first out of range |
| `VolumeBands.AnswerOfSide` | src/volume_bands/volume_bands_publisher.cpp:17-28 | without negative numbers the answer is 0 when the whole side is worth less than the threshold, and else the price of the level at which the exact total first reaches it |
| `VolumeBands.ProductIsNotionalIff` | src/volume_bands/volume_bands_publisher.cpp:22 | what is added for a level of any sign is its exact notional, rounded toward zero, exactly when neither factor is -2^127 and the notional is below 2^127 units in magnitude |
| `VolumeBands.HugeLevelCountsAsNothing` | src/volume_bands/volume_bands_publisher.cpp:22 | a concrete level whose notional wraps to nothing |
| `WireBands.ArrivedBandsAreSound` | services/common/book_stream_client.cpp:92 | for every book sent with sorted sides, whatever truncation did to it: in the bands of what arrives a larger threshold is never reached where a smaller one is not and never finds a better price, and 0 means unreached for a positive threshold |
| `EngineSteps.StepKeepsInv` | src/aggregator/aggregator.cpp:85-166 | every action of producers, worker, publisher and stop keeps events and snapshots in order and the queues closed in the right order |
| `EngineRuns.PipelineIsInOrder` | src/aggregator/aggregator.cpp:131-166 | in every run, published snapshots, the one in hand, the publish queue and the one about to be pushed are exactly the snapshots the processed events call for; and the events are processed in the order accepted |
| `EngineRuns.AcceptedIsPushed` | src/common/include/hermeneutic/common/concurrent_queue.hpp:14-23 | over any run, while the queue is open every pushed event is accepted, in order, and once it is closed none is |
| `EngineRuns.StepAccepts` | src/aggregator/aggregator.cpp:85-100 | a step accepts an event exactly when it is a push on an open queue, and closes the queue exactly when it is the close of stop |
| `EngineRuns.LogHasExpectations` | src/aggregator/aggregator.cpp:120-129 | every set of expected exchanges takes its place in the log |
| `EngineRuns.AllPublishedWhenStopReturns` | src/aggregator/aggregator.cpp:85-95 | when stop returns, every snapshot called for is published and both threads are done |
| `EngineRuns.NoSnapshotBeforeReady` | src/aggregator/aggregator.cpp:144-153 | in every run, each snapshot that was pushed to the publish queue or is about to be is the view right after an event at which every expected exchange had reported, and what is published is a prefix of these |
| `EngineRuns.OneSnapshotPerEvent` | src/aggregator/aggregator.cpp:144-153 | in every state that meets the invariant, the worker's locked section logs its event and makes exactly one snapshot when every expected exchange has reported by then, and none otherwise; it stays ready until the expectation changes; no other action of any thread makes a snapshot or takes one back |
| `EngineSteps.CountingDecides` | src/aggregator/aggregator.cpp:149 | comparing the sizes of the two sets decides readiness |
| `EngineRuns.NoExchangeMismatch` | src/aggregator/aggregator.cpp:142-143 | apply never rejects an event in the engine for its exchange |
| `Engine.ConcurrentQueue.Push` | src/common/include/hermeneutic/common/concurrent_queue.hpp:14-23 | push appends, and drops the value once the queue is closed |
| `Engine.ConcurrentQueue.WaitPop` | src/common/include/hermeneutic/common/concurrent_queue.hpp:35-44 | an awake wait_pop takes the front, and fails only on a closed empty queue |
| `XxHash.State.Update` | lockfree-waitfree/lfqueue-708c0052872950dcb15b487fa7a5dd77ce2a2746/benchmark/xxhash.c:581-668 | update adds the input to what was fed, with the buffer always shorter than a stripe |
| `XxHash.State.Digest` | lockfree-waitfree/lfqueue-708c0052872950dcb15b487fa7a5dd77ce2a2746/benchmark/xxhash.c:682-721 | digest is the hash of what was fed and leaves the state usable |
| `XxHash.State.Reset` | lockfree-waitfree/lfqueue-708c0052872950dcb15b487fa7a5dd77ce2a2746/benchmark/xxhash.c:554-565 | reset starts over with nothing fed |
| `XxHash.OneShot` | lockfree-waitfree/lfqueue-708c0052872950dcb15b487fa7a5dd77ce2a2746/benchmark/xxhash.c:254-328 | the one-shot loops compute the same hash |
| `XxHash.LanesOfPrefix` | lockfree-waitfree/lfqueue-708c0052872950dcb15b487fa7a5dd77ce2a2746/benchmark/xxhash.c:277-295 | the lanes after some bytes do not depend on later ones |
| `XxHash.StreamedHash` | lockfree-waitfree/lfqueue-708c0052872950dcb15b487fa7a5dd77ce2a2746/benchmark/xxhash.c:333-339 | reset, updates and digest give the hash of the whole input for every way of cutting it |
| `XxHashWords.Xxh32ByChunks` | lockfree-waitfree/lfqueue-708c0052872950dcb15b487fa7a5dd77ce2a2746/benchmark/xxhash.c:581-721 | streaming XXH32 equals one-shot XXH32 for every seed, byte string and cut |
| `XxHashWords.Xxh64ByChunks` | lockfree-waitfree/lfqueue-708c0052872950dcb15b487fa7a5dd77ce2a2746/benchmark/xxhash.c:735-915 | the same for XXH64 |
| `XxHashChecks.SentenceHash32` | lockfree-waitfree/lfqueue-708c0052872950dcb15b487fa7a5dd77ce2a2746/benchmark/xxhash.c:254-328 | XXH32 of the sentence "Nobody inspects the spammish repetition", which takes stripes, words and bytes, is 0xE2293B2F |
| `XxHashChecks.SentenceHash64` | lockfree-waitfree/lfqueue-708c0052872950dcb15b487fa7a5dd77ce2a2746/benchmark/xxhash.c:359-468 | XXH64 of the same sentence, with a stripe, half a word and bytes, is 0xFBCEA83C8A378BF1 |
| `XxHashChecks.EightLetters64` | lockfree-waitfree/lfqueue-708c0052872950dcb15b487fa7a5dd77ce2a2746/benchmark/xxhash.c:359-468 | XXH64 of eight letters, which take a whole word, is 0x3AD351775B4634B7 |
| `XxHashChecks.EmptyString32` | lockfree-waitfree/lfqueue-708c0052872950dcb15b487fa7a5dd77ce2a2746/benchmark/xxhash.c:254-328 | XXH32 of the empty string is 0x02CC5D05 |
| `XxHashChecks.EmptyString64` | lockfree-waitfree/lfqueue-708c0052872950dcb15b487fa7a5dd77ce2a2746/benchmark/xxhash.c:359-468 | XXH64 of the empty string is 0xEF46DB3751D8E999 |

## Left out

- Memory orders of C11, lost and spurious wake-ups of caches, and wrap-around of tickets and positions: steps are sequentially consistent, and counters unbounded; the rings of words are followed while tickets and positions are in range. A weak CAS may fail for no reason.
- Lock-freedom and wait-freedom: nothing is claimed about progress. The 10000 attempts of the SCQ dequeuer are a choice to look again at any time.
- ScqEmpty.EmptyAnswersAreTrue: the bound of one dequeuer more than half the slots is shown to be needed for the ring with one index; whether larger rings could do with a weaker one is not settled. For enqueuers that skip the threshold (`nonempty` true, as on the ring of free indices) nothing is claimed of EMPTY by the threshold.
- ScqCrowd.CrowdMakesEmptyFalse: a ring of order 0, which the source has with LFRING_MIN 0.
- Update in place of the concurrent code as Dafny classes: the protocols are steps on values, because a thread is interrupted between any two accesses; the loops that fill rings, tables and retire lists are methods on arrays.
- Scqd.QStep: its two rings are rings of slots; that a ring of words is one is ScqWordRuns.RunSimulates.
- `lfring_init_fill` of `lfring_cas1.h`, `lfring_cas2.h`, `wfring_cas2.h`, `wfqueue.c` and `lcrq.c` are not part of this model.
- The value returned by `lfring_enqueue` of `lfring_naive.h`, which is the overwritten index.
- Enlisting of hazard handles (`_hzdptr_enlist`) and `hzdptr_exit`: all handles are registered from the start and stay so.
- MsSteps.StepKeepsInv: the scan reads the other handles' slots in any order into a set; that the table of `hzdptr.c` behaves as that set is shown separately in HazardScan.
- HazardScan.Lookup: the hash is an arbitrary function of the pointer. The program hashes the first byte the pointer refers to, which is outside the model.
- CcQueueRuns.StepRefinesFifo: here one server per side is given; that the combiners of two locks are such servers is CcCombinedRuns.StepRefinesFifo.
- CcCombined.Step: the last store of apply and the bookkeeping that the call is applied are one step; a client learns of it only through the status of its node.
- ScqWordRuns.SourceWordsAreTheRing: the threshold is the number its signed word stands for.
- ScqLayout.CycleTest: for tickets below an eighth of the range of a word, and words of their cycles or of negative ones, which are all that a ring then holds; NcqWords.EnqueueTest for positions below half of it. Shifts by a negative amount, for orders below LFRING_MIN, are not modelled.
- XxHash.State.Digest: for less than 2^64 bytes in all, the longest input that the one-shot functions can be given. Null input pointers are not modelled, and alignment and byte order only as the little-endian value read.
- The double-backed `Decimal`, `fromDouble` and `toDouble`: floating point.
- The limbs of the 256 bit integers: the wide backend multiplies and divides exactly, which is right because no intermediate reaches 2^256.
- DecimalText.ToString: the smallest raw value, -2^127, whose magnitude overflows in the program.
- PriceBands.PriceBandsCalculator.Compute: log output and debug checks.
- Timestamps of events, books and views, staleness warnings, and the exchange count on the wire.
- Consolidate.Consolidator.Consolidate: the books are given as their levels in the order of visiting; walking the hash map of books is not modelled. The sums of quantities are unbounded integers, where the program's 128 bit additions could overflow, and the timestamps of the view are left out.
- OrderBook.LimitOrderBook.Apply: the sums of a level are unbounded integers, where the program's 128 bit additions could overflow, and the timestamp of the last event is left out.
- GrpcTrip.FromDomain: timestamps and the exchange count of the message are left out.
- GrpcTrip.ToDomain: a text too large for 128 bits is rejected in the model, where the program's parser overflows; timestamps are left out.
- EngineRuns.PipelineIsInOrder: the snapshot after an event is an arbitrary function of the engine's log; that consolidation is such a function of the books is Consolidate.OrderDoesNotMatter. `start` is called once, and calls of `stop` do not overlap.
- Subscribers, callbacks and `latest`: a published snapshot counts as published when `publish` has run.
- Networking, JSON, CSV, configuration, command lines, the enum registry and the benchmark driver.
