# Verification of Whippet's collectors

Whippet is a family of tracing garbage collectors in C.  This project models its concurrent
protocols, its collector algorithms and the indexes they rest on, and proves in Dafny that they do
what the collectors need of them.  `dafny verify dfyconfig.toml` checks all of it.

## What is modelled

**Concurrent protocols.**  These are state machines.  Every atomic load, store and
compare-and-swap, and every section under a lock, is one step of one thread; steps of any number of
threads interleave arbitrarily under sequential consistency.  A run is a sequence of states from the
initial one, and the main theorems hold in every state of every run.

- `WorkStealingDeque.dfy`: the Chase-Lev deque with growing buffers (the algorithm of Chase and
  Lev, in the form given by Lê and others).
- `ParallelTracer.dfy`: work distribution and termination detection of the parallel tracer.
- `EphemeronTracing.dfy`, `EphemeronProgress.dfy` and `EphemeronFate.dfy`: the ephemeron table while
  several threads trace; first its structure and the claims, then that nothing is forgotten, then
  what becomes of each ephemeron.
- `TagWordForwarding.dfy` and `MarkByteForwarding.dfy`: the race to evacuate an object, over a tag
  word and over a mark byte.
- `Rendezvous.dfy`: the stop-the-world rendezvous of mutators.

**Collectors.**  These are classes whose methods update the heap in place.

- `SemiSpace.dfy`: the Cheney collector; `PageStealing.dfy`: its account of pages lent to large
  objects.
- `Finalizers.dfy` and `EphemeronFixpoint.dfy`: finalizer tables, and the loop of tracing,
  ephemerons and finalizers of a serial collection.
- `FieldSet.dfy` and `Generational.dfy`: the remembered set, and the sticky mark-bit scheme with its
  field-logging write barrier.

**Indexes and allocators.**  Each is proved against a simple specification: a sequence of spans, a
finite map, a set of disjoint holes, a set of objects.

- `SplayTree.dfy`, `AddressHash.dfy`, `RobinHoodMap.dfy`, `GcHistogram.dfy`,
  `LargeObjectSpace.dfy`, `Extents.dfy`, `Holeset.dfy`, `Swar.dfy`, `NoflBlock.dfy`.

A method that changes state names the whole new state, usually as a function of the old one, and the
lemmas prove what that function is worth.

## What the proofs brought to light

Where a property does not hold of the code, the code is modelled as it is, and a lemma says when the
property holds.

- A mutator that pauses notes the kind of the *previous* collection, because the collector settles
  the kind of the current one only after everybody has stopped (`src/mmc.c:540`, `src/mmc.c:874-942`).
  A request can so be taken as met when no sufficient collection has been done since it was made.
  This happens exactly if the last collection before the request was of the kind asked for or above
  and all those done during the pause are below it; a request for more than the last collection was
  is always followed by one of its own: `Rendezvous.PauseSeesPreviousKind`,
  `Rendezvous.RequestOutcome`, `Rendezvous.RequestUnmetIff`, `Rendezvous.StaleKindSatisfiesRequest`.
- `remove_mutator` of pcc does not adjust the count of inactive mutators, which mmc's does; the
  counts stay right just when the mutator that leaves is active: `Rendezvous.PccRemoveKeepsCounts`
  and the two lemmas after it.
- `allocate_large` of the semi-space collector does not steal the pages of an object that it
  allocates after a collection, so a later collection can find more survivors than its space holds:
  `PageStealing.LargeAllocationFunds`, `PageStealing.UnfundedLargeObject`.  An empty heap lets a
  whole region be stolen, after which the assertion on the next collection fails:
  `PageStealing.WholeRegionStolen`.
- Which finalizers of a table fire depends on what visiting an object marks on the spot
  (`Finalizers.FiresIff`).  Where visiting only adds to a worklist, all those of an unreached object
  fire (`Finalizers.AllFirePerObject`).  In the semi-space collector at most one does
  (`Finalizers.OneFiresPerObject`), and since visiting a large object visits what it refers to at
  once, an unreached object can have no finalizer fired at all: `Finalizers.LargeObjectShades`.  The
  objects finalized are all the unreached ones exactly if none of these is so reached from another
  with an earlier finalizer: `Finalizers.FiredObjects`.
- Between 51 and 511 granules the hole set never finds a hole of exactly the size asked for:
  `Holeset.ExactFitFound`; `Holeset.MissesAreSmall` bounds what it can miss.
- Only large objects that reuse a quarantined hole enter the nursery.  One that came from the system
  outlives every collection up to the next major one, marked or not:
  `LargeObjectSpace.SystemOutlivesMinors`, `LargeObjectSpace.MinorKeeps`.
- Removing an absent key from the splay tree removes some other node, and removing one from the
  address map traps: `SplayTree.Tree.Remove`, `RobinHoodMap.HashMap.Remove`.

One property is a precondition that the callers see to rather than a failure: a mark byte left over
from an old collection would make a call that should shade an object return without doing so
(`MarkByteForwarding.StaleIsSkipped`).  Every cycle finishes sweeping before it marks, which leaves
no such byte.

## Model

| member | source | states |
|---|---|---|
| WorkStealingDeque.StepRefines | src/shared-worklist.h:149-237 | each step of any thread keeps the invariant and is, on the abstract sequence of references, one push or pop at the back, one steal at the front, or nothing |
| WorkStealingDeque.NothingLostOrDuplicated | src/shared-worklist.h:90-237 | in every interleaving, buffers superseded by a grow included, only pushed references are returned, each push at most once; with the owner idle, pushed = returned + what lies in [top, bottom) |
| WorkStealingDeque.PushTakesEffectOnce | src/shared-worklist.h:167-191 | over any schedule, from its start to its end a push performs the abstract push of its own item once and no other operation; one that crashes performs none |
| WorkStealingDeque.PopTakesEffectOnce | src/shared-worklist.h:193-217 | a pop performs one abstract pop, of the item it returns at its end, or none and then returns none |
| WorkStealingDeque.StealTakesEffectOnce | src/shared-worklist.h:219-237 | a steal performs one abstract steal, of the item it returns as it ends, or none |
| WorkStealingDeque.OwnerIsWaitFree | src/shared-worklist.h:149-217 | whatever the thieves do, each of the owner's own steps brings its operation nearer to the end, within as many steps as the buffer has slots and six |
| WorkStealingDeque.StealIsLockFree | src/shared-worklist.h:219-237 | each step of a thief brings its steal nearer to the end, or another thread has taken an item since it read `top` |
| WorkStealingDeque.NullPopMeansEmpty | src/shared-worklist.h:193-217 | the owner's pop gives null only when it leaves the deque empty |
| WorkStealingDeque.NullStealMeansContended | src/shared-worklist.h:219-237 | a thief gives up only if the deque was empty or held just the item the owner was popping |
| WorkStealingDeque.PushPoints | src/shared-worklist.h:167-191 | a push grows the buffer only if the deque filled it when the push looked, and gives up only if there is moreover no larger one |
| WorkStealingDeque.CrashMeansFull | src/shared-worklist.h:88-101 | in every run the owner gives up only if the deque has held 2^28 items |
| ParallelTracer.StepInv | src/parallel-tracer.h:81-336 | every step of every worker keeps locks, phases and the count of every root and object in order |
| ParallelTracer.TraceReturnsQuiet | src/parallel-tracer.h:351-383 | when a trace returns, for any schedule and with late, lost or spurious wakeups, no helper is inside trace_with_data, the active count is zero and every root ever added was processed to its end once, by one worker |
| ParallelTracer.UsesDeques | src/parallel-tracer.h:156-329 | every step is on each deque an operation of the abstract deque or nothing: only the owner pushes, just what it discovered, and pops; what is popped or stolen is what the worker goes on to trace |
| ParallelTracer.FullTraceIsComplete | src/parallel-tracer.h:277-383 | at the return of a trace started as a full one, moreover, all deques are empty and every object ever enqueued, in roots-only traces too, was traced exactly once |
| ParallelTracer.RootsOnlyTracesNothing | src/parallel-tracer.h:299-379 | from its start to its return a roots-only trace traces no object: no worker comes to the object loop, every deque keeps what was on it, and all that the roots enqueue is left there too |
| ParallelTracer.WokenHelperJoins | src/parallel-tracer.h:81-162 | however many wakeups are lost, a helper that looks at the epoch after main has woken the helpers, at the start of a trace or between objects while some helper was not active, joins unless it has joined since |
| ParallelTracer.OnlyMainWakes | src/parallel-tracer.h:152-169 | the epoch moves on just when main wakes the helpers, which it does at the start of a trace and between objects while some worker is not active |
| ParallelTracer.JoinsOncePerWake | src/parallel-tracer.h:81-98 | a helper joins at most once for each time main wakes the helpers |
| ParallelTracer.GivesUpAfterRound | src/parallel-tracer.h:186-202 | a worker decides whether to go on only after trying to steal from each worker in turn, each time finding the deque empty or contended, with nothing else in between |
| ParallelTracer.LeavesWhenDone | src/parallel-tracer.h:277-336 | a worker enters the way out of a roots-only trace only when no root waits, and a helper that of a full one only when it has given up |
| ParallelTracer.StopsWithoutWork | src/parallel-tracer.h:221-383 | with nothing on the deques each step of a worker that discovers nothing brings it nearer to the end: a helper to sleep and main, once the helpers are asleep, to its return |
| ParallelTracer.RoundCoversAll | src/parallel-tracer.h:204-218 | one round of checks from any starting worker sees every deque |
| EphemeronTracing.StepBase | src/gc-ephemeron.c:170-249 | every step of every thread keeps the chains of the table, the claims and the histories in order |
| EphemeronTracing.SkippedAreCutOff | src/gc-ephemeron.c:201-249 | a walk comes to an ephemeron only when the link it came by leads straight to it: either nothing was skipped and the ephemeron is pending, or the location holds it now |
| EphemeronTracing.SwingChains | src/gc-ephemeron.c:201-249 | swinging a link past finished ephemerons makes no pending one unreachable |
| EphemeronTracing.PublishChains | src/gc-ephemeron.c:427-433 | publishing an ephemeron keeps every chain whole |
| EphemeronTracing.ResolveKeeps | src/gc-ephemeron.c:435-443 | one thread's compare-and-swap takes a pending ephemeron to resolved and makes it that thread's to push |
| EphemeronProgress.StepInv | src/gc-ephemeron.c:427-563 | every step, in the lazy, scanning and eager phases, keeps for each pending ephemeron with a marked key some thread that will come to it |
| EphemeronProgress.EachEphemeronOnce | src/gc-ephemeron.c:459-524 | in every run each ephemeron is claimed at most once an epoch, enters the resolved set at most once, and has its value visited at most once |
| EphemeronProgress.PendingStaysReachable | src/gc-ephemeron.c:201-249 | in every state a published pending ephemeron can be reached from its bucket |
| EphemeronProgress.NoneLeftBehind | src/gc-ephemeron.c:443-524 | once resolution is eager and all threads rest, no pending ephemeron has a marked key: publish, then recheck |
| EphemeronProgress.OnlyMarkedKeysResolve | src/gc-ephemeron.c:435-524 | an ephemeron is resolved, or its value visited, only if its key is marked, and one that was published goes through the resolved set |
| EphemeronFate.StepFate | src/gc-ephemeron.c:459-524 | every step keeps each ephemeron on its way: dead ones out of the table, resolved ones where some thread will come to them, traced ones settled |
| EphemeronFate.DeadStaysDead | src/gc-ephemeron.c:495-506 | in every state of a run an ephemeron that was dead before the cycle is not pending, published or resolved, and its value is not visited |
| EphemeronFate.VisitedIff | src/gc-ephemeron.c:443-524 | once a cycle has come to rest the value of an ephemeron that was traced has been visited, once, if and only if the ephemeron was not dead and its key is marked |
| EphemeronFate.KeyFieldFollows | src/gc-ephemeron.c:443-541 | in every state of a run, the key field of an ephemeron that is resolved or whose value has been visited holds the key's new address if and only if the key was moved |
| TagWordForwarding.StepInv | src/copy-space.h:609-682 | every step of every racing call keeps each object, its edges and its copy consistent |
| TagWordForwarding.EvacuatedOnce | src/copy-space.h:609-657 | an object is forwarded just when one call, and no other, returned or is about to return EVACUATED for it; the copy is the original word for word, tag included |
| TagWordForwarding.CopiesDistinct | src/copy-space.h:609-657 | two objects never share a copy |
| TagWordForwarding.EdgesForwarded | src/copy-space.h:609-682 | a call that says it forwarded its edge left it at the one new address, and no edge holds anything but the old or the new address |
| TagWordForwarding.ResultsMean | src/copy-space.h:609-682 | an object is reported untraced only by the call that asks no more, while its tag is that of a live object; forwarding fails only by the thread that made the object busy, which gives it back its tag; the other results come with the update of the edge |
| TagWordForwarding.OnlyOutOfMemoryFails | src/copy-space.h:619-628 | no call gives up an object it has acquired unless there is no memory for the copy |
| TagWordForwarding.NeverCrashes | benchmarks/simple-gc-embedder.h:122-198 | the assertions and crash branches of the state machine are unreachable |
| TagWordForwarding.TagTransitions | benchmarks/simple-gc-embedder.h:122-198 | a tag word goes live, busy, forwarded, or from busy back to its own old value, and only the thread that made it busy moves it on |
| TagWordForwarding.CallsGoOn | src/copy-space.h:609-682 | no call waits in vain: each step of a thread brings its call nearer to the end, at most seven steps away, unless another thread has the object busy, which is itself not waiting; a call that ends has its result on record |
| TagWordForwarding.CallsBegin | src/copy-space.h:609-682 | a started call is at work on the object its edge leads to, or has returned |
| TagWordForwarding.Quiescent | src/copy-space.h:609-682 | with all calls returned, each object is untouched or has one finished copy |
| MarkByteForwarding.ShadedOnce | src/nofl-space.h:1675-1833 | of all calls that shade one object in one cycle exactly one returns 1, whether by marking, by evacuating or by marking after a failed allocation |
| MarkByteForwarding.ReturnedMeansShaded | src/nofl-space.h:1754-1869 | a call that returned leaves its object shaded and its edge leading to where the object is |
| MarkByteForwarding.Outcome | src/nofl-space.h:1714-1833 | in the end an object is untouched, or marked in place with only its mark changed, or, if it was unpinned and in an evacuated block, forwarded to one copy of the same words and granules, its bytes the same but for the new mark and, if generational, the logged bits |
| MarkByteForwarding.MarkTransitions | src/nofl-space.h:1661-1833 | a byte goes to busy only for an unpinned object of an evacuated block, straight to marked only for any other, and from busy, by the claimer, to forwarded or to marked; nothing but the mark changes |
| MarkByteForwarding.ResultsMean | src/nofl-space.h:1754-1869 | the if-traced call answers 0 only for a byte that is neither busy, forwarded nor marked in this cycle, with nothing changed, and 1 only for a shaded object; a shading call is counted for its object just when it returns 1 |
| MarkByteForwarding.OnlyOutOfMemoryMarks | src/nofl-space.h:1774-1783 | an object that was claimed is marked in place only for want of memory |
| MarkByteForwarding.CallsGoOn | src/nofl-space.h:1754-1869 | no call waits in vain: each step of a thread brings its call nearer to the end, at most eight steps away, unless it waits for another thread that has claimed the object and is itself not waiting |
| MarkByteForwarding.CallsReturn | src/nofl-space.h:1754-1869 | a call goes on until it returns, and then its result is on record |
| MarkByteForwarding.CallsBegin | src/nofl-space.h:1754-1869 | a started call is at work on the object its edge leads to, or has returned |
| MarkByteForwarding.CopiesDistinct | src/nofl-space.h:1754-1816 | two objects never share a copy |
| MarkByteForwarding.ByteFields | src/nofl-space.h:250-268 | where the mark, the pinned, the end and the logged bits of a metadata byte lie, and that setting the mark leaves the others |
| MarkByteForwarding.ClaimedIff | src/nofl-space.h:1754-1771 | of unpinned, unmarked objects of evacuated blocks an undisturbed call claims those that are young or survived the last cycle and no others |
| MarkByteForwarding.StaleIsSkipped | src/nofl-space.h:1754-1833 | an object in an evacuated block whose mark is neither young nor the survivors' is left unshaded by a call that returns as if it were |
| Rendezvous.WorldIsStopped | src/mmc.c:491-550 | while a collection goes on no mutator is running, at most one is collecting, and no assertion has failed |
| Rendezvous.CountsAreExact | src/mmc.c:230-284 | the three counts are the sizes of their populations in every reachable state, and all-stopped means nobody is running |
| Rendezvous.NobodySleepsForever | src/mmc.c:497-550 | no wakeup is lost: the waiting collector has been signalled if the last mutator has stopped, and whoever waits for the end of a collection has a collector to wait for |
| Rendezvous.CallsAreServed | src/mmc.c:230-551 | joining, reactivating and going on after a pause wait only while a collection goes on, leaving and deactivating never, a safepoint just then; the collector goes to work once nobody runs, and when it is done no collection goes on |
| Rendezvous.PauseSeesPreviousKind | src/mmc.c:528-550 | a pausing mutator notes the kind of the collection before the current one |
| Rendezvous.RequestOutcome | src/mmc.c:975-997 | over any run: a request made while another collection goes on collects, when its pause is over, exactly if it asks for more than the last collection before it; at least one collection has been done by then |
| Rendezvous.RequestUnmetIff | src/mmc.c:975-997 | a request goes on without a sufficient collection since it was made if and only if the last one before it was sufficient and none during the pause was |
| Rendezvous.HigherRequestCollects | src/mmc.c:975-997 | a request for more than the last collection was leads to a collection of its own |
| Rendezvous.StaleKindSatisfiesRequest | src/mmc.c:975-997 | a run in which a request for a compacting collection is taken as met by a minor one |
| Rendezvous.PccRemoveKeepsCounts | src/pcc.c:519-540 | in pcc the counts stay exact after a mutator leaves if and only if it was active |
| Rendezvous.PccRemoveStrandsCollector | src/pcc.c:519-540 | once an inactive mutator has left so, a lone mutator that triggers a collection waits for nobody |
| Rendezvous.StrandedForGood | src/pcc.c:650-680 | and no action of anybody ends that wait |
| SemiSpace.CopyKeeps | src/semi.c:182-194 | copying an object not yet forwarded keeps the two-space invariant |
| SemiSpace.DoneKeeps | src/semi.c:201-257 | redirecting an edge whose target has been copied or marked keeps it |
| SemiSpace.ScannedAndUnscanned | src/semi.c:356-361 | scanned objects hold no from-space references and unscanned ones no to-space references |
| SemiSpace.VisitedIffReachable | src/semi.c:356-361 | when nothing is left to visit, exactly the reachable objects have been copied or marked |
| SemiSpace.CollectionIsomorphic | src/semi.c:387-430 | the heap after a collection is the reachable part of the heap before it, up to addresses |
| SemiSpace.SamePaths | src/semi.c:387-430 | any path of field numbers that the program follows from a root leads to the same object, or the same constant, before and after |
| SemiSpace.FinalHeapOk | src/semi.c:387-430 | to-space is then a gap-free row of copies and a heap from which the program, and the next collection, can go on |
| SemiSpace.ContainsByDifference | src/semi.c:223-225 | the test by one subtraction of machine words is whether the address lies in the active part of the region |
| SemiSpace.RoundingFits | src/semi.c:521-546 | rounding a size up to the alignment never makes an object stop fitting |
| SemiSpace.Collector.Copy | src/semi.c:182-194 | the copy goes to the bump pointer, which stays within the limit |
| SemiSpace.Collector.Forward | src/semi.c:201-205 | the result is the one new address of the object, copied now or before |
| SemiSpace.Collector.Visit | src/semi.c:207-257 | the edge ends up visited, whichever space its target is in, and no other visited edge changes |
| SemiSpace.Collector.VisitLarge | src/semi.c:212-221 | the large object ends up marked with all its edges visited, each object once |
| SemiSpace.Collector.Scan | src/semi.c:196-199 | the fields of one grey copy are visited and the grey pointer comes to the next copy |
| SemiSpace.Collector.TraceClosure | src/semi.c:356-361 | scanning ends, with every copy scanned |
| SemiSpace.Collector.Flip | src/semi.c:169-180 | from a valid heap, flipping sets up the invariant with nothing copied |
| SemiSpace.Collector.Collect | src/semi.c:387-430 | the program goes on in a valid heap that is isomorphic to what it could reach and holds nothing else |
| SemiSpace.Collector.Allocate | src/semi.c:521-546 | a small allocation collects just if the object does not fit into what is left of the space; it gives a blank object at an address that no survivor has, and fails only if it does not fit beside what survives a collection |
| PageStealing.Space.StealPages | src/semi.c:131-152 | pages are stolen exactly if they can be spared, and limits and account move by what is newly stolen |
| PageStealing.Space.FinishCollection | src/semi.c:155-162 | the account after a collection, and whether the assertions of resetting the limits hold |
| PageStealing.Space.AllocateLarge | src/semi.c:494-519 | steal or else collect: whether there is room, whether the pages were paid for, and the account after it |
| PageStealing.WithinHeapSize | src/semi.c:131-152 | on a funded heap the two regions and the large objects together stay within the size of the heap, and go short of it by no more than one page |
| PageStealing.StealKeepsFunds | src/semi.c:131-152 | large pages that are paid for stay paid for when more are stolen |
| PageStealing.FundedCollectionFits | src/semi.c:341-354 | on a funded heap whatever survives fits in the space a collection leaves, and its assertions hold exactly if survivors do not take a whole region |
| PageStealing.WholeRegionStolen | src/semi.c:131-152 | an empty heap lets all its pages be stolen, after which the next collection fails an assertion |
| PageStealing.LargeAllocationFunds | src/semi.c:494-519 | after a large allocation the heap is funded if and only if its pages were stolen, or there were none |
| PageStealing.UnfundedLargeObject | src/semi.c:501-519 | a program, with 4096-byte pages, whose survivors exceed the space of the next collection |
| Finalizers.FinalizerState.Attach | src/gc-finalizer.c:159-189 | a fresh finalizer enters one bucket of its table; a second attachment is the crash |
| Finalizers.AttachedOrder | src/gc-finalizer.c:159-164 | a run of attachments deals the finalizers out to the lists in turn, the latest first in each: the order in which they are resolved |
| Finalizers.FinalizerState.Pop | src/gc-finalizer.c:191-194 | the first fired finalizer leaves the list for the popped ones, or there is none |
| Finalizers.FinalizerState.ResolveTable | src/gc-finalizer.c:258-292 | rebuilding a table keeps and fires exactly what the resolution function says, for whatever a visit marks on the spot, and touches no other table |
| Finalizers.ResolvePartition | src/gc-finalizer.c:258-292 | every finalizer of a table stays or fires, and none does both |
| Finalizers.FiresIff | src/gc-finalizer.c:258-292 | a finalizer fires if and only if neither tracing nor the visit of an object finalized before it in table order reached its object |
| Finalizers.KeptBecause | src/gc-finalizer.c:258-292 | what stays is on an object that tracing or such a visit reached, and every object that tracing had not reached is finalized or so reached |
| Finalizers.FiredObjects | src/gc-finalizer.c:258-292 | the objects finalized are exactly those that tracing had not reached if and only if none of these is reached at once from another with an earlier finalizer |
| Finalizers.OneFiresPerObject | src/semi.c:201-257 | where visiting marks the object itself, at most one finalizer of a table fires for an object |
| Finalizers.AllFirePerObject | src/gc-finalizer.c:258-292 | where visiting is deferred, all finalizers of an unreached object fire and no others |
| Finalizers.LargeObjectShades | src/semi.c:212-221 | a large object that refers to a small one, a finalizer on each: which of the two fires first decides whether one fires or both |
| Finalizers.ObjectsVisited | src/gc-finalizer.c:258-292 | where visiting marks the object itself, every object of the table has been visited in the end |
| Finalizers.TableDistinct | src/gc-finalizer.c:134-189 | a table never holds a finalizer twice |
| Finalizers.InExactlyOnePlace | src/gc-finalizer.c:134-156 | an attached finalizer is in exactly one of the tables, the fired list and the popped ones, once |
| Finalizers.FiresOnce | src/gc-finalizer.c:173-202 | what has fired never fires again |
| EphemeronFixpoint.Collector.Visit | src/semi.c:207-257 | a visit marks the object and no more than can be reached from it by way of large objects, finishes with every large one, and overlooks no ephemeron once resolution is eager |
| EphemeronFixpoint.ReachSmall | src/semi.c:207-210 | for a small object that is the object alone |
| EphemeronFixpoint.Collector.VisitMore | src/semi.c:207-257 | between other visits it marks exactly that |
| EphemeronFixpoint.Collector.ResolvePending | src/gc-ephemeron.c:443-457 | visiting a key leaves none of its ephemerons pending |
| EphemeronFixpoint.Collector.ScanPending | src/gc-ephemeron.c:526-543 | the scan resolves every pending ephemeron whose key is visited, and resolution is eager from then on |
| EphemeronFixpoint.Collector.ResolveEphemerons | src/semi.c:363-371 | the loop ends, with nothing grey and nothing resolved left to trace |
| EphemeronFixpoint.Collector.FireTable | src/gc-finalizer.c:258-292 | the rebuilding of a table with the collector's own visit in the middle fires, keeps and marks what the resolution function says for that visit |
| EphemeronFixpoint.Collector.ResolveFinalizers | src/semi.c:373-385 | one priority: its unreached objects become roots, whether finalized or reached from one that was, and the least fixpoint is reached again |
| EphemeronFixpoint.Collector.Sweep | src/gc-ephemeron.c:564-585 | every ephemeron still pending becomes dead and all buckets are empty |
| EphemeronFixpoint.Collector.Collect | src/semi.c:387-430 | a whole cycle: what is kept is settled stage by stage by heap, roots and tables alone, a kept ephemeron is traced, and dead exactly if it was or its key is not kept, and the fired list and the tables are what the resolution of each priority makes of them |
| EphemeronFixpoint.CompleteIsLeast | src/semi.c:363-371 | with nothing grey, pending or resolved the visited set is the least one closed under roots, references, and value when ephemeron and key are both in it |
| EphemeronFixpoint.LeastIsUnique | src/semi.c:363-371 | there is only one such set |
| EphemeronFixpoint.StagesUnique | src/semi.c:373-385 | the set kept at each priority is determined by the heap and the tables |
| EphemeronFixpoint.StagesGrow | src/semi.c:373-385 | what is kept at one priority is kept at the next, so a later finalizer of a resurrected object does not fire in this cycle |
| FieldSet.RememberedSet.AddEdge | src/field-set.h:210-222 | exactly one edge is added to the multiset that the buffers hold, and a new buffer is allocated only when one is needed and none is empty or partly full |
| FieldSet.RememberedSet.ReleaseWriter | src/field-set.h:195-202 | a writer's buffer goes back to the set with nothing lost |
| FieldSet.RememberedSet.AddRoots | src/field-set.h:127-136 | the tracer gets every buffer that holds edges, and together they hold every edge |
| FieldSet.RememberedSet.VisitBuffer | src/field-set.h:177-193 | exactly the rejected edges leave a buffer, and it goes back to the set |
| FieldSet.RememberedSet.Clear | src/field-set.h:138-167 | every edge is forgotten, and every buffer kept for later |
| FieldSet.DropLast | src/field-set.h:177-193 | overwriting an edge with the last one and shortening the buffer removes it, once |
| Generational.GenerationalHeap.WriteBarrier | api/gc-barrier.h:92-97 | a field is logged and its edge remembered exactly if fast and slow path both say so, and the remembered set stays equal to the logged fields |
| Generational.FastPathAgrees | api/gc-barrier.h:26-90 | the fast path lets the slow one off exactly when it would have had nothing to do |
| Generational.GenerationalHeap.Store | src/mmc.c:1142-1156 | after a store every edge from a survivor to a young object is remembered |
| Generational.StoreKeeps | src/nofl-space.h:1151-1184 | a barriered store keeps the generational invariant |
| Generational.GenerationalHeap.Sweep | src/nofl-space.h:770-830 | a sweeper reclaims only objects that cannot be reached |
| Generational.GenerationalHeap.Trace | src/mmc.c:792-829 | tracing from roots, and in a minor collection from logged edges, marks exactly what the roots, and in a minor collection the old survivors, lead to |
| Generational.GenerationalHeap.Collect | src/mmc.c:874-942 | nothing reachable is lost or changed, afterwards nothing reachable is young, no field is logged and the remembered set is empty, and what is old is exactly what the roots, and in a minor collection the old survivors, lead to |
| Generational.TraceEnds | src/mmc.c:792-798 | marks that contain the roots and the targets of the logged edges, and are traced, contain everything reachable |
| Generational.CollectedOk | src/mmc.c:874-942 | a collection, minor or major, re-establishes the invariant |
| Generational.MarksAreNeeded | src/mmc.c:792-829 | what finished tracing has marked is the least set that holds its base and the roots and is closed under fields, in a minor collection as in a major one |
| Generational.SweepAllReaches | src/nofl-space.h:770-830 | sweeping changes nothing that roots or survivors lead to |
| Generational.FreshMark | src/nofl-space.h:1350-1357 | a major collection begins with no object carrying the mark it will use |
| Generational.MarksComeRound | src/nofl-space.h:277-288 | the three marks differ and come round after three collections |
| SplayTree.Tree.Splay | src/splay-tree.h:100-166 | top-down splaying ends and keeps nodes and in-order sequence; the root is the node that holds the key, if any, and the others lie on the sides they belong to |
| SplayTree.Tree.Descend | src/splay-tree.h:100-150 | the loop of rotations and links ends where the path to the key ends, with every node in one of three trees |
| SplayTree.Tree.Assemble | src/splay-tree.h:150-166 | the three trees become one again |
| SplayTree.AssembledIs | src/splay-tree.h:150-166 | with the in-order sequence of left tree, middle and right tree |
| SplayTree.Tree.Lookup | src/splay-tree.h:177-183 | the node whose span holds the address, or none exactly if there is none |
| SplayTree.Tree.Insert | src/splay-tree.h:190-221 | one span more at its place in order, or a new value for the span that is there |
| SplayTree.Tree.Remove | src/splay-tree.h:223-240 | one node fewer, the one whose span holds the key if there is one |
| SplayTree.OrderedIffSorted | src/splay-tree.h:177-240 | a tree is a search tree of disjoint spans exactly if its in-order sequence is sorted |
| SplayTree.SplitFinds | src/splay-tree.h:177-183 | after splaying only the root can hold the key |
| SplayTree.InsertPlace | src/splay-tree.h:190-221 | after splaying for its start a disjoint span belongs between the root and one subtree |
| SplayTree.EmptyRight | src/splay-tree.h:223-240 | the second splay of a removal brings up a root without a right child |
| AddressHash.UnhashHash | src/address-hash.h:16-41 | unhashing undoes hashing, for every 64-bit word |
| AddressHash.HashIsBijection | src/address-hash.h:16-41 | hash and unhash are inverse to each other, so no two addresses collide |
| AddressHash.UnhashHash32 | src/address-hash.h:7-34 | the same for every 32-bit word |
| AddressHash.Hash32IsBijection | src/address-hash.h:7-34 | and the 32-bit hash has no collisions |
| RobinHoodMap.NamesSurviveOverflow | src/address-map.h:42-44 | slot indices stay right when key plus displacement wraps around the machine word |
| RobinHoodMap.FreeAhead | src/address-map.h:66-71 | a table with room has a free slot within one turn from anywhere, so probes end |
| RobinHoodMap.Backward | src/address-map.h:63-65 | behind a displaced entry every slot back to its home is full and displaced in step |
| RobinHoodMap.ProbeExhausted | src/address-map.h:138-155 | a probe that stops early, on an entry less displaced than itself, has not missed the key |
| RobinHoodMap.MoveBack | src/address-map.h:86-94 | shifting an entry one slot on for an insertion keeps the displacement order, across wrap-around |
| RobinHoodMap.MoveForward | src/address-map.h:129-133 | shifting an entry one slot back for a removal keeps it too |
| RobinHoodMap.HoleIsFree | src/address-map.h:129-134 | the shift may stop before an entry that is at home |
| RobinHoodMap.FillHole | src/address-map.h:92-94 | an entry put where its probe stopped is in displacement order |
| RobinHoodMap.SizeIsCount | src/address-map.h:53-62 | the count of full slots is the size of the map |
| RobinHoodMap.HashMap.FindPlace | src/address-map.h:73-86 | the two probe loops end at the key, or at its place with the key shown to be absent |
| RobinHoodMap.HashMap.MakeRoom | src/address-map.h:86-93 | a slot is opened by moving the full run after it one slot on, and no entry is lost |
| RobinHoodMap.HashMap.DoInsert | src/address-map.h:73-95 | the map has the key with the new value and is otherwise the same |
| RobinHoodMap.HashMap.Populate | src/address-map.h:97-102 | the fresh table holds the same map |
| RobinHoodMap.HashMap.Insert | src/address-map.h:118-122 | insertion into the map, doubling the table exactly when the load rule says so |
| RobinHoodMap.HashMap.CloseUp | src/address-map.h:129-134 | backward shift takes one entry out and restores the table's order |
| RobinHoodMap.HashMap.Remove | src/address-map.h:123-137 | removal from the map, with a trap exactly for an absent key, halving the table exactly when the shrink rule says so |
| RobinHoodMap.HashMap.Contains | src/address-map.h:138-146 | whether the map has the key, with the early exit |
| RobinHoodMap.HashMap.Lookup | src/address-map.h:147-155 | the value of the key, or the default |
| RobinHoodMap.HashMap.ForEach | src/address-map.h:159-166 | each entry once |
| RobinHoodMap.AddressMap.Add | src/address-map.h:184-186 | the map over addresses, by way of hashes |
| RobinHoodMap.AddressMap.Remove | src/address-map.h:187-189 | removal over addresses |
| RobinHoodMap.AddressMap.Lookup | src/address-map.h:193-196 | lookup over addresses |
| RobinHoodMap.AddressMap.ForEach | src/address-map.h:202-214 | iteration yields exactly the addresses that were added, each once, with their values |
| GcHistogram.BucketBounds | api/gc-histogram.h:8-31 | for any precision, a value lies between the least value of its bucket and that of the next, and the last bucket takes exactly the values from 2^(precision + bits - 1) on |
| GcHistogram.MinValInBucket | api/gc-histogram.h:23-31 | the least value of a bucket is in that bucket |
| GcHistogram.BucketMonotone | api/gc-histogram.h:8-21 | larger values have no smaller buckets, the capped one included |
| LargeObjectSpace.LargeSpace.FindHole | src/large-object-space.h:481-487 | the search finds a hole of sufficient size whenever one is quarantined |
| LargeObjectSpace.ClassesSort | api/gc-histogram.h:8-21 | a hole of a higher class is larger than one of a lower class |
| LargeObjectSpace.LargeSpace.Alloc | src/large-object-space.h:475-548 | pages come from the quarantine exactly if it has a hole that is large enough, its tail a hole of its own; else from the system; tree, map, quarantine and nursery stay coherent |
| LargeObjectSpace.LargeSpace.Mark | src/large-object-space.h:235-253 | an object is newly marked exactly if it is in the space and was not |
| LargeObjectSpace.LargeSpace.StartGc | src/large-object-space.h:182-194 | a major collection changes the mark and nothing else, and no live object carries the new one |
| LargeObjectSpace.LargeSpace.FinishGc | src/large-object-space.h:376-398 | exactly the unmarked live objects of what is swept go to the quarantine |
| LargeObjectSpace.LargeSpace.ProcessQuarantine | src/large-object-space.h:352-374 | every dead node has one turn: the first ages it, the second gives it back |
| LargeObjectSpace.LargeSpace.ObjectContainingEdge | src/large-object-space.h:153-162 | the live object whose span holds the address, and null exactly if there is none |
| LargeObjectSpace.TrimOk | src/large-object-space.h:499-513 | trimming the tail keeps spans disjoint and the three indexes in agreement |
| LargeObjectSpace.ReuseCovers | src/large-object-space.h:488-520 | reuse conserves every byte of the spans |
| LargeObjectSpace.LargeSpace.ValidState | src/large-object-space.h:182-398 | between collections, and in a minor one, a live object carries no mark or the current one |
| LargeObjectSpace.SystemOutlivesMinors | src/large-object-space.h:376-398 | over any run of allocations, collections and quarantine turns, an object that came from the system is live, and outside the nursery, up to the next major collection |
| LargeObjectSpace.MajorKeepsMarked | src/large-object-space.h:182-398 | a major collection keeps exactly the live objects marked during it |
| LargeObjectSpace.MinorKeeps | src/large-object-space.h:182-398 | a minor one keeps exactly those marked during it, those marked by an earlier one and those outside the nursery |
| LargeObjectSpace.TwoTurnsRelease | src/large-object-space.h:352-374 | after two turns everything dead has been given back and nothing live was touched |
| Extents.Table.ContainAddr | src/extents.h:20-36 | binary search finds the start of the range that holds an address, and 0 exactly if none does |
| Extents.Table.Insert | src/extents.h:49-68 | one range more at its place, in place or in a larger array |
| Extents.Table.Adjoin | src/extents.h:70-87 | exactly the new addresses are covered besides the old, the table stays sorted, and it is one longer exactly if the new range touches none |
| Extents.Table.Append | src/extents.h:108-116 | one range more at the end, still sorted |
| Extents.Table.Prepare | src/extents.h:95-106 | the table is empty and has the capacity announced |
| Extents.InsertedSorted | src/extents.h:49-87 | a range between those that end before it and those that begin after it leaves the table sorted |
| Holeset.ClassIsEnough | src/nofl-holeset.h:51-69 | any hole of the class looked up, or above, is large enough, for every size up to 512 |
| Holeset.MissesAreSmall | src/nofl-holeset.h:51-69 | no large enough hole is missed for a packed size, or with 36 granules to spare |
| Holeset.EveryClassUsed | src/nofl-holeset.h:24-91 | each of the 64 classes takes the holes of some sizes |
| Holeset.ExactFitFound | src/nofl-holeset.h:51-69 | a hole of exactly the size asked for is found if and only if that size is packed or 512 |
| Holeset.Holes.PushLocal | src/nofl-holeset.h:71-89 | one hole more, with bitmap and lists in step |
| Holeset.Holes.TryPop | src/nofl-holeset.h:97-130 | a hole of at least the size asked for, from the least class that will do, its rest pushed back; null exactly if no class that will do has one |
| Holeset.Holes.Release | src/nofl-holeset.h:132-153 | every hole moves to the shared set |
| Holeset.Holes.Acquire | src/nofl-holeset.h:155-184 | one list moves from the shared set, and it has a hole that will do |
| Holeset.AllocateSecondChance | src/nofl-space.h:961-971 | after a failed pop one acquisition is enough for the next, and exactly the granules handed out leave the two sets |
| Holeset.AreaTake | src/nofl-holeset.h:108-127 | taking the front of a hole takes exactly those granules out and leaves disjoint holes |
| Holeset.RunInv | src/nofl-holeset.h:71-184 | in every run of any number of allocators each granule ever pushed is in one hole of one set or handed out, never both |
| Swar.TagLane | src/swar.h:91-109 | the word trick finds, in each of eight lanes, whether the masked byte equals the tag, for every mask and tag it allows |
| Swar.BitsLane | src/swar.h:39-42 | and likewise for any of some bits |
| Swar.FirstLane | src/swar.h:6-9 | counting trailing zero bytes finds the first lane that is not zero |
| Swar.LastLane | src/swar.h:66-89 | counting leading zero bytes finds the last one |
| Swar.Scan | src/swar.h:44-135 | the forward scans return the first hit before the next aligned address past the limit, or the limit if there is none |
| Swar.ScanBackwards | src/swar.h:66-89 | the backward scan returns the last hit, or none exactly if there is none |
| NoflBlock.ResolveConservativeRef | src/nofl-space.h:1877-1941 | a possibly interior address resolves to the start of the one object whose granules hold it, and to null in a hole |
| NoflBlock.ResolveHit | src/nofl-space.h:1900-1925 | the last start or end before a granule tells whether an object covers it |
| NoflBlock.Allocator.Allocate | api/gc-allocate.h:58-84 | null exactly if the object does not fit the rest of the hole; else its bytes are those of one object, and no other object changes |
| NoflBlock.Allocator.FinishHole | src/nofl-space.h:744-754 | the rest of a hole is counted as fragmentation and may be pushed |
| NoflBlock.Allocator.NextHole | src/nofl-space.h:770-820 | the next hole is maximal, holds no survivor granule and is cleared; none at the end of the block |
| NoflBlock.Allocator.FinishSweeping | src/nofl-space.h:633-652 | after a whole pass granules per block less hole granules, the count that is released, are exactly the survivors' granules, and the block holds the survivors and what was allocated since, nothing else |
| NoflBlock.SplitExtends | src/nofl-space.h:770-820 | skipping survivors and then a hole extends the split by one maximal hole |
| NoflBlock.HoleRegion | src/nofl-space.h:800-806 | up to the next survivor's mark there are no survivor granules |
| NoflBlock.ZeroedObjects | src/nofl-space.h:808-809 | clearing the bytes of a hole takes away the objects there and no others |
| NoflBlock.TabledObjects | api/gc-allocate.h:32-56 | the allocation table's bytes add exactly one object |

## Left out

- Weak memory orders and fences: all protocols are modelled under sequential consistency.
- WorkStealingDeque: indices are unbounded, so their wrap-around is not modelled; `shared_worklist_push_many` is left out because it assumes room it does not check.
- ParallelTracer: deques are the abstract sequences that the deque is proved to implement, except that a steal may give nothing at any time; growing the root queue and the choice between serial and parallel tracing are left out.
- EphemeronTracing: the user's chain of ephemerons, which shares `ephemeron_list_follow`, is not modelled; pushing a resolved ephemeron is one step; a key is copied and marked in one step; an ephemeron's epoch, which only the thread that claimed it touches, is read and written in one; one collection with its mutators stopped.
- TagWordForwarding.StepInv: object contents and allocation are abstract; blocks and their lists are left out.
- MarkByteForwarding: pinning during a cycle and the conservative configurations are left out.
- Rendezvous: safepoint polling, signals and the heap sizer's thread are left out; which kind a collection turns out to be is free; mutators of pcc are modelled only where they leave.
- SemiSpace: the heap size is fixed and the two spaces keep their active sizes; large objects are marked but their space, page stealing, ephemerons and finalizers are modelled apart from it; external spaces are left out.
- PageStealing: what a collection finds alive is a parameter.
- EphemeronFixpoint: objects do not move; a conservative resolution of keys is left out, and so are external objects, which count as visited keys and are never finalized there.
- Finalizers: closures, callbacks and the two functions for finalizers activated elsewhere are left out.
- Generational: ordinary references only; evacuation, large objects, ephemerons and finalizers are left out of minor collections, as their fields are updated outside the barrier.
- RobinHoodMap: the bitvector of full slots is an array of truth values, and the mask with the size less one is written as a remainder; `src/address-set.h` repeats the same algorithm.
- LargeObjectSpace: the splay tree is the set of its nodes, whose order is proved in SplayTree; a list linked through the nodes is a sequence; the space's lock, held from start to finish of a collection, is a phase; page counters, remembered edges and the table of extents are left out.
- Extents: ranges are not empty, as slabs and objects are not.
- Holeset: lists linked through the holes are sequences and the bitmap is the sequence of its bits; the doubles of the sparse classes, which are exact at these magnitudes, are integer division.
- Swar.Scan: one method with a pattern stands for the two forward scans, which differ only in how a word is matched; the scan for two tags has no caller and is left out.
- NoflBlock: one block; lists of blocks, promotion, evacuation targets and paging out are left out, as is the fragmentation that a released evacuation target reports.
- Heap sizers and the choice of a collection's kind: floating-point heuristics without a crisp guarantee.
- Platform calls, `src/bdw.c`, event listeners, options and benchmarks other than the embedder's forwarding functions.
