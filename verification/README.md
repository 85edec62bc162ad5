# Verified model of the AARC collector, its virtual machine and its compiler back end

The repository has three parts that lean on each other. AARC is a garbage collector that keeps
reference counts *and* the edges between cells: a cell whose count reaches zero is freed in a
cascade, and a cycle is freed when a component search finds a component without roots whose incoming
edges all come from inside. Mutators talk to it through single-producer rings, and a worker sweeps
only after a round it judged to be a consistent cut; in adaptive mode each owner has an inline engine
for its LOCAL cells and hands whole components over to the worker. The virtual machine tells the
collector about every reference it holds or stores. The compiler back end turns a middle
representation into the bytecode the machine decodes.

The main results:

* **A sweep is exact.** After any run of allocations, messages and sweeps, a sweep leaves live exactly
  the cells a positive root count reaches (and cells handed out but never mentioned). What this needs
  of the mutator is stated, and where it fails the exact condition is proved.
* **Every interleaving of producers and worker is safe**, with or without folded batches: no cell on
  which anyone holds a root is ever dead. A round judged stable has read tails that belong to one
  earlier instant, and it is judged stable if and only if no producer was in the middle of a batch
  between its two readings and nobody joined; from every state the worker can bring one about. If producers store only into cells they reach themselves, and fold a batch only
  when it passes a test they can make on their own log, its sweep frees exactly what nobody wanted at
  that instant.
* **The component search is correct**: iterative Tarjan, with its scratch restored afterwards.
* **Several authorities never meet on one row**: no edge joins two regimes or two owners, each engine
  writes only its own slots, and a hand-over keeps all of that, whatever the mutators ask for, and brings
  the whole component to the worker as it was.
* **Nothing is lost or counted twice.** Over whole runs of one engine, of the producers' protocol and of
  adaptive mode the table is the balance of the messages that were applied, staged or sent.
* **The bidirectional reference table is the plain outgoing-multiset table** with an exact transpose.
* **Folding a batch keeps the table and may lose marks**: a sweep after a folded batch is exact if and
  only if every cell the batch stored into is accounted for, and a test the producer can make
  beforehand is enough for that.
* **No register ever names a dead object.** The machine runs coupled with its collector: with the
  reference counts of one backend, or with the engine of the other, after any number of instructions
  of any program the collector's roots and edges are exactly the references the machine holds and
  stores, all of them name live objects, and every instruction does to registers and memory what it
  says. When the cycle backend scans, no stranded component around the object is left.
* **Compiled code does what the body says**, from the middle representation down to patched and decoded
  bytes, for every body of a program laid out behind its entry stub.

## How the files fit together

`Graphs`, `Cells`, `EngineState` hold the data and the step one message makes. `Coverage` says why
marking on every decrement is enough; `Sweeping` and `Reclaiming` say what a reclamation may and must
do; `Tarjan`, `CycleDetector`, `ExternalCounts` and `CyclePass` are the cycle pass; `Engine` is the
collection engine as a class; `Exactness` and `Leaks` state what a sweep achieves and when it does not.
`Logs`, `Mirror`, `CutProtocol`, `CutRounds` are the concurrent protocol and its safety, `CutGrounds`
what exactness asks of producers, `CutTheorems` the statements about whole runs, `CutVerdict` when a
round is stable, `CutLiveness` that one can always be reached. `SweepResult` says that a sweep has
exactly one outcome, `Ledger` that the table is what was said. `Regimes`,
`Promotion` and `HandOver` are adaptive mode. `Chains`, `EdgeStore`, `RefTable`, `ForwardTable` are the reference
table. `Probing`, `Folding`, `FoldMeaning`, `FoldExactness`, `FoldedLogs` are batch folding. `Ring`,
`RootBag`, `Components`, `CellPool` are the remaining data structures of the runtime. `VmState` and
`Vm` are the machine, `VmLaws` what its instructions do together, `Knots` what zero sweeps spare and
cycle passes free, `ObjectStore` the heap it shares with its collector, `Arc` and `Backends` the two
collectors, `CollectedHeap` heap and collector together, `PayloadHeap` the bytes below. `Bytecode`,
`Assembler`, `Mir`, `WordLaws`, `MirSim`, `CompiledCode` are the way from a body to bytes, `CompiledProgram` lays
out several bodies in one chunk.

Vocabulary: a cell is *pending* when a marked candidate reaches it, *covered* when it is reachable,
pending or not yet mentioned; a message is *disciplined* when it takes no more roots than there are and
stores only into a reachable cell.

## Model

| member | source | states |
|---|---|---|
| `EngineState.ProcessKeepsTable` | src/aarc/arc/engine.hpp:117-180 | Every message, stale or not, keeps each live cell's edge count equal to the number of records that target its current generation, leaves no record with a dead end and no negative count. |
| `EngineState.ProcessKeepsSettled` | src/aarc/arc/engine.hpp:503-526 | Every message keeps marks and candidate stacks in step (distinct zero stack, lazy suspect stack a superset), except a removal of more roots than a positive count holds. |
| `EngineState.EdgeRemoveShape` | src/aarc/arc/engine.hpp:163-176 | A recorded edge has a live target with a positive count, so the underflow and recycled-target branches of an edge removal are never taken. |
| `Coverage.LoweredKeepsCovered` | src/aarc/arc/engine.hpp:253-261 | Whatever takes a reference away and re-evaluates the target leaves every unreachable cell reachable from some marked candidate. |
| `Coverage.ProcessKeepsCovered` | src/aarc/arc/engine.hpp:117-180 | Every disciplined message keeps every unreachable cell pending: the completeness claim of the cycle collector, for all graphs. |
| `Sweeping.ZeroStep` | src/aarc/arc/engine.hpp:186-198 | Freeing a marked cell of count zero keeps everything that must be kept, and everything else stays pending. |
| `Sweeping.CycleStep` | src/aarc/arc/engine.hpp:269-368 | Freeing exactly the orphaned components of a scan keeps everything that must be kept, and everything else stays pending. |
| `Reclaiming.ReclaimCellEffect` | src/aarc/arc/engine.hpp:530-549 | Reclaiming one cell releases its targets, marks those that became candidates, and leaves an exact table without the cell. |
| `Reclaiming.ReclaimComponentEffect` | src/aarc/arc/engine.hpp:555-579 | Two-phase reclamation of a component nobody outside refers to leaves no dangling record, exact counts and the right new candidates. |
| `ExternalCounts.ExternalTest` | src/aarc/arc/engine.hpp:305-327 | The sums over a component test exactly what they are for: zero roots if and only if no member is rooted, equal edge sums if and only if no edge enters from outside. |
| `CyclePass.OrphanByCounts` | src/aarc/arc/engine.hpp:305-327 | A scanned cell is in a component without outside references if and only if its component passes the count test. |
| `CyclePass.ComponentReclaimed` | src/aarc/arc/engine.hpp:345-363 | Reclaiming the doomed components one after another frees their union, and each stays reclaimable after the others are gone. |
| `Tarjan.EnterInv` | src/aarc/cycle/cycle_detector.hpp:95-125 | Discovering a node keeps the search invariant: discovery order, open stack, explored edges and low links. |
| `Tarjan.PassInv` | src/aarc/cycle/cycle_detector.hpp:127-150 | Passing a record to a dead, finished or open node keeps the search invariant. |
| `Tarjan.KeepInv` | src/aarc/cycle/cycle_detector.hpp:162-179 | Leaving a node whose low link is smaller hands the link to its parent and keeps the invariant. |
| `Tarjan.CloseInv` | src/aarc/cycle/cycle_detector.hpp:162-179 | Leaving a node whose low link is its own closes exactly its strongly connected component. |
| `CycleDetectors.CycleDetector.FindComponents` | src/aarc/cycle/cycle_detector.hpp:51-69 | Lists every node reachable from a live root exactly once; two listed nodes get the same component id if and only if each reaches the other; every id is used. |
| `CycleDetectors.CycleDetector.VisitFrom` | src/aarc/cycle/cycle_detector.hpp:95-160 | The explicit-stack loop ends and keeps the search invariant for everything reachable from its root. |
| `CycleDetectors.CycleDetector.Release` | src/aarc/cycle/cycle_detector.hpp:74-81 | Leaves clean scratch for the next search. |
| `CollectionEngines.CollectionEngine.Process` | src/aarc/arc/engine.hpp:117-180 | In place, exactly the message step about which the lemmas above speak; the suspect counter stays the number of suspect marks. |
| `CollectionEngines.CollectionEngine.ReclaimCell` | src/aarc/arc/engine.hpp:530-549 | In place, the reclamation of one cell. |
| `CollectionEngines.CollectionEngine.ReclaimCycleComponent` | src/aarc/arc/engine.hpp:555-579 | In place, the reclamation of one component, detaching all members before freeing any. |
| `CollectionEngines.CollectionEngine.SweepZero` | src/aarc/arc/engine.hpp:186-198 | Drains the zero candidates: frees only what may go, keeps all else pending, and fewer cells live unless no new suspect appeared. |
| `CollectionEngines.CollectionEngine.CollectCyclePass` | src/aarc/arc/engine.hpp:269-368 | One scan and reclaim pass: every orphaned component a suspect reaches is gone; reports progress if and only if fewer cells live, and otherwise has consumed the suspects. |
| `CollectionEngines.CollectionEngine.CollectCycles` | src/aarc/arc/engine.hpp:262-268 | Repeated passes end with no suspect left. |
| `CollectionEngines.CollectionEngine.Sweep` | src/aarc/arc/engine.hpp:215-231 | The two passes reach a fixed point: terminates, leaves live exactly the closure of the cells that are rooted or that no candidate reached, survivors untouched, every freed slot at its next generation or retired at the last, no mark, stack entry or suspect left. |
| `Exactness.SweepExactIff` | src/aarc/arc/engine.hpp:200-231 | A sweep leaves only reachable or unmentioned cells if and only if every unreachable cell was pending before it. |
| `Exactness.SweptExactly` | src/aarc/arc/engine.hpp:200-231 | Then a cell survives if and only if it was live and reachable or unmentioned. |
| `Exactness.RunExact` | src/aarc/arc/engine.hpp:215-231 | Every sweep of every run from an empty pool of allocations, disciplined messages and earlier sweeps is exact. |
| `Exactness.RootedRunExact` | src/aarc/arc/runtime.hpp:1066-1073 | When each allocation takes its root at once, live after a sweep means reachable, for every run. |
| `SweepResults.SweepExists` | src/aarc/arc/engine.hpp:215-231 | Every settled engine has a swept state: the specification of a sweep can always be met. |
| `SweepResults.SweepIsUnique` | src/aarc/arc/engine.hpp:215-231 | And only one: pool, rows and marks after a sweep are determined by the state before. |
| `Ledgers.RunBalanced` | src/aarc/arc/engine.hpp:117-180 | In every run of one engine the root counts and records of live cells are the balance of the messages applied since each cell came to life; collections change neither. |
| `Leaks.EdgeAddCoveredIff` | src/aarc/arc/engine.hpp:152-159 | An edge store keeps coverage if and only if its source is reachable, or stays covered by a candidate that the store does not silence. |
| `Leaks.StoreIntoGarbageLeaks` | src/aarc/arc/engine.hpp:195-195 | A concrete store into an unreachable cell after which a garbage cycle has no mark. |
| `Leaks.PartialUnderflowLeaks` | src/aarc/arc/engine.hpp:138-143 | A concrete root removal past a positive count that leaves a dead cell unmarked. |
| `Leaks.UnderflowCoveredIff` | src/aarc/arc/engine.hpp:135-150 | A root removal past a positive count keeps every unreachable cell pending if and only if another root or another candidate reaches the cell, or it carries the mark that fits its remaining count, or its row is as good as never used. |
| `Leaks.SettledIff` | src/aarc/arc/engine.hpp:117-180 | Every message keeps marks and stacks in step, except a removal past a positive count that leaves a suspect at zero without a zero mark; that one never does. |
| `Logs.UnmentionedSum` | src/aarc/core/gc_message.hpp:12-16 | A handle no log mentions has no roots and no edges in them. |
| `Mirror.MirrorProcess` | src/aarc/arc/runtime.hpp:602-610 | Draining producers one after another in any interleaving, the table is at each point the sum of the applied log prefixes, without underflow. |
| `Mirror.MirrorCovers` | src/aarc/arc/runtime.hpp:602-610 | And if the applied message stores only into a reachable cell, every unreachable cell stays pending. |
| `Mirror.MirrorGraph` | src/aarc/arc/runtime.hpp:602-610 | The recorded graph is the one the logs describe, so reachable means wanted by some producer. |
| `CutProtocol.StageKeepsCore` | src/aarc/arc/runtime.hpp:1378-1398 | Staging a message that names wanted or new cells keeps the safety invariant; a store may go into any wanted cell. |
| `CutProtocol.FoldKeepsCore` | src/aarc/arc/runtime.hpp:1464-1470 | So does folding the unpublished batch in place. |
| `CutProtocol.FreshHandle` | src/aarc/core/cell.hpp:182-217 | A slot handed out again comes with a handle that no producer has ever named, because the generations only grow and the last one retires the slot. |
| `CutProtocol.OwnRemovalBacked` | src/aarc/arc/runtime.hpp:602-610 | Where every producer removes only edges of its own, no order of draining applies a removal before its record is there. |
| `CutProtocol.QuiescedRemovalBacked` | src/aarc/arc/runtime.hpp:423-448 | Once everything submitted has been applied, any producer may remove any recorded edge. |
| `CutProtocol.PopFindsRecord` | src/aarc/arc/engine.hpp:163-176 | The record a removal names is in the table when the worker comes to it. |
| `CutProtocol.PopKeepsCore` | src/aarc/arc/runtime.hpp:602-610 | Applying the next message of a queue keeps the protocol invariant. |
| `CutGrounds.GroundReachable` | src/aarc/arc/runtime.hpp:602-610 | A cell its producer reached from its own roots over its own edges when it staged a store is reachable in the table when the store is applied, whatever the other queues did in between. |
| `CutGrounds.OwnRootIsGround` | src/aarc/arc/runtime.hpp:1378-1398 | In particular a store into a cell on which the producer holds a root of its own is one an exact run may contain. |
| `CutGrounds.FoldAccounted` | src/aarc/arc/runtime.hpp:1464-1470 | Folding a batch whose stores all go into cells on which the producer holds a root, counting the batch's whole change where a root operation came before the store, keeps every unreachable cell pending and every queued store grounded. |
| `CutGrounds.StepAccounted` | src/aarc/arc/runtime.hpp:562-628 | In exact runs every step keeps every unreachable cell pending and every queued store grounded. |
| `CutGrounds.SweepAtCut` | src/aarc/arc/runtime.hpp:611-613 | The sweep of such a run frees exactly what was named before the cut and not wanted at it. |
| `CutTheorems.RunKeeps` | src/aarc/arc/runtime.hpp:562-628 | In every state of every interleaving the safety invariant holds, and a round past its first reading has one instant it will be judged by; in exact runs the exactness invariant holds as well. |
| `CutTheorems.NothingHeldIsFreed` | src/aarc/core/producer_slot.hpp:4-13 | At every point of every interleaving, folded batches included, no handle on which a producer holds a root is dead, nor anything such a root reaches. |
| `CutTheorems.StableCutIsOneInstant` | src/aarc/arc/runtime.hpp:562-628 | A stable round's tails all belong to one earlier instant with every batch empty, the drained prefix is everything submitted by then, its sweep frees nothing wanted or unnamed then, and in an exact run, folded batches that pass the test included, everything else. |
| `CutTheorems.QuiesceServed` | src/aarc/arc/runtime.hpp:423-448 | A served ticket was served by a stable round that began after it was issued, ended in a sweep and had applied everything its caller had submitted. |
| `CutTheorems.TicketsOrdered` | src/aarc/arc/runtime.hpp:611-619 | Completed tickets never decrease and never pass the issued ones. |
| `CutVerdicts.StableIff` | src/aarc/arc/runtime.hpp:562-604 | A round is stable if and only if no producer had a batch open at any time between its two readings and nobody joined between the two readings of their number; every producer that existed when it began is read twice. |
| `CutVerdicts.RoundEnds` | src/aarc/arc/runtime.hpp:611-626 | A stable round ends in a sweep and completes every ticket issued before it began; an unstable one leaves cells and tickets alone. |
| `CutVerdicts.UndisturbedRoundIsStable` | src/aarc/arc/runtime.hpp:562-628 | A round that begins with all batches closed, while none is opened and nobody joins, is stable, has applied everything submitted, sweeps and serves. |
| `CutLiveness.WorkerGoesOn` | src/aarc/arc/runtime.hpp:562-628 | In the middle of a round the worker always has a next step, and it brings the end nearer. |
| `CutLiveness.QuiesceReachable` | src/aarc/arc/runtime.hpp:423-448 | From every state of every run, when the producers only publish what they have open, the worker reaches a stable round that applies everything, sweeps and serves every ticket. |
| `CutLiveness.HandedOutLives` | src/aarc/core/cell.hpp:353-373 | A slot handed out gives a handle that was not valid before and stays valid until a stable round ends. |
| `Ledgers.StagedIsLogged` | src/aarc/arc/runtime.hpp:1378-1398 | The logs hold, folded or not, exactly the roots and records that have been staged, and there are as many producers as have joined. |
| `Ledgers.DrainedTable` | src/aarc/arc/runtime.hpp:602-610 | Once everything submitted has been applied, the table holds exactly what was staged. |
| `Regimes.ProcessWritesHome` | src/aarc/arc/engine.hpp:94-104 | A message to cells an authority may touch changes no row of another authority. |
| `Regimes.OwnProcess` | src/aarc/arc/engine.hpp:117-180 | What an engine does to the whole table is what it would do to its own part alone. |
| `Regimes.ApplyKeepsStruct` | src/aarc/arc/engine.hpp:94-104 | A message of an engine to its own cells, disciplined or not, keeps exact counts, no crossing edges and every other authority's marks. |
| `Regimes.SweepWritesHome` | src/aarc/arc/engine.hpp:482-491 | A sweep by one authority writes no row and no slot of another. |
| `Regimes.CollectKeepsInv` | src/aarc/arc/runtime.hpp:1335-1340 | A sweep by one authority keeps exact counts, no crossing edges and every other authority's view. |
| `Promotion.ClosureLocal` | src/aarc/arc/runtime.hpp:891-952 | The undirected walk over outgoing and incoming records lists exactly the owner's LOCAL cells connected to a seed, each once. |
| `Promotion.ComponentClosed` | src/aarc/arc/runtime.hpp:862-870 | That set is closed under records in both directions. |
| `Promotion.MoveKeepsInv` | src/aarc/arc/runtime.hpp:866-888 | Moving a detached, settled set between authorities keeps the whole invariant at both and elsewhere (`MoveKeepsStruct`: an unmarked detached set keeps the structural half). |
| `Promotion.FreezeKeepsInv` | src/aarc/arc/runtime.hpp:824-880 | Sweeping, then freezing the closure of the surviving seeds keeps the invariant. |
| `Promotion.CommitKeepsInv` | src/aarc/arc/runtime.hpp:878-888 | Committing the frozen cells to SHARED keeps the invariant. |
| `Promotion.ActKeeps` | src/aarc/arc/runtime.hpp:1208-1340 | Every step (local or shared allocation, local operation, submission, worker operation, sweep, freeze, commit), disciplined or not, keeps the structure; a disciplined one keeps coverage too. What freeze and commit do is `HandOvers.HandOverCompletes`, what the others do to the table `Ledgers.AdaptiveBalanced`. |
| `Promotion.AlwaysStruct` | src/aarc/arc/runtime.hpp:1208-1340 | In every reachable state of every interleaving no edge crosses, counts are exact, marks are at home and queued messages name SHARED cells. |
| `Promotion.AlwaysInv` | src/aarc/arc/runtime.hpp:1208-1340 | After disciplined steps every authority's candidates also cover its garbage. |
| `Promotion.ActWritesHome` | src/aarc/arc/engine.hpp:94-104 | No step changes the row or slot of a live cell its engine may not touch. |
| `Promotion.TagsOnlyRise` | src/aarc/arc/runtime.hpp:866-880 | While a cell lives its owner is fixed and its regime only goes from LOCAL to PROMOTING to SHARED. |
| `Promotion.RegimeCheckIff` | src/aarc/arc/engine.hpp:236-246 | The whole-pool check passes if and only if no hand-over is half way; edges join cells of one owner as well, which the check does not look at. |
| `Promotion.OnlyRetiredAreRefused` | src/aarc/core/cell.hpp:182-217 | In every reachable state a free slot's handle has never been given out before, unless the slot was retired at the last generation. |
| `Promotion.SweepIsExactForItsCells` | src/aarc/arc/runtime.hpp:1335-1340 | In every disciplined run, an authority's sweep frees exactly its own cells that no root in the whole table reaches and that have been mentioned. |
| `Promotion.TwoPromotionsSettle` | src/aarc/arc/runtime.hpp:1264-1302 | Whatever the two ends of an edge operation are, and however far the other end moves meanwhile, two promotions of the picked end settle it, and none is asked for a SHARED cell. |
| `HandOvers.HandOverCompletes` | src/aarc/arc/runtime.hpp:824-888 | Between an owner's freeze and its commit, whatever the others do: every cell connected to a seed that survived the sweep arrives SHARED with slot and row as they were frozen, no cell stays half way, and no other tag changes. |
| `HandOvers.HandOverPossible` | src/aarc/arc/runtime.hpp:824-888 | An owner can always freeze and commit. |
| `HandOvers.PromotedIsShared` | src/aarc/arc/runtime.hpp:1304-1330 | A cell whose owner freezes it as a seed, or had frozen it, and then commits is SHARED from then on. |
| `HandOvers.EdgeOpSettles` | src/aarc/arc/runtime.hpp:1264-1302 | In every run, an edge operation whose ends live on may go ahead after at most two promotions of the end its loop picks. |
| `Ledgers.AdaptiveBalanced` | src/aarc/arc/runtime.hpp:1208-1340 | In every adaptive run the shared table is the balance of what owners' engines and worker have applied; sweeps and hand-overs change nothing of a survivor. |
| `Ledgers.MessagesConserved` | src/aarc/arc/runtime.hpp:1378-1398 | What has been sent to the worker is what it has applied and what still waits: no message is lost, made up or applied twice. |
| `Chains.PushLinked` | src/aarc/arc/ref_table_reverse.hpp:162-172 | Linking a record at the front keeps every intrusive list well formed and apart from the others. |
| `Chains.RemoveLinked` | src/aarc/arc/ref_table_reverse.hpp:297-320 | Unlinking a record anywhere in a list keeps every list well formed. |
| `EdgeStore.LinkShape` | src/aarc/arc/ref_table_reverse.hpp:155-173 | A taken record becomes live in exactly one outgoing and one incoming list; nothing else moves. |
| `EdgeStore.UnlinkShape` | src/aarc/arc/ref_table_reverse.hpp:297-320 | An unlinked record leaves both lists and joins the free list, which stays apart from live records. |
| `RefTables.Transposed` | src/aarc/arc/ref_table_reverse.hpp:1-14 | The incoming lists hold each record exactly as often as the outgoing lists, under its target. |
| `RefTables.LiveEdgesCounted` | src/aarc/arc/ref_table_reverse.hpp:207-207 | The live-edge counter is the number of outgoing records over all rows. |
| `RefTables.RefTable.AllocateEdge` | src/aarc/arc/ref_table_reverse.hpp:265-295 | A free record if there is one, else a new one; refused only when all ids are in use; no list changes. |
| `RefTables.RefTable.AddOut` | src/aarc/arc/ref_table_reverse.hpp:155-173 | Both lists gain the record at their front and nothing else changes. |
| `RefTables.RefTable.RemoveOut` | src/aarc/arc/ref_table_reverse.hpp:177-187 | Removes the newest record between the two handles from both lists, and reports whether there was one. |
| `RefTables.RefTable.ClearOuts` | src/aarc/arc/ref_table_reverse.hpp:191-198 | The row loses all records; every incoming list loses exactly the ones from it. |
| `RefTables.RefTable.ResetSlot` | src/aarc/arc/ref_table_reverse.hpp:200-205 | With no record from elsewhere targeting it, the row is as new and no list dangles. |
| `ForwardTables.StepAgrees` | src/aarc/arc/ref_table_forward.hpp:34-82 | One operation gives the same answer on both tables and keeps counts, outgoing multisets and record totals equal. |
| `ForwardTables.RunAgrees` | src/aarc/arc/ref_table_forward.hpp:34-82 | So does every sequence of operations. |
| `ForwardTables.Perform` | src/aarc/arc/ref_table_reverse.hpp:139-205 | Each operation of the intrusive table is its abstract step; an exhausted arena refuses an addition and changes nothing. |
| `ForwardTables.RemoveIsErase` | src/aarc/arc/ref_table_reverse.hpp:177-187 | On rows, newest first, a removal is the erasure the engine's message step performs. |
| `Folding.FindSlot` | src/aarc/arc/runtime.hpp:1423-1447 | A probe ends within one turn, at the handle's entry or at the first free slot. |
| `Folding.FoldBatch` | src/aarc/arc/runtime.hpp:1400-1455 | The single pass with its hash table computes the fold, no longer than the batch, and leaves the table empty. |
| `FoldMeaning.FoldSameTable` | src/aarc/core/gc_message.hpp:18-24 | Applying a folded batch gives exactly the root counts, edge counts and records of applying the batch. |
| `FoldMeaning.StreamCoveredIff` | src/aarc/arc/engine.hpp:145-159 | A stream keeps coverage at every one of its points if and only if each of its edge stores is safe at its turn. |
| `FoldMeaning.FoldingLeaks` | src/aarc/core/gc_message.hpp:18-24 | For every fresh cell, a batch that is handled as staged and leaks once folded. |
| `FoldMeaning.FoldedSweepIsInexact` | src/aarc/core/gc_message.hpp:18-24 | After that folded batch no sweep is exact. |
| `FoldExactness.StreamEndCoveredIff` | src/aarc/arc/engine.hpp:145-176 | At the end of a stream every unreachable cell is pending if and only if the cells it stored into are covered. |
| `FoldExactness.FoldedCoveredIff` | src/aarc/core/gc_message.hpp:18-24 | For a folded batch this is a condition on the table the staged batch describes and on what the folded messages re-evaluate: every cell stored into is reachable there, unused, or reached from a cell whose final count was noticed. |
| `FoldExactness.FoldedSweepExactIff` | src/aarc/core/gc_message.hpp:18-24 | A sweep after the folded batch is exact if and only if that condition holds. |
| `FoldExactness.FoldSafeCovers` | src/aarc/arc/runtime.hpp:1406-1412 | It holds whenever each store's source keeps a root counting the batch's whole change on it, if a root operation on it came before the store. |
| `Rings.Ring.WriteToSpan` | src/aarc/arc/runtime.hpp:1342-1369 | Accepts a message if and only if fewer than 4096 are unread or unpublished; an accepted one is next in order, a refusal loses nothing. |
| `Rings.Ring.TryPush` | src/aarc/core/spsc_queue.hpp:38-46 | Accepts a message if and only if the ring is not full; the ring stays in order if and only if it was refused or no span is open. |
| `Rings.Ring.PushIntoSpan` | src/aarc/arc/runtime.hpp:1472-1479 | A message pushed while a span is open loses its slot to the next write through the span, whose own position then holds what was there before. |
| `Rings.Ring.CommitStaged` | src/aarc/arc/runtime.hpp:1371-1376 | Publishes exactly what was staged; the open span stays aligned with the tail. |
| `Rings.Ring.TryPop` | src/aarc/core/spsc_queue.hpp:72-80 | Reads published messages in the order they were written. |
| `Rings.Ring.DrainTo` | src/aarc/core/spsc_queue.hpp:82-87 | Draining to a tail snapshot takes exactly the messages published before it. |
| `Rings.Exercise` | src/aarc/core/spsc_queue.hpp:38-86 | Over any mix of span writes, commits, single pushes, pops and drains, up to the first push that finds a span open: each message is accepted if and only if the ring was not full at its turn, each read returns the oldest unread published messages, and what was read is a prefix of what was accepted. |
| `RootBags.Probe` | src/aarc/core/root_bag.hpp:109-137 | A probe ends within one turn, at the key or at an empty slot with no empty slot before it. |
| `RootBags.RootBag.Add` | src/aarc/core/root_bag.hpp:25-36 | One more occurrence in the multiset, through growth, tombstones and reuse. |
| `RootBags.RootBag.RemoveOne` | src/aarc/core/root_bag.hpp:38-48 | One occurrence less if there is one, and says which. |
| `RootBags.RootBag.Grow` | src/aarc/core/root_bag.hpp:89-107 | Rehashing preserves all multiplicities and leaves no tombstone. |
| `RootBags.RootBag.Each` | src/aarc/core/root_bag.hpp:63-68 | Reports each key once with its multiplicity. |
| `Components.ConservativeComponents.AddLocal` | src/aarc/arc/local_components.hpp:43-53 | A fresh cell is a component of its own whatever label its slot carries; a slot that is still in a list breaks exactly that list, all others still partition their slots, and an incarnation of the owner loses none of its own if the label is not one of them. |
| `Components.ConservativeComponents.Merge` | src/aarc/arc/local_components.hpp:56-75 | Two components become one list with one label, and both ends of the new edge are together; a slot without a component changes nothing. |
| `Components.ConservativeComponents.Unlink` | src/aarc/arc/local_components.hpp:79-98 | A freed cell leaves its list, an empty component gives its header back; a component of an earlier incarnation of the owner is left alone. |
| `Components.ConservativeComponents.PromoteComponent` | src/aarc/arc/local_components.hpp:103-121 | Reports every member once, retires them, and covers everything connected to the seed in either direction; a stale component reports nothing. |
| `Components.ComponentCovers` | src/aarc/arc/local_components.hpp:11-13 | Whatever is connected to a slot by live edges is in its list. |
| `CellPools.CellPool.AllocInto` | src/aarc/core/cell.hpp:353-373 | Fails exactly when every shard is empty and, for an owner with a cache, its cache and pile too; the handle given out was never given out before, and handles given out earlier are as valid as they were. |
| `CellPools.CellPool.RefillLocal` | src/aarc/core/cell.hpp:377-394 | Leaves the cache full unless the owner's pile and every shard have run out; cached generations stay current and no handle's validity changes. |
| `CellPools.CellPool.Free` | src/aarc/core/cell.hpp:182-217 | Refuses stale handles; otherwise ends the validity of exactly this handle for good, the slot waiting in one place or retired at the last generation. |
| `CellPools.CellPool.DrainRecycle` | src/aarc/core/cell.hpp:221-231 | Empties a pile onto the shared lists. |
| `VmState.FreedKeepsMirror` | src/cpp/vm/GC.cpp:187-191 | Freeing what no root names and no survivor refers to keeps the mirror. |
| `VirtualMachine.Vm.SetReg` | src/cpp/vm/VM.cpp:105-113 | Acquire, write, release: the roots follow the registers, whatever the collector frees in between. |
| `VirtualMachine.Vm.SetGlobal` | src/cpp/vm/VM.cpp:115-123 | The same for globals. |
| `VirtualMachine.Vm.PushCallFrame` | src/cpp/vm/VM.cpp:228-247 | Saves the caller's locals outside the staging registers, each saved reference one more root. |
| `VirtualMachine.Vm.RestoreCallFrame` | src/cpp/vm/VM.cpp:249-259 | Clears arguments and staging, brings the locals back, and gives up the frame's roots only after the registers hold theirs. |
| `VirtualMachine.Vm.ThrowValue` | src/cpp/vm/VM.cpp:288-304 | Unwinds calls and spills to the handler with the thrown value rooted all the way. |
| `VirtualMachine.Vm.StoreCell` | src/cpp/vm/VM.cpp:884-910 | Old edge out, cell written, new edge in; never fails for a rooted object, which then holds the value. |
| `VirtualMachine.Vm.Exec` | src/cpp/vm/VM.cpp:757-961 | Every instruction does to registers, spills, frames, handlers and memory what it says, with its exact condition for raising or panicking; objects only disappear, but for the one written or allocated; and the collector's roots and edges stay equal to the references held and stored. |
| `VirtualMachine.HeldStoreRuns` | src/cpp/vm/VM.cpp:884-910 | A store through a register that holds a reference never panics while there is room. |
| `VirtualMachine.Vm.ExecCallInd` | src/cpp/vm/VM.cpp:1263-1289 | Indirect calls too: a closure is entered through its first cell with the arguments one register up and itself as the first, a plain value is entered directly, the caller's locals are pushed as they are after the shift; panics if and only if the closure has no readable cell. |
| `VirtualMachine.Vm.ExecRet` | src/cpp/vm/VM.cpp:1291-1306 | A return drops exactly the handlers of the frame, restores the caller and resumes at its return address; without a caller the run ends. |
| `VirtualMachine.Vm.Run` | src/cpp/vm/VM.cpp:757-1306 | Any program for any number of instructions: each step executes the instruction at the machine's position, until one does not go on or the number is reached. |
| `MachineLaws.CallReturns` | src/cpp/vm/VM.cpp:228-259 | Whatever a callee does to the registers, its return gives the caller its locals back, clears arguments and staging registers and leaves the result register. |
| `MachineLaws.UnwoundAt` | src/cpp/vm/VM.cpp:288-304 | Unwinding several calls brings back the locals of the frame unwound to. |
| `MachineLaws.ThrownArrives` | src/cpp/vm/VM.cpp:288-304 | What is thrown in a protected region arrives at its handler, with calls and spills as deep as when the region was entered and the handler gone. |
| `MachineLaws.SpillReturns` | src/cpp/vm/VM.cpp:834-861 | A register spilled and popped again holds what it held. |
| `MachineLaws.StoreThenLoad` | src/cpp/vm/VM.cpp:884-926 | A load through the same registers finds what was stored, as long as the object is rooted. |
| `VirtualMachine.NothingDangles` | src/cpp/vm/VM.cpp:105-134 | Then no register, global, spill entry, saved register or live cell names a dead object, and root counts are the number of places. |
| `VirtualMachine.RunCounting` | src/cpp/vm/GC.cpp:63-135 | Any program, for any number of instructions, with the reference-counting backend's own counts and reclamations: nothing dangles. |
| `VirtualMachine.RunCollecting` | src/cpp/vm/GC.cpp:151-350 | Any program, for any number of instructions, with the cycle collector's own sweeps and any scan policy: nothing dangles. |
| `CollectedHeaps.CollectedHeap.EdgeRemove` | src/cpp/vm/VM.cpp:900-903 | With either backend, giving an edge up while its cell still shows it frees only what no root names and no survivor refers to. |
| `CollectedHeaps.CollectedHeap.Write` | src/cpp/vm/VM.cpp:904-904 | Writing the cell between the two edge calls frees nothing, and the backend still stands for the memory but for that cell. |
| `CollectedHeaps.CollectedHeap.Alloc` | src/cpp/vm/VM.cpp:863-874 | A new object has no roots and no edges with either backend; refused exactly when the slot space is full. |
| `ReferenceCounting.ArcBackend.Reclaim` | src/cpp/vm/GC.cpp:115-135 | The worklist frees a set no root names and no survivor refers to, leaves every count exact, and leaves no object whose count has just reached zero. |
| `ReferenceCounting.ArcBackend.RootRemove` | src/cpp/vm/GC.cpp:81-99 | Releasing a root frees exactly such a set. |
| `ReferenceCounting.ArcBackend.EdgeRemove` | src/cpp/vm/GC.cpp:81-111 | So does releasing an edge whose cell still shows it. |
| `ReferenceCounting.ArcBackend.OnAlloc` | src/cpp/vm/GC.cpp:70-74 | A new object starts at zero with all counts exact and no edges recorded. |
| `ReferenceCounting.ArcBackend.CellWritten` | src/cpp/vm/GC.cpp:107-125 | Overwriting the cell between the two edge calls keeps counts and scan in order, so the hole can be closed. |
| `ReferenceCounting.ScanNeverFaultsIff` | src/cpp/vm/Heap.hpp:116-140 | On 32-bit sizes the reclaim scan never faults if and only if the request is a positive multiple of nine bytes, or so large that its rounding wraps to one cell. |
| `Backends.SweepingCollects` | src/cpp/vm/GC.cpp:187-210 | Zero sweeps and cycle passes in any order free only what the machine can spare. |
| `Backends.CollectsFrees` | src/cpp/vm/GC.cpp:328-350 | What the engine frees is collectible in the machine's memory, and the two agree afterwards. |
| `Backends.EdgeRemoveReflects` | src/cpp/vm/GC.cpp:346-350 | Each barrier call keeps the engine's rows equal to the machine's memory (also `RootAddReflects`, `RootRemoveReflects`, `EdgeAddReflects`). |
| `Backends.AllocReflects` | src/cpp/vm/GC.cpp:315-326 | So does an allocation, without asking the engine to collect. |
| `Backends.AarcBackend.Collect` | src/cpp/vm/GC.cpp:187-273 | The zero sweep spares every set of cells that feed each other; the policy is asked about the suspects that are left, and its counter goes on or restarts; when it asks, every orphaned component a suspect reaches is gone, and whatever is left without being kept hangs below a suspect made by the last zero sweep. |
| `Backends.AarcBackend.RootRemove` | src/cpp/vm/GC.cpp:334-338 | When the call scans, nothing is left of any unrooted component around the object to which nothing outside refers. |
| `Backends.AarcBackend.EdgeRemove` | src/cpp/vm/GC.cpp:346-350 | The same for the target of a removed reference. |
| `Knots.ZeroSpares` | src/aarc/arc/engine.hpp:186-198 | Freeing a cell of count zero touches no set of cells that refer to each other. |
| `Knots.KnotIsOrphan` | src/aarc/arc/engine.hpp:269-368 | A rootless component to which nothing outside refers passes the test for orphans as long as it lives. |
| `Backends.AarcBackend.AfterOp` | src/cpp/vm/GC.cpp:187-210 | What it frees is collectible in the machine's memory, and engine and heap agree afterwards. |
| `PayloadHeaps.StoreThenLoad` | src/cpp/vm/Heap.hpp:224-251 | In an orderly heap a stored cell reads back, and no other cell of any object changes. |
| `PayloadHeaps.ReservedEnoughIff` | src/cpp/vm/Heap.hpp:138-141 | A block holds every cell the bounds test lets through if and only if the request is below 2^32 - 8 bytes; above, the 32-bit rounding wraps to one cell. |
| `PayloadHeaps.HugeRequestOverlaps` | src/cpp/vm/Heap.hpp:138-238 | After requests of 4294967292 and of nine bytes, an accepted store through the first object changes cell 0 of the second. |
| `PayloadHeaps.PayloadHeap.Alloc` | src/cpp/vm/Heap.hpp:138-198 | For every 32-bit request: fails exactly at the slot cap; the heap stays orderly if and only if the arena has room below 2^32 bytes and a granted request is below 2^32 - 8; then the payload reads as zero, overlaps no other and disturbs none. |
| `PayloadHeaps.PayloadHeap.FreePayload` | src/cpp/vm/Heap.hpp:200-222 | Block to its size's list, handle to the free handles, generation up; other objects read as before. |
| `PayloadHeaps.PayloadHeap.ReserveSlots` | src/cpp/vm/Heap.hpp:86-93 | The slot space is fixed, exactly the new handles become free, no object changes. |
| `PayloadHeaps.PayloadHeap.StoreCell` | src/cpp/vm/Heap.hpp:224-238 | Refused for dead handles and past the requested size; otherwise as above. |
| `PayloadHeaps.PayloadHeap.LoadCell` | src/cpp/vm/Heap.hpp:240-251 | Reads the cell, or nothing for a dead handle or past the requested size. |
| `Bytecode.OperandRoundTrip` | src/cpp/backend/Disasm.cpp:148-191 | Decoding an encoded operand gives it back, wide registers folded, at the right next offset. |
| `Bytecode.DecodeBytecode` | src/cpp/backend/Disasm.cpp:230-263 | Succeeds if and only if the bytes split into instructions without gap or overlap, and returns that split. |
| `Bytecode.ProgramRoundTrip` | src/cpp/backend/Disasm.cpp:230-263 | Encoded programs decode to themselves with their byte offsets, and to nothing else. |
| `Assembler.Chunk.PatchU32` | src/cpp/backend/Chunk.hpp:118-126 | Overwrites exactly four bytes with the little-endian value. |
| `Assembler.Chunk.EmitOperand` | src/cpp/v2/backend/MIRCompiler.cpp:1071-1092 | Appends the operand's encoding, an address left open and noted. |
| `Assembler.Chunk.Assemble` | src/cpp/v2/backend/MIRCompiler.cpp:28-61 | Emitting with open addresses and patching them afterwards gives the encoding of the program with every label at the start of its instruction. |
| `Mir.LocalToReg` | src/cpp/v2/backend/MIRCompiler.hpp:34-41 | Registers of locals are below 4096 and never argument or staging registers. |
| `Mir.LocalToRegInjective` | src/cpp/v2/backend/MIRCompiler.hpp:34-41 | Different locals have different registers. |
| `Mir.NegateNegates` | src/cpp/vm/VM.cpp:986-996 | With 64-bit arithmetic the emitted subtraction from zero negates, except at the one word without an opposite. |
| `Mir.QuotientTruncates` | src/cpp/vm/VM.cpp:1009-1022 | Division truncates toward zero: what is left over is smaller than the divisor and has the sign of the dividend. |
| `WordLaws.DivisionLaws` | src/cpp/vm/VM.cpp:1009-1050 | On words, but for the least one divided by -1, the quotient leaves less than the divisor with the dividend's sign, no other quotient does, and the remainder is what it leaves. |
| `WordLaws.SumLaws` | src/cpp/vm/VM.cpp:961-995 | Addition is a commutative group with subtraction as its inverse, exact while the sum fits. |
| `WordLaws.ProductLaws` | src/cpp/vm/VM.cpp:997-1007 | Multiplication commutes, has 1 as unit, distributes over addition and is exact while the product fits. |
| `WordLaws.ShiftLeftLaws` | src/cpp/vm/VM.cpp:1024-1031 | One more place doubles once more; none changes nothing. |
| `WordLaws.ShiftRightLaws` | src/cpp/vm/VM.cpp:1033-1040 | A right shift is the floor of the division by the power and undoes a left shift that lost nothing. |
| `WordLaws.BitLaws` | src/cpp/vm/VM.cpp:1052-1066 | And, or and exclusive or work bit by bit, on all 64 bits. |
| `WordLaws.BitsDetermine` | src/cpp/vm/VM.cpp:1052-1066 | Two words with the same bits are equal. |
| `WordLaws.OrderLaws` | src/cpp/v2/backend/MIRCompiler.cpp:655-735 | Of less, equal and greater exactly one holds, and the other comparisons follow from them. |
| `Mir.SelectsFirst` | src/cpp/v2/backend/MIRCompiler.cpp:175-194 | A switch goes to the target of the first case with the value, or else to the default. |
| `MirSim.RunTail` | src/cpp/v2/backend/MIRCompiler.cpp:655-735 | The branches of all six comparisons leave 1 or 0 as the comparison says and meet behind it. |
| `MirSim.RunCases` | src/cpp/v2/backend/MIRCompiler.cpp:175-194 | The chain of an integer switch reaches the first matching case. |
| `MirSim.Simulates` | src/cpp/v2/backend/MIRCompiler.cpp:536-788 | One step of a body is a run of the machine to the next state, to a return with the same value, or to a trap. |
| `MirSim.RunSimulates` | src/cpp/v2/backend/MIRCompiler.cpp:96-126 | Any run of a body is matched by a run of its code. |
| `CompiledCode.LinkedIsEmitted` | src/cpp/v2/backend/MIRCompiler.cpp:1087-1103 | Patching labels afterwards, with any assignment of addresses, gives the code emitted with those addresses. |
| `CompiledCode.BodyLinks` | src/cpp/v2/backend/MIRCompiler.cpp:96-126 | The code of every body that fits 32-bit addresses is encodable and all its labels are defined. |
| `CompiledCode.Enters` | src/cpp/v2/backend/MIRCompiler.cpp:101-105 | The entry moves put every parameter in its local. |
| `CompiledCode.BytesSimulate` | src/cpp/v2/backend/MIRCompiler.cpp:96-201 | The decoded bytes of a compiled body, run from their start, do what the body does for any number of its steps. |
| `CompiledProgram.ProgramLinks` | src/cpp/v2/backend/MIRCompiler.cpp:28-61 | Entry stub and bodies, in one label space, always link if the code fits 32-bit addresses. |
| `CompiledProgram.StubCalls` | src/cpp/v2/backend/MIRCompiler.cpp:34-47 | In the linked program the stub calls each initialiser's body in order, stores its result in its global, and calls the main body last; every call's address is where that body starts. |
| `CompiledProgram.ProgramSimulates` | src/cpp/v2/backend/MIRCompiler.cpp:28-126 | The decoded bytes of a whole program, entered at any of its bodies, do what that body does for any number of its steps, wherever the body stands. |

## Where code and comments differ

* `gc_message.hpp` calls a folded batch observationally equivalent to the staged one. It is for the
  table (`FoldSameTable`), not for the marks (`FoldingLeaks`): the re-evaluation is emitted at the place
  of the first root operation, before an edge stored in between. `FoldedSweepExactIff` says exactly when
  it is harmless, `FoldSafeCovers` gives a test.
* The comment above the cycle collector claims that every removal that orphans a component marks it.
  That holds for stores into reachable cells; `EdgeAddCoveredIff` says exactly when it holds at all.
* A root removal that asks for more than a positive count clears the count without marking the cell
  (`PartialUnderflowLeaks`); `UnderflowCoveredIff` and `SettledIff` say exactly what it spoils, and no
  producer that removes only its own roots sends one.
* The whole-pool regime check compares regimes but not owners; the stronger statement holds.
* An allocation of zero bytes reserves one cell that may not be read, so reclaiming it under plain
  reference counting faults (`ScanNeverFaultsIff`).
* `Heap.hpp` says that nothing is ever addressed across a payload boundary. The rounding of a request to
  cells is done in 32 bits and wraps for the last eight sizes, while the bounds test uses the size
  asked for: such an object reaches the objects behind it (`HugeRequestOverlaps`). Sizes reach the heap
  through the `alloc` builtin and a cast, so a negative size is one of them.

* `setSpanPath` changes the way messages reach the ring at any time, but a flush leaves the unused rest
  of a span open. A message pushed after that switch is overwritten by the next write through the span
  (`PushIntoSpan`); the ring stays in order if and only if no span is open (`TryPush`).
* `local_components.hpp` says that the slot of a stale component will be reset. Nothing resets it before
  the slot is used again, and then its old list is broken; `AddLocal` says which lists that concerns.

## Left out

- Memory ordering, mutexes and condition variables: atomic accesses are interleaved steps and a locked section is one step.
- The mutator's discipline in the concurrent model: for safety, a producer removes only roots of its own, names only cells that are wanted or new, and removes an edge only if every order of draining finds its record; for exactness, it also stores only into cells its own roots reach over its own edges, and removes an edge of another only after everything has been drained.
- The sweep that ends a stable round is one step of the concurrent model; that the loops compute it is proved of the engine class.
- `CutTheorems.StableCutIsOneInstant`: exactness is stated for runs whose folded batches pass the test of `CutGrounds.FoldTest`; for any other folded batch it is `FoldExactness.FoldedSweepExactIff` on one engine.
- `CutTheorems.NothingHeldIsFreed`: speaks of SHARED cells; in adaptive mode (`Promotion`) a queued message is applied in one step, so batches that are not yet published and consistent cuts are not combined with the owners' inline engines.
- The blocking part of promotion (requests to foreign owners, retries, owner close): a served promotion is a freeze step and a commit step of the owner; the one-by-one flips inside each are not interleaved with other threads.
- `Promotion.ActKeeps`: excludes the one kind of message that puts an engine's own marks and stacks out of step (`Leaks.SettledIff`).
- `Regimes.CollectKeepsInv`: the candidate scratch a promoted cell would leave behind is empty after the preceding sweep, so clearing it is not a separate step.
- The zero-components branch of the cycle pass, which live roots rule out.
- `Rings.Ring.WriteToSpan`: returns when the ring is full instead of spinning; positions do not wrap at 64 bits; the capacity is the 4096 of the producer rings.
- `RefTables.RefTable.AllocateEdge`: an arena of 2^32 - 1 records refuses further additions for good; the wrap of the id counter after that refusal is not modelled, nor are the lock-free steps of the free list.
- `RootBags.RootBag.Add`: multiplicities are unbounded and the hash is any map into the table.
- `Components.ConservativeComponents.Merge`: stores of different owners are independent; its two slots carry no label of a broken list, which `Current` gives for the cells of a running incarnation.
- `CellPools.CellPool.Free`: whether the owner's pile has room is a parameter; free lists are sequences, not linked through the slots.
- `VirtualMachine.Vm.Exec`: instructions that only compute a scalar are one case with an arbitrary result; heap accesses fall on cell boundaries and requests are positive multiples of nine bytes below 2^32 - 8; virtual and interface calls, printing, strings and syscalls are not modelled; every runtime error carries the same message.
- `Backends.AarcBackend.Collect`: the scan policy is any function of the number of suspects and of the operations since the last scan; the slots the engine has freed are handed back to the heap after the sweep, in index order.
- `VirtualMachine.Vm.Run`: the release of registers at exit, which does not give up saved call frames.
- `PayloadHeaps.PayloadHeap.Alloc`: type ids and statistics; what an access does once the arena has outgrown 32-bit offsets.
- The machine's heap keeps cells as values; that bytes represent them is proved of `PayloadHeaps` separately. Slot generations of that heap saturate instead of wrapping.
- `Assembler.Chunk.Assemble`: labels are instruction indexes, so two labels never share a name.
- `CompiledProgram.StubCalls`: the call itself, the store into a global and the halt are encoded and placed, not executed by the integer machine.
- `Mir.NegateNegates`: overflow, division of the least word by -1 and shifts by 64 or more are undefined in the source; the simulation holds for any arithmetic, and `Alu64` wraps.
- `MirSim.Simulates`: statements are functions that return instruction lists where the source appends in place; floats, strings, casts, calls, aggregates, closures and globals.
- `Mir.LocalToReg`: a body with more than 4064 locals is refused by the source and is outside the model.
- Lexer, parser, type checker, monomorphiser, lowering, driver, module loader, dumps, metrics and benchmarks.
