# Verification of findus

findus is a task runtime. Its processes form an implicit binary tree (the children of process p are
2p + 1 and 2p + 2), every process runs worker threads and one communication thread, and several
protocols run on that tree. This project models those protocols and proves what they promise, for
every number of processes, every predicate and every interleaving.

`dafny verify dfyconfig.toml` checks the whole project.

## What is modelled

* `ProcessTree` — the tree links, the upward walk to the nearest contributing process, the downward
  stack search, the layered listing of a subtree. Up and down searches are dual.
* `TreeReduction` — one reduction id across processes: the metadata each contribution carries, the
  combining step with its signed counter, and the protocol as a step system.
* `ThreadReduction` — one reduction id across the threads of a process: own handler, atomic counter,
  and the thread that collects.
* `ProbeTable`, `ReductionTables`, `ReductionCounter` — the three open-addressed tables: when they are
  a map, and when they are not.
* `SharedCounter`, `SharedCounterHomes` — many reduction ids at once on the threads of a process, sharing
  the table of the counter: when each behaves as if it were alone, and which ids always do.
* `LocalQuiescence` — quiescence inside a process (the SKR algorithm) with worker and driver loops,
  interleaved at single accesses to shared counters.
* `GlobalQd`, `SweepSystem`, `SweepInvariant`, `SendRequests`, `Termination`, `CheckRefinement`,
  `Completeness`, `CodeRuns`, `CheckRounds`, `TrafficPatterns`, `LeafBranch` — global quiescence detection
  (the BCJ algorithm): the code of `qd::Global` as a class, the protocol as a step system with regular
  messages, its invariant, how long it keeps the buffers of its sends, what a detected termination means,
  why every call of `check` is a run of that system, why a quiet system is detected and shuts down, by
  single steps and by whole calls, which regular messages make the detection right, and runs of the code
  in which it is wrong.
* `MessageLists` — the lists of open MPI operations and `remove_if` on them.
* `Broadcast`, `BroadcastTo`, `Collections` — broadcasts over the tree, the two-pass packing of a
  `broadcast_to`, and the bookkeeping both rely on.
* `Accounting` — the byte-level consistency check of what processes registered. `Bytes`,
  `Arithmetic` and `FiniteSets` hold helpers.
* `PointersAndCodes` — relative member function pointers, and the word that carries direction and
  sweep number.

Code that updates objects or buffers is a class or a method with loops, proved equal to functions
about which the laws are stated. Protocols are step systems: a state, the enabled steps, a function
`After` that runs a sequence of steps, and an invariant of all runs. Reduction data is a bag of
contributions, so the results hold for every associative and commutative combine operation.

## Where the code does not meet what one would expect

The model follows the code; each point is a lemma with the exact condition.

* **Global detection is not sound for every run.** A leaf answers a sweep without looking at the
  stamps of the messages it processed, and never advances its own sweep number.
  `LeafBranch.DetectionCanBeWrong`: for every number of processes above one there is a run of the code,
  made of whole calls, that detects quiescence while a leaf works. One process is always safe
  (`GlobalQd.SingleProcessTerminates`). `Termination.DecisionIsConsistentCutIff`: at the decision the
  records are a consistent cut if and only if no message to or from a leaf was early; then the system is
  quiet (`Termination.TerminationSafety`). The converse of that last step does not hold
  (`LeafBranch.DetectionCanBeRightAnyway`). `LeafBranch.PatternDecides`: a pattern of who sends to whom
  makes the detection right in every run if and only if it has no process p that some process may send
  to and that may send to a process r not below it, where p or r is a leaf. So leaves may send as long as
  nobody sends to them.
* **Received messages can be lost.** `clean_incoming_mpi_messages` treats what `remove_if` leaves
  behind the kept elements as the removed ones. `MessageLists.TailIsReceivedIff`: that is right if and
  only if no unfinished receive comes after a finished one in the list. `MessageLists.LostExactly`: the
  received messages that are lost are those whose place is below the number of unfinished receives.
* **Releasing a slot of a reduction table can split a reduction.** `ProbeTable.ReleaseKeepsWellProbed`:
  the table stays searchable if and only if the slot is on no other live id's probe path;
  `ProbeTable.HarmfulReleaseSplits` says what happens otherwise.
* **No thread may see a reduction complete.** The documentation of the counter says that one call of a
  key returns true when all contributions were made. `SharedCounter.EachIdCompletesOnce`: that holds in
  every run in which no released slot is on the way of another id, in the table or in a search under way.
  `SharedCounterHomes.HomesDecide`: it holds in all runs if and only if the ids have pairwise different
  home slots. Of two others, one can be stuck for ever, with a few contributions from two threads.
* **The counter's probing loop misses a slot.** It compares a masked index with an unmasked bound.
  `ReductionCounter.FindSlot`: it reports a full container if and only if the key is between 2 and the
  size plus one and every slot it looks at holds another key; unless there is only one slot, it never
  looks at the one before its home slot. `ReductionCounter.LargeKeysNeverEnd`: for other keys it never
  reports one, contrary to its documentation, and goes on for ever when there is no slot.
* **A full table of reductions between processes loses messages.** `combine_inter_process` has no branch
  for it. `ReductionTables.FullTableLosesMessage`: a message whose id has no slot is dropped, and if the
  first slot is its home slot, the table is read past its end.
* The documentation of global detection says that several sweeps can be in progress at once; the code
  allows one (`SweepInvariant.SweepsAggregate`).

## Model

| member | source | states |
|---|---|---|
| `ProcessTree.LinksAreInverse` | src/ParentAndChildren.cpp:30-67 | for all pairs of processes, q is a child link of p exactly when p is the parent link of q, and only 0 has no parent |
| `ProcessTree.NearestAboveMeaning` | include/findus/ParentAndChildren.hpp:177-192 | the upward walk ends at the one ancestor that satisfies the predicate with none between, or at -1 exactly when no ancestor does |
| `ProcessTree.FindFirstParent` | include/findus/ParentAndChildren.hpp:177-192 | the loop terminates and returns that nearest ancestor, with the errors of the link computation and -1 for -1 |
| `ProcessTree.FrontiersMakeFirstDescendants` | include/findus/ParentAndChildren.hpp:103-141 | searching both subtrees and stopping at matches finds exactly the matching strict descendants with nothing matching between, no one twice |
| `ProcessTree.CountFirstDescendants` | include/findus/ParentAndChildren.hpp:103-141 | the stack search terminates and its count is the number of those first descendants |
| `ProcessTree.UpDownDuality` | include/findus/ParentAndChildren.hpp:103-192 | the processes the downward search counts are exactly those whose upward walk ends at p, for a contributing p, and those whose walk ends at -1 for a non-contributing root |
| `ProcessTree.ChildrenInSubtree` | src/ParentAndChildren.cpp:69-120 | the layer loop terminates with the strict descendants, all of them, in strictly increasing order |
| `TreeReduction.SearchCountsFeeders` | include/findus/Reduction.hpp:775-793 | the expected number a process announces is the number of processes whose target it is |
| `TreeReduction.SetInterprocessMessageInfo` | include/findus/Reduction.hpp:798-836 | target, expected count and root count are the nearest contributing ancestor or 0, the number of processes that will send there plus one, and for a non-contributing root the number it must wait for |
| `TreeReduction.Contribution` | include/findus/DistributedTaskDriver.hpp:1749-1772 | a contribution enters the protocol with the placeholder source and destination and that metadata |
| `TreeReduction.ArrivalAtSlot` | src/Reduction.cpp:94-160 | an arrival at a slot that is right for what came so far leaves it right, and it is emitted with count 0 exactly when everything has arrived |
| `TreeReduction.RunsKeepInv` | src/Reduction.cpp:79-161 | every interleaving keeps every slot, channel and contribution accounted for |
| `TreeReduction.ReductionSafety` | src/DistributedTaskDriver.cpp:909-994 | in every run process 0 emits at most one message, and it has every contributor's data exactly once |
| `TreeReduction.ReductionCompletes` | src/DistributedTaskDriver.cpp:909-994 | a run that cannot go on has emitted, if anybody contributes |
| `TreeReduction.CounterIsOrderIndependent` | src/Reduction.cpp:94-160 | after k arrivals the stored count is the announced number, or 0 before the own contribution, minus k, in whatever order they came |
| `TreeReduction.RunsAreBounded` | src/Reduction.cpp:79-161 | every run ends: each contribution and each message is processed once |
| `ThreadReduction.LastSubFollowsAdd` | include/findus/Detail/ReductionCounter.hpp:233-262 | the decrement that ends the count comes after the addition of the expected number, although others decrement before it |
| `ThreadReduction.RunsKeepInv` | include/findus/Reduction.hpp:705-747 | every interleaving of the atomic accesses keeps each contribution in one place and one claimer per slot |
| `ThreadReduction.OneThreadCompletes` | include/findus/Reduction.hpp:705-747 | for an id alone: in every run at most one call returns a message, with every contribution exactly once, and then no handler holds the id; no pop fails |
| `ThreadReduction.SomeThreadCompletes` | include/findus/Detail/ReductionCounter.hpp:256-262 | for an id alone: a run that cannot go on has returned that message |
| `ThreadReduction.CollectThreads` | include/findus/Reduction.hpp:727-737 | the collecting loop takes everything stored under the id and leaves it in no handler |
| `SharedCounter.OwnAlone` | include/findus/Detail/ReductionCounter.hpp:215-262 | with any number of ids in one table, a step of a call for one id is steps of that reduction alone |
| `SharedCounter.OtherAlone` | include/findus/Detail/ReductionCounter.hpp:215-262 | and none of any other |
| `SharedCounter.ReleaseKeepsTableIff` | include/findus/Detail/ReductionCounter.hpp:258-261 | a release leaves all searches, present and future, right if and only if its slot is on no live id's way and no searching thread has passed it |
| `SharedCounter.EachIdCompletesOnce` | include/findus/Detail/ReductionCounter.hpp:112-115 | in every run whose releases are such, for every id at most one call returns a message, with all its contributions once, and one has when all were made and no call is under way |
| `SharedCounter.SearchAlone` | include/findus/Detail/ReductionCounter.hpp:223-231 | an undisturbed search of a thread ends at the slot that the search of the table finds |
| `SharedCounterHomes.DistinctHomesAreHarmless` | include/findus/Detail/ReductionCounter.hpp:223-231 | ids with different home slots never meet: every release is harmless and nobody gives up |
| `SharedCounterHomes.CanComplete` | include/findus/Detail/ReductionCounter.hpp:223-262 | then the calls for an id whose contributions were all made can always go on to the end, and one has returned the message |
| `SharedCounterHomes.SharedHomesCanStick` | include/findus/Detail/ReductionCounter.hpp:223-262 | of any two ids with one home slot, one can have all its contributions made and on no continuation return |
| `SharedCounterHomes.HandlersAreTables` | include/findus/Reduction.hpp:705-737 | with different home slots, what each thread stores is the map its own table of the same size holds after the insertions and pops of the run, and that table is never too full |
| `SharedCounterHomes.HomesDecide` | include/findus/Detail/ReductionCounter.hpp:112-115 | the ids for which no run makes a reduction impossible to complete, by a split, an exception or an endless search, are exactly those with pairwise different home slots |
| `Arithmetic.MaskIsRemainder` | src/Reduction.cpp:56-56 | masking with the size minus one is the remainder, for every power of two |
| `ProbeTable.ProbeVisitsAll` | src/Reduction.cpp:53-63 | each slot is probed exactly once |
| `ProbeTable.StopDecides` | include/findus/Reduction.hpp:378-413 | on a table where every live id is reachable, the probe that stops at a free slot decides membership, and is at capacity exactly when every slot holds another id |
| `ProbeTable.WriteIsMapUpdate` | include/findus/Reduction.hpp:384-410 | writing where the probe stopped updates one key of the map and keeps the table searchable |
| `ProbeTable.ReleaseKeepsWellProbed` | src/Reduction.cpp:37-49 | releasing a slot keeps the table searchable if and only if it lies on no other live id's way |
| `ProbeTable.ReleaseIsMapRemove` | src/Reduction.cpp:37-49 | then the release removes one key |
| `ProbeTable.HarmfulReleaseSplits` | include/findus/Reduction.hpp:378-413 | otherwise some live id gets a second entry at its next insertion |
| `ProbeTable.RunsRefineMap` | include/findus/Reduction.hpp:378-413 | over every run of insertions and pops whose releases are harmless, the table is the map of the same operations, which refuses a new key exactly when it has as many as there are slots |
| `ReductionTables.DataHandler.constructor` | src/Reduction.cpp:34-35 | a new table of any size is empty and searchable; it is usable exactly if the size is a power of two |
| `ReductionTables.DataHandler.IndexOf` | src/Reduction.cpp:51-65 | the scan finds the first slot of the id over the whole table |
| `ReductionTables.DataHandler.Pop` | src/Reduction.cpp:37-49 | returns the stored message and frees the slot, or fails for an unknown id and changes nothing |
| `ReductionTables.DataHandler.InsertOrCombine` | include/findus/Reduction.hpp:348-414 | combines, inserts or reports capacity, with the errors for id 0 and other message types |
| `ReductionTables.PopMaySplitAnId` | src/Reduction.cpp:37-49 | a concrete table on which a pop makes the next contribution open a second entry |
| `ReductionTables.InterProcessTable.CombineInterProcess` | src/Reduction.cpp:79-161 | for every table and id: the probing loop performs the single-slot step on the slot of the id and leaves the others alone, or what the code does without one |
| `ReductionTables.FullTableLosesMessage` | src/Reduction.cpp:87-159 | while all stored entries wait, a message is lost exactly when every slot holds another id, and exactly if its home slot is then the first the table is read past its end |
| `ReductionTables.CombineActsOnMap` | src/Reduction.cpp:87-159 | on a searchable table that is the protocol's step on the entry of the id, and it stays so exactly when a released slot is on nobody's way |
| `ReductionCounter.NewCounter` | src/Detail/ReductionCounter.cpp:12-40 | the constructor accepts exactly the powers of two, and the new table is empty |
| `ReductionCounter.FindSlot` | include/findus/Detail/ReductionCounter.hpp:215-266 | the loop throws exactly for key 0, returns the first usable slot it looks at, reports a full container exactly for a small key when every slot it looks at, all but one or the only one, holds another key, and is still going otherwise |
| `ReductionCounter.GivesUpOnOthers` | include/findus/Detail/ReductionCounter.hpp:223-225 | the slots a search looks at before it gives up are all but the one before the home slot, or the only one |
| `ReductionCounter.LargeKeysNeverEnd` | include/findus/Detail/ReductionCounter.hpp:223-266 | for a key above the size plus one, or key 1, the loop goes on for ever exactly when no slot is usable |
| `ReductionCounter.FullWithFreeSlot` | include/findus/Detail/ReductionCounter.hpp:223-266 | a container of four with a free slot reports that it is full for key 5 |
| `LocalQuiescence.Local.IsQuiescent` | src/QuiescenceDetection.cpp:22-65 | the two-phase check on fields, with the exception for other phases |
| `LocalQuiescence.CallTwice` | src/QuiescenceDetection.cpp:22-65 | two calls in a process where nothing changes between return false and then true |
| `LocalQuiescence.ReadsWithoutInterference` | src/QuiescenceDetection.cpp:22-65 | the three separate reads of the step system are that check when nothing happens between them |
| `LocalQuiescence.LocalDetectionIsSound` | include/findus/ThreadPool.hpp:218-351 | under every interleaving, when the check returns true no task is queued or executing and every worker is idle |
| `LocalQuiescence.QuiescenceLasts` | include/findus/ThreadPool.hpp:218-351 | that stays true until the driver adds a task |
| `LocalQuiescence.PassiveAtGlobalCheck` | src/DistributedTaskDriver.cpp:257-286 | whenever the global check is called, no task is queued or running, both MPI lists are empty and so is the outgoing queue |
| `LocalQuiescence.QuietIsDetectedLocally` | src/DistributedTaskDriver.cpp:257-286 | in every run: once the process is quiet with nothing to send or receive, the check returns true within three rounds of the driver, whatever the workers do meanwhile, and the global check is called within 258 of its steps |
| `LocalQuiescence.WorkersSettle` | include/findus/ThreadPool.hpp:218-351 | without tasks each step of a worker brings it closer to being counted as idle, at most 21 of them |
| `LocalQuiescence.Drains` | src/DistributedTaskDriver.cpp:257-272 | the driver can always send off what is queued and then find its lists empty |
| `GlobalQd.Global.constructor` | src/QuiescenceDetection.cpp:82-91 | the constructed state of a process |
| `GlobalQd.Global.IncrementSends` | src/QuiescenceDetection.cpp:259-259 | what a sent message does to the fields; the step system uses the same function |
| `GlobalQd.Global.IncrementProcessed` | src/QuiescenceDetection.cpp:261-261 | likewise for a processed one |
| `GlobalQd.Global.UpdateLastRegular` | src/QuiescenceDetection.cpp:253-257 | and for the stamp it carries |
| `GlobalQd.Global.CleanupDownMessages` | src/QuiescenceDetection.cpp:367-429 | an entry stays exactly if some child that exists has not received its copy yet; or throws exactly on a message of the wrong direction |
| `GlobalQd.OpenDownsSplits` | src/QuiescenceDetection.cpp:400-429 | the entries that stay keep their order and number |
| `GlobalQd.Global.CleanupUpMessages` | src/QuiescenceDetection.cpp:542-575 | the same for up messages and the parent |
| `GlobalQd.Global.SendDownToChildren` | src/QuiescenceDetection.cpp:342-365 | one message and one request per existing child |
| `GlobalQd.Global.RunDownTraversal` | src/QuiescenceDetection.cpp:272-340 | the whole down traversal: new sweep at the root, forward, or the leaf's answer as written |
| `GlobalQd.Global.ReceiveUpMessagesFrom` | src/QuiescenceDetection.cpp:492-540 | the receive loop adds what the probes saw to the accumulations, with saturation |
| `GlobalQd.ReceiveUpsTakes` | src/QuiescenceDetection.cpp:492-540 | unless it throws, the loop takes as many messages as its probes see and there are, from this child only, and adds each to the sum and the count of its sweep |
| `GlobalQd.Global.FinishCurrentSweep` | src/QuiescenceDetection.cpp:457-489 | the end of an up traversal: total passed on, decision, or a new sweep |
| `GlobalQd.Global.RunUpTraversal` | src/QuiescenceDetection.cpp:431-490 | the whole up traversal |
| `GlobalQd.Global.RunCheckImpl` | src/QuiescenceDetection.cpp:156-218 | the whole check, including the termination broadcast |
| `GlobalQd.Global.RunSafeReset` | src/QuiescenceDetection.cpp:99-154 | clean-up, the checks that throw, and the reset |
| `GlobalQd.PiecesThrowIff` | src/QuiescenceDetection.cpp:190-540 | exactly which messages and entries make the pieces of a call throw |
| `GlobalQd.SingleProcessTerminates` | src/QuiescenceDetection.cpp:157-169 | with one process the check detects at once and resets to the constructed state |
| `SweepInvariant.Monotone` | src/QuiescenceDetection.cpp:272-340 | down the tree, processes have recorded no fewer sweeps and begun no more |
| `SweepInvariant.RunsKeepInv` | src/QuiescenceDetection.cpp:156-218 | every run keeps: what each channel and accumulation holds is determined by how many sweeps each process has begun and recorded |
| `SendRequests.BuffersAreHeld` | src/QuiescenceDetection.cpp:342-429 | in every run, while a message of the detection has not been received its sender holds the entry with it |
| `SweepInvariant.SweepsAggregate` | src/QuiescenceDetection.cpp:431-540 | at most one sweep is in progress, each process records once in it, an accumulation never holds two sweeps or more than the child count, and the root's total is the saturating sum of all recorded values |
| `SweepInvariant.BroadcastOncePerEdge` | src/QuiescenceDetection.cpp:577-595 | the termination broadcast crosses every edge exactly once |
| `SweepInvariant.ResetNeverThrows` | src/QuiescenceDetection.cpp:99-154 | in every run none of the exceptions of the reset fires and the process is as constructed |
| `SweepInvariant.BarrierRestoresEverything` | src/QuiescenceDetection.cpp:136-154 | with all processes at the barrier every channel is empty and every process as constructed |
| `SweepInvariant.ShutdownProgresses` | src/QuiescenceDetection.cpp:171-228 | after the decision some process can always take the broadcast or reset, until all are at the barrier |
| `Termination.UnsaturatedIsSum` | src/QuiescenceDetection.cpp:263-270 | a total that is not saturated is the exact sum, and no value below it was saturated |
| `Termination.SaturatingSumInRange` | src/QuiescenceDetection.cpp:263-270 | if the unsaturated values together fit an int64, so does every intermediate total, and the total is saturated exactly when some value is |
| `Termination.EarlyTaints` | src/QuiescenceDetection.cpp:459-462 | a message from a non-leaf that is sent after its sender's record and arrives before its receiver's carries a stamp above the receiver's sweep number |
| `Termination.RunsAccounted` | src/QuiescenceDetection.cpp:431-490 | in every run the counters balance the messages in flight and the late and early ones of the sweep |
| `Termination.TerminationSafety` | src/QuiescenceDetection.cpp:478-486 | once a process left the running mode no regular message is in flight and every process is passive, provided no message to or from a leaf was early in the deciding sweep |
| `Termination.DecisionIsConsistentCutIff` | src/QuiescenceDetection.cpp:324-338 | at the decision, every message sent before its sender's record was processed before its receiver's, if and only if no leaf message was early; and then the system is quiet |
| `Termination.InnerTrafficIsSafe` | src/QuiescenceDetection.cpp:431-490 | without regular messages to or from leaves, detection implies quiescence in every run |
| `TrafficPatterns.PatternIsSafe` | src/QuiescenceDetection.cpp:324-338 | if the messages follow a safe pattern, detection implies quiescence in every run |
| `CheckRefinement.CheckIsSteps` | src/QuiescenceDetection.cpp:156-226 | in every run a whole call of the check is a sequence of the system's steps of that process with the same result, and throws nothing; it advances the detection whenever its probes see something that can |
| `Completeness.RunsKeepStamps` | src/QuiescenceDetection.cpp:253-257 | in every run no stamp, stored or in flight, is above the current sweep |
| `Completeness.FreshSweepDetects` | src/QuiescenceDetection.cpp:457-486 | a sweep that began in a quiet system ends with the detection, if the counts fit an int64 |
| `Completeness.SweepProgresses` | src/QuiescenceDetection.cpp:431-490 | in a quiet system some process can take a step of the detection until the root has decided |
| `Completeness.QuietIsDetected` | src/QuiescenceDetection.cpp:156-218 | from every reachable quiet state, however the processes' checks interleave, the root decides after at most 6n + 1 steps that advance the detection, and until then one is possible |
| `CodeRuns.EventsAreRun` | src/DistributedTaskDriver.cpp:257-286 | every run of whole calls with regular messages between them is a run of the step system with the same messages |
| `CheckRounds.SomeoneCanAdvance` | src/QuiescenceDetection.cpp:156-218 | in a quiet undecided state there is a process whose whole call advances the detection, if its probes see what is there |
| `CheckRounds.RoundsDetect` | src/QuiescenceDetection.cpp:156-218 | from every reachable quiet state, whole calls of the check in which every process calls 6n + 2 times with probes that see, in any order and with any others between, end with the root's detection and no exception |
| `CheckRounds.RoundsReset` | src/QuiescenceDetection.cpp:99-228 | and when they call 8n + 2 times, with the reset after a detection, all of them are at the barrier in their constructed state, with every channel empty and no exception |
| `LeafBranch.DetectionCanBeWrong` | src/QuiescenceDetection.cpp:324-338 | for every number of processes above one, a run of whole calls at whose end the root has detected quiescence while a leaf is active |
| `LeafBranch.DetectionCanBeRightAnyway` | src/QuiescenceDetection.cpp:324-338 | for every number of processes above one, a run of whole calls with an early leaf message whose detection is right |
| `LeafBranch.PatternDecides` | src/QuiescenceDetection.cpp:431-490 | the patterns of regular messages with which detection implies quiescence in every run of the code are exactly the safe ones |
| `MessageLists.RemoveFinished` | src/DistributedTaskDriver.cpp:1088-1116 | remove_if in place: kept entries in order at the front, and what the moves leave behind them |
| `MessageLists.CleanOutgoing` | src/DistributedTaskDriver.cpp:1087-1117 | exactly the unfinished sends stay, in order |
| `MessageLists.TakeReceived` | src/DistributedTaskDriver.cpp:1231-1247 | exactly the unfinished receives stay, and what lies behind them is dispatched |
| `MessageLists.SelectAt` | src/DistributedTaskDriver.cpp:1088-1116 | the kept entries are all of them, once and in order |
| `MessageLists.TailIsReceivedIff` | src/DistributedTaskDriver.cpp:1232-1258 | what is dispatched is the received messages if and only if no unfinished receive comes after a received one |
| `MessageLists.LostExactly` | src/DistributedTaskDriver.cpp:1232-1258 | a received message is lost exactly if its place is below the number of unfinished receives |
| `MessageLists.EarlierCompletionIsLost` | src/DistributedTaskDriver.cpp:1232-1258 | the smallest list on which a received message is lost |
| `Broadcast.SendToChildren` | src/DistributedTaskDriver.cpp:996-1011 | one copy per existing child, left first, or the exception for equal children |
| `Broadcast.CopiesAreChildren` | src/DistributedTaskDriver.cpp:996-1011 | the copies go to exactly the processes whose parent this is, each once |
| `Broadcast.DeliveryIsTheLoop` | src/DistributedTaskDriver.cpp:1436-1458 | a delivery invokes exactly the tasks that the loop over the local elements makes, whatever its order |
| `Broadcast.NeverTwice` | src/DistributedTaskDriver.cpp:1030-1064 | in every run no process delivers twice and no element is invoked twice |
| `Broadcast.ExactlyOnce` | src/DistributedTaskDriver.cpp:1030-1064 | from any source, a finished broadcast delivered once on every process, invoked every element once, and took n - 1 messages plus one if the source is not 0 |
| `Broadcast.RunsAreBounded` | src/DistributedTaskDriver.cpp:1292-1294 | every broadcast ends |
| `Collections.Collection.InsertElement` | include/findus/DistributedTaskDriver.hpp:1043-1116 | the element is registered on the process asked for, at the end of its list, and counted if that is this one; or an error, in the code's order, leaves everything as it was |
| `Collections.Collection.RemoveElement` | include/findus/DistributedTaskDriver.hpp:1118-1165 | the element leaves the map, its place in its list and the count, or an error leaves everything as it was |
| `Collections.RemovalTakesOne` | include/findus/DistributedTaskDriver.hpp:1147-1159 | from every consistent registry a removal takes that element and no other, and the rest keeps its process and order |
| `Collections.HistoryDecides` | include/findus/DistributedTaskDriver.hpp:1090-1164 | after every sequence of operations an element is on process p exactly if the last operation on it that took effect inserted it on p; the lists are in the order of these insertions |
| `Collections.RunsKeepConsistent` | include/findus/DistributedTaskDriver.hpp:1090-1164 | over every sequence of insertions and removals the lists partition the elements by process without duplicates, and the local count is the local number |
| `Collections.RemoveUndoesInsert` | include/findus/DistributedTaskDriver.hpp:1118-1165 | removing what was just inserted restores everything |
| `Collections.ExpectedContributions` | include/findus/DistributedTaskDriver.hpp:1648-1666 | the number of contributions a process expects is its number of matching elements, the shortcut without a predicate agrees, and it takes part exactly when it owns a match |
| `Collections.Collection.AddLocalBroadcastTasks` | src/DistributedTaskDriver.cpp:1436-1458 | the loop with its early break makes exactly one task per local element, whatever the iteration order |
| `Collections.AllSeen` | src/DistributedTaskDriver.cpp:1443-1445 | the early break skips nobody |
| `BroadcastTo.DataBehindSlots` | src/Message.cpp:48-65 | the data starts aligned behind all slots, with at most one alignment of padding |
| `BroadcastTo.FillAppends` | include/findus/DistributedTaskDriver.hpp:1524-1538 | filling a counted slot appends the id and overwrites neither another slot nor the data |
| `BroadcastTo.ComputeElementsPerPid` | include/findus/DistributedTaskDriver.hpp:1775-1833 | the counting pass counts the matching elements of every process |
| `BroadcastTo.PassesAgree` | include/findus/DistributedTaskDriver.hpp:1494-1541 | both passes see as many, whatever their iteration orders |
| `BroadcastTo.SendBroadcastTo` | include/findus/DistributedTaskDriver.hpp:1448-1541 | the local tasks are the local matches, and each remote process with matches gets one message that lists exactly its matches and carries the data |
| `BroadcastTo.ExpandPacket` | src/DistributedTaskDriver.cpp:1459-1496 | the receiver's tests and loop, for any bytes |
| `BroadcastTo.ExpandedMeaning` | src/DistributedTaskDriver.cpp:1330-1496 | exactly which packets are rejected, for which reason, and that the others make one task per listed id, in order; a packet shorter than its count says is read past its end |
| `BroadcastTo.DeliversExactly` | src/DistributedTaskDriver.cpp:1459-1496 | what the sender packed, the receiver accepts and expands to exactly the matching elements, each once, with the sender's data |
| `Accounting.SerializeComponentAccounting` | src/DistributedTaskDriver.cpp:651-746 | the buffer is the counts, the regular names in order, and the collections with their sorted elements |
| `Accounting.RegisteredInOrder` | src/DistributedTaskDriver.cpp:651-746 | names and collections are listed component by component in the order of registration |
| `Accounting.CompareComponentAccountingBuffers` | src/DistributedTaskDriver.cpp:528-648 | the comparison with two read pointers finds the first difference or none |
| `Accounting.SortedListing` | src/DistributedTaskDriver.cpp:714-724 | sorted listings are equal exactly when the maps are, whatever the iteration orders |
| `Accounting.CompareIsExact` | src/DistributedTaskDriver.cpp:512-648 | the comparison accepts the buffers of two processes if and only if they agree on names, order and the process of every element; otherwise the reported kind is that of the first difference; it never reads past the end |
| `Accounting.SmallestDifference` | src/DistributedTaskDriver.cpp:606-643 | among collections of one size the first difference is at the smallest id they place differently: different ids if only one has it, different processes if both do |
| `Accounting.EmptyBuffers` | src/DistributedTaskDriver.cpp:532-541 | an empty buffer is reported exactly against one that is not |
| `Accounting.TreeCheckIsExact` | src/DistributedTaskDriver.cpp:748-833 | no process rejects a child if and only if all processes have the same accounting |
| `Bytes.DecodeEncode` | src/DistributedTaskDriver.cpp:486-492 | reading a field back gives what was written |
| `PointersAndCodes.MinusIsExact` | include/findus/Detail/MemberFunctionPtr.hpp:39-52 | the two-word difference with borrow is exact modulo 2^128 |
| `PointersAndCodes.PlusIsExact` | include/findus/Detail/MemberFunctionPtr.hpp:54-67 | the two-word sum with carry is exact modulo 2^128 |
| `PointersAndCodes.RelativePointer` | include/findus/DistributedTaskDriver.hpp:784-805 | a relative pointer arrives shifted by the difference of the anchors, and is the same pointer exactly when they agree |
| `PointersAndCodes.Create` | include/findus/QuiescenceDetection.hpp:236-268 | direction and sweep number can be read back exactly for sweep numbers below 2^63 |

## Left out

- MPI calls, request handles and MPI errors: channels per sender, receiver and tag are FIFO, a send of the
  detection is complete once received, that of a regular message may be before, a probe may miss a
  message, and the barrier is one joint step.
- Weak memory orders: all atomic accesses are sequentially consistent.
- The moodycamel queue: `empty_approx` is exact when nobody produces, requeueing succeeds, and the pool
  starts with an empty queue.
- `std::thread`, core binding, hardware information, options, debugger, logging, `stop_threads`.
- Serializers: a message's data is a byte string or an abstract value; the user's combine operation is
  associative and commutative.
- `MessageHeader` bit fields, callbacks, exception texts, printing, the Charm compatibility headers.
- `max_simultaneous_qds_` is stored and never read by the detection.
- The send limit of `initiate_sends`: its loop can exceed `max_to_send`, so no bound is claimed.
- Fairness: that every process goes on calling the check, and that the local check in turn is reached,
  is the hypothesis of `CheckRounds.RoundsDetect` and `CheckRounds.RoundsReset`, not a result.
- ReductionCounter.FindSlot: the search in a table that no other thread changes meanwhile; searches that
  interleave are in `SharedCounter`.
- ThreadReduction.OneThreadCompletes: one id whose slot nobody else releases; for many ids that share the
  table see `SharedCounter.EachIdCompletesOnce`.
- ThreadReduction.SomeThreadCompletes: likewise; a thread of `SharedCounter` can also search for ever, or
  throw, in a full table.
- SharedCounter.EachIdCompletesOnce: each id is used for one reduction. What a thread stores is a map; for
  ids with different home slots `SharedCounterHomes.HandlersAreTables` shows that its table is that map,
  for others it is under the condition of `ProbeTable.RunsRefineMap`.
- SweepSystem: the stamp of a regular message is that of the sending step, since a process takes part
  in a sweep only when its outgoing queue is empty; a broadcast forwarded to a child keeps its stamp.
- BroadcastTo.SendBroadcastTo: message buffers are byte sequences updated as values, because each has
  one owner; sizes are bounded so that the 32-bit offsets do not wrap.
- Accounting.CompareIsExact: element counts below 2^32, since the loop index of the comparison has 32
  bits; the buffer is a value, not the vector in place.
- Accounting.SerializeComponentAccounting: `std::sort` is an insertion sort on distinct ids.
- Collections.Collection.InsertElement: registering the component itself and constructing the element
  object.
