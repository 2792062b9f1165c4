# Lutra: a verified model of its run execution core

Lutra runs graphs of tasks. A run is owned by one worker at a time, its graph is kept in memory by an executor, every change is first written to PostgreSQL, and its output is appended to numbered log streams that clients follow. This project models that core in Dafny and proves what it keeps.

| files | what they model |
|---|---|
| `Base`, `Graph` | identifiers, times, contexts, digests and numbers as bytes; nodes, the parent tree, prerequisites, subtree closure |
| `Validate` | the checks of a snapshot before it runs |
| `Exec` | the executor as a state machine: one step per lock-held section, slot wait or outside event |
| `ExecInvariants`, `ExecSteps`, `ExecRuns` | the inductive invariants, each kind of step, whole runs |
| `ExecReports` | the life cycle of a node, and what each end of it leaves as its result |
| `ExecCalls`, `ExecProgress` | waiting for children: counts, mutex and when each call can move on; the scheduler loop, and that no node in progress is left without its goroutine |
| `ExecBounds`, `ExecSlots`, `ExecWrites` | retry bounds, backoff and attempt numbers; one slot pool under many executors; the transitions each step sends to the store |
| `ExecClosure`, `ExecCuts` | structured closure: which terminal nodes have live descendants, from any snapshot; what a step cut short leaves behind |
| `Dispatch` | the outcome of a scheduling pass, whatever order it takes |
| `Executor` | the executor as a class whose sections change its fields, each proved to be a step of `Exec` |
| `RunStore`, `RunSafety`, `RunLeases`, `RunTables` | run ownership: claims, leases, fenced transitions, crash and reload; the statements as methods, each one step of the cluster |
| `RunRefinement`, `RunClosure` | executors and database together: the executors of any number of workers inside one run of the cluster; which loaded graphs are closed |
| `RunLog`, `Prefix`, `Tail`, `Subscription`, `Watch` | appending to log streams, prefix ranges, the filtered tail, the two phases of a watch and the reconnecting client |
| `ImageBuild`, `ImageWorker` | single-flight image builds, the claim transaction statement by statement |
| `TaskCache` | the cache row of one key |
| `Blob`, `BlobService` | upload sessions, blob rows and stored objects |
| `Envelope` | the length-prefixed stream between host and worker |
| `Paths` | names and link targets inside an archive |
| `Archive`, `ArchiveWriter` | the zstd:chunked archive reader and writer |

How concurrency is modelled: a run is a sequence of states with one step between neighbours, every interleaving of goroutines, callers, timers and answers from outside is such a sequence, and the theorems quantify over all of them. The executor class keeps its history as ghost state and each method adds exactly one step to it (a scheduling pass adds several) with the transitions it sent, in order, so the theorems about runs hold of its fields whenever the lock is free (`Executors.Executor.AtEveryRelease`). A run may start from any snapshot whose parent links form one tree, which is less than the code checks. The answers of the store, the cache, image builds, runners and consumers are arbitrary.

Points where the model makes the code's behaviour explicit:

- A node with two lost entries among its prerequisites is committed as failed twice, and only then (`ExecWrites.FailsTwiceExactly`, `ExecWrites.RecommitNeedsTwoLost`, `Executors.Executor.CheckPrerequisites` for the number of commits, with a run in `ExecWrites.SomeRunFailsTwice`); an entry for the node itself is lost behind another lost one. The SQL fence refuses the second write (`RunSafety.SecondFailureIsRefused`), which would end the run. For workers it does not come to that: their graphs have no prerequisites, so they never write a node that has ended (`RunRefinement.WorkersNeverRecommit`).
- Whatever the snapshot, a step leaves a node terminal above something live exactly if a scheduling pass fails it for a lost prerequisite (`ExecClosure.StepOpensExactly`), which closes nothing. It does happen (`ExecClosure.SomeRunOpens`), but not where no parent waits for a prerequisite (`ExecClosure.RunOpensNothing`), as in the graphs of workers.
- The graph a worker loads need not be closed. It is if no step of an earlier worker was cut short or refused, and whoever ended an action had added every stored child of it (`RunClosure.LoadsAreClosed`). A worker that crashes in the middle of a close always leaves it open (`RunClosure.CutLeavesOpenExactly`), and so can the end of an action whose child is stored but not yet added; `RunClosure.SomeCrashLeavesOpen` has a run for each. The executor runs such graphs as well: nothing else it promises asks for a closed snapshot.
- The check of link targets looks for the four characters `\x00` and for two backslashes in a row, not for a NUL and a backslash as the check of names does (`sdk/src/lutra/archive.py:334` and `:238-239`), so a link with a NUL or a single backslash passes (`Paths.SomeBadLinksPass`); exactly what is refused for its characters is in `Paths.RelativeLinkStays` and `Paths.AbsoluteLinkStays`. Where a link leads is checked as it should be: a relative one is accepted exactly if it never climbs above the archive's root.
- The archive writer accepts manifests, links and names the reader refuses; `ArchiveWriter.ReadableExactly` says exactly which archives can be read, `ArchiveWriter.WrittenYetRefused` names some that cannot.
- The content of a blob is guaranteed to be what its digest says exactly for sizes that are not uploaded in parts (`Blob.ContentGuaranteedExactly`): up to the part size of 8 MiB, and above the largest upload. In between, any content can be stored under any digest (`Blob.MultipartContentIsUnchecked`).
- A row keeps its object for good exactly if no removal of that object was given up unanswered (`Blob.RowsAreSafeExactly`). Such a removal can only come from an abort of that very upload which failed before the upload was completed (`Blob.LostAfterFailedAbort`), and may take effect later (`Blob.FailedAbortCanLoseABlob`).

## Model

| member | source | states |
|---|---|---|
| Graph.DescendantsLeast | internal/graphexec/executor.go:713-723 | the proper descendants of a node are contained in every set closed under "child of the node or of a member" |
| Graph.DescendantsClosed | internal/graphexec/executor.go:713-723 | every child of the node or of a descendant is a descendant |
| Graph.ClosureIsLocal | internal/graphexec/executor.go:706-741 | no terminal node has a live descendant if and only if no terminal parent has a live child |
| Graph.LeafKeepsTree | internal/graphexec/executor.go:565-570 | a fresh leaf under an existing node leaves one root, existing parents and no parent cycle |
| Validate.Visit | internal/graphexec/executor.go:215-234 | on success the node and all it needs are finished in an order with prerequisites first; on failure a prerequisite is missing or lies on a cycle |
| Validate.WalkParents | internal/graphexec/executor.go:236-245 | success means the parent exists and the node is on no parent cycle; the two errors mean a missing parent and a parent cycle somewhere |
| Validate.ValidateLocked | internal/graphexec/executor.go:209-251 | accepts if and only if all parent and prerequisite references exist and neither relation has a cycle, in whatever order nodes are visited |
| Validate.FindRoot | internal/graphexec/executor.go:266-281 | finds the only parentless node, or reports that there are several or none |
| Validate.CheckSnapshot | internal/graphexec/executor.go:261-281 | a non-empty snapshot passes if and only if references exist, prerequisites are acyclic and parents form a tree with one root, which is the root found |
| ExecSteps.FinishKept | internal/graphexec/executor.go:472-517 | the closing section of an attempt keeps every invariant and commits each node at most once |
| ExecSteps.StartAttemptKept | internal/graphexec/executor.go:438-459 | starting an attempt keeps every invariant, with and without a refused write |
| ExecSteps.MakeReadyKept | internal/graphexec/executor.go:347-354 | making a node ready and starting its goroutine keeps every invariant |
| ExecSteps.FailPendingKept | internal/graphexec/executor.go:333-341 | failing a node for a lost prerequisite keeps every invariant |
| ExecSteps.WaitBeginsKept | internal/graphexec/executor.go:588-619 | giving the slot back and counting a waiter keeps every invariant |
| ExecSteps.ReclaimKept | internal/graphexec/executor.go:685-697 | taking the slot again after a wait keeps every invariant |
| ExecSteps.CancelSubtreeKept | internal/graphexec/executor.go:752-771 | canceling a subtree keeps every invariant |
| ExecRuns.StepKept | internal/graphexec/executor.go:253-771 | every step of any kind keeps tree, accounts, timers, wake-ups and goroutines, and takes each node through at most one legal commit |
| ExecRuns.RunInv | internal/graphexec/executor.go:253-771 | the invariants hold in every state of every run, from any snapshot with one tree of parents |
| ExecRuns.RunKeepsTree | internal/graphexec/executor.go:543-576 | the parent links form one tree at every moment, additions included |
| ExecRuns.RunKeepsTerminal | internal/graphexec/executor.go:725-739 | a terminal node is the same in every later state |
| ExecRuns.RunNeverLosesWakeups | internal/graphexec/executor.go:287-318 | a parked loop with an empty wake buffer and a live context has a live root, and each pending node has a timer for its current attempt or waits for a live prerequisite with none lost |
| ExecRuns.RunKeepsSlots | internal/graphexec/executor.go:435-479 | while the context is live a running node's attempt holds a slot and one waiting for children holds none |
| ExecRuns.ReturnedRunIsFinal | internal/graphexec/executor.go:301-310 | after the run returned through its root the whole graph is terminal and stays as it is |
| ExecBounds.LedgerCounts | internal/graphexec/executor.go:448-466 | the account of a node equals the number of times the run handed it to the runner |
| ExecBounds.RunBoundsRetries | internal/graphexec/executor.go:497-506 | a node that comes with fewer failures than its limit is handed to the runner at most as often as failures are left, and its failures never pass the limit |
| ExecBounds.CacheableFailureIsFinal | internal/graphexec/executor.go:497-514 | in every run, a failed attempt ends its node if and only if the error is cacheable or the last one allowed; the node is then the same failed node for ever and is never handed to the runner again |
| ExecBounds.RunHonorsBackoff | internal/graphexec/executor.go:500-510 | a retry never starts before the time of the failure it follows plus that failure's backoff |
| ExecBounds.BackoffDoubles | internal/graphexec/executor.go:147-149 | the default delay is one second after the first failure, doubles with each further one and stays at 64 seconds from the seventh on |
| ExecBounds.RunNumbersAttempts | internal/graphexec/executor.go:448-458 | a later hand-over of a node has a larger attempt number |
| ExecBounds.RunNeverOverlapsAttempts | internal/graphexec/executor.go:472-480 | while one goroutine has an attempt of a node no other goroutine of that node is alive, and that attempt is the recorded one |
| ExecBounds.RunKeepsSpec | internal/graphexec/executor.go:187-207 | configuration of a node never changes; attempt and failure counts never go down |
| ExecReports.StepChanges | internal/graphexec/executor.go:187-771 | the whole life cycle of a node: in each step it stays as it is, goes on, ends by itself or is closed along, and each of these leaves exactly the state, reason, counts, retry time, output and message named |
| ExecReports.StepIsEffective | internal/graphexec/executor.go:187-771 | and whenever the step is for the node and its write is accepted, that does happen |
| ExecReports.OutputIsKept | internal/graphexec/executor.go:472-517 | what a runner returned without an error is the output of its node, done and without a message, in every state after the accepted closing section |
| ExecReports.FailureIsKept | internal/graphexec/executor.go:492-515 | an attempt that failed leaves its output and message and one failure more: pending with the retry time, or failed for good and the same in every later state |
| ExecReports.HitIsKept | internal/graphexec/executor.go:373-399 | a cache hit leaves the stored output, or the stored output and message of a failure, in every later state |
| ExecReports.OnlyAdded | internal/graphexec/executor.go:543-576 | a new node comes only from a call of the current attempt of its live parent, in a run none of whose writes has failed |
| ExecReports.EndedRunExecutesNothing | internal/graphexec/executor.go:362-517 | once the run's context has ended, no goroutine changes the graph any more, whatever cache, image builder, store and runner answer |
| ExecCalls.AttemptsKnowTheirCalls | internal/graphexec/executor.go:588-697 | in every state of every run, the waiters of an attempt are exactly the calls blocked for it, and its resume mutex is held by exactly the one call, if any, inside `resume` |
| ExecCalls.CallsWaitForChildren | internal/graphexec/executor.go:588-600 | a call waits for a child of its own parent, for the attempt it was made in |
| ExecCalls.CallStepsAre | internal/graphexec/executor.go:588-697 | how each section of `Wait` and `resume` moves its call, phase by phase, when a call may ask for a slot again, and that no other call moves |
| ExecCalls.EndedAttemptsAreCanceled | internal/graphexec/executor.go:706-741 | an attempt that goes on after its node has ended has been canceled, or the run has; one that is over always has, so no call stays blocked for it |
| ExecCalls.WaitEndsExactly | internal/graphexec/executor.go:620-649 | in every run, a blocked call can go on by itself if and only if its child has ended or its attempt is over |
| ExecCalls.DrainsExactly | internal/graphexec/executor.go:651-664 | a call that holds the mutex can go on if and only if no other call of the attempt is blocked any more, or the attempt is over |
| ExecCalls.FinishesExactly | internal/graphexec/executor.go:466-480 | a returned attempt can be closed if and only if no call of it is inside `resume` |
| ExecProgress.WakesExactly | internal/graphexec/executor.go:311-318 | a parked loop can go on if and only if its wake buffer is full or the context has ended, and then the buffer is empty |
| ExecProgress.ReturnsExactly | internal/graphexec/executor.go:289-310 | a pass can return through the root if and only if the root has ended, no write was refused and the context lives, and with an error if and only if one of the latter two fails |
| ExecProgress.TimersWakeExactly | internal/graphexec/executor.go:526-541 | a timer that fires is gone and wakes the loop if and only if its node is still pending with that attempt number |
| ExecProgress.NodesInProgressAreDriven | internal/graphexec/executor.go:344-517 | while its run goes on, every node that is ready, waiting or running has a live goroutine, the one last started for it |
| ExecSlots.StepBalanced | internal/graphexec/executor.go:435-479 | each step changes the set of slot holders exactly as it takes slots from the pool and gives them back |
| ExecSlots.SlotsAreConserved | internal/graphexec/executor.go:88-99 | over all executors sharing a pool, its occupancy is the number of attempts and calls holding a slot, never exceeds the capacity, and no release meets an empty pool |
| ExecSlots.ExitedLeavesNothing | internal/graphexec/executor.go:362-517 | an exited goroutine holds nothing of the pool |
| ExecSlots.RunningNodesFitThePool | internal/graphexec/executor.go:435-459 | no more nodes run at a time under live contexts, over all executors of stored rows, than the pool has room for |
| ExecWrites.StepIsExplained | internal/graphexec/executor.go:187-207 | the transitions a step sends, in the order it sends them, are each permitted for the node as it is then, take effect when acknowledged, stop at the first refusal, and are the whole of what the step changes in the graph |
| ExecWrites.RunIsTold | internal/graphexec/executor.go:187-207 | over a whole run, a node is what the last acknowledged transition of it says, or as in the snapshot or as added if there is none; the run has failed exactly if the last transition sent was refused, and none before it was |
| ExecWrites.RecommitNeedsTwoLost | internal/graphexec/executor.go:329-342 | in every run, a transition of a node that has already ended is sent only by a scheduling pass that finds two lost entries in the list of its prerequisites |
| ExecWrites.FailsTwiceExactly | internal/graphexec/executor.go:329-342 | a pass that looks at a due node may commit it as failed twice if and only if two entries of its list are lost, an entry for the node itself counting behind a lost one |
| ExecWrites.SomeRunFailsTwice | internal/graphexec/executor.go:329-342 | there is a run in which that happens |
| ExecWrites.PlainRunNeverRecommits | internal/graphexec/executor.go:329-342 | in a run whose snapshot and added nodes have no prerequisites, every transition is of a node that has not ended |
| ExecClosure.StepOpensExactly | internal/graphexec/executor.go:706-741 | from any state, and unless a write is refused, a node becomes a terminal node with a live descendant in a step if and only if a scheduling pass fails it for a lost prerequisite above something live |
| ExecClosure.RunOpens | internal/graphexec/executor.go:706-771 | over whole runs from any snapshot a terminal node has a live descendant only if it had one in the snapshot or was failed like that |
| ExecClosure.RunStaysClosedExactly | internal/graphexec/executor.go:329-343 | a run from a closed snapshot without a refused write is closed in every state if and only if no scheduling pass fails a node above something live |
| ExecClosure.RunOpensNothing | internal/graphexec/executor.go:706-771 | if no parent in the snapshot waits for a prerequisite, whatever ends in the run ends with everything below it, as long as no write is refused |
| ExecClosure.RunKeepsSubtreesClosed | internal/graphexec/executor.go:706-771 | so from a closed snapshot of that kind no terminal node ever has a live descendant |
| ExecClosure.SomeRunOpens | internal/graphexec/executor.go:329-343 | an acceptable closed snapshot whose first scheduling pass leaves a failed node above a live one |
| ExecCuts.CutStepExactly | internal/graphexec/executor.go:508-515 | an executor that stops after some of the transitions of a step leaves a closed graph closed if and only if it had sent none of them or all |
| Dispatch.DoomedIsLeast | internal/graphexec/executor.go:324-342 | the doomed nodes are the least set closed under "due with a lost or doomed prerequisite" |
| Dispatch.ExhaustedOutcome | internal/graphexec/executor.go:321-360 | with a moving clock, what was doomed or launchable at the start has been dealt with, and nothing beyond what became so by the end |
| Dispatch.DispatchIsConfluent | internal/graphexec/executor.go:321-360 | with the clock fixed and writes accepted, every order leads to one graph: exactly the doomed nodes failed and exactly the due nodes with all prerequisites done are ready |
| Executors.Worklist | internal/graphexec/executor.go:707-724 | the breadth-first worklist ends with exactly the proper descendants, or with all nodes for the nil parent |
| Executors.Executor.constructor | internal/graphexec/executor.go:140-162 | the last node of an identifier wins, and an error is recorded if and only if an identifier repeats |
| Executors.Executor.Begin | internal/graphexec/executor.go:253-287 | a second start, duplicates, unusable snapshots and empty graphs are told apart exactly, and an acceptable snapshot starts with a timer for every node not yet due |
| Executors.Executor.CommitLocked | internal/graphexec/executor.go:187-207 | the write is sent and the node replaced if the store took it; a refusal ends the run; after that nothing is sent |
| Executors.Executor.CloseLocked | internal/graphexec/executor.go:706-741 | cancels attempts and nodes of the worklist until a write is refused, and nothing outside it |
| Executors.Executor.CheckPrerequisites | internal/graphexec/executor.go:328-343 | tells whether all prerequisites are done, commits exactly one failure for each lost entry of the list, one for the node itself included, and leaves an otherwise blocked node alone |
| Executors.Executor.DispatchPass | internal/graphexec/executor.go:323-355 | a pass that failed no node leaves nothing to dispatch; one that did leaves fewer nodes pending |
| Executors.Executor.DispatchLocked | internal/graphexec/executor.go:321-360 | terminates; unless a write was refused every pending node then has its timer or is blocked, and the outcome lies between what was due at the start and at the end |
| Executors.Executor.ScheduleRound | internal/graphexec/executor.go:289-318 | a round returns on a refused write, an ended context or a terminal root, in that order, and otherwise dispatches and parks |
| Executors.Executor.BeginTaskSection | internal/graphexec/executor.go:362-372 | the first section of a goroutine is one step of the state machine |
| Executors.Executor.LookedUpSection | internal/graphexec/executor.go:373-410 | the section after a cache lookup is one step: give up, publish the hit and close, or go on |
| Executors.Executor.EnsuredSection | internal/graphexec/executor.go:411-434 | the section after the image is one step: give up, fail and close, or become ready again |
| Executors.Executor.LaunchSection | internal/graphexec/executor.go:438-459 | starting an attempt is one step, and the slot goes back on every path that does not start it |
| Executors.Executor.FinishSection | internal/graphexec/executor.go:472-517 | the closing section is one step, and gives a held slot back exactly once |
| Executors.Executor.AddSection | internal/graphexec/executor.go:543-576 | accepted exactly for a live active parent attempt and a new child or a known child of that parent, which changes nothing |
| Executors.Executor.WaitSection | internal/graphexec/executor.go:588-619 | refused without effect unless the parent attempt is active and the node is its child; otherwise one step that gives back a held slot |
| Executors.Executor.CheckAgainSection | internal/graphexec/executor.go:666-681 | goes on to acquire a slot exactly when the attempt is still active, not over and without a slot |
| Executors.Executor.RestoreSection | internal/graphexec/executor.go:685-697 | the acquired slot becomes the attempt's or goes back to the pool |
| Executors.Executor.CancelSubtreeSection | internal/graphexec/executor.go:752-771 | an unknown node is reported; otherwise one step that cancels the node if live and closes its subtree |
| Executors.Executor.CancelSection | internal/graphexec/executor.go:743-750 | one step that cancels every live node and ends the context |
| Executors.Executor.TimerSection | internal/graphexec/executor.go:526-541 | a timer wakes the loop exactly if the node is still pending with that attempt number |
| Executors.Executor.AtEveryRelease | internal/graphexec/executor.go:118-138 | whenever the lock is free the fields satisfy tree, no lost wake-up and finality, whatever the snapshot |
| Executors.Executor.LogAtEveryRelease | internal/graphexec/executor.go:187-207 | whenever the lock is free, the fields hold what the acknowledged transitions of the log make of the snapshot and the added nodes, and the log ends at the first refusal |
| Executors.Executor.ClosedAtEveryRelease | internal/graphexec/executor.go:706-771 | while no write was refused, a terminal node has a live descendant only for the two reasons named, and not at all if the snapshot was closed and no parent in it waits for a prerequisite |
| RunStore.ReloadCollapses | internal/lutra/run_worker.go:83-105 | reloading a stored node collapses its progress to pending and changes neither attempt number, failures, output, error nor retry time |
| RunSafety.FinishedRowsAreFinal | db/queries/runs.sql:212-228 | a finished row never changes again, whatever workers and cancellations do |
| RunSafety.AttemptsNeverDecrease | db/queries/runs.sql:212-228 | the attempt number of a row never goes down |
| RunSafety.FencedWorkerChangesNothing | db/queries/runs.sql:158-228 | once a worker's lease has expired, been replaced or been cleared, none of its later steps changes a row |
| RunSafety.EachAttemptRunsOnce | internal/lutra/graphexec_store.go:40-76 | each attempt number of an action reaches a runner at most once over all workers, and later ones are larger |
| RunSafety.LiveMemoryIsStored | internal/lutra/graphexec_store.go:40-76 | a worker with a live lease and no failed write has in memory exactly what the rows say |
| RunSafety.CommitStores | internal/lutra/graphexec_store.go:23-76 | in every run, after a committed transition the row holds the status of that name, the counts, output, message and retry time of the node sent |
| RunSafety.LoadRestoresRows | internal/lutra/run_worker.go:83-105 | in every run, a loaded node is what its row says: done, failed or canceled as the status says, pending otherwise, with the row's counts, output, message and retry time |
| RunSafety.CrashLosesNothing | internal/lutra/run_worker.go:166-210 | after a crash at any point and any number of claims, the next load gives every node collapsed to pending and otherwise as last committed |
| RunSafety.LoadsGraph | internal/lutra/run_worker.go:176-206 | a load rebuilds the whole graph as of the last committed transition |
| RunSafety.SecondFailureIsRefused | internal/graphexec/executor.go:329-342 | a transition of a finished node is rolled back and ends that worker's writing |
| RunSafety.LoadedGraphsAreAccepted | internal/lutra/run_worker.go:176-207 | whatever workers, crashes and cancellations did before, the loaded graph passes the checks of the executor: a tree under the run's root action, without prerequisites, its nodes pending or terminal |
| RunLeases.WrittenInTime | db/queries/runs.sql:158-228 | every row a worker writes it writes before the seconds it asked for in its claim or a renewal are over, and before another claim, a cancellation or its own release |
| RunLeases.LiveClaimStays | db/queries/runs.sql:158-191 | for the seconds a worker asked for nobody else claims the run, unless it is canceled or the worker releases it or renews it for less |
| RunLeases.WorkersStopAtAFailure | internal/lutra/graphexec_store.go:40-76 | after a transition that was not acknowledged, committed or not, its worker sends none and adds no node any more; it loads its graph once |
| RunTables.Tables.ClaimRun | db/queries/runs.sql:158-179 | claims exactly an unfinished run with no token or an expired lease, for exactly the seconds asked for; the claim fences every earlier token |
| RunTables.Tables.RenewRunLease | db/queries/runs.sql:181-186 | one updated row means the lease was live and goes on for the given time from now; none means it is lost for good, whatever happens later |
| RunTables.Tables.ReleaseRunClaim | db/queries/runs.sql:188-191 | the holder never writes again, any other claim stays as live as it was, and an unfinished run it held can be claimed at once |
| RunTables.Tables.ResetAndLoad | db/queries/runs.sql:193-205 | requeues exactly the running and waiting rows under a live lease; each node loaded is what its row says, and the graph is that of the last committed transition, collapsed, which the executor accepts |
| RunTables.Tables.Transition | internal/lutra/graphexec_store.go:40-76 | writes only with the token, before the lease is over, for the expected attempt of an unfinished row; then that row holds state, counts, output, message and retry time of the node and no other row changes; a failure may leave the write committed, a success always does |
| RunTables.Tables.CreateTaskAction | internal/lutra/runs.go:200-262 | under a live lease the guards on the rows hold exactly if the worker's own graph has the root live and the caller at work under that attempt number; then one queued row of the caller is new, which a reload finds as a pending child, and nothing else |
| RunTables.Tables.CancelRun | internal/lutra/runs.go:488-518 | cancels the unfinished rows of an unfinished run, which cannot be claimed again; every claim is fenced; finished rows stay |
| RunTables.Tables.LoadChild | internal/lutra/run_worker.go:320-341 | the node added for a child is its row collapsed; while the lease is live it is the stored graph's node, untouched by anyone |
| RunRefinement.MemoryIsTheGraph | internal/graphexec/executor.go:187-207 | while other workers, claims, expiries and cancellations go on, also between two transitions of one step, the executor's graph is its session's memory in every state, and it has stopped writing exactly when a write of the session failed |
| RunRefinement.GraphIsStored | internal/lutra/graphexec_store.go:40-76 | while the lease is live and no write has failed, the rows say what the executor's graph says |
| RunRefinement.ResultIsStored | internal/lutra/graphexec_store.go:23-76 | an accepted closing section leaves in the row what the runner returned, output, message, status, failures and retry time, and for good if it ended the action |
| RunRefinement.WritesAreFenced | internal/lutra/graphexec_store.go:40-76 | each transition the executor sends is one of its session, asked for with the attempt number it has; acknowledged means the fence held, and otherwise the executor has failed |
| RunRefinement.WorkersNeverRunTheSameAttempt | db/queries/runs.sql:212-228 | over all workers that ever drive the run, no two executors hand the same attempt of a node to a runner |
| RunRefinement.WorkersNeverRecommit | internal/lutra/run_worker.go:83-105 | no worker's executor ever sends a transition of a node that has ended |
| RunRefinement.EveryStepIsCarried | internal/graphexec/executor.go:253-771 | whatever an executor may do while its lease is live, some run of the cluster carries it: its transitions can be answered as the step says |
| RunRefinement.EveryLoadStartsAWorker | internal/lutra/run_worker.go:176-207 | whatever crashes, cancellations and other workers did before, each load gives a graph an executor starts on, and so a worker the other theorems speak of |
| RunClosure.LoadsAreClosed | internal/lutra/run_worker.go:176-207 | if no step so far was cut short or refused, and whoever ended an action had every stored child of it in its graph, a load under a live lease gives a closed graph |
| RunClosure.CutLeavesOpenExactly | internal/graphexec/executor.go:508-515 | a worker with a closed graph crashes after some of the transitions of a step; what is loaded next is closed if and only if none of them had been sent or all |
| RunClosure.SomeCrashLeavesOpen | internal/graphexec/executor.go:508-515 | every created run can go on so that an action ends above a live stored child, known to its worker or not, and the graph loaded after a crash is open |
| RunLog.BatchDigest | internal/runlog/service.go:138-149 | the bytes fed to the hash are the length-prefixed keys and values in order |
| RunLog.PreimageIsInjective | internal/runlog/service.go:138-149 | different batches never feed the same bytes to the hash |
| RunLog.ExhaustedExactly | internal/runlog/service.go:243-247 | the 64-bit check refuses exactly the batches after which the next number would not fit |
| RunLog.AppendedHolds | internal/runlog/service.go:243-276 | an accepted batch leaves the stream numbered from one without a gap, equal to the accepted batches, with every append row in place |
| RunLog.StreamIsGapless | internal/runlog/service.go:243-272 | record i has number i+1 and is the i-th entry of the concatenated batches |
| RunLog.Streams.CheckLimits | internal/runlog/service.go:193-216 | accepts exactly the batches within all limits, and names the first limit broken, entry by entry |
| RunLog.Streams.AppendTx | internal/runlog/service.go:189-281 | a known identifier with the same batch changes nothing and returns the first range; another batch is refused; a new one is numbered from the next number and its identifier recorded; what exceeds a limit is refused with that limit named, and refusals change nothing |
| RunLog.Streams.RetryFindsItsRecords | internal/runlog/service.go:229-242 | the range returned for an identifier holds exactly the batch it is used with |
| Prefix.PrefixSuccessor | internal/runlog/tail.go:24-33 | the incremented copy is the least bound above the prefix, or none for prefixes of 0xFF bytes |
| Prefix.PrefixIsRange | internal/runlog/tail.go:24-33 | a key has the prefix if and only if it lies between the prefix and its successor, for all byte strings |
| Prefix.BranchesCoverPrefix | db/queries/log.sql:51-71 | exactly one of the three branches applies to a key with the prefix, and none to any other |
| Tail.CandidatesSelect | db/queries/log.sql:50-73 | the three-way union is exactly the records with the prefix after the cursor, in order |
| Tail.BatchSelects | db/queries/log.sql:46-78 | a batch is exactly the matching records up to the number it reports as inspected, which moves forward unless the stream is exhausted |
| Tail.SelectSplits | internal/runlog/tail.go:121-208 | what is selected up to a number is what is selected up to any earlier one and then from there |
| Tail.SelectSorted | internal/runlog/tail.go:120-121 | selected records come in strictly increasing order |
| Tail.SelectComplete | internal/runlog/tail.go:120-121 | no matching record is left out of the selection |
| Subscriptions.Subscription.SendRows | internal/runlog/tail.go:143-168 | one batch is sent in order up to the bound, and stops at the first record the consumer stops at or when a send fails; wherever sending stops, the cursor is at what was sent |
| Subscriptions.Subscription.Round | internal/runlog/tail.go:123-178 | every cursor stays exactly served, and bounded cursors move or are done |
| Subscriptions.Subscription.Run | internal/runlog/tail.go:121-208 | under concurrent appends each cursor has been sent exactly the matching records between where it was and where it is; it ends only when every bound is reached, at the first record the consumer stops at, when a read or a send failed or when the context is over; bounds within the streams need no notification and at most as many rounds as records are left |
| Watch.WatchRun | internal/lutra/runs.go:535-633 | over both phases the task log records sent are exactly the matching ones after the client's number; a normal end means that the run has ended, that the end of the log was read after that, and that nothing up to there is missing; any other end that the context is over or something failed |
| Watch.FollowRun | ui/src/lib/watch-run.ts:17-51 | however connections break, the client yields the matching records from the first on, each once and in order; it finishes with the first connection that ends normally, none that was there when the run ended is then missing, and it gives up only after a fatal error or its last try |
| ImageBuild.BuildsAgree | internal/lutra/image.go:84-124 | under every interleaving of statements at most one row is building and at most one ready, and all artifacts returned for the key are the same |
| ImageBuild.OneReadyEver | db/queries/image.sql:28-47 | at most one row is ever ready, and it keeps its artifact |
| ImageBuild.SettledIsNotPublished | db/queries/image.sql:37-42 | a builder whose row was expired or settled never publishes |
| ImageBuild.UpdatedInTime | db/queries/image.sql:31-47 | in every run a row is published, failed or renewed only with the token it was inserted with, and less than 30 seconds after the start of the transaction that inserted it or after a renewal |
| ImageBuild.LateBuilderIsRefused | internal/lutra/image.go:155-164 | a builder that does not renew publishes and fails nothing from 30 seconds after its claim on, swept or not |
| ImageBuild.ExpiredOnlyLate | db/queries/image.sql:1-9 | nobody but its builder ends a build before its lease is over, and then it has failed with the message that says so |
| ImageWorker.FreeKeyIsClaimed | internal/lutra/image.go:84-124 | a key without a ready build whose running build, if any, is past its lease can be claimed: that one is failed and a new row building for 30 seconds is there |
| ImageWorker.Worker.ClaimImageBuild | internal/lutra/image.go:84-124 | whatever others do between its statements, a row it returns is the committed row, a ready one counts as the agreed artifact, an owned one is its own; nothing means another build runs, an error that a statement failed |
| ImageWorker.Worker.BuildImage | internal/lutra/image.go:126-170 | an image returned is the row's, published in time and with its token; a lost lease means the row was not the builder's any more; whoever comes with its lease over publishes and fails nothing |
| ImageWorker.Worker.EnsureImage | internal/lutra/image.go:42-82 | an image returned is the artifact of the ready row, the one every other successful call returns; other ends are the error of a failed row, a lost lease, a failed statement or the context; until then it waits only for builds that run or were expired, and claims anew only when the one it waited for is lost |
| TaskCache.OneResultPerKey | internal/lutra/task_cache.go:17-91 | at most one result is ever published for a key, and every hit answers with it |
| TaskCache.PublishedByHolder | db/queries/runs.sql:64-70 | over every run of owners, expiries and releases, what was published is exactly what owners finished with while they held the row under a live lease |
| TaskCache.PublishedInTime | db/queries/runs.sql:64-70 | whatever is published, its owner finishes with it less than 30 seconds after claiming or renewing the row |
| TaskCache.LiveClaimStays | db/queries/runs.sql:55-80 | a claim less than 30 seconds old is exclusive: until its owner gives it up nobody takes the row, expires it or publishes |
| TaskCache.TimelyOwnerPublishes | internal/lutra/task_cache.go:77-91 | an owner that finishes in time publishes, and every later lookup that hits answers with its result |
| TaskCache.ReadyStays | db/queries/runs.sql:58-80 | once ready the row never changes |
| TaskCache.LostOwnerIsFenced | internal/lutra/task_cache.go:77-91 | an owner that lost its claim and does not claim anew can publish nothing |
| TaskCache.Client.Lookup | internal/lutra/task_cache.go:17-75 | an answer found is the one published result; the right to compute comes with the row for 30 seconds; a result that is there is found unless a statement fails, and a lookup waits as long as its context lives, but only for a row that was there |
| TaskCache.Client.Store | internal/lutra/task_cache.go:77-91 | publishing succeeds exactly for the owner whose claim is there and in time; any other error gives up that owner's claim and no other |
| Blob.SessionsAndBlobsAreDisjoint | internal/blob/service.go:249-376 | live sessions and blob rows never share an object |
| Blob.RequestsTakeTurns | internal/blob/service.go:249-376 | one request at a time works on a session: between two that lock its row, the first has given the lock back |
| Blob.CommittedBlobsStay | internal/blob/service.go:249-376 | once a digest has a row it keeps it; the row's object never changes, and stays unless a removal of it had been given up unanswered |
| Blob.RowsAreSafeExactly | internal/blob/service.go:350-376 | a row's object is safe in everything that may still happen if and only if no removal of it was given up |
| Blob.LostAfterFailedAbort | internal/blob/service.go:336-376 | a row misses its object only after a request to abort that very upload failed on the object |
| Blob.FailedAbortCanLoseABlob | internal/blob/service.go:336-376 | for every content uploaded in one piece there is a run in which that happens |
| Blob.BlobContentIsItsDigest | internal/blob/service.go:270-288 | in every run, the object of a row has exactly the content of its digest unless its size is that of an upload in parts |
| Blob.PutContentIsItsDigest | internal/blob/service.go:66-89 | data stored by a direct put is what its row's digest says, whatever its size |
| Blob.MultipartContentIsUnchecked | internal/blob/service.go:289-318 | for every content above the part size and up to the largest upload, and every other digest, there is a run that stores that content under that digest |
| Blob.ContentGuaranteedExactly | internal/blob/service.go:138-177 | the objects of one size always match their digests if and only if that size is at most 8388608 or more than 83886080000, that is not uploaded in parts |
| BlobService.Service.PutData | internal/blob/service.go:66-89 | on success the digest of the data has a row, with its object unless a removal of that was given up; nothing is stored for a digest that has one; it fails only if something else does |
| BlobService.PartsHoldTheContent | internal/blob/service.go:91-93 | the number of parts is the least that holds the content, at most 10000 for the largest upload |
| BlobService.Service.CompleteUpload | internal/blob/service.go:249-334 | success is reported only for a session that was there, with the parts its size needs, which is then gone, and the digest it was opened with has a row, with this object or after an attempt to remove it; each error is reported exactly for what is wrong with the session, the parts or the object then, or because something failed |
| BlobService.Service.CheckUpload | internal/blob/service.go:270-318 | passes only a complete ordered part list, or none for a single upload, and an object of the session's size that a single upload's digest stands for; any error says what is wrong and leaves the session as it was |
| BlobService.Service.AbortSession | internal/blob/service.go:350-376 | on success the session is gone, and its object was removed before unless someone else had the session; it fails only if something else does |
| Envelope.WrapInBuffer | internal/taskstdio/transport.go:278-284 | fills the buffer with flags, length and payload |
| Envelope.ReadsWrapped | internal/taskstdio/transport.go:278-284 | what was printed is read back, whatever follows it |
| Envelope.ChunksDoNotMatter | sdk/src/lutra/serve/_host.py:292-313 | the parser writes the same frames, fails or not, and keeps the same bytes however its input is cut |
| Envelope.EnvelopesRoundTrip | sdk/src/lutra/serve/_host.py:292-326 | payloads sent as envelopes and one end-of-stream envelope, cut anywhere, give exactly those messages and then exactly one end |
| Envelope.EveryStreamIsPacked | sdk/src/lutra/serve/_host.py:292-313 | every stream of bytes is envelopes followed by too few bytes for another or by an envelope with other flags |
| Envelope.Call.SendBody | sdk/src/lutra/serve/_host.py:292-326 | one body event does to the call what the specification says, errors and the final event included |
| Envelope.Call.Respond | sdk/src/lutra/serve/_host.py:278-326 | for every stream of bytes in any events: exactly its messages and ends in order, one more end if it has none and nothing is left over, and a failure for a cut or unknown envelope; a unary response gives its body, as message or error, and one end |
| Envelope.SendRequest | internal/taskstdio/transport.go:164-206 | sends the payloads of the longest acceptable prefix, then a half-close or a cancellation |
| Envelope.RequestsOfWrapped | internal/taskstdio/transport.go:164-206 | a body of plain envelopes below the line limit is sent payload by payload and closed |
| Envelope.ClosedRequestsAreEnvelopes | internal/taskstdio/transport.go:164-206 | a request closed normally was exactly such a body |
| Envelope.CanceledRequestsExactly | internal/taskstdio/transport.go:164-206 | any other request is canceled after exactly the payloads of the plain envelopes it starts with |
| Archive.FooterRoundTrip | sdk/src/lutra/archive.py:290-304 | the footer written at the end gives back the manifest's location |
| Archive.FooterBytes | sdk/src/lutra/archive.py:196 | the footer byte by byte: a skippable frame of 64 bytes, offset and both lengths of the manifest, version 1, no tar-split data, the closing magic |
| Paths.SafeNameIsSafe | sdk/src/lutra/archive.py:233-245 | the name check passes exactly relative names without a backslash or NUL and without a part that is empty, "." or ".." |
| Paths.RelativeLinkStays | sdk/src/lutra/archive.py:333-347 | a relative link of a safe name is accepted if and only if, followed step by step from the directory of its name, it is nowhere above the archive's root, and two texts do not occur in it |
| Paths.AbsoluteLinkStays | sdk/src/lutra/archive.py:337-342 | an absolute link is accepted if and only if its normal form is at or below /nix/store or /usr, it does not start with exactly two slashes, and the two texts do not occur in it |
| Paths.NormalDrops | sdk/src/lutra/archive.py:338-344 | in the normal form empty components and dots are dropped, a component and the two dots after it cancel, and two dots at the root are dropped |
| Paths.SomeBadLinksPass | sdk/src/lutra/archive.py:333-336 | a link that is a NUL or a single backslash is not refused |
| Archive.AcceptedRangesDoNotOverlap | sdk/src/lutra/archive.py:436-441 | ranges are accepted if and only if, put in order, none begins before the one in front has ended |
| Archive.AcceptedExactly | sdk/src/lutra/archive.py:372-442 | whoever wrote it, a manifest is accepted if and only if its items are regular files, directories and links with distinct safe names, files with a range inside the limit and a digest, links that pass the check, and ranges that do not overlap |
| Archive.CheckManifest | sdk/src/lutra/archive.py:416-442 | the loops over entries and sorted ranges accept exactly such manifests and give one entry for each item |
| Archive.ManifestExactly | sdk/src/lutra/archive.py:290-370 | an archive has a manifest if and only if it ends with a footer whose location holds bytes of at most the limit that decompress to the size it names |
| Archive.ReadIsVerified | sdk/src/lutra/archive.py:462-486 | whatever a read returns has the size and the digest the entry records, whoever wrote the archive |
| Archive.MissingExactly | sdk/src/lutra/archive.py:473-477 | a file is reported missing exactly if the archive is good and lists no regular file of that name |
| ArchiveWriter.Frame | sdk/src/lutra/archive.py:127-144 | compresses exactly the next bytes of the tar as one frame, or reports that the tar ended |
| ArchiveWriter.WriteArchive | sdk/src/lutra/archive.py:163-199 | the writer's loops produce the specified layout, or the error for oversized metadata or output |
| ArchiveWriter.WriteTar | sdk/src/lutra/archive.py:87-124 | a tar is written exactly if all names are safe and no file takes it over the limits; byte by byte it is each header, the file's data and zeros up to whole blocks, and zeros for at least two blocks up to a whole record |
| ArchiveWriter.ManifestLists | sdk/src/lutra/archive.py:173-196 | whatever archive is written ends in a manifest with one entry per member, in order: kind, name, mode and link, and for a file with content its size, digest and the range where one whole frame decodes to it |
| ArchiveWriter.WrittenExactly | sdk/src/lutra/archive.py:150-199 | an archive is written if and only if its manifest is at most 64 MiB, fits its frame once compressed, and the whole is at most 2 GiB |
| ArchiveWriter.FramesPartitionTheTar | sdk/src/lutra/archive.py:163-193 | the frames hold the pieces of a partition of the tar, in order, with no gap and no overlap |
| ArchiveWriter.ArchiveRoundTrip | sdk/src/lutra/archive.py:462-485 | every regular file is read back byte for byte, for any invertible self-delimiting codec |
| ArchiveWriter.OtherNamesAreAbsent | sdk/src/lutra/archive.py:473-477 | no other name is found |
| ArchiveWriter.ReadableExactly | sdk/src/lutra/archive.py:401-442 | what was written can be read if and only if the compressed manifest is at most 64 MiB, links are acceptable and names distinct |
| ArchiveWriter.WrittenYetRefused | sdk/src/lutra/archive.py:393-398 | an archive with a link the reader refuses, or with one name twice, is written and cannot be read, whatever the codec |
| ArchiveWriter.CreateArchive | sdk/src/lutra/archive.py:202-230 | from files to files: it fails only if the files do not fit; what it writes lists every file in order with its mode, link, size and digest, and if the reader accepts it, every file is read back under its own name |

## Left out

- Executors.Executor.Begin: requires that no node has the nil identifier, as no stored row has; with a nil root the code's root scan depends on iteration order.
- Executors.Executor.constructor: snapshot nodes carry their state; the empty state standing for pending is not modelled.
- Executors.Executor.WaitSection: the 32-bit wrap-around of attempt, failure and waiter counts is not modelled; counts are unbounded.
- Executors.Executor.LookedUpSection: an executor with a cache key or image key always has a cache and an image builder; options left nil behave like empty keys.
- Executors.Executor.CancelSection: canceling before the run has started is not modelled.
- ExecBounds.RunHonorsBackoff: the default backoff is modelled, not one passed as an option.
- ExecRuns.RunKeepsSlots: snapshots and added nodes are pending or terminal, as the rows they come from; a snapshot node that claims to be running has no attempt in this executor.
- ExecSlots.RunningNodesFitThePool: the same.
- ExecCuts.CutStepExactly: the steps that cancel every node of the run are left out, as they go through the nodes in any order and may be cut anywhere; so is the failure for a lost prerequisite, which `ExecClosure.StepOpensExactly` covers.
- RunClosure.CutLeavesOpenExactly: the same steps are left out, and the graph before the step is closed with every stored row in it.
- ExecRuns.RunNeverLosesWakeups: it is a safety property; that goroutines are eventually scheduled is not claimed.
- RunSafety.FencedWorkerChangesNothing: a statement and its transaction are atomic and read one clock; a transaction that began before a lease ran out and commits afterwards under an unchanged token is not modelled.
- RunSafety.CrashLosesNothing: times are stored exactly; the microsecond rounding of timestamps is not modelled.
- RunTables.Tables.CreateTaskAction: repeated idempotency keys return the earlier row without a change and are left out with the checks of environments and namespaces.
- RunTables.Tables.Transition: the status records appended to the log in the same transaction are left out.
- RunLog.Streams.AppendTx: large values moved to the object store, stream name syntax and notifications are left out; the hash is taken to be collision-free and CBOR well-formedness is a parameter.
- Watch.WatchRun: snapshots of the run are not sent; a status record is modelled by whether it reports a final status; records are compared by number, key and value.
- RunRefinement.MemoryIsTheGraph: the row of a new child is read at the moment it is added to the graph; a read some time before is not modelled.
- ImageBuild.BuildsAgree: one image key at a time; a row that is waited for until the caller gives up counts as an error.
- TaskCache.Client.Lookup: database errors, which the code reports as uncacheable hits, are one outcome.
- BlobService.Service.CompleteUpload: session expiry, metadata, MIME types, signed URL lifetimes and the shortcut for known digests are left out.
- Envelope.EnvelopesRoundTrip: payloads are opaque; JSON encoding and decoding, headers and call identifiers are left out.
- ArchiveWriter.ArchiveRoundTrip: tar headers, the manifest's JSON text, time stamps and the compressor are parameters or left out, as is extraction to disk.
- The database, the object store, HTTP handlers, the web interface, settings, namespaces, task log collection, page tokens and blob URIs are not modelled.
