# Kernel event log: a verified model

The kernel of this system is an append-only event log with projections folded from it. Each
subsystem takes a mutex, folds the log, checks a guard and appends an event. This project models the
parts of the kernel with the most state and branching, and proves what every run of them keeps.

Two forms are used. Where one mutex makes a call atomic, the subsystem is a class with a `log` field
(or the source's own fields), its methods are proved to append only events that a `Legal` predicate
allows, and theorems are proved about every legal log. Where calls interleave between mutex sections,
file-system calls or channel operations, the subsystem is a state machine with one step per section,
and theorems are proved about every sequence of steps.

| subsystem | files |
|---|---|
| task graph | `Walks`, `TaskGraph`, `TaskGraphTheorems`, `TaskGraphKernel` |
| ledger files, index and rebuild | `LedgerFrames`, `LedgerIndex`, `LedgerRebuild`, `LedgerLimits`, `Ledger`, `LedgerExample` |
| ledger lock | `LedgerLock` |
| capped output buffer | `CappedOutput` |
| context compaction | `Compaction`, `CompactionTheorems`, `CompactionExamples`, `CompactionKernel` |
| managed job executor | `JobExecutor`, `JobExecutorTheorems`, `EarlyAttachTheorems` |
| job facts | `Jobs`, `JobsKernel` |
| approvals | `Approvals`, `ApprovalTheorems` |
| memory review | `Memory`, `MemoryTheorems`, `MemoryKernel` |

`dafny verify dfyconfig.toml` checks all of it.

## Where the code keeps less than one would expect

Each of these has an input that reaches it and, for all inputs, the condition under which the expected
property holds.

- **Ledger lock.** Stale-lock recovery takes the age of the lock file from one call and its content
  from another. If the holder closes and creates a new lock file in between, recovery judges the new,
  still empty file by the age of the old one and removes it, and two processes hold the lock.
  `LedgerLock.AtMostOneHolder` proves exclusion for all runs without such a torn read,
  `LedgerLock.TornReadBreaksExclusion` that every torn read can end with two holders,
  `LedgerLock.ExclusiveIffNeverTorn` that a state stays exclusive in all its continuations if and only
  if none of them makes a torn read, and `LedgerLock.TornReadHappens` gives a run that reaches one.
- **Bound graph nodes.** A node bound to an invocation can still be given dependencies, and its run
  ignores them. Dependency order holds for unbound nodes, and for all nodes as long as no dependency
  is added to a bound one; the first such edge makes a violation possible in the next event
  (`TaskGraphTheorems.OrderKeptWithoutLateEdges`, `EdgeIntoBoundNodeBreaksOrder`,
  `BoundNodesMayIgnoreDependencies`).
- **Reason of a blocked node.** The shown status never depends on the stored one, but the shown reason
  can: a node stored as blocked is scanned only up to its first dependency and keeps the stored reason
  if that one is alive. `TaskGraphTheorems.StoredStateHiddenIff` gives the exact condition,
  `AgreeingDeathsHideStoredState` that both a failed and a cancelled predecessor are needed, and
  `ReasonMayBeStale` a log with a stale reason.
- **Duplicate event ids.** `Append` writes the frame before the index refuses a duplicate id; from
  then on no rebuild succeeds, whatever is appended later. A rebuild succeeds exactly when ids are
  unique (`LedgerLimits.RebuildSucceedsIff`).
- **Partial index.** An index with a gap, left by an append whose transaction was lost before a later
  one committed, keeps two things wrong. It can keep a later title of a session: the sessions table is
  restored exactly when every title it kept is the first one
  (`LedgerRebuild.RebuildRestoresSessionsIff`, reached in `LedgerExample.ReopenAfterLostCommit`). And
  events of a session that share a time can come back in the wrong order: the load order of a session
  is restored from every part of the rows exactly when no two of its events share a time
  (`LedgerLimits.RebuildRestoresOrderIff`).
- **Recent-turn floor.** With a tail token budget, the floor of verbatim turns is kept exactly when
  the newest turn has no token accounting or all of the newest `floor` turns have
  (`Compaction.RegionByAccounting`; `CompactionExamples.FloorIsBroken` is a log with one verbatim turn
  under a floor of two).
- **Failed manual compaction.** A manual compaction names no turn, so the backoff after its failure
  never sees a completed turn: with a backoff configured, no compaction of that session starts again
  (`CompactionTheorems.ManualFailureIsFinal` and `BackoffOver`; `CompactionExamples.ManualFailureHappens`
  is such a log).
- **Early attach.** Attaching a job to a foreground process whose runner has not returned Interrupted
  can end with a callback that gets the zero value if and only if the launch of that runner's process
  has not failed (`EarlyAttachTheorems.EarlyAttachBreaksIff`; `EarlyAttachHappens` is a run of two steps
  that reaches such a state).

## Model

| member | source | states |
|---|---|---|
| Walks.HasCycle | internal/kernel/task_graph.go:325-354 | the depth-first check terminates and answers true exactly when the edge relation has a directed cycle, for every edge list whose endpoints are nodes |
| Walks.Visit | internal/kernel/task_graph.go:331-347 | one recursive visit: a reported cycle exists; otherwise the visited nodes are closed under edges and on no cycle |
| Walks.BuildNext | internal/kernel/task_graph.go:326-329 | the successor map lists exactly the edges |
| Walks.AcyclicHasMinimal | internal/kernel/task_graph.go:325-354 | every non-empty set of nodes of an acyclic graph has a member without a predecessor in the set |
| Walks.FewerEdgesStayAcyclic | internal/kernel/task_graph.go:68-84 | removing edges never creates a cycle |
| TaskGraph.LegalLogsAreSound | internal/kernel/task_graph.go:256-296 | every log the kernel can produce folds without an error into graphs that keep the invariant |
| TaskGraph.StepKeeps | internal/kernel/task_graph.go:25-213 | each allowed event keeps the graph invariant and the uniqueness of invocation bindings |
| TaskGraph.ProjectedStatus | internal/kernel/task_graph.go:355-401 | what the projection shows of a node in terms of its predecessors, with the dead predecessor scan stopped early as in the loop |
| TaskGraphTheorems.DependenciesFormADag | internal/kernel/task_graph.go:43-66 | in every reachable state the edges are acyclic, pairwise different and join existing nodes |
| TaskGraphTheorems.UnfinishedGraphsCanProgress | internal/kernel/task_graph.go:355-401 | if no node failed or was cancelled and some node is not completed, some node is shown ready or running |
| TaskGraphTheorems.BlockedExactly | internal/kernel/task_graph.go:355-417 | a node is shown blocked exactly when it is not running, not terminal and has a failed or cancelled predecessor |
| TaskGraphTheorems.ShownStatusFromDependencies | internal/kernel/task_graph.go:86-103 | the status shown for a mutable node is a function of its predecessors alone, although updates write shown statuses back |
| TaskGraphTheorems.StoredStateHiddenIff | internal/kernel/task_graph.go:355-401 | the whole node shown, reason included, is independent of what was stored if and only if the node is not stored as blocked, or its first dependency is dead, or the stored reason is that of its first dead predecessor |
| TaskGraphTheorems.AgreeingDeathsHideStoredState | internal/kernel/task_graph.go:355-401 | unless a node has both a failed and a cancelled predecessor, nothing stored ever shows |
| TaskGraphTheorems.ReasonMayBeStale | internal/kernel/task_graph.go:384-390 | a graph of a legal log in which a node is shown with a reason that a fresh scan would not give |
| TaskGraphTheorems.DeadEdgesStay | internal/kernel/task_graph.go:68-84 | the edge from a failed or cancelled predecessor is never removed by any later event |
| TaskGraphTheorems.TerminalNodesNeverChange | internal/kernel/task_graph.go:402-417 | a completed, failed or cancelled node is unchanged by every later event |
| TaskGraphTheorems.UnboundNodesRespectDependencies | internal/kernel/task_graph.go:195-213 | a running or terminal node never bound to an invocation has only completed predecessors |
| TaskGraphTheorems.OrderKeptWithoutLateEdges | internal/kernel/task_graph.go:43-66 | without edges into bound nodes, every running or terminal node has only completed predecessors |
| TaskGraphTheorems.EdgeIntoBoundNodeBreaksOrder | internal/kernel/task_graph.go:152-193 | once an edge into a bound node is accepted, the node can run ahead of the new predecessor |
| TaskGraphTheorems.BoundNodesMayIgnoreDependencies | internal/kernel/task_graph.go:105-193 | a concrete log in which a bound node runs before its predecessor completed |
| TaskGraphTheorems.ProjectingTwice | internal/kernel/task_graph.go:244-255 | projecting a projected graph changes nothing |
| TaskGraphKernel.ProjectedNodes | internal/kernel/task_graph.go:355-401 | the in-place loop computes the projection although it reads half-projected nodes |
| TaskGraphKernel.ScanPredecessors | internal/kernel/task_graph.go:370-383 | finds the status of a dead predecessor, or whether some predecessor is not completed |
| TaskGraphKernel.Kernel.LoadGraphs | internal/kernel/task_graph.go:256-296 | the loop over the events computes the fold, or fails when it does |
| TaskGraphKernel.Kernel.LoadGraph | internal/kernel/task_graph.go:244-255 | the graph with its projected nodes, exactly when it exists |
| TaskGraphKernel.Kernel.CreateTaskGraph | internal/kernel/task_graph.go:11-23 | appends the creation exactly when a session is named; the log stays legal |
| TaskGraphKernel.Kernel.AddTaskGraphNode | internal/kernel/task_graph.go:25-41 | appends a proposed node exactly when the graph exists and no invocation is named |
| TaskGraphKernel.Kernel.AddTaskGraphEdge | internal/kernel/task_graph.go:43-66 | appends the edge exactly when both ends are mutable, it is new and closes no cycle; otherwise nothing changes |
| TaskGraphKernel.Kernel.RemoveTaskGraphEdge | internal/kernel/task_graph.go:68-84 | appends the removal exactly when both ends are mutable and the edge exists |
| TaskGraphKernel.Kernel.UpdateTaskGraphNode | internal/kernel/task_graph.go:86-103 | rewrites a mutable node with its projected status and the new title; refuses every other node |
| TaskGraphKernel.Kernel.BindTaskGraphNodeInvocation | internal/kernel/task_graph.go:105-150 | binds exactly when the node is shown ready, is unbound and the invocation is unbound and of the session |
| TaskGraphKernel.Kernel.TransitionTaskGraphNode | internal/kernel/task_graph.go:195-213 | appends exactly the transitions that the table allows from the shown status |
| TaskGraphKernel.Kernel.ReduceTaskGraphInvocationRun | internal/kernel/task_graph.go:152-193 | transitions the one node bound to the invocation, or nothing |
| LedgerFrames.BigEndianRoundTrip | internal/kernel/sqlite_ledger.go:684-711 | the length header decodes to the length encoded |
| LedgerFrames.ScanWholeFile | internal/kernel/sqlite_ledger.go:300-350 | scanning a file of complete frames yields exactly the events with their offsets, sizes and hashes |
| LedgerFrames.ScanTornFile | internal/kernel/sqlite_ledger.go:300-350 | complete frames followed by any non-empty strict prefix of a frame are reported corrupt |
| LedgerFrames.ReadsBack | internal/kernel/sqlite_ledger.go:713-750 | reading an indexed frame returns the event appended, whatever precedes and follows it in the file |
| LedgerRebuild.AppendsGiveNeverLost | internal/kernel/sqlite_ledger.go:70-132 | appending one by one gives the index that was never lost: all rows in order, first title and latest time of each session |
| LedgerRebuild.RebuildRestoresRows | internal/kernel/sqlite_ledger.go:255-298 | from an index that holds any part of the rows, a rebuild restores exactly all rows, and a second one changes nothing |
| LedgerRebuild.RebuildRestoresPrefixIndex | internal/kernel/sqlite_ledger.go:255-424 | from any per-file prefix, empty included, a rebuild restores each file's rows in order, the sessions table and each session's load order |
| LedgerRebuild.ReopenRestores | internal/kernel/sqlite_ledger.go:255-298 | the same for an index that was rebuilt and appended to any number of times; the result has every event of every file |
| LedgerRebuild.RebuildRestoresSessionsIff | internal/kernel/sqlite_ledger.go:397-424 | from any part of the rows, the sessions table is restored if and only if every title the index kept is the first one |
| LedgerRebuild.IndexedEventsReadBack | internal/kernel/sqlite_ledger.go:212-241 | every row of the index reads back its event from the files |
| LedgerLimits.DuplicateIdCorruptsLedger | internal/kernel/sqlite_ledger.go:352-395 | for every history with a duplicate event id, wherever it is, no rebuild succeeds, whatever the index holds |
| LedgerLimits.RebuildSucceedsIff | internal/kernel/sqlite_ledger.go:255-395 | over any index built from the history, a rebuild succeeds if and only if event ids are unique |
| LedgerLimits.RebuildRestoresOrderIff | internal/kernel/sqlite_ledger.go:212-241 | a rebuild restores the load order of a session from every part of the rows if and only if no two of its events share a time |
| LedgerLimits.SharedTimeLosesOrder | internal/kernel/sqlite_ledger.go:212-241 | with two events of a session at one time, an index that held only the later one loads them in the wrong order |
| LedgerLimits.AnyOrderLoadsTheSame | internal/kernel/sqlite_ledger.go:212-298 | when the clock advances between any two events, an index with all events loads as the one never lost, in whatever order and however often they were indexed |
| LedgerLimits.GapKeepsLaterTitle | internal/kernel/sqlite_ledger.go:397-424 | an index that lost the first of two titled events keeps the title of the second |
| LedgerRebuild.FilterLoadOrder | internal/kernel/sqlite_ledger.go:212-241 | the load order of a session's rows is the session's part of the load order |
| LedgerRebuild.SessionsMean | internal/kernel/sqlite_ledger.go:397-424 | the upserts leave each session with its first non-empty title and its latest time |
| Ledger.ReconcileEventFile | internal/kernel/sqlite_ledger.go:300-350 | the scan loop that upserts frame by frame computes the reconciliation of the file |
| Ledger.WalkFiles | internal/kernel/sqlite_ledger.go:255-298 | the rebuild over all frame files, all or nothing |
| Ledger.SQLiteLedger.Append | internal/kernel/sqlite_ledger.go:70-132 | the frame is written in any case; the row is indexed exactly when the transaction commits and the id is new; a commit keeps a complete index complete and one with all events such, a lost one keeps every prefix a prefix |
| Ledger.SQLiteLedger.RebuildIndex | internal/kernel/sqlite_ledger.go:255-298 | succeeds for every well-formed history and leaves all its events indexed; if the index held the beginning of each file, rows, sessions and load orders are restored and the index is complete |
| Ledger.SQLiteLedger.Load | internal/kernel/sqlite_ledger.go:212-241 | the events behind the rows, by time and then sequence; exactly the history when nothing was lost and the clock never went back, and also after rebuilds of any index when the clock advanced between events |
| Ledger.LoadSucceeds | internal/kernel/sqlite_ledger.go:212-241 | loading never fails for a well-formed history |
| Ledger.LoadReturnsHistory | internal/kernel/sqlite_ledger.go:212-241 | with a clock that never goes back, loading an index that was never lost returns exactly the history in append order |
| Ledger.LoadsHistory | internal/kernel/sqlite_ledger.go:212-298 | the same for every index with all events, rebuilt ones included, when the clock advances |
| LedgerExample.ReopenAfterLostCommit | internal/kernel/sqlite_ledger.go:70-132 | two titled appends, the first without its index transaction, then a reopen: the sessions table differs from the one never lost |
| LedgerExample.GapIsReachable | internal/kernel/sqlite_ledger.go:70-132 | a concrete codec and two events for which that happens |
| LedgerLock.AtMostOneHolder | internal/kernel/sqlite_ledger.go:178-642 | in every run without a torn read at most one process holds the lock, and its reference count is the number of its open ledgers |
| LedgerLock.RunKeepsInv | internal/kernel/sqlite_ledger.go:524-642 | the invariant of lock file, recovery guard and registry holds after every run without a torn read |
| LedgerLock.StepKeepsInv | internal/kernel/sqlite_ledger.go:524-642 | every single file-system step, a failed write or sync included, crash and ageing keeps the invariant unless it is a torn read |
| LedgerLock.TornReadBreaksExclusion | internal/kernel/sqlite_ledger.go:585-642 | every torn read can be continued to a state with two holders |
| LedgerLock.ExclusiveIffNeverTorn | internal/kernel/sqlite_ledger.go:524-642 | from every state with the invariant, all continuations keep at most one holder if and only if no continuation makes a torn read |
| LedgerLock.TornReadHappens | internal/kernel/sqlite_ledger.go:585-642 | a run of two processes that reaches a torn read |
| CappedOutput.CappedBuffer.Write | internal/kernel/shell.go:533-558 | the buffer represents the stream extended by the bytes written |
| CappedOutput.CappedBuffer.InitializeHeadTail | internal/kernel/shell.go:625-638 | head and tail become the first and last bytes of the stream |
| CappedOutput.CappedBuffer.AppendTail | internal/kernel/shell.go:640-656 | the tail stays the last bytes of the stream |
| CappedOutput.CappedBuffer.TakeCapture | internal/kernel/shell.go:564-578 | the capture is a function of the stream and the limit alone |
| CappedOutput.CapturePieces | internal/kernel/shell.go:658-663 | however a stream is split into writes, the capture is that of the whole stream |
| CappedOutput.BoundedHeadTailText | internal/kernel/shell.go:580-623 | the marker loop and its fallback compute the bounded text |
| CappedOutput.SettlesWithinThreePasses | internal/kernel/shell.go:580-613 | the marker iteration settles within three passes, so the code after the loop of eight is never reached from a capture |
| CappedOutput.WidthSettles | internal/kernel/shell.go:580-613 | leaving room for the marker widens its number by one digit at most, once |
| CappedOutput.TruncatedCapture | internal/kernel/shell.go:564-613 | a truncated capture is exactly `limit` bytes: a head of the stream, the marker and a tail, and head, tail and omitted bytes add up to the total |
| Compaction.RegionByAccounting | internal/kernel/context_compaction.go:184-231 | the token-budgeted region in its own terms, with the exact condition under which the recent-turn floor is kept |
| Compaction.Region | internal/kernel/context_compaction.go:184-203 | the region lies behind the cut and never contains the newest entry |
| CompactionTheorems.NothingLost | internal/kernel/context_compaction.go:91-182 | every entry of the completed-turn list is verbatim or was in the source region of a completed compaction, for any turn the history is prepared for and with workers' tool events anywhere in the log |
| CompactionTheorems.CompactedExactlyOnce | internal/kernel/context_compaction.go:91-203 | with distinct turns an entry leaves the verbatim history exactly when it was compacted, and it was compacted once |
| CompactionTheorems.CompletionRaisesCut | internal/kernel/context_compaction.go:529-540 | with distinct turns each completion strictly raises the compacted-through position, to the end of the region taken at its start |
| CompactionTheorems.NeverThreeInARow | internal/kernel/context_compaction.go:281-363 | no three neighbouring entries all trigger completed automatic compactions |
| CompactionTheorems.TwoBeforeIsStuck | internal/kernel/context_compaction.go:281-343 | after two in a row the stuck guard defers the third, tool events after the final message or not |
| CompactionTheorems.AutoTrigger | internal/kernel/context_compaction.go:77-89 | an automatic compaction that ended was triggered by the entry that was the newest from its final message to its end |
| CompactionTheorems.DecisionsHold | internal/kernel/context_compaction.go:98-121 | region, backoff, guard and trigger decided on the events loaded are those of the log at the append, whatever tool events workers wrote in between |
| CompactionTheorems.TurnsGrow | internal/kernel/kernel.go:1245-1316 | the completed-turn list only grows at its end |
| CompactionTheorems.ManualFailureIsFinal | internal/kernel/context_compaction.go:248-279 | with a backoff configured, no compaction starts after a failed manual one |
| CompactionExamples.ManualFailureHappens | internal/kernel/context_compaction.go:410-429 | a legal log with a failed manual compaction under a backoff |
| CompactionExamples.WorkerWritesMeanwhile | internal/kernel/agent_invocation.go:547-555 | a worker's tool event may stand between the start and the end of a compaction |
| CompactionExamples.FloorIsBroken | internal/kernel/context_compaction.go:205-231 | a legal log of three turns in which a completed compaction leaves one verbatim under a floor of two |
| CompactionTheorems.BackoffOver | internal/kernel/context_compaction.go:397-408 | the backoff is over exactly when the failure names a turn and more than the configured number of entries follow it |
| CompactionKernel.CompletedTurns | internal/kernel/kernel.go:1245-1316 | the loop with its per-turn maps computes the completed-turn list before the given turn |
| CompactionKernel.PairedExchanges | internal/kernel/kernel.go:1326-1351 | pairs each call with the last result reported for it |
| CompactionKernel.History | internal/kernel/kernel.go:1234-1243 | the entries after the first entry of the compacted-through turn |
| CompactionKernel.LatestCompaction | internal/kernel/context_compaction.go:510-527 | the last completed compaction before the turn |
| CompactionKernel.TurnsAfterCompacted | internal/kernel/context_compaction.go:529-540 | cuts after the first entry of the turn; keeps all when there is none |
| CompactionKernel.AccountingByTurn | internal/kernel/context_compaction.go:233-246 | the last accounting of each turn |
| CompactionKernel.RegionEndByAccounting | internal/kernel/context_compaction.go:205-231 | the backward loop computes the region end, early return included |
| CompactionKernel.CompactionRegion | internal/kernel/context_compaction.go:184-203 | the oldest eligible entries of the region's length |
| CompactionKernel.ContextCompactionBackoff | internal/kernel/context_compaction.go:248-279 | defers exactly while the latest failure after the last completion is too recent |
| CompactionKernel.LatestFailureAfterCompletion | internal/kernel/context_compaction.go:370-395 | the turn of the last failure after the last completion |
| CompactionKernel.CompletedTurnsAfter | internal/kernel/context_compaction.go:397-408 | the number of entries after the first one of the turn |
| CompactionKernel.CompletedTurnIndexById | internal/kernel/context_compaction.go:313-321 | the last position of every turn id |
| CompactionKernel.ConsecutiveCompletedBefore | internal/kernel/context_compaction.go:323-343 | counts completed automatic compactions of entries stepping down one by one |
| CompactionKernel.PreviousTurnDeferred | internal/kernel/context_compaction.go:345-363 | whether the latest stuck deferral belongs to the previous entry |
| CompactionKernel.ContextCompactionStuckGuard | internal/kernel/context_compaction.go:281-311 | defers exactly when the guard predicate of the theorems says so |
| CompactionKernel.Session.StartCompaction | internal/kernel/context_compaction.go:91-145 | appends nothing, one deferral or one start, by region, backoff and guard of the events loaded, although tool events may have followed them; the log stays legal |
| CompactionKernel.Session.FinishCompaction | internal/kernel/context_compaction.go:146-182 | ends the started compaction with its trimmed summary or a failure, whatever workers wrote since the start; the log stays legal |
| CompactionKernel.Session.AppendWorkerEvent | internal/kernel/agent_invocation.go:714-753 | tool events of workers keep the log legal at any moment, also while a compaction runs |
| CompactionKernel.Session.AppendTurnEvent | internal/kernel/kernel.go:338-354 | events of turns keep the log legal |
| JobExecutorTheorems.ResultsReachOneParty | internal/kernel/managed_job_executor.go:122-320 | in every run whose attaches follow an Interrupted return: no process is in both maps or twice in one, each result is received once and never as the closed channel's zero value, each completion callback is called at most once with its own process's result |
| JobExecutorTheorems.EndedJobsComplete | internal/kernel/managed_job_executor.go:164-178 | once the process of an accepted job has ended, its callback was called or its own goroutine can call it unaided, so it is called exactly once |
| JobExecutorTheorems.RunKeepsInv | internal/kernel/managed_job_executor.go:122-426 | the invariant over maps, channels and callers holds after every such run |
| JobExecutorTheorems.StepKeepsInv | internal/kernel/managed_job_executor.go:122-426 | every mutex section, channel operation and process event keeps it |
| JobExecutorTheorems.ActsKeepInv | internal/kernel/managed_job_executor.go:164-245 | a caller or goroutine that touches only its own process and map entries, and takes the result or calls back once, keeps it |
| JobExecutorTheorems.AttachKeeps | internal/kernel/managed_job_executor.go:247-286 | the handover of an interrupted foreground process to a job keeps it |
| JobExecutorTheorems.JoinKeeps | internal/kernel/managed_job_executor.go:122-206 | a new process with its map entry and its goroutine or caller keeps it, for jobs and foreground runs alike |
| JobExecutorTheorems.TouchKeeps | internal/kernel/managed_job_executor.go:288-320 | a step that changes one process (cancel, kill, exit, closing of its channel) keeps it |
| EarlyAttachTheorems.EarlyAttachBreaksIff | internal/kernel/managed_job_executor.go:247-286 | after every orderly run, an early attach to a foreground entry can end in a zero-value callback if and only if the launch of the entry's runner has not failed |
| EarlyAttachTheorems.EarlyAttachBreaks | internal/kernel/managed_job_executor.go:208-286 | the failing direction for every state with the invariant, wherever the runner is: reserved, selecting, draining or leaving, with or without a result |
| EarlyAttachTheorems.FailedLaunchIsHarmless | internal/kernel/managed_job_executor.go:208-286 | after a failed launch no continuation calls the callback with the zero value |
| EarlyAttachTheorems.EarlyAttachHappens | internal/kernel/managed_job_executor.go:193-286 | a run of two steps in which an early attach can end that way |
| Jobs.StatusOnlyAdvances | internal/kernel/jobs.go:254-296 | of two facts of a job, the status moves only from running over cancel_requested to terminal, nothing follows a terminal fact, and start and cancel request happen once |
| Jobs.OneStartPerKey | internal/kernel/jobs.go:18-63 | each session, tool and non-empty idempotency key has at most one start |
| Jobs.MergeOutput | internal/kernel/jobs.go:336-365 | late output takes the snapshot's output and keeps identity, turn and status of the latest fact |
| Jobs.IdentityKept | internal/kernel/jobs.go:254-268 | until its terminal fact, no fact of a job changes its command, key, executor or any other part of its identity |
| Jobs.LocalJobsAreRecoverable | internal/kernel/jobs.go:298-334 | a job once recorded as local has a terminal fact or is found by recovery |
| Jobs.RecoveryIsComplete | internal/kernel/jobs.go:298-334 | recovery fails exactly the local jobs without a terminal fact, leaves all others alone and leaves none behind |
| Jobs.RecoveryIsIdempotent | internal/kernel/jobs.go:298-334 | a second recovery appends nothing |
| JobsKernel.Kernel.LookupSessionJob | internal/kernel/jobs.go:552-588 | the last fact of the job |
| JobsKernel.Kernel.LookupSessionJobByKey | internal/kernel/jobs.go:590-627 | the last fact with the idempotency key |
| JobsKernel.Kernel.PrepareManagedShellJob | internal/kernel/jobs.go:18-63 | starts a job exactly when the key is empty or unknown; otherwise returns the known job |
| JobsKernel.Kernel.AppendJobStartedIfAbsent | internal/kernel/jobs.go:109-134 | starts the job exactly when neither its key nor its id is known |
| JobsKernel.Kernel.AppendJobOutput | internal/kernel/jobs.go:254-268 | appends merged output exactly for known, unfinished jobs |
| JobsKernel.Kernel.AppendTerminal | internal/kernel/jobs.go:270-296 | appends the terminal fact unless there is one |
| JobsKernel.Kernel.CancelJob | internal/kernel/jobs.go:496-550 | records one cancel request for an unfinished job |
| JobsKernel.Kernel.LatestByJob | internal/kernel/jobs.go:303-320 | the latest fact of every job |
| JobsKernel.Kernel.RecoverLostLocalManagedJobs | internal/kernel/jobs.go:298-334 | appends one failure for every lost local job and no other fact, in whatever order the map is walked |
| Approvals.ApprovalRefusal | internal/kernel/approval.go:210-247 | the first failing check; none exactly when the approval is approved and matches session, turn, directory, command, timeout, key and policy snapshot |
| Approvals.BlockReason | internal/kernel/shell.go:181-202 | a request that may run is authorized by policy or by a matching approval |
| ApprovalTheorems.RunsAreApproved | internal/kernel/approval.go:44-173 | in every interleaving of requests, decisions, retries and crashes, a command whose policy requires approval is run only as the effect of an approval, after a matching approved decision, and once per approval |
| ApprovalTheorems.DecidedAtMostOnce | internal/kernel/approval.go:44-156 | each approval is requested once and decided at most once, and the decision changes only its status |
| ApprovalTheorems.RunKeepsInv | internal/kernel/shell.go:150-307 | the invariant over log, mutex, calls and executions holds after every run |
| ApprovalTheorems.DecideKeeps | internal/kernel/approval.go:44-156 | every branch of a decision keeps it |
| ApprovalTheorems.CheckKeeps | internal/kernel/shell.go:165-176 | a retry that finds an operation never runs it again; one that finds none is the first |
| ApprovalTheorems.ExecuteKeeps | internal/kernel/shell.go:239-249 | when a foreground call runs its command, nobody else has run it or is about to |
| ApprovalTheorems.PrepareKeeps | internal/kernel/jobs.go:29-62 | the job start of an approval is appended once, so one call starts it |
| ApprovalTheorems.LookKeeps | internal/kernel/shell.go:329-352 | the lookup before a managed job fails stale operations and starts nothing |
| Memory.Merge | internal/kernel/memory.go:547-604 | a merge keeps the core, never lowers the rank, and changes nothing at equal status |
| MemoryTheorems.LegalLogsReplay | internal/kernel/memory.go:482-521 | every log of creates and reviews replays without a competing-evidence error |
| MemoryTheorems.StatusOnlyRises | internal/kernel/memory.go:547-604 | over any log that replays, cores never change, ranks only rise and equal rank means an unchanged candidate |
| MemoryTheorems.FoldsAgree | internal/kernel/session_projection.go:277-317 | the session builder lists exactly the session's candidates of the global fold, in the same order |
| MemoryTheorems.BuilderFollows | internal/kernel/session_projection.go:277-317 | the same for every log that replays and whose supersessions stay in a session |
| MemoryTheorems.ReplacementIsUnique | internal/kernel/memory.go:188-248 | a replaced candidate has one existing replacement of its session that replaces nothing else, and is superseded or forgotten |
| MemoryTheorems.ChainsAreFinite | internal/kernel/memory.go:690-699 | following replacement links terminates |
| MemoryTheorems.ChainsAreDisjoint | internal/kernel/memory.go:188-248 | chains from different heads share no candidate |
| MemoryTheorems.EveryCandidateIsOnAChain | internal/kernel/memory.go:188-248 | every candidate lies on a chain from a head to an unreplaced candidate |
| MemoryTheorems.OneApprovedPerChain | internal/kernel/memory.go:82-133 | only the last candidate of a chain can be approved |
| MemoryKernel.Kernel.MemoryCandidateList | internal/kernel/memory.go:482-521 | the loop with its map and order list computes the fold or its first error |
| MemoryKernel.RecordCandidate | internal/kernel/memory.go:534-545 | records or merges one candidate |
| MemoryKernel.Kernel.CreateMemoryCandidate | internal/kernel/memory.go:44-80 | appends a pending candidate without reading the log |
| MemoryKernel.Kernel.ApproveMemoryCandidate | internal/kernel/memory.go:82-133 | approves a pending candidate; repeats and refuses as the source does |
| MemoryKernel.Kernel.RejectMemoryCandidate | internal/kernel/memory.go:135-186 | rejects a pending candidate; repeats and refuses as the source does |
| MemoryKernel.Kernel.SupersedeMemoryCandidate | internal/kernel/memory.go:188-248 | replaces a pending, approved or rejected candidate; finds the existing replacement of a superseded one |
| MemoryKernel.Kernel.ForgetMemoryCandidate | internal/kernel/memory.go:250-292 | forgets a candidate of any other status |
| MemoryKernel.SessionProjectionBuilder.UpsertMemoryCandidate | internal/kernel/session_projection.go:304-317 | updates the slice in place through the index map |
| MemoryKernel.SessionProjectionBuilder.ApplyMemoryCandidateEvent | internal/kernel/session_projection.go:277-302 | applies an event and, for a supersession, its replacement |
| MemoryKernel.BuildSessionCandidates | internal/kernel/session_projection.go:20-34 | the candidates of one session, from its events alone |

## Left out

- HTTP handlers, command line, desktop bridge, updater and frontend: input and output around the kernel.
- Provider clients, model discovery and credential storage: a provider's answer is a parameter of a compaction.
- SQL, the file system, JSON and SHA-256: tables are sequences and maps, files byte sequences, the codec and the hash functions of the environment. Failures of single writes are modelled only where the source reacts to them.
- Frame bodies of zero bytes or over 64 MiB: `Append` does not refuse them but a rebuild does, so histories are required to hold bodies in that range.
- Clocks: times are values given by the caller; event time order is assumed only in Ledger.LoadReturnsHistory, Ledger.LoadsHistory, LedgerLimits.AnyOrderLoadsTheSame and the last two clauses of Ledger.SQLiteLedger.Load.
- New ids: each is a parameter required not to occur in the log.
- Request validation and trimming of request ids: ids are taken as already trimmed. Sessions and job ids of the job theorems are non-empty, as request validation demands.
- Task graphs: evidence references, update times, sorting of nodes and graphs for display. The reduction that follows a binding is its own call, as it takes the mutex again.
- Ledger lock: the recovery guard is one advisory lock that a crash releases; pid liveness is taken as correct and a live creator is assumed to write its pid before the stale age, as the recovery code assumes.
- Compaction: the log holds one session. Token usage details, cache statistics, the summary prompt and the rendering of transcripts are not modelled; the limit is computed over real numbers. Turns, their continuations and compactions hold the session's active slot (internal/kernel/turn_interrupt.go:51-109), so of the modelled events only tool events, which workers and the end of a delegated worker write without it (internal/kernel/agent_invocation.go:547, 714-753), stand between a final message, the start and the end of a compaction. A failed append of a completion shows as the failure the source then records.
- Executor: output capture snapshots and their throttling, command construction, wait groups. Cancelled contexts appear as processes that may exit.
- Approvals: sandbox readiness events, expiry times (an expiry is a choice of the step), and the handover of an interrupted foreground run to a job, which JobExecutor covers. Policy resolution, authorization by policy and command preparation are functions of the environment. Lookups are functions over the log, without their loops.
- Jobs: waiting for a job, output limits and the texts shown to the model.
- Memory: request validators and the metadata tables.
- Turn admission, the tool registry and batch execution of tools.
