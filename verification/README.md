# Quikode: scheduling, task lifecycle, merge-nodes and plan acceptance

Quikode runs a graph of coding tasks. A dependency graph decides which task may start; each task is
driven through a finite state machine kept in SQLite; tasks with several parents get a synthetic
merge-node; a planner's output is accepted or rejected, and the contract it is graded by is written
to disk and read back. This project models those parts in Dafny and proves what they promise.

The files follow the program:

| file | what it models |
|---|---|
| `Ids.dfy`, `Text.dfy` | the order of ids, `sorted`, decimal numbers, whitespace |
| `Graph.dfy` | dependency graphs by definition: cycles, chains, closures, least topological order |
| `Kahn.dfy` | Kahn's algorithm with smallest-id-first selection, shared by the task graph and the planner |
| `Dag.dfy`, `Schedule.dfy` | `quikode/dag.py`, and every way of running a graph through its ready set |
| `Plan.dfy` | `quikode/subtask_schema.py`: plan acceptance and the injected stabilization subtask |
| `Fsm.dfy` | `quikode/fsm.py`: states, events, the transition table, crash recovery |
| `TaskStore.dfy` | `quikode/store_tasks.py`, `recover_orphan_tasks`: the task table and its log |
| `FsmRuntime.dfy` | `quikode/fsm_runtime.py`: the `enter_*` helpers, `mark_merged`, `block_current` |
| `MergeNode.dfy` | `quikode/merge_node.py` and the parent lists of `quikode/store_subtasks.py` |
| `Lifecycle.dfy` | runs of all writers together |
| `PlanningCycles.dfy` | the subtasks table and its planning cycles |
| `Provenance.dfy` | the backfill of planning cycles in `quikode/state_schema.py` |
| `RubricText.dfy`, `Validators.dfy` | the rubric text, its parser, rubric coverage, the evidence partition |
| `ContractSerde.dfy` | the persisted evaluation contract |
| `Retries.dfy` | the bounded retry history and the stop-loss checks that read it |

SQLite tables are maps or sequences of records with a growing row id; each transaction is one atomic
step; ids are strings under code-point order. Code that mutates state is a class or a method with
loops, proved against a specification function; what the source promises is then proved about those
functions, for all inputs and all runs.

## What the proofs show about the code

Where the code does less than its own documentation or comments say, the model follows the code and
the exact condition is proved:

- `topo_layers` raises on a node that has dependencies but no known one (`Dag.TopoLayers`); a run can
  complete every node exactly when the graph is acyclic and names no unknown id
  (`Schedule.CompletableIffAcyclicAndKnown`).
- A planner output with no subtasks is rejected on its own but accepted once the stabilization subtask is
  injected (`Plan.InjectionKeepsAcceptance`).
- After a parent merges, a live merge-node can still wait for it exactly when it named the parent twice
  (`MergeNode.ParentMergedLeavesNone`).
- The replan after an intent conflict stores its list with `upsert_subtasks` one past the latest cycle, so a
  task that had rows is left with one cycle N of at least 2 and no other
  (`PlanningCycles.IntentReplanKeepsCyclesIff`). `qk replan-cycle` accepts that N, deletes every row of the
  task, and the next fixup round emits cycle 1 instead of N, against the promise of
  `delete_subtasks_in_cycle` (`PlanningCycles.IntentReplanLosesTheCycle`). In general cycle N is emitted again
  exactly when the task has a row at cycle N - 1 (`PlanningCycles.ReplanReemitsCycle`).
- The rubric parser gives the configured categories back exactly when each is nonempty, trimmed and free
  of `*`; for every other configuration coverage fails on every injected plan
  (`RubricText.RubricRoundTrip`, `Validators.InjectedPlanCoverage`).
- The three stop-loss checks promise to read the last K real failures. They are handed the first K of the last
  max(K1, K2, K3). Over the histories the attempt loop can leave behind, with counts inside the configured
  bounds, a check does what it promises, as far as the 50-entry window reaches, exactly when its K is the
  largest of the three or no attempt is allowed after the K-th (`Retries.StopLossAgreesIff`). Otherwise one
  odd failure hides the storm behind it (`Retries.MissedBlock`), and, where more attempts are allowed than a
  read holds, a storm that is already over still blocks (`Retries.StaleBlock`).
- A default row whose id is `F-n-...` with n + 1 beyond a 64-bit column stops startup, although the migration's
  docstring says no single id may (`Provenance.LongNumberStopsStartup`); `Provenance.Backfill` says exactly
  when the migration finishes.

## Model

| member | source | states |
|---|---|---|
| Ids.SortedIsCanonical | quikode/merge_node.py:39-49 | two sorted lists with the same contents are equal, so sorting forgets the order of arrival |
| Ids.LessIsFirstDifference | quikode/dag.py:85-89 | the order of ids is decided by the first difference, a proper prefix coming before its extensions |
| Kahn.IndexNode | quikode/dag.py:78-84 | the in-degree loop counts each known dependency once per mention and enters the node under it as often |
| Kahn.BuildIndex | quikode/dag.py:78-85 | before the main loop every counter is the number of known dependencies, every reverse list holds the dependents with multiplicity |
| Kahn.PopLeast | quikode/dag.py:86-89 | the popped node is the least of all nodes whose known dependencies are emitted |
| Kahn.Release | quikode/dag.py:90-94 | after a pop the counters describe the smaller graph and the ready list holds each available node once |
| Kahn.KahnOrder | quikode/dag.py:77-94 | the loop terminates with the greedy smallest-first order of exactly those nodes that do not lead into a cycle |
| Kahn.StuckIffCyclic | quikode/dag.py:95-97 | when the ready list runs dry, the nodes left are exactly those that lead into a cycle, self-loops and repeated dependencies included |
| Kahn.GreedyIsLeast | quikode/dag.py:85-94 | a greedy order of all nodes is lexicographically least among all topological orders |
| Kahn.CountDecides | quikode/dag.py:95-97 | the number of emitted nodes is that of all nodes exactly when there is no cycle, and then their order is the least |
| Graph.LeastTopoOrderUnique | quikode/dag.py:85-94 | there is at most one such order, so the listing of the nodes cannot matter |
| Graph.CycleIffSomeNodeLeadsIntoOne | quikode/dag.py:95-97 | a cycle exists exactly when some node leads into one |
| Graph.TrapMeansCycle | quikode/dag.py:95-97 | a finite set in which every node has a dependency inside the set contains a cycle |
| Graph.OrderedHasNoCycle | quikode/dag.py:77-97 | a graph with a topological order has no cycle |
| Dag.TopoOrder | quikode/dag.py:77-97 | raises if and only if the known nodes contain a cycle; otherwise returns the least topological order |
| Dag.NodeDepth | quikode/dag.py:68-71 | the computed depth is the length of the longest dependency chain; it fails exactly when all dependencies are unknown |
| Dag.Depths | quikode/dag.py:67-71 | the table holds the true depth of every node, and fails exactly when some node has only unknown dependencies |
| Graph.ChainIsPath | quikode/dag.py:67-71 | a chain of length k is a path with k edges through known nodes |
| Dag.TopoLayers | quikode/dag.py:66-75 | layer k holds the nodes of depth k in topological order; the two errors occur exactly on a cycle and on a node with only unknown dependencies |
| Dag.ReadyNodes | quikode/dag.py:99-113 | returns each offered node once, sorted by id, skipped kinds left out |
| Dag.CloseUnderDependencies | quikode/dag.py:124-135 | the worklist terminates with the least dependency-closed set that contains the seed |
| Dag.Filter | quikode/dag.py:115-135 | everything without a seed, else the closure of the ids and the milestone's nodes |
| Dag.AncestorsOf | quikode/dag.py:153-168 | the least closed set holding the node's dependencies, cyclic graphs and dangling ids included |
| Dag.DescendantsOf | quikode/dag.py:137-151 | the least set of nodes closed under "depends on", starting from the node's dependents |
| Graph.AncestorsAreReached | quikode/dag.py:153-168 | y is an ancestor of x exactly when a dependency path leads from x to y |
| Graph.DescendantsReach | quikode/dag.py:137-151 | x is a descendant of y exactly when a dependency path leads from x to y |
| Graph.AncestryIsDual | quikode/dag.py:137-168 | x is in the descendants of y exactly when y is in the ancestors of x |
| Schedule.CompletedAreShallow | quikode/dag.py:99-113 | after k rounds of completing all ready nodes, exactly the nodes without a chain of length k are done |
| Schedule.RoundsAreLayers | quikode/dag.py:66-113 | round k completes exactly layer k, no round is empty, and after the last layer everything is done |
| Schedule.StartedHasDependenciesDone | quikode/dag.py:99-113 | in every interleaving, whatever kinds are skipped, every started node has all its dependencies completed |
| Schedule.BarredNeverStarts | quikode/dag.py:99-113 | in every run no started node is of a skipped kind or depends, near or far, on a node of one |
| Schedule.NeverStuck | quikode/dag.py:99-113 | whatever kinds are skipped, while a node that neither is of a skipped kind nor depends on one is unfinished, something runs or something is ready |
| Schedule.HaltedMeansDone | quikode/dag.py:99-113 | a run halts exactly when those nodes are completed and nothing runs, after exactly two steps for each of them |
| Schedule.ExtendToCompletion | quikode/dag.py:99-113 | every run can be continued until exactly those nodes are completed |
| Schedule.CompletableIffAcyclicAndKnown | quikode/dag.py:99-113 | some run completes everything if and only if the graph is acyclic and every dependency known |
| Plan.FindDuplicate | quikode/subtask_schema.py:232-236 | reports the first id that was already seen, and nothing exactly when ids are unique |
| Plan.FindUnknown | quikode/subtask_schema.py:238-241 | reports a dependency that is not listed, and nothing exactly when all are |
| Plan.TopoOrder | quikode/subtask_schema.py:246-267 | the same least order on a list whose ids are unique and dependencies listed; on a cycle the reported ids are exactly those that lead into one |
| Plan.CheckUniqueAndAcyclic | quikode/subtask_schema.py:231-244 | accepts exactly unique, listed, acyclic plans; duplicates are reported before unknown ids, those before cycles |
| Plan.ModelValidate | quikode/subtask_schema.py:202-244 | a plan is built exactly from a well-shaped, well-formed planner output, field by field; the shape error comes exactly from an empty node id, acceptance or subtask list, or an item the schema rejects |
| Plan.InjectsIff | quikode/subtask_schema.py:332-364 | the injection changes the output exactly with a gate command, a subtask list, and no item named `Z-99-stabilize-spec-gate` in it |
| Plan.InjectsOne | quikode/subtask_schema.py:279-364 | where it does, it appends one subtask of that id, without evidence, that depends on every subtask of a well-shaped list, and changes nothing else |
| Plan.InjectedTargetsValid | quikode/subtask_schema.py:297-300 | its targets are valid if and only if there are none, or the score lies in 1..10 and no category is empty |
| Plan.ValidateAndBuildPlan | quikode/subtask_schema.py:367-400 | accepts exactly when the injected output is accepted and the node id is the expected one |
| Plan.InjectionKeepsAcceptance | quikode/subtask_schema.py:332-364 | the injected plan validates if and only if the original does or was empty, and the injected targets are valid |
| Plan.WaitingForStabilization | quikode/subtask_schema.py:237-267 | a subtask that already names Z-99 is an unknown id before injection and a cycle after |
| Plan.CyclesAfterAppend | quikode/subtask_schema.py:279-330 | a subtask depending on all others closes a cycle exactly when somebody depends on it |
| Plan.InjectedOrder | quikode/subtask_schema.py:246-267 | the least order of the injected list is the original one followed by Z-99 |
| Plan.InjectedPlanOrder | quikode/subtask_schema.py:332-400 | the same for whole accepted planner outputs |
| Plan.ListingDoesNotMatter | quikode/subtask_schema.py:254-263 | reordering the subtask list changes neither the graph nor, therefore, its order |
| Plan.InjectionIsIdempotent | quikode/subtask_schema.py:332-364 | injecting twice, with any targets, is injecting once |
| Fsm.OneWayIn | quikode/fsm.py:149-231 | each audit stage after the first, PR_OPENING and MERGE_NODE_READY can be entered from one state only |
| Fsm.PlanningEntries | quikode/fsm.py:149-231 | the table's entries: the first plan, abort and direct merge |
| Fsm.RestartEntries | quikode/fsm.py:149-231 | the table's entries: starting over |
| Fsm.AttemptEntries | quikode/fsm.py:149-231 | the table's entries: one attempt at a subtask |
| Fsm.CommitEntries | quikode/fsm.py:149-231 | the table's entries: from the commit to the gauntlet |
| Fsm.FixupPlanEntries | quikode/fsm.py:149-231 | the table's entries: fixup planning |
| Fsm.PrEntries | quikode/fsm.py:149-231 | the table's entries: the opened PR |
| Fsm.FixupStartEntries | quikode/fsm.py:149-231 | the table's entries: back into the gauntlet, or out of the PR |
| Fsm.RebaseOutcomes | quikode/fsm.py:149-231 | the table's entries: how a rebase ends |
| Fsm.ConflictOutcomes | quikode/fsm.py:149-231 | the table's entries: how a conflict ends |
| Fsm.MergeNodeEntries | quikode/fsm.py:149-231 | the table's entries: the merge-node's own states |
| Fsm.CrashEntries | quikode/fsm.py:206-222 | a task can crash in every state except PENDING, PENDING_CI, AWAITING_REVIEW, MERGE_NODE_READY and the terminal ones, and lands in FAILED |
| Fsm.BlockEntries | quikode/fsm.py:260-266 | BLOCK_TASK is allowed in the same states, CONFLICT_RESOLVING excepted |
| Fsm.RebaseStarts | quikode/fsm.py:267-273 | PARENT_MERGED_OR_CONFLICT is allowed in the same states and with an open PR, a running rebase excepted |
| Fsm.StartEntries | quikode/fsm.py:149-231 | PROVISIONING is entered from PENDING only, PLANNING from PROVISIONING only |
| Fsm.EndEntries | quikode/fsm.py:149-231 | ABORTED is entered from PENDING or with an open PR only, MERGE_NODE_RETIRED from MERGE_NODE_READY only |
| Fsm.FailureEntries | quikode/fsm.py:149-231 | FAILED is never entered from a state at rest |
| Fsm.BlockedEntries | quikode/fsm.py:149-266 | BLOCKED is never entered from a state at rest |
| Fsm.ActiveIffNotAtRest | quikode/fsm.py:243-259 | the active states are exactly those other than PENDING, PENDING_CI, AWAITING_REVIEW, MERGE_NODE_READY and the five terminal ones |
| Fsm.RecoveryIsAtRest | quikode/fsm.py:311-339 | recovery always answers with a state at rest; a driven task goes to PENDING or, only with a PR, to PENDING_CI; of the states at rest only AWAITING_REVIEW and MERGE_NODE_READY are touched; it is idempotent |
| TaskStore.Store.UpsertPending | quikode/store_tasks.py:14-26 | inserts and logs a PENDING row with every column at its default once, leaves an existing one alone |
| TaskStore.Store.Transition | quikode/store_tasks.py:28-54 | writes the state and the given columns and appends one entry, or rolls back without a row |
| TaskStore.LastWriteWins | quikode/store_tasks.py:28-54 | a column given more than once ends with its last value |
| TaskStore.OtherColumnsStay | quikode/store_tasks.py:28-54 | a column not given keeps its value |
| TaskStore.EmptyNotesFallBack | quikode/store_tasks.py:56-65 | a missing or empty note, and no other, is replaced by the fallback |
| TaskStore.Store.ApplyEvent | quikode/store_tasks.py:56-65 | moves along the table's edge or raises and changes nothing |
| TaskStore.Store.SeedMergedNode | quikode/store_tasks.py:67-102 | a new or PENDING task becomes MERGED with the given seed and one log entry into MERGED; a MERGED one stays as it is; every other state is refused |
| TaskStore.Store.EnterPhase | quikode/store_tasks.py:163-197 | changes phase, cycle and trigger and logs a same-state entry |
| TaskStore.Store.IncrementCycleInPhase | quikode/store_tasks.py:199-233 | raises the cycle by one, keeps or replaces the trigger, logs a same-state entry |
| TaskStore.Store.Rewind | quikode/cli_rewind.py:126-134 | sets a blocked or failed task to PENDING without a log entry |
| TaskStore.Store.RecoverOrphanTasks | quikode/store_review.py:236-288 | recovers each active row of the snapshot once, in id order, and reports exactly those |
| FsmRuntime.DoingEdges | quikode/fsm_runtime.py:60-77 | the helper's source states are exactly those with a table edge into DOING_SUBTASK |
| FsmRuntime.EnterDoingSubtask | quikode/fsm_runtime.py:60-77 | stays, or fires exactly when the table has an edge into the state, else skips; never raises on an existing task |
| FsmRuntime.SubtaskEdges | quikode/fsm_runtime.py:80-118 | each single source state is the only one with an edge into the helper's target |
| FsmRuntime.EnterCheckingSubtask | quikode/fsm_runtime.py:80-92 | as above for CHECKING_SUBTASK |
| FsmRuntime.EnterTriagingSubtask | quikode/fsm_runtime.py:95-107 | as above for TRIAGING_SUBTASK |
| FsmRuntime.EnterCommitting | quikode/fsm_runtime.py:110-118 | as above for COMMITTING, without the stay case |
| FsmRuntime.EnterPushing | quikode/fsm_runtime.py:121-129 | as above for PUSHING, without the stay case |
| FsmRuntime.EnterLocalCiChecking | quikode/fsm_runtime.py:132-144 | as above for LOCAL_CI_CHECKING |
| FsmRuntime.AuditStartEdges | quikode/fsm_runtime.py:147-176 | the three source states are exactly those with an edge into AUDIT_LOCAL_CI |
| FsmRuntime.EnterAuditLocalCi | quikode/fsm_runtime.py:147-176 | enters the gauntlet; an `event=` override is fired from AWAITING_REVIEW and raises a duplicate argument at the other two source states |
| FsmRuntime.OverrideEntersTheGauntlet | quikode/fsm_runtime.py:169-171 | either fixup start, given as the override in AWAITING_REVIEW, enters the first stage |
| FsmRuntime.AdvanceAuditStage | quikode/fsm_runtime.py:179-199 | a verdict counts only in its own stage, moves one stage on or diverts to fixup planning |
| FsmRuntime.FixupEdges | quikode/fsm_runtime.py:299-321 | the six source states are exactly those with an edge into FIXUP_PLANNING |
| FsmRuntime.EnterFixupPlanning | quikode/fsm_runtime.py:299-321 | stays, fires or skips, as the table has an edge |
| FsmRuntime.EnterPrOpening | quikode/fsm_runtime.py:324-337 | as above for PR_OPENING |
| FsmRuntime.EnterPendingCi | quikode/fsm_runtime.py:340-359 | as above for PENDING_CI |
| FsmRuntime.EnterAwaitingReview | quikode/fsm_runtime.py:362-375 | as above for AWAITING_REVIEW |
| FsmRuntime.EnterAuditCycleForCiFixup | quikode/fsm_runtime.py:378-395 | restarts the gauntlet from PENDING_CI or AWAITING_REVIEW with the CI event |
| FsmRuntime.EnterAuditCycleForReviewFixup | quikode/fsm_runtime.py:398-413 | restarts the gauntlet from AWAITING_REVIEW with the review event |
| FsmRuntime.EnterRebasingToMain | quikode/fsm_runtime.py:457-472 | fires exactly when the table has an edge into REBASING_TO_MAIN |
| FsmRuntime.EnterConflictResolving | quikode/fsm_runtime.py:475-485 | as above for CONFLICT_RESOLVING |
| FsmRuntime.BlockEdges | quikode/fsm_runtime.py:488-508 | the chosen event lands on BLOCKED from every state that is not at rest and is refused from every other |
| FsmRuntime.BlockCurrent | quikode/fsm_runtime.py:488-508 | blocks if and only if the state is not at rest, otherwise changes nothing |
| FsmRuntime.ForceRecoverToPendingCi | quikode/fsm_runtime.py:511-525 | moves any other state to PENDING_CI, MERGED included |
| FsmRuntime.MarkTaskMerged | quikode/fsm_runtime.py:416-454 | fires the path of its state, note and columns on the last hop, or skips |
| FsmRuntime.SkipsMerging | quikode/fsm_runtime.py:416-454 | it skips exactly in PROVISIONING, PLANNING, the subtask, commit, push and local CI states, FIXUP_PLANNING, PR_OPENING, MERGE_NODE_READY and MERGE_NODE_RETIRED |
| FsmRuntime.MergePathMerges | quikode/fsm_runtime.py:416-454 | every path is allowed by the table, ends in MERGED and has at most three hops |
| FsmRuntime.MergePathIsShortest | quikode/fsm_runtime.py:416-454 | no sequence of events reaches MERGED in fewer hops |
| Lifecycle.LogIsAWalk | quikode/store_tasks.py:14-233 | in every run each task's log is a connected walk of legal entries ending at its row's state; rewinds break it only from BLOCKED or FAILED to PENDING |
| Lifecycle.MovesAreAWalk | quikode/store_tasks.py:163-233 | dropping same-state phase entries leaves a walk |
| Lifecycle.OpeningFollowsTheGauntlet | quikode/fsm.py:149-231 | in every run each entry into PR_OPENING or MERGE_NODE_READY directly follows the five audit stages in order |
| Lifecycle.RecoveryPass | quikode/store_review.py:263-288 | after recovery every row is in PENDING, PENDING_CI, AWAITING_REVIEW, MERGE_NODE_READY or a terminal state; rows that were are untouched, each other row gains one entry and is restarted: on CI if and only if it has a PR and was opening it, rebasing, resolving or in an audit stage; its workspace forgotten from PROVISIONING only; its resume flag set otherwise; its budgets fresh; all else kept |
| Lifecycle.RecoveryReports | quikode/store_review.py:263-288 | the report lists exactly the rows that were not at rest, each once, in id order, with old and new state, and is line by line what the pass appends to the log |
| Lifecycle.SecondRecoveryIsIdle | quikode/store_review.py:263-288 | a second recovery reports nothing and changes nothing |
| Lifecycle.LeadsIsARun | quikode/store_tasks.py:14-233 | what is reached from a run by further single steps is itself a run |
| Lifecycle.LeadsKeepsPromises | quikode/store_tasks.py:14-233 | so it has connected logs, unbroken ones without rewinds, and no opening without the gauntlet |
| Lifecycle.HelperLeads | quikode/fsm_runtime.py:60-485 | every `enter_*` helper is at most one table event |
| Lifecycle.WriterLeads | quikode/fsm_runtime.py:60-525 | every compound writer - helpers, fixup starts, the gauntlet entry with its override, stage verdicts, blocking, forcing, `mark_merged`, a recovery pass, both propagations, the merge-node lookup - is a sequence of single steps without a rewind |
| Lifecycle.WritersKeepPromises | quikode/fsm_runtime.py:60-525 | after any run and any compound writer the logs are connected walks, unbroken ones without rewinds, and every opening follows the five audit stages |
| Lifecycle.PathLeads | quikode/fsm_runtime.py:416-454 | each path of `mark_merged` is a sequence of table events |
| Lifecycle.RecoveryLeads | quikode/store_review.py:263-288 | a recovery pass is a run of single-row recoveries |
| Lifecycle.ParentAdvancedLeads | quikode/merge_node.py:90-121 | a parent's advance is a run of table events |
| Lifecycle.ParentMergedLeads | quikode/merge_node.py:124-174 | a parent's merge is a run of prunes and table events |
| Lifecycle.PathAddsHops | quikode/fsm_runtime.py:416-454 | a path adds exactly its hops to the log, each an edge of the table, and touches no other task |
| Lifecycle.MarkMergedEndsMerged | quikode/fsm_runtime.py:416-454 | on an existing task it never raises: it skips and changes nothing, or ends in MERGED after at most three logged edges |
| Lifecycle.MarkMergedWrites | quikode/fsm_runtime.py:416-454 | it writes the columns given and the state, once, and no other column; the last entry has the given note or the event, the earlier ones the given note or the bridging one |
| MergeNode.IdIgnoresArrivalOrder | quikode/merge_node.py:39-49 | the id depends on the parents as a bag, whatever the hash |
| MergeNode.JoinIsInjective | quikode/merge_node.py:39-49 | the comma join of ids without commas determines the ids |
| MergeNode.SameNodeIff | quikode/merge_node.py:39-49 | with such ids and a digest that does not collide, two nonempty parent lists get the same id if and only if they hold the same parents |
| MergeNode.CreateMergeNode | quikode/store_subtasks.py:330-373 | inserts and logs a PENDING merge row with mirrored branch lists, or fails on an existing id |
| MergeNode.LookupOrCreateMergeNode | quikode/merge_node.py:58-87 | returns the id and creates the row only if it is missing |
| MergeNode.LookupIsIdempotent | quikode/merge_node.py:58-87 | a second lookup, by the same parents in any order, finds the same node and changes nothing |
| MergeNode.LookupMakesItsOwnNode | quikode/merge_node.py:58-87 | after any run of lookups for other parents, a lookup for parents without a node creates a row of its own: PENDING, a merge task, with exactly those parents, the given branches and its own branch, and found later by exactly those parents; no other row changes |
| MergeNode.PruneMergeNodeParent | quikode/store_subtasks.py:401-443 | removes the first entry of the parent from all three lists, leaves every other row and the log alone |
| MergeNode.PruneKeepsAlignment | quikode/store_subtasks.py:401-443 | equally long lists stay index-aligned: one position is taken out of all three, and it held the parent |
| MergeNode.PrunesCommute | quikode/store_subtasks.py:401-443 | prunes of any two parents commute, aligned lists or not |
| MergeNode.MergeNodesWithParent | quikode/store_subtasks.py:375-399 | lists exactly the merge-nodes outside MERGE_NODE_RETIRED, BLOCKED, FAILED and ABORTED that name the parent, in id order |
| MergeNode.PropagateParentAdvanced | quikode/merge_node.py:90-121 | resets the READY nodes among them and reports exactly those, each once, in id order |
| MergeNode.ParentAdvancedRows | quikode/merge_node.py:90-121 | exactly the READY nodes naming the parent go to PENDING and resume; every other row is as before |
| MergeNode.PropagateParentMerged | quikode/merge_node.py:124-174 | processes every such node once and reports all of them |
| MergeNode.ParentMergedRows | quikode/merge_node.py:124-174 | every node naming the parent ends pruned, retired or reset as its state and remaining parents say; every other row is as before |
| MergeNode.ParentMergedLeavesNone | quikode/merge_node.py:124-174 | none of them is still READY, exactly the READY ones left without parents are retired, and no live node names the parent if and only if none named it twice |
| PlanningCycles.SubtaskStore.UpsertSubtasks | quikode/store_subtasks.py:12-54 | succeeds exactly without a repeated id, and then the task's rows are the new list in order, at the given cycle and kind, all other rows as before; otherwise rolls back |
| PlanningCycles.SubtaskStore.AppendSubtasks | quikode/store_subtasks.py:56-121 | succeeds exactly if no id the task lacks is emitted twice; then the rows gain exactly the emissions the task lacks, in order, at the given or next cycle, and the task has the ids it had and the emitted ones; otherwise rolls back |
| PlanningCycles.FreshAreTheUnseen | quikode/store_subtasks.py:96-98 | the loop keeps exactly the emissions whose id the task lacks, in order |
| PlanningCycles.AppendAddsTheUnseen | quikode/store_subtasks.py:56-121 | an append adds exactly those, or nothing when an id the task lacks is emitted twice |
| PlanningCycles.DefaultCycleIsNext | quikode/store_subtasks.py:80-95 | the default cycle is 1 for a task without rows, otherwise one past the task's largest cycle |
| PlanningCycles.SubtaskStore.DeleteSubtasksInCycle | quikode/store_planning_cycle.py:54-66 | drops exactly that cycle's rows of the task, keeps all others in order, and returns how many went |
| PlanningCycles.SubtaskStore.LatestPlanningCycle | quikode/store_planning_cycle.py:20-43 | the largest cycle with the kind of its first row, or (0, None) |
| PlanningCycles.ExtendIff | quikode/store_subtasks.py:80-121 | adding rows of one cycle and kind keeps the cycles exactly lo..MAX, never falling and of one kind each, if and only if the cycle is the next, or the latest with its kind, or lo for the first rows |
| PlanningCycles.DropIff | quikode/store_planning_cycle.py:54-66 | dropping a cycle keeps that shape if and only if it is the latest or not there |
| PlanningCycles.AppendKeepsCyclesIff | quikode/store_subtasks.py:80-121 | when an append keeps the shape, for an explicit or default cycle |
| PlanningCycles.UpsertKeepsCyclesIff | quikode/store_subtasks.py:28-54 | an upsert leaves cycles lo..MAX if and only if the list is empty or the cycle is lo |
| PlanningCycles.IntentReplanKeepsCyclesIff | quikode/workers/pr_lifecycle.py:552-574 | the replan after an intent conflict leaves cycles 1..MAX if and only if its list is empty or the task had no rows |
| PlanningCycles.ReplanReemitsCycle | quikode/store_planning_cycle.py:54-66 | in any table, deleting the latest cycle N >= 2 and appending re-emits N if and only if the task has a row at cycle N - 1, and leaves all its other rows and all other tasks' rows untouched and in place |
| PlanningCycles.ReplanInARun | quikode/cli_replan_cycle.py:60-73 | after any run the rows kept are a prefix, those of the earlier cycles, and N is re-emitted if and only if the first row is at an earlier cycle |
| PlanningCycles.IntentReplanLosesTheCycle | quikode/workers/pr_lifecycle.py:552-574 | the failing runs: after an intent replan of a task with rows, `qk replan-cycle` deletes all of them and the next round emits cycle 1 |
| PlanningCycles.OthersKeepRows | quikode/store_subtasks.py:12-121 | no writer of one task touches another task's rows |
| PlanningCycles.CyclesStayUnbroken | quikode/store_subtasks.py:28-121 | in every run of first plans, fixup rounds, intent replans and cycle replans each task's cycles are one unbroken range, never fall along the rows, and have one kind each |
| PlanningCycles.CyclesStayWellFormed | quikode/store_subtasks.py:28-121 | the range starts at 1 in every run without an intent replan of the task |
| PlanningCycles.RowIdsRise | quikode/store_subtasks.py:28-121 | in every run row ids strictly rise along the rows and stay below the next id to be given out, so list order is row-id order |
| Provenance.FixupIdNamesItsCycle | quikode/state_schema.py:367-390 | the id `F-n-...` is read as cycle n + 1, at least 2 |
| Provenance.OnlyFixupIdsNameACycle | quikode/state_schema.py:367-390 | an id is read as a numeric fixup exactly when it is `F-`, digits, a dash and anything, at most 4300 digits; every other id outside `F-CI-` belongs to the first plan |
| Provenance.LookupMaxNonFci | quikode/state_schema.py:562-590 | the largest cycle of the task's rows whose id does not begin with `F-CI-` in any case, 0 without any |
| Provenance.BackfillNonFci | quikode/state_schema.py:449-494 | pass 1 stamps exactly the listed rows whose id is not `F-CI-` and puts off exactly the others; it raises if and only if one of the numbers does not fit the column |
| Provenance.Backfill | quikode/state_schema.py:411-525 | both passes, in whatever row order, finish if and only if every cycle they have to write fits a 64-bit column, and then leave a table that meets one order-free description |
| Provenance.LongNumberStopsStartup | quikode/state_schema.py:484-488 | one default `F-n-` row with n + 1 beyond the column keeps the migration from finishing |
| Provenance.OrderDoesNotMatter | quikode/state_schema.py:438-525 | that description has one solution, so the row order does not matter |
| Provenance.FciComesLast | quikode/state_schema.py:393-408 | a default row whose id begins with `F-CI-` ends as `fixup_ci` strictly above every row of its task whose id does not begin so in any case, at exactly 1 + the largest of 1 and those rows' cycles |
| Provenance.FciAboveNumeric | quikode/state_schema.py:393-408 | beside a default `F-n-` row, which ends at cycle max(2, n + 1), it ends above that row |
| Provenance.LikeIsTheSpelling | quikode/state_schema.py:570 | `LIKE 'F-CI-%'` matches exactly the ids that begin with F, dash, C, I, dash, each letter in either case |
| Provenance.TheRestStays | quikode/state_schema.py:430-446 | a row with another cycle or kind, and every row whose id does not begin with `F-`, is as before |
| Provenance.SecondBackfillIsIdle | quikode/state_schema.py:430-446 | running the migration again changes nothing |
| RubricText.MatchLineIsThePattern | quikode/planner_validators.py:73 | the deterministic scanner finds a match exactly where the backtracking pattern has one, and the same one |
| RubricText.OnlyPlainNames | quikode/planner_validators.py:76-79 | whatever text is read, only trimmed names without `*` come out |
| Text.StripTakesOnlySpace | quikode/planner_validators.py:76-79 | stripping takes whitespace off both ends and nothing else |
| RubricText.PlainNamesComeBack | quikode/evaluation_contract.py:391-413 | trimmed names without `*` come back in order, the empty ones excepted |
| RubricText.RubricRoundTrip | quikode/evaluation_contract.py:391-413 | parsing the rendered text gives the configured list back if and only if every category is nonempty, trimmed and free of `*`; newlines inside are harmless |
| Validators.SeenCategories | quikode/planner_validators.py:97-100 | the loop collects exactly the claimed categories |
| Validators.ValidateRubricCoverage | quikode/planner_validators.py:82-130 | accepts exactly when the claimed categories are the expected ones and there is one; each error lists exactly the missing categories or unknown references |
| Validators.InjectedPlanCoverage | quikode/subtask_schema.py:297-300 | for every configuration a plan ending with Z-99 is covered if and only if there is a category, all are readable, and no subtask names an unknown one |
| Validators.AcceptedInjectionCoverage | quikode/subtask_schema.py:332-364 | the same for whole accepted planner outputs |
| Validators.HoldersAreOwners | quikode/planner_validators.py:149-152 | the dict of lists maps each claimed id to its owners in order, keys in order of first claim |
| Validators.ClaimsAreThePlans | quikode/planner_validators.py:149-152 | a claim (owner, evidence) is collected exactly when a subtask of that id lists that evidence |
| Validators.OwnersAreThePlans | quikode/planner_validators.py:149-152 | the owners of an evidence id are the ids of the subtasks that list it, in plan order, once per mention |
| Validators.FirstClaimedGrows | quikode/planner_validators.py:149-152 | the keys stand in the order of their first claims |
| Validators.ClassifyEvidenceClaims | quikode/planner_validators.py:139-161 | missing, duplicated (owners sorted) and unknown claims, read off the plan itself, are exactly those their names say, in the order of the expected list and of the first claims, repeats included |
| Validators.ValidateEvidencePartition | quikode/planner_validators.py:164-217 | accepts if and only if the sum of the subtasks' evidence bags is the set of expected ids once each, the empty case included; what it reports is exactly the missing, duplicated and unknown evidence of the plan |
| Validators.PartitionIgnoresInjection | quikode/subtask_schema.py:279-330 | Z-99 injection keeps the verdict |
| Validators.PartitionIgnoresOrder | quikode/planner_validators.py:164-217 | reordering the subtasks keeps the verdict |
| Validators.BagIgnoresOrder | quikode/planner_validators.py:164-217 | the bag of all claimed evidence does not depend on the order of the subtasks |
| ContractSerde.DecodeStandardsDocs | quikode/evaluation_contract_serde.py:151-157 | the loop skips entries that are not objects and stops at the first unknown importance |
| ContractSerde.DecodeProfiles | quikode/evaluation_contract_serde.py:215-220 | the same for profiles |
| ContractSerde.DecodeArchDocs | quikode/evaluation_contract_serde.py:175-181 | the loop decodes the objects in order and skips everything else |
| ContractSerde.Load | quikode/evaluation_contract.py:252-273 | a missing file raises; otherwise the decoders run in field order and the first error wins |
| ContractSerde.RoundTrip | quikode/evaluation_contract_serde.py:106-247 | decoding a contract's JSON value gives back the same contract, for any number of profiles, documents, sections and list fields |
| ContractSerde.EmptyReadsAsDefaults | quikode/evaluation_contract_serde.py:133-247 | objects without any key read as the defaults: empty texts and lists, importance low |
| ContractSerde.PresentReadsAsText | quikode/evaluation_contract_serde.py:43-46 | a null reads as the empty text in a stage's texts and is turned into text elsewhere; any value that is not a list reads as an empty list |
| ContractSerde.DecodesIff | quikode/evaluation_contract.py:252-328 | a value decodes if and only if the six keys are there, the stages are objects, the names and importances known |
| ContractSerde.ReloadIsStable | quikode/evaluation_contract.py:238-273 | whatever was loaded is given back by persisting and loading it again |
| Retries.RetryStore.AppendRetryReason | quikode/store_forensics.py:179-227 | appends the truncated reason to the one row, keeps the last 50 |
| Retries.KeptSignature | quikode/store_forensics.py:179-227 | only the signature is cut, to its first 200 characters |
| Retries.RetryStore.ResetSubtask | quikode/store_subtasks.py:170-190 | empties the one row's history |
| Retries.RetryStore.LastNRetrySignatures | quikode/store_forensics.py:363-398 | the slice `[-limit:]` of the non-transient signatures, for every integer limit |
| Retries.SignaturesAreTheRealOnes | quikode/store_forensics.py:363-398 | the signatures are exactly those of the entries that are not transient, in order |
| Retries.SliceIs | quikode/store_forensics.py:363-398 | where the slice starts, for every integer limit |
| Retries.ColumnIsTheTail | quikode/store_forensics.py:201-227 | after every run of appends and resets the column is the last 50 entries since the last reset |
| Retries.WindowAgreesIff | quikode/store_forensics.py:363-398 | the windowed answer is that of the full history if and only if it has `limit` entries or no non-transient entry was evicted |
| Retries.ShortHistoryIsExact | quikode/store_forensics.py:201-227 | with at most 50 entries the two agree for every limit |
| Retries.StopLossLooksFor | quikode/workers/subtask_stop_loss.py:31-98 | two checks look for their layer tag in signatures of the two content-failure categories, the third for equal entries |
| Retries.LargestCapAgrees | quikode/workers/subtasks.py:496-511 | the check with the largest count fires, in every run, if and only if the last K real failures of the whole history are alike and the window holds that many |
| Retries.StopLossAgreesIff | quikode/workers/subtasks.py:496-511 | over all runs of the attempt loop and all counts within the bounds, each of the three checks does so if and only if its count is the largest or the attempts end at its count |
| Retries.MissedBlock | quikode/workers/subtasks.py:496-511 | reachable: one odd failure and then K alike ones, and no check fires |
| Retries.StaleBlock | quikode/workers/subtasks.py:334-337 | reachable: an odd failure, a storm and an odd failure again, one more than a read, and the check fires although the storm is over |

## Left out

- The worker, orchestrator, Docker, git, `gh`, agent, notification, TUI, CLI output and configuration code: I/O or field copying.
- The retry, network and triage classifiers: one-branch facts about regular expressions.
- Timestamps and clocks, and the `block_forensics` snapshot taken when a task is blocked: not part of any modelled decision.
- Log notes are kept by meaning instead of wording; the `or` that picks between two notes is modelled.
- Threads: `apply_event` reads and writes in two lock sections; the model has one writer per task.
- State strings outside the enum: startup rejects them (`quikode/state.py:85-96`), so rows hold enum values.
- The columns a transition may carry are limited to the eleven the lifecycle itself writes.
- The blake2 hash of a merge-node id is a parameter, any function on strings; that different parents get different ids holds for a hash without collisions and ids without commas.
- JSON text: `DAG.load`, malformed JSON columns and the text layer of the contract file; the model starts at parsed values.
- Fields of `Plan`, `Subtask` and `Node` that no modelled decision reads, and the wording of error messages.
- `FixupPlan` validation: it checks unique ids only, no cycles, in spite of the method's name (`quikode/subtask_schema.py:440-451`).
- `validate_finding_coverage`, `validate_gauntlet_strategy` and the standards and architecture reference validators: each is a length or membership test on one field.
- The thin wrappers of `_advance_audit_stage` and of `apply_event` in `quikode/fsm_runtime.py:202-296` and `quikode/fsm_runtime.py:528-556`: each is one modelled call.
- Git work, markers and audit summaries of rewind and replan; only their writes to the task row and subtask rows are steps.
- The ids of expected evidence are inputs to the partition validator; how `_evidence_canonical_id` spells them is not modelled.
- Provenance.Backfill: `\d` is modelled as ASCII digits; an UPDATE refused by the database, which is logged and skipped, does not occur; the partly written table of a failed startup is not described.
- ContractSerde.RoundTrip: `str()` of values that are not strings and path normalisation are the host's; paths in a contract are in normal spelling, as `Path` keeps them.
- Retries.RetryStore.AppendRetryReason: a malformed or foreign JSON value in the column, which reads as an empty list, does not occur.
- RubricText.MatchLineIsThePattern: `\s` is the fixed list of whitespace characters of the host's Unicode tables.
- PlanningCycles.CyclesStayUnbroken: no caller gives a row its own cycle or kind, nor an append an explicit cycle; `UpsertKeepsCyclesIff` and `AppendKeepsCyclesIff` say what an explicit cycle does.
- Retries.StopLossAgreesIff: a crash between recording a failure and checking it is not a step; the progress agent and the transient budget may end a run earlier than the loop modelled here.
