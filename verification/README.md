# Verified models of XEYO's coordination, runtime and reading algorithms

XEYO runs several coding agents on one workspace. This project models, in Dafny, the parts of it
whose correctness is a statement about whole runs or about an algorithm with a full specification,
and proves those statements.

| files | what they model |
|---|---|
| `CoordTask`, `CoordLeases`, `CoordProtocol`, `CoordGrants`, `CoordSafety`, `CoordOverlap`, `CoordNormal`, `ScopePaths`, `PathParts`, `Text`, `CoordStore`, `CoordReplan`, `CoordRules`, `TaskGraph`, `TaskBatches` | the task and scope-lease protocol between planner, workers, reviewer, ask gate and reconciler |
| `RunStore`, `Runtime`, `MailSafety`, `MailRuns`, `MailRules`, `MailTargets`, `RunSafety`, `RunAdmission`, `RunRecovery`, `RunDb` | durable agent runs and the mailbox: admission, fencing, settlement, recovery, exactly-once delivery under crashes |
| `ActionJournal`, `JournalRules`, `JournalSafety`, `JournalFile` | the journal of side-effecting actions and the takeover of unfinished ones |
| `AbortTree`, `AbortRules`, `AbortForest` | cancellation of a tree of tasks, with interleaved registration |
| `RwLock` | the readers-writer lock with writer preference |
| `Digraph`, `Tarjan` | strongly connected components of the package graph |
| `Grid`, `Labelling`, `PaperFill` | 8-connected labelling and the border flood fill |
| `SseLines`, `JsonlTail`, `EventMirror` | stream and log readers against a simple specification |

How the models are built:

* A transaction, a section under a lock, or a public call of the coordination layer is one step.
  Steps are functions from state to state; a run is any sequence of steps, and crashes are steps.
  Classes with the source's fields and loops are tied to these functions by their postconditions,
  and the properties are proved of the functions, so they hold of both.
* What each call accepts and does is also said without these functions, in terms of rows, leases,
  statuses, log lines and phases alone: `CoordGrants`, `CoordRules`, `MailRules`, `RunAdmission`,
  `JournalRules`, `AbortRules`, `PathParts`, and the `…Iff` lemmas of `RwLock` and `SseLines`.
* Time, path normalisation, JSON parsing, the free delivery leases and the age order of claim
  candidates are parameters. The packet id of a mailbox row is an injective function of session,
  sender and message id; attempt ids are fresh and not empty.
* The normaliser of scope paths is a parameter, and nothing is assumed of it. `ScopePaths` models the
  code's own one for relative paths; absolute paths and home directories go through the file system,
  which is a parameter there. It strips blanks before it cleans the path, so cleaning can bring a
  blank to an end that the next pass strips: a relative path has a stable normal form if and only if
  that form has no blank at either end (`StableIffNoBlankEnds`).
* `Runtime` keeps, besides the tables, the message list in memory, the transcript on disk and the
  stage of every delivery. A write of the transcript puts some prefix of memory on disk that covers
  what was there; a flush puts all of it. A restart reloads memory from disk. A new attempt of an
  agent starts after deliveries to the old attempt are over.

What turned out not to hold, and the exact condition under which it does:

* Write exclusion. A task can be in hand without its lease after `allow` or a lease-free claim
  (python/coord/ask_gate.py:84-95, python/coord/worker_pool.py:58-67), and then another worker can
  claim the same path (`CoordOverlap.AllowOverlaps`). Either call keeps everything protected if and
  only if the worker already holds the lease for the scope and has nothing in hand that shares a path
  with it (`CoordSafety.AllowKeepsProtectedIff`, `SelfClaimKeepsProtectedIff`). `WriteExclusion` covers
  runs with both calls: such a task counts from the moment its worker has the lease again
  (`ReacquiredIsTight`).
* Write exclusion also needs stable scopes, because leases are compared after one more pass of the
  normaliser (python/coord/store.py:60-61) and a directed claim adds another
  (python/coord/planner.py:148-150). With empty hands, no ask and no expiry, two claims of the planner
  put `x /` and `x /y` into two hands (`CoordNormal.NextOverlaps`), and a directed claim and one of the
  planner put `./ ./ b` into two hands (`DirectedOverlaps`). `NextRunIff` and `DirectedRunIff` say for
  all paths when both claims are granted, `CoordSafety.DirectClaimKeepsProtectedIff` when a directed
  claim keeps everything protected. What holds for every normaliser is that the leased paths, as they
  are compared, never conflict (`LeasedExclusion`); `WriteExclusion` is that for the scopes of two tasks
  that are stable.
* Two tasks in hand can overlap even without those calls. Releases are by path
  (python/coord/store.py:415-432), so when a worker with a task in hand loses a further claim, the
  paths it shares with the lost candidate are given back. `CoordOverlap.OverlapIsReachable` is the run;
  `LostClaimKeepsCoverIff` and `LostDirectedClaimKeepsCoverIff` are the conditions. A directed claim on
  a task with a stable scope that the worker already has in hand always frees that task's paths.
* A replanned parent is not always out of the race, whatever the comment at
  python/coord/reviewer.py:118 says: it is superseded only when it is claimed or reopened.
  `CoordReplan.ClaimableIff` says exactly which tasks can still get into a worker's hands,
  `ReplacedIsClaimableIff` which replaced ones.
* The scope of a replacement is enforced on replans only. A plan may name a parent
  (python/coord/planner.py:78) and its scope is then not looked at (`CoordReplan.PlanIgnoresParents`,
  `PlannedParentEscapes`); for every task that no plan names with its parent it is enforced in every
  run (`ReplacementsStayWithin`).
* The bound of 12 transitions holds only for tasks that are never suspended
  (`CoordTask.SuspensionHasNoBound`).
* A batch with a missing dependency whose name is the empty string is rejected as cyclic without
  having a cycle (python/coord/task_dependencies.py:47-50). `CoordStore.EmptyNameReadsAsCycle` is the
  batch, `CycleMisreportedIff` the condition.
* Settlement of an attempt fails exactly when another message already has the id reserved for its
  completion (`RunSafety.SettlementFailsIff`, `ReservedIdBlocksSettlement`). The recovery of a dead
  agent then raises: it goes through if and only if no listed agent that is gone and current has its
  id taken (`RunRecovery.RecoversIff`), and otherwise no attempt starts and no session is deleted
  (`RunDb.Db.StartAttempt`, `DeleteSession`).
* A receipt and its settlement are two locked sections of the action journal. A settlement is safe if
  and only if nothing it closes has been granted again in between (`JournalSafety.SettleKeepsOkIff`);
  otherwise two unfinished actions on one operation can both be under way
  (`LateSettlementLetsTwoExecute`).
* The tail scan's count of rows outside the window leaves out a last line that has no line feed and at
  least as many bytes as the window (`JsonlTail.OutsideMissesOne`).

## Model

| member | source | states |
|---|---|---|
| CoordTask.TerminalIsAbsorbing | python/coord/store.py:200-325 | no transition leaves blocked, merged, completed or superseded; the only other task nothing can move is a pending one without scope |
| CoordTask.RunInvariant | python/coord/store.py:200-325 | in every run from a new task each success raises the revision by one, identity, scope and dependencies stay, and blocked means exactly reopen count 4 |
| CoordTask.RunsAreShort | python/coord/store.py:200-325 | a run without review suspensions has at most 12 successful transitions |
| CoordTask.TwelveIsReached | python/coord/store.py:270-318 | 12 is the best bound: three rounds of claim, submit, conflict and a fourth that blocks |
| CoordTask.SuspensionHasNoBound | python/coord/store.py:220-243 | with suspensions there is no bound on the number of transitions |
| CoordRules.DiagramIff | python/coord/store.py:200-325 | an action succeeds exactly when the status diagram has an edge for it, the named worker holds the task and, for a claim, the scope names a path |
| CoordRules.DiagramEffect | python/coord/store.py:200-325 | it leads along that edge, and holder, base, branch, findings, reopen count and revision change as its kind says and nothing else |
| CoordLeases.HoldingsApart | python/coord/store.py:52-72 | in a sound table the paths of two owners, normalised once more as the comparison does, are never equal or nested |
| CoordLeases.CutKeepsTable | python/coord/store.py:371-432 | pruning and both releases keep the table sound |
| CoordLeases.CutPathsExactly | python/coord/store.py:415-432 | a release by path takes exactly the named paths from that owner and nothing from anyone else |
| CoordLeases.CutByIdSparesOthers | python/coord/store.py:411-412 | a release by lease id never touches another owner's paths |
| CoordLeases.ReleasePathsLoop | python/coord/store.py:415-432 | the loop over the leases computes the release by path, keeping order and dropping emptied leases |
| CoordLeases.AcquireKeepsTable | python/coord/store.py:376-408 | acquire keeps at most one lease per owner and everyone apart; the lease it returns is in the returned table and covers the asked paths |
| CoordLeases.AcquireLoop | python/coord/store.py:376-408 | the loop over the active leases computes acquire, refusals included |
| CoordLeases.MergeLoop | python/coord/store.py:393-408 | the merging loop, with its second same-owner branch, computes the merge used by acquire |
| CoordLeases.SecondLeaseIsLost | python/coord/store.py:401-403 | the second same-owner branch loses paths exactly when that lease has paths that are neither among the first one's nor asked for; the invariant excludes a second lease |
| CoordLeases.RunKeepsTable | python/coord/store.py:371-432 | every table reached by acquire, renew, prune and releases is sound |
| CoordLeases.ReachedTablesAreApart | python/coord/store.py:371-432 | from the empty table, the holdings of two owners are apart in that sense in every reached table |
| CoordGrants.PruneExactly | python/coord/store.py:371-373 | pruning keeps exactly the leases that have not expired, each as it was and in order |
| CoordGrants.ReleaseByIdExactly | python/coord/store.py:411-412 | a release by id keeps exactly the leases with another id or another owner |
| CoordGrants.ReleaseByPathsExactly | python/coord/store.py:415-432 | a release by path keeps the other owners' leases as they were, and of its owner's those that hold another path, without the named ones |
| CoordGrants.AcquireIff | python/coord/store.py:376-392 | for every table a lease is granted if and only if the asked paths name something and fit every unexpired lease of the other owners |
| CoordGrants.AcquireExactly | python/coord/store.py:393-408 | a grant leaves the unexpired leases of the others and one lease of the owner, the old one with more paths and a new expiry if there was one |
| TaskGraph.LayeredRemoval | python/coord/task_dependencies.py:51-58 | the layered removal ends and is stuck exactly when the graph has a real cycle or a dependency outside it |
| TaskGraph.NoSinkHasCycle | python/coord/task_dependencies.py:51-58 | a finite non-empty set in which every node has a dependency inside the set contains a cycle |
| TaskGraph.StuckHasCycle | python/coord/task_dependencies.py:53-57 | what is left when no task is ready contains a cycle |
| TaskGraph.RankedHasNoCycle | python/coord/task_dependencies.py:53-58 | a graph whose nodes were removed layer by layer has no cycle |
| CoordStore.Store.PublishDrafts | python/coord/task_dependencies.py:34-65 | accepts exactly the batches with new valid ids, resolved dependencies and no cycle in the union; a rejected batch changes nothing; the reason is fixed for every batch |
| CoordStore.CycleMisreportedIff | python/coord/task_dependencies.py:47-58 | a batch without a cycle is reported as cyclic exactly when its first missing dependency is named by the empty string |
| CoordStore.EmptyNameReadsAsCycle | python/coord/task_dependencies.py:47-58 | one draft that waits for the empty name is such a batch |
| CoordStore.DraftsAreDistinct | python/coord/planner.py:62-88 | the drafts of a plan never repeat an id |
| CoordStore.Store.PlanRound | python/coord/planner.py:49-92 | the loop over the specs and the publication are the plan step |
| CoordRules.DraftsExactly | python/coord/planner.py:60-88 | the drafts are, in order, the first specs of each id that name a scope, as new pending tasks |
| CoordRules.PlanOutcome | python/coord/task_dependencies.py:34-65 | a plan is stored whole or not at all; what is new comes from those specs and the old tasks stay |
| CoordRules.ValidIdIff | python/coord/task_dependencies.py:44-45 | an admissible id begins with `task_` and has no slash or backslash anywhere |
| CoordStore.MissingBreaksUnion | python/coord/task_dependencies.py:46-50 | a dependency found in no task makes the union graph unresolved |
| CoordStore.Store.AcquireScope | python/coord/file_store.py:364-378 | guarded acquire: the table changes exactly when the lease is granted; it is granted exactly when the scope names something and fits every unexpired lease of the others |
| CoordStore.Store.ReleaseScopeOf | python/coord/file_store.py:408-426 | guarded release of one task's scope |
| CoordStore.Store.ClaimTaskOf | python/coord/task_dependencies.py:68-85 | the claim is refused while a dependency is unfinished, and is otherwise the claim transition |
| CoordStore.Store.Change | python/coord/file_store.py:314-351 | load, compare, save: the task changes exactly when the transition accepts |
| CoordStore.Store.RejectTask | python/coord/reviewer.py:73-89 | a rejection with well-formed findings sends the task back and frees its scope; with any other findings nothing happens |
| CoordStore.Store.ChangeAndRelease | python/coord/ask_gate.py:54-73 | a transition that succeeds gives the task's scope back, one that fails changes nothing |
| CoordRules.CallMovesTask | python/coord/file_store.py:277-351 | submit, complete, fail, deny, sweep and allow each move their task, if its worker holds it in the status they want, and otherwise change nothing |
| CoordRules.ReconcileOutcome | python/coord/reconciler.py:59-145 | the reconciler settles exactly the tasks ready to merge: merged, or sent back with findings and the new base, and the holder's lease on the scope is gone |
| CoordRules.RejectOutcome | python/coord/reviewer.py:40-89 | a rejection is taken exactly with well-formed findings on a task its worker has claimed, and frees exactly its scope |
| CoordRules.AskOutcome | python/coord/ask_gate.py:54-73 | a worker that asks has its task suspended and exactly its scope given back |
| CoordStore.Store.ClaimNextOf | python/coord/planner.py:106-128 | the claim loop with its rollback is the protocol step, and the answer is the first candidate that is claimable and granted, or none if there is none |
| CoordStore.Store.ClaimSpecificOf | python/coord/planner.py:130-141 | the directed claim with its rollback is the protocol step |
| CoordGrants.ClaimsTheFirstFree | python/coord/planner.py:106-128 | for every table and candidate list the worker gets the first candidate that is claimable and granted, whatever is refused or given back before it, and nothing only when there is none |
| CoordGrants.WinnerHoldsLease | python/coord/planner.py:116-128 | the worker then holds a lease on that task's scope for 600 seconds |
| CoordGrants.DirectedClaimIff | python/coord/planner.py:130-150 | a directed claim gets its task exactly when it is claimable and its normalised scope is granted |
| CoordGrants.ClaimGatedIff | python/coord/task_dependencies.py:68-85 | a claim is accepted exactly on a pending or reopened task whose dependencies are all completed or merged and whose scope names a path |
| CoordRules.NextOutcome | python/coord/planner.py:106-128 | the step of the protocol does that: the first free candidate is in the worker's hands and no other task changes |
| CoordRules.DirectedOutcome | python/coord/planner.py:130-150 | the same for the directed step |
| CoordRules.SelfClaimOutcome | python/coord/worker_pool.py:58-67 | a lease-free claim asks only whether the task is claimable and touches no lease |
| CoordRules.ReacquireOutcome | python/coord/file_store.py:364-378 | taking a scope again changes no task and succeeds exactly when the scope is granted |
| TaskBatches.LoadsIff | python/coord/task_batches.py:10-22 | loading succeeds exactly when no id occurs in two rows, and then finds every row under its id |
| TaskBatches.PublishAddsBatch | python/coord/task_batches.py:25-29 | publishing new drafts adds exactly them to the table, whatever the order of the files |
| TaskBatches.SnapshotOverrides | python/coord/file_store.py:241-258 | saving a snapshot changes that task and no other, batch row or not |
| TaskBatches.OneTaskAgrees | python/coord/file_store.py:232-254 | reading one task and reading the table give the same |
| TaskBatches.BatchFiles.Load | python/coord/task_batches.py:10-22 | the nested loop computes the load, the duplicate error included |
| TaskBatches.BatchFiles.Publish | python/coord/task_batches.py:25-29 | one new file makes the whole plan visible |
| TaskBatches.BatchFiles.Save | python/coord/file_store.py:256-258 | one task's snapshot replaces its row in the table |
| CoordProtocol.TryClaimsAdvances | python/coord/planner.py:106-128 | the claim loop changes tasks by transitions only and starts none with an unfinished dependency |
| CoordProtocol.PublishKeepsDeps | python/coord/task_dependencies.py:34-65 | publication keeps the dependency graph resolved and free of cycles |
| CoordProtocol.ReplanKeepsDeps | python/coord/reviewer.py:91-119 | so does publishing a replacement and superseding its parent |
| CoordProtocol.StepKeepsDeps | python/coord/task_dependencies.py:68-85 | every protocol step keeps the dependency invariant, lease-free claims and resumed asks included |
| CoordProtocol.RunKeepsDeps | python/coord/task_dependencies.py:34-85 | the dependency invariant holds in every run from the empty store |
| CoordProtocol.StartedHasFinishedDeps | python/coord/task_dependencies.py:68-85 | in every run, a task that is not pending has only completed or merged dependencies |
| CoordProtocol.SomethingIsReady | python/coord/task_dependencies.py:51-85 | while all unfinished tasks are pending or reopened, one of them has every dependency finished and a claim on it is granted |
| CoordReplan.FindingsFilesExactly | python/coord/store.py:173-183 | exactly the normalised files named in findings, each once |
| CoordReplan.FindingsFilesLoop | python/coord/store.py:173-183 | the nested loops over findings and keys compute that list in order |
| CoordReplan.CleanScopeSet | python/coord/reviewer.py:99-101 | cleaning a proposed scope keeps exactly its non-empty normal forms |
| CoordReplan.ReplanExactly | python/coord/reviewer.py:91-119 | a replacement is stored exactly when its scope is not empty, stays within what its parent allows and is admitted; no task but the parent changes |
| CoordRules.AllowedIff | python/coord/store.py:186-197 | a parent allows exactly the paths of its scope and the files its findings name, each normalised |
| CoordReplan.ReplacementsStayWithin | python/coord/reviewer.py:91-119 | in every run each task was named with its parent by a plan, or replaced its parent with a scope within that parent's scope and the files of its findings at that moment |
| CoordReplan.ChainStaysWithin | python/coord/store.py:186-197 | in every run a chain of replacements stays within the first task's scope and the files findings named on the chain |
| CoordReplan.PlanIgnoresParents | python/coord/planner.py:62-92 | the parents a plan names play no part in its admission |
| CoordReplan.PlannedParentEscapes | python/coord/planner.py:62-92 | a plan of two tasks in which the second names the first as parent and reaches outside its scope |
| CoordReplan.ClaimableIff | python/coord/store.py:200-318 | some run of transitions brings a task into a worker's hands if and only if it is claimed or suspended, or waits with a path to claim, or is ready to merge with a path and was sent back less than three times |
| CoordReplan.ReplacedIsClaimableIff | python/coord/reviewer.py:117-119 | a replaced parent can be claimed again if and only if it could be before and was neither claimed nor reopened |
| CoordSafety.ReleaseKeepsCoverIff | python/coord/store.py:415-432 | a release keeps every task in hand covered by a lease exactly when the released paths are shared with none of them |
| CoordSafety.TryClaimsProtected | python/coord/planner.py:106-128 | the claim loop with rollback keeps all tasks in hand covered when no candidate shares a path with the worker's own |
| CoordSafety.ClaimOneProtected | python/coord/planner.py:130-141 | the same for a directed claim, when what it leases covers the task and neither form of its scope is shared |
| CoordSafety.DirectClaimKeepsProtectedIff | python/coord/planner.py:130-150 | a directed claim that is granted keeps everything protected exactly when the scope normalised twice, with what the worker held, covers the scope normalised once |
| CoordSafety.StableIsDirectOk | python/coord/planner.py:148-150 | a stable scope always does |
| CoordSafety.StepProtected | python/coord/reconciler.py:67-145 | every careful step of planner, worker, reviewer, ask gate and reconciler keeps the protection invariant |
| CoordSafety.TakeKeepsIff | python/coord/store.py:200-233 | taking a task into hand keeps the protection exactly when its lease is held, or it counts as loose, and it shares no path with the worker's other work |
| CoordSafety.AllowKeepsProtectedIff | python/coord/ask_gate.py:84-95 | `allow` keeps everything protected exactly when the worker holds the lease for the scope again and has nothing in hand that shares a path |
| CoordSafety.SelfClaimKeepsProtectedIff | python/coord/worker_pool.py:58-67 | the same for a lease-free claim |
| CoordSafety.EmptyHandedIsCareful | python/coord/planner.py:106-141 | a worker that takes on work only with nothing claimed or ready to merge, by directed claim only with a stable scope, is careful |
| CoordSafety.RunProtected | python/coord/store.py:376-432 | in every careful run, allowed asks and lease-free claims included, every task in hand that is not loose is covered by its worker's lease |
| CoordSafety.LeasedExclusion | python/coord/store.py:52-72 | for every normaliser, in every careful run the leased forms of two workers' scopes never conflict, tasks resumed or claimed without a lease counting from when the lease is held |
| CoordSafety.WriteExclusion | python/coord/planner.py:106-141 | in every careful run, stable scopes of tasks in the hands of different workers are never equal or nested |
| CoordSafety.EmptyHandedExclusion | python/coord/planner.py:106-141 | the same in every run in which workers take on work with empty hands, without `allow` and lease-free claims |
| CoordSafety.LooseComesFrom | python/coord/ask_gate.py:84-95 | only an allowed ask or a lease-free claim of the task itself makes it loose |
| CoordSafety.NothingLoose | python/coord/planner.py:106-141 | without those calls no task is ever loose |
| CoordSafety.ReacquiredIsTight | python/coord/file_store.py:364-378 | a worker that gets the lease for a task it has in hand has it under protection again |
| CoordOverlap.LostClaimKeepsCoverIff | python/coord/planner.py:117-127 | a claim refused after its lease was granted keeps everything covered exactly when the candidate shares no path with what the worker has in hand |
| CoordOverlap.LostDirectedClaimKeepsCoverIff | python/coord/planner.py:130-150 | the same for a directed claim and its scope normalised twice; one on a stable task the worker already has in hand uncovers it |
| CoordOverlap.AllowOverlaps | python/coord/ask_gate.py:84-95 | suspending, another claim and `allow` put one path into two hands |
| CoordOverlap.LostClaimOverlaps | python/coord/planner.py:106-128 | so does a lost claim of a worker that has a task in hand |
| CoordOverlap.OverlapIsReachable | python/coord/planner.py:106-128 | the overlap is reached from the empty store without `allow` and without a lease-free claim |
| CoordNormal.SecondLeaseIff | python/coord/store.py:376-408 | with one path leased to another owner, a lease for one path is granted exactly when both, normalised once more, name something and are not nested |
| CoordNormal.NextRunIff | python/coord/planner.py:106-128 | in the run of a plan of two tasks and a worker for each, all with empty hands, both get their task exactly when the paths agree normalised twice |
| CoordNormal.DirectedRunIff | python/coord/planner.py:130-150 | with a directed claim first, two tasks with one path both go out exactly when its third normal form agrees with its second |
| CoordNormal.NextOverlaps | python/common/scope_paths.py:58-71 | `x /` and `x /y` in two hands |
| CoordNormal.DirectedOverlaps | python/common/scope_paths.py:58-71 | `./ ./ b` in two hands |
| ScopePaths.StableIffNoBlankEnds | python/common/scope_paths.py:58-71 | a relative path has a stable normal form exactly when that form has no blank at either end |
| ScopePaths.PosixShape | python/common/scope_paths.py:64-69 | cleaning a path twice is cleaning it once, and it never grows |
| ScopePaths.BlankAtTheEnd | python/common/scope_paths.py:58-69 | `x /` becomes `x ` and then `x` |
| ScopePaths.BlankAtTheStart | python/common/scope_paths.py:58-69 | `./ ./ b` takes three passes |
| Text.StripExactly | python/common/scope_paths.py:58-61 | stripping takes the blanks off both ends, all of them and nothing else |
| Text.StripAround | python/common/scope_paths.py:58-61 | so a text between blanks comes out as it is |
| PathParts.ResolvedIff | python/common/scope_paths.py:58-71 | exactly the paths that begin at the root, or whose first part that says anything begins with a tilde, go through the file system |
| PathParts.TrimDropsSlashes | python/coord/store.py:60-61 | what is cut off a root is the slashes at its end |
| PathParts.NestedIffParts | python/coord/store.py:62-72 | two roots are nested exactly when the parts of one are the first parts of the other |
| PathParts.ConflictIffParts | python/coord/store.py:52-72 | two sets of paths conflict exactly when one names nothing or two of their paths are nested part by part |
| PathParts.OverlapIffParts | python/engine/agent_run_store.py:31-33 | the same for the write scopes of agents |
| MailSafety.InsertKeyOk | python/engine/agent_message_store.py:31-43 | a new queued row disturbs no conversation |
| MailSafety.RestateKeyOk | python/engine/agent_message_store.py:102-110 | withdrawing a queued row or retargeting rows disturbs no conversation |
| MailSafety.ReserveKeyOk | python/engine/agent_message_store.py:83-93 | a reservation takes the oldest pending rows, including those an earlier delivery left behind |
| MailSafety.AppendAll | python/engine/agent_mailbox.py:36-41 | appending the packets that are missing keeps seq order and each packet once, whatever part is already there |
| MailSafety.AckKeyOk | python/engine/agent_message_store.py:95-100 | only flushed rows become delivered |
| MailSafety.ReloadKeyOk | python/engine/agent_mailbox.py:20-50 | losing memory and reloading the transcript keeps the delivery invariant at any stage |
| MailRuns.StepKeepsMail | python/engine/agent_mailbox.py:20-50 | every transaction, delivery stage and crash keeps the delivery invariant of every recipient |
| MailRuns.ExactlyOnceInOrder | python/engine/agent_mailbox.py:20-50 | in every run a transcript holds each packet at most once, in increasing seq, only of rows addressed to it, and none that is queued or cancelled |
| MailRuns.DeliveredIsRecorded | python/engine/agent_message_store.py:95-100 | in every run each delivered row's packet is in its recipient's transcript |
| MailRuns.DeliveryDelivers | python/engine/agent_mailbox.py:30-50 | an undisturbed delivery marks exactly the reserved rows delivered, records all of them and leaves every other row alone |
| MailRules.TakesTheOldest | python/engine/agent_message_store.py:83-93 | a delivery reserves the oldest 32 rows that are queued or delivering for the recipient, or all there are |
| MailRules.DeliveriesDrain | python/engine/agent_mailbox.py:30-50 | n undisturbed deliveries leave exactly all but the 32n oldest rows; those are delivered and in the transcript, and no other row changes |
| MailRules.CrashForgets | python/engine/agent_mailbox.py:34-50 | after a crash at any stage the reserved rows are unread again, the oldest of all, and a delivery can begin |
| MailRules.ClaimIff | python/engine/agent_message_store.py:73-93 | rows are handed out exactly to the parent of an open session or to an agent's active current attempt |
| MailRules.AcknowledgeIff | python/engine/agent_message_store.py:95-100 | exactly the named rows of the recipient that are being delivered become delivered |
| MailTargets.StepKeepsQueues | python/engine/agent_message_store.py:31-66 | every step keeps targets right and mailboxes within capacity |
| MailTargets.RunKeepsQueues | python/engine/agent_run_store.py:174-177 | in every run each waiting message is for the parent or the current attempt of an existing agent, and at most 256 messages wait in one mailbox |
| MailTargets.OldAttemptIsFenced | python/engine/agent_message_store.py:49-81 | once a new attempt has started the old one can neither settle, deliver nor send, and what is meant for it is refused |
| MailTargets.SendTwice | python/engine/agent_message_store.py:31-38 | a retried send changes nothing, and no other text gets in under its id |
| MailRules.SendIff | python/engine/agent_message_store.py:30-66 | a message is accepted exactly when the session is open, the sender may write, the recipient is there at the named attempt, and its id is new with fewer than 256 waiting or carried the same message |
| MailRules.SendOutcome | python/engine/agent_message_store.py:30-66 | a new message becomes one queued row for the recipient's current attempt, and nothing else ever happens |
| MailRules.WithdrawsTheOldest | python/engine/agent_message_store.py:102-110 | a withdrawal takes back the oldest queued row with the id, or with the text when no id is given, and no other |
| RunSafety.StartKeepsLimits | python/engine/agent_run_store.py:150-154 | admission keeps the total and the per-session limit |
| RunSafety.StartKeepsScopes | python/engine/agent_run_store.py:155-156 | admission keeps active write scopes pairwise apart |
| RunSafety.StartKeepsRows | python/engine/agent_run_store.py:166-177 | a new attempt mirrors its agent and announces nothing |
| RunAdmission.StartIff | python/engine/agent_run_store.py:138-180 | a start is admitted if and only if the identity is valid, the session open, both limits have room, no active scope overlaps, the fence names the agent's attempt and the fixed fields are unchanged; its effect is fixed |
| RunAdmission.StartOutcome | python/engine/agent_run_store.py:138-180 | the step does that and reloads the conversation, or leaves the world as it was |
| RunAdmission.OneStartPerFence | python/engine/agent_run_store.py:157-159 | in every allowed run, of two starts of one agent with the same fence at most one is admitted |
| RunSafety.FinishEffect | python/engine/agent_run_store.py:182-196 | settling the current attempt succeeds and adds exactly its announcement |
| RunSafety.SettlementFailsIff | python/engine/agent_run_store.py:182-196 | settlement is rolled back exactly when another message has the reserved id |
| RunSafety.ReservedIdBlocksSettlement | python/engine/agent_message_store.py:31-39 | an agent that sends a message under that id can no longer be settled |
| RunAdmission.FinishOutcome | python/engine/agent_run_store.py:182-196 | a settlement goes through exactly for the attempt at work with a final outcome and a free or matching id; agent, attempt and one parent message change and nothing else |
| RunSafety.DropKeepsRuns | python/engine/agent_run_store.py:198-208 | deleting a session keeps limits, scopes, mirrors and announcements |
| RunAdmission.DropIff | python/engine/agent_run_store.py:198-208 | a session is deleted exactly when none of its agents is at work; its rows go, all others stay, and it is closed |
| RunAdmission.DropOutcome | python/engine/agent_run_store.py:198-208 | the step also waits for the deliveries of the session |
| RunSafety.StepKeepsRuns | python/engine/agent_run_store.py:138-208 | every step keeps the run invariant |
| RunSafety.AdmissionHolds | python/engine/agent_run_store.py:138-180 | in every run: active agents within both limits, active write scopes without overlap, attempt rows mirroring agent rows |
| RunSafety.SettledOnce | python/engine/agent_run_store.py:182-196 | in every run no attempt settles twice, and an attempt has a completion message, exactly one, if and only if it has ended |
| RunSafety.CurrentAttemptSettles | python/engine/agent_run_store.py:182-196 | in every run the current active attempt can be settled, a stale one changes nothing |
| RunDb.Db.PendingRows | python/engine/agent_message_store.py:68-72 | exactly the pending rows of a recipient in seq order |
| RunDb.Db.Insert | python/engine/agent_message_store.py:31-43 | inserts, finds the same message again, or refuses a conflict or a full mailbox |
| RunDb.Db.SendMessage | python/engine/agent_message_store.py:45-66 | the checks of sender, recipient and attempts, then the insertion |
| RunDb.Db.Claim | python/engine/agent_message_store.py:74-93 | the marking loop reserves the oldest 32 unread rows, or all there are, exactly for a current receiver, and refuses anyone else |
| RunDb.Db.Ack | python/engine/agent_message_store.py:95-100 | the loop delivers exactly the named rows that are addressed and delivering |
| RunDb.Db.Remove | python/engine/agent_message_store.py:102-110 | withdraws the first matching queued row, or nothing |
| RunDb.Db.Settle | python/engine/agent_run_store.py:182-196 | changes agent, attempt and mailbox together or not at all |
| RunRecovery.RecoversIff | python/engine/agent_run_store.py:112-136 | recovery goes through exactly when no listed agent that is gone and current has its completion id taken |
| RunRecovery.RecoversExactly | python/engine/agent_run_store.py:112-136 | when it goes through, exactly the listed agents that are gone and still current are interrupted |
| RunRecovery.StopsAtFirstBlocked | python/engine/agent_run_store.py:112-136 | a recovery that fails stops at the first blocked agent and has done exactly what recovering those before it does |
| RunRecovery.RecoveredAreAnnounced | python/engine/agent_run_store.py:112-136 | in the states every run keeps it always goes through, and every interrupted agent is announced |
| RunDb.Db.RecoverOne | python/engine/agent_run_store.py:117-136 | one listed agent, skipped when its lease is held or its row has changed; a settlement that raises leaves the tables as they were |
| RunDb.Db.Recover | python/engine/agent_run_store.py:112-136 | the loop over a listing that may be out of date, ended by the first settlement that raises |
| RunDb.Db.StartAttempt | python/engine/agent_run_store.py:138-180 | recovers and then admits or refuses; nobody is admitted when the recovery raises |
| RunDb.Db.Admit | python/engine/agent_run_store.py:149-177 | the admitting transaction in place, with all its refusals; it lets in exactly the admissible starts, the fence and the fixed fields included |
| RunDb.Db.DeleteSession | python/engine/agent_run_store.py:198-208 | recovers and then deletes a session without active agents; nothing is deleted when the recovery raises |
| RunDb.Db.DeliverOwned | python/engine/agent_mailbox.py:30-50 | the loop with its set of present ids appends what is missing in order, flushes and acknowledges |
| ActionJournal.LatestIsLast | python/engine/action_journal.py:110-132 | the folded status of an action is that of its last record |
| ActionJournal.RunGrantsApart | python/engine/action_journal.py:134-187 | in every run, orderly or not, two grants of one action have a failed record between them unless the second took the first over |
| JournalRules.GivenIsKept | python/engine/action_journal.py:111-132 | the folded operation, takeover and error mark are those of the last line that gives them |
| JournalRules.DecideIff | python/engine/action_journal.py:134-187 | a call is replayed exactly when the action's last line is completed, and executed exactly when it is not and nothing unfinished is the action or on its operation, or the call can recover; its grant names what it takes over |
| JournalRules.OutcomeDecides | python/engine/action_journal.py:189-240 | after a final outcome the next call is replayed, after an unknown one it must recover, after a failure only other actions are in its way |
| JournalRules.ClosesIff | python/engine/agent_action_contract.py:31-42 | a receipt closes exactly the unfinished actions its action took over, if its last line is completed and it was not marked as an error |
| JournalRules.FinalOutcomeCloses | python/engine/agent_action_contract.py:31-42 | a final outcome closes everything unfinished that was taken over, or nothing if it is an error |
| JournalSafety.StepKeepsOk | python/engine/action_journal.py:134-240 | every orderly step keeps unfinished actions on one operation linked by takeover |
| JournalSafety.UnfinishedAreLinked | python/engine/action_journal.py:150-172 | in every orderly run, of two unfinished actions on one operation one has taken the other over |
| JournalSafety.OnePerOperation | python/engine/action_journal.py:150-165 | without recoverable calls at most one action per operation is executing or unknown |
| JournalSafety.GrantsNeedFailure | python/engine/action_journal.py:150-187 | without recoverable calls two grants of one action are separated by a failed record |
| JournalSafety.CompletedStays | python/engine/action_journal.py:155-158 | a completed action stays completed and any further call is answered from the record |
| JournalSafety.TakeoverCloses | python/engine/agent_action_contract.py:31-42 | a grant in force that completes without error closes everything unfinished on its operation and changes nothing it had not taken over |
| JournalSafety.SettleKeepsOkIff | python/engine/agent_action_contract.py:31-42 | a settlement keeps the invariant exactly when nothing it closes has been granted again |
| JournalSafety.LateSettlementLetsTwoExecute | python/engine/agent_action_contract.py:31-42 | granting a taken-over action again between receipt and settlement lets a later non-recoverable call through while the first is under way |
| JournalFile.JournalOfSession.Fold | python/engine/action_journal.py:110-132 | the loop over the lines computes the latest entry of every action |
| JournalFile.JournalOfSession.BeginAction | python/engine/action_journal.py:134-187 | the decision, what a grant takes over, and the record appended |
| JournalFile.JournalOfSession.CompleteAction | python/engine/action_journal.py:189-217 | the outcome record, and settlement exactly when this process remembers a takeover |
| JournalFile.JournalOfSession.ReportAction | python/engine/action_journal.py:219-240 | one record, nothing else |
| JournalFile.JournalOfSession.SettleRecoveries | python/engine/agent_action_contract.py:31-42 | closes, each once, exactly the unfinished actions the receipt took over |
| AbortTree.AbortReaches | python/engine/abort.py:52-61 | an abort cancels exactly the node and everything under it |
| AbortTree.StepKeepsTree | python/engine/abort.py:52-181 | every locked section keeps: each listener at exactly one place, every untold node still reachable, only cancelled nodes told |
| AbortTree.CalledExactlyOnce | python/engine/abort.py:74-147 | in every run with nothing under way, a listener has been called exactly once if its node is cancelled and it was not removed in time, otherwise not at all |
| AbortTree.NothingOutside | python/engine/abort.py:112-147 | at any moment nothing outside the aborted subtrees is told or called, and no listener is called twice |
| AbortTree.ToldWhenQuiet | python/engine/abort.py:100-130 | no cancelled node stays untold |
| AbortTree.DeliveriesEnd | python/engine/abort.py:132-147 | dispatch ends, in whatever order it goes |
| AbortRules.ChildIsMade | python/engine/abort.py:96-118 | in every run a child can be made of any node; it is cancelled exactly when the parent is, and is joined or about to be told |
| AbortRules.ListenerIsRegistered | python/engine/abort.py:74-94 | in every run a listener can be registered on any node, where it waits or is about to be called |
| AbortRules.RemovalRemoves | python/engine/abort.py:90-94 | a listener removed before it was taken out to be called is never called in any continuation |
| AbortRules.RemovalSparesOthers | python/engine/abort.py:90-94 | a removal changes no other listener and no node |
| AbortForest.Forest.TakeNotifications | python/engine/abort.py:120-130 | copies out children and listeners the first time and nobody the second |
| AbortForest.Forest.TellNode | python/engine/abort.py:112-118 | tells one node and everything it leads to, leaving nothing of it pending |
| AbortForest.Forest.Dispatch | python/engine/abort.py:132-147 | children first, then listeners, every one passed on |
| AbortForest.Forest.CallAll | python/engine/abort.py:146-153 | calls each copied listener once |
| AbortForest.Forest.AbortNode | python/engine/abort.py:52-61 | a finished abort leaves a sound tree with nothing pending and reports whether it was the first |
| AbortForest.Forest.OnAbort | python/engine/abort.py:74-94 | on a cancelled node the listener is called at once, on any other it waits |
| AbortForest.Forest.NewRoot | python/engine/abort.py:27-34 | a new root is not cancelled and has nothing under it |
| AbortForest.Forest.NewChild | python/engine/abort.py:96-118 | a child joins its parent, or is told at once under a cancelled one |
| AbortForest.Forest.RemoveListener | python/engine/abort.py:90-94 | the removal a registration gives back is the step that discards the listener |
| RwLock.StepKeepsLock | python/common/rwlock.py:33-68 | every section keeps counters, ownership and the rule that whoever sleeps could not go on |
| RwLock.Exclusion | python/common/rwlock.py:42-68 | in every run a writer is alone, and the counters are the numbers of readers inside and writers waiting |
| RwLock.WritersFirst | python/common/rwlock.py:42-47 | in every run no reader enters while a writer waits |
| RwLock.NoLostWakeup | python/common/rwlock.py:42-68 | in every run whoever sleeps has someone inside or an awake writer that can enter at once |
| RwLock.ReleasePassesOn | python/common/rwlock.py:49-68 | after the last one leaves, any waiting writer, or without writers any waiting reader, can enter |
| RwLock.ReaderEntersIff | python/common/rwlock.py:42-47 | in every run a reader that comes or wakes gets in exactly when no writer is inside, asleep or awake, and otherwise sleeps |
| RwLock.WriterEntersIff | python/common/rwlock.py:54-63 | in every run a writer gets in exactly when no reader and no writer is inside |
| RwLock.LeavingWakesAll | python/common/rwlock.py:49-68 | who leaves is outside, everyone who slept is awake and nobody else has moved |
| RwLock.ReadersShare | python/common/rwlock.py:42-47 | any number of readers can be inside at once |
| RwLock.RWLock.AcquireRead | python/common/rwlock.py:42-47 | one pass of a reader's wait is the step; the reader enters exactly when no writer is inside or waiting |
| RwLock.RWLock.AcquireWrite | python/common/rwlock.py:54-63 | one pass of a writer's wait is the step, counted once while it waits; the writer enters exactly when nobody is inside |
| RwLock.RWLock.LeaveRead | python/common/rwlock.py:49-52 | a reader leaves and everyone wakes |
| RwLock.RWLock.LeaveWrite | python/common/rwlock.py:65-68 | the writer leaves and everyone wakes |
| Tarjan.SuffixIsScc | scripts/arch_coupling_census.py:118-126 | when a node's low link equals its index, what lies above it on the stack is a whole component |
| Tarjan.ScanNew | scripts/arch_coupling_census.py:112-115 | after a recursive call the low link still bounds and witnesses what is reachable on the stack |
| Tarjan.PopKeepsInv | scripts/arch_coupling_census.py:118-126 | taking the component off the stack keeps the search invariant |
| Tarjan.Census.Strong | scripts/arch_coupling_census.py:107-126 | the recursive search keeps the invariant and finishes its node |
| Tarjan.Census.PopComponent | scripts/arch_coupling_census.py:119-126 | the popping loop takes exactly the part above the node |
| Tarjan.StronglyConnected | scripts/arch_coupling_census.py:99-133 | the whole search lists strongly connected components that cover all nodes |
| Tarjan.SameComponentIffMutual | scripts/arch_coupling_census.py:99-133 | two nodes are in one component exactly when each reaches the other |
| Tarjan.EmittedAfterReachable | scripts/arch_coupling_census.py:99-133 | a component is emitted after every other component it reaches |
| Tarjan.ComponentsAreUnique | scripts/arch_coupling_census.py:99-133 | every node is in exactly one emitted component |
| Tarjan.SeveralPackagesIffCycle | scripts/arch_coupling_census.py:135-135 | there is a component of several packages exactly when two different ones reach each other |
| Labelling.PushNeighbours | gui/scripts/detect_first_assets.py:27-34 | marks and queues exactly the unseen mask pixels among the eight neighbours |
| Labelling.Flood | gui/scripts/detect_first_assets.py:22-34 | one flood visits exactly one component, each pixel once |
| Labelling.FloodFinds | gui/scripts/detect_first_assets.py:25-34 | an empty queue means the visited pixels are all that is reachable |
| Labelling.Bounds | gui/scripts/detect_first_assets.py:35-36 | the smallest and largest coordinates, each attained |
| Labelling.Components | gui/scripts/detect_first_assets.py:18-36 | the floods partition the mask into components, and the report has the exact size and tight box of each large one |
| Labelling.ReportedExactly | gui/scripts/detect_first_assets.py:35-36 | what is reported is every component of at least 12 pixels and nothing else |
| Labelling.ReportedOnce | gui/scripts/detect_first_assets.py:18-36 | no component is reported twice |
| Grid.NeighboursAre | gui/scripts/detect_first_assets.py:27-34 | the neighbours of a pixel are the eight around it, and the four of them at distance one |
| PaperFill.BorderSeeds | gui/scripts/build_pasture_v2_assets.py:23-28 | exactly the candidates on the border are queued |
| PaperFill.BorderTouchesOutside | gui/scripts/build_pasture_v2_assets.py:23-28 | a pixel is on the border exactly when a pixel next to it lies outside |
| PaperFill.Neighbours | gui/scripts/build_pasture_v2_assets.py:34-37 | exactly the unmarked candidates among the four neighbours are queued |
| PaperFill.ConnectedPaper | gui/scripts/build_pasture_v2_assets.py:20-37 | the fill ends although the queue holds duplicates, and marks exactly the candidates joined to the border by 4-neighbour steps |
| SseLines.CutIsHarmless | python/cli/attach_cmd.py:79-83 | normalising two chunks apart gives the same data as together, also when the cut is between CR and LF |
| SseLines.ChunksDoNotMatter | python/cli/attach_cmd.py:79-83 | the chunks give the data of the whole text |
| SseLines.CutAnyway | python/cli/attach_cmd.py:51-84 | two ways of cutting one text give the same data |
| SseLines.IterSseObjects | python/cli/attach_cmd.py:51-84 | the buffering loop yields the objects of the whole text, and the end mark exactly when the text has it |
| SseLines.Feed | python/cli/attach_cmd.py:66-77 | one line's contribution to objects and end mark |
| SseLines.PayloadIff | python/cli/attach_cmd.py:29-36 | a line has the data p exactly when it is `data:` and p, with blanks around each and byte order marks in front |
| SseLines.EachLineCounts | python/cli/attach_cmd.py:79-82 | a line feed, a return, or both together end exactly one line |
| SseLines.EachObjectCounts | python/cli/attach_cmd.py:39-48 | each datum that is not empty, not the end mark and parses is one object, in its place |
| JsonlTail.TailIsSuffix | python/diagnostics/collect.py:475-503 | the window's rows are the rows of the file's lines from the window on, under their physical numbers |
| JsonlTail.WindowIsSuffix | python/diagnostics/collect.py:475-503 | for every content and limit the window's rows are a suffix of the whole file's rows, and all of them when the limit covers the file |
| JsonlTail.RowsSuffix | python/diagnostics/collect.py:486-503 | rows from a later line are a suffix of all rows |
| JsonlTail.NumbersArePhysical | python/diagnostics/collect.py:486-503 | a row is reported under a number exactly when that physical line holds it |
| JsonlTail.WindowStarts | python/diagnostics/collect.py:476-479 | the window starts right after the first line feed in the last bytes, or is empty |
| JsonlTail.ScanTail | python/diagnostics/collect.py:459-503 | the rows, a suffix of the whole file's list under physical numbers, with the bytes, truncation and counts of scanned, unparsable and outside lines |
| JsonlTail.OutsideMissesOne | python/diagnostics/collect.py:481-484 | the outside count is exact except for an unterminated last line of at least the window's size |
| JsonlTail.LinesAreCutAtLf | python/diagnostics/collect.py:487-489 | the lines are the content cut at every line feed |
| JsonlTail.CountedLf | python/diagnostics/collect.py:481-484 | the number of lines before the window is the number of line feeds there |
| JsonlTail.ScannedIsTrue | python/diagnostics/collect.py:486-503 | `scanned` is the number of lines that hold anything |
| JsonlTail.UnparsableIsTrue | python/diagnostics/collect.py:486-503 | `unparsable` is the number of lines that hold something else than an object |
| EventMirror.ChannelMirror.PushEvent | python/channels/mirror.py:51-74 | numbers the event, keeps the latest consecutive ones, never more than the maximum nor fewer than max - max/2 + 1 once there were that many |
| EventMirror.ChannelMirror.EventsSince | python/channels/mirror.py:76-106 | a cursor up to the current number gets the kept events above it, any other cursor everything |
| EventMirror.AboveIsTail | python/channels/mirror.py:79-103 | the kept events above a number are a tail of the buffer |
| EventMirror.NothingMissed | python/channels/mirror.py:76-106 | a reader whose cursor is still within reach gets every later event without a gap |
| EventMirror.SinceExactly | python/channels/mirror.py:76-106 | an event is returned exactly when it is kept and above the cursor, or the cursor has no number or one from before a restart; what is returned is the end of what is kept |

## Left out

- Git, worktrees, SQLite and its rollback, OS leases, file guards and their stale-lock breaking: a guarded section or transaction is one step.
- Task ids and lease paths: a lease's paths and a task's dependencies count as sets, so order and duplicates of a stored list are not modelled; owner names and the files named in findings are taken as already stripped.
- Coordination: `WriteExclusion` assumes that no lease expires unnoticed and that no worker takes on a scope that shares a path with what it has in hand, as `Careful` says, and speaks of stable scopes; whether a worker stops when it does not get the lease back after `allow` is up to it; the ask list is reduced to the task it names, so its cut at 256 entries is not modelled; dependency admission is on; the reconciler takes a task that is still ready to merge, so a task that changes hands between its listing and the merge is not modelled.
- ScopePaths: Windows paths, and what resolving a path against the file system gives beyond being absolute.
- Writing an unchanged lease table back: every reader prunes again, so it makes no difference and is not modelled.
- `send` with another `kind` than message, blank or too long texts, `import_legacy`, results and artifacts of agents.
- `start` recovers before it takes the agent's lease, so it may replace a row that is still active; its old attempt then never settles, which is why `SettledOnce` says at most once.
- ActionJournal: a disabled journal, damaged lines, stored results and the journal's summary; which of several blocking records a refusal returns.
- Abort: `reset`, reasons, garbage collection of weakly held children, and registering one callable twice on one node.
- RwLock: cancellation of waiting tasks.
- Tarjan: the alphabetical order inside an emitted component and among roots.
- Labelling: the mask filter before and the sorting for print after; PaperFill: the colour distance before and the alpha channel after. An image without pixels, on which the source fails, is excluded by `ConnectedPaper`.
- SseLines: the turn id taken from objects; JsonlTail: a missing file; EventMirror: the stream and tool sections and extra fields that would overwrite an event's id.
- HTTP, command line, GUI, build scripts, cancellation of asyncio tasks, the diagnostics verdict tables, job queues and caches.
