# Verification of the GitOps engine's sync and cache core

A Dafny model of four parts of the engine, with proofs of what they are relied on for:

- **The sync operation** (`pkg/sync/sync_context.go`, `sync_tasks.go`, `sync_task.go`): a resumable scheduler of
  waves. Each call of `Sync` rebuilds and sorts a task list, refreshes what is running, and then waits, fails,
  succeeds, or runs one (phase, wave) through the stages of `runTasks`, whose work is done by goroutines.
- **The cluster cache** (`pkg/cache/cluster.go`, `resource.go`): two maps over one set of resources, owner
  references of claims inferred from StatefulSets, the ownership graph, and the walk down that graph.
- **Reconcile** (`pkg/sync/reconcile.go`): de-duplication by UID and the matching of targets with live objects.
- **Field projection** (`pkg/utils/json/json.go`).

Run `dafny verify dfyconfig.toml` in this directory.

## How it is built

What changes state in the engine changes state here. Task objects, the sync context, resources, the cluster and the
walk are classes, the sort and `adjustDeps` work in place on an array, and each method is proved to compute a
function of the values it started from. The laws are then proved about those functions.

| part | methods | functions | laws |
|---|---|---|---|
| order of tasks | `TaskArrays`, `Dependencies`, `TaskSort`, `PruneOrder`, `TaskList` | `TaskOrder`, `KindTable`, `Placement`, `PruneWaves`, `PlannedKeys` | there too, `SortLaws` |
| `runTasks` | `TaskRunner`, `RunMethods`, `StagedRun` | `RunSpec` | `RunLaws`, `RunBarriers`, `RunAnswers` |
| `Sync` | `SyncState`, `SyncParts`, `SyncMethods` | `SyncSpec` | `SyncLaws`, `HealthLaws`, `HookCleanup`, `CallEnds`, `FirstCall`, `SyncOutcome`, `AtMostOnce`, `SyncRequests`, `SyncRuns`, `RequestRuns`, `SyncFailRuns`, `SyncFailTwice`, `NamespaceRerun`, `GoodAnswers`, `Liveness`, `DryRuns`, `DryRunEffects` |
| cache | `OwnerRefs`, `ClusterCache`, `CacheMethods` | `CacheSpec`, `NamespaceIndex` | there too |
| graph and walk | `BuildGraph`, `Hierarchy`, `IterateHierarchy` | `OwnerGraph`, `Hierarchy` | there too, `Backfill` |
| reconcile | `Reconcile` | `ReconcileSpec` | there too |
| projection | `JsonFields` | `JsonFields` | there too |

The cluster's answers (applied or not, deleted, not found, health of live objects, verdicts of discovery and of the
wave hook) are parameters, so every theorem holds whatever they are. Goroutines and Go's map iteration are modelled
by leaving the next step open, so every interleaving and every order of iteration is covered. A sync operation is a
sequence of calls (`SyncRuns.Call`), each with its own list and answers: live objects, ties in the list and
everything outside may change between two calls.
What a run, a call or a match comes to is stated twice: by the function the method computes, and in terms of the
inputs alone. `RunAnswers` tells state, requests and records of a run from the tasks and the cluster's answers;
`HealthLaws`, `HookCleanup`, `CallEnds` and `FirstCall` tell a call from the records it begins with and the live
objects; `SortLaws` and `KindTable` tell the list from the manifests; `OwnerGraph.StandsFor` and `ReconcileSpec.Gets`
write out what a reference and a target look for.

`SyncExample.OneResource` follows one call through in full, and so shows that what the theorems about waves ask for
can be met. What a call does to the cluster is counted on the requests it sends: `Touches(steps, k)` is how often the
task of key `k` was applied or pruned for real.

Assumptions that recur: result keys of the tasks in one list are distinct (`PlannedKeys.PlannedKeysExact` says when);
wave numbers of one phase lie close enough together for `Less` to subtract them; recorded phases are never Terminating, which no
code path of `Sync` records.

## What came out against expectation

For each, an input or the exact condition, mostly both.

- **A dry-run operation can stall for ever.** With `dryRun` set in the context, tasks marked `skipDryRun` record
  nothing, so a call whose whole batch is left out leaves the state it found exactly when the wave hook agrees and
  something remains beyond the batch's slot, or a hook in it (`DryRuns.StallsExactly`); every later call then does the
  same (`DryRuns.StalledForEver`). Over resources whose kind the cluster does not know yet, that is exactly when there
  is more than one slot, or a hook (`DryRuns.DryRunStalls`).
- **A dry-run operation may change the cluster.** The delete policies and finalizer removals of `Sync` look at no
  dry-run flag. It is sure to change nothing exactly when no live hook has the hook finalizer or is to be deleted on
  success and, if there are regular tasks, none is to be deleted on failure (`DryRunEffects.DryRunChangesNothing`;
  `DryRunEffects.DryRunDeletesHook` for a request it sends). That is over all records an operation may be handed,
  which `WithInitialState` leaves open. Begun without records, an operation all of whose dry runs go well deletes
  such hooks in its first call (`DryRunEffects.FreshDryRunDeletes`); one that stalls first does not get there.
- **A prune that awaits confirmation suspends the dry run that should check everything else.** `runTasks` returns as
  soon as a confirmation is missing, in a dry run too, so the first call goes on without having checked a single
  manifest (`FirstCall.UnconfirmedChecksNothing`); `FirstCall.PreflightExactly` says exactly when the check stops it.
- **A hook that cannot be deleted is left in error by an operation that succeeds** (`HookCleanup.RecordsOnSuccess`, and
  exactly such hooks).
- **A SyncFail hook may run without any failure**: a Namespace hook named like the application namespace is applied by
  the first call (`SyncExample.SyncFailNamespace`). Short of a failure that is the only way
  (`SyncRequests.SyncFailTouches`).
- **Such a hook may run twice in one operation**: the first call creates it, and once a regular task has failed it is
  applied again together with the other SyncFail hooks (`NamespaceRerun.RunsTwice`, a whole operation). That can happen
  exactly when the operation is no dry run, the hook is the missing application namespace, there is another SyncFail
  hook, and some regular task can fail (`NamespaceRerun.TwiceExactly`). Whatever no call creates as the namespace runs
  at most once (`SyncFailRuns.SyncFailAtMostOnce`).
- **A CRD may be moved ahead of its own Namespace** by the second pass of `Sort`: exactly when, after the first pass, a
  resource of the kind it defines stands ahead of that Namespace (`Placement.CrdAheadOfNamespace`; an input in
  `Placement.CrdAheadInput`).
- **Two tasks may end under one result key**, and then both are applied in one batch (`SyncExample.SameKeyTwice`): the
  phase is part of the key, and `Sort` lowers the phase of Namespaces and CRDs. A CRD hook of two phases, needed by a
  hook of an earlier one, is an input (`PlannedKeys.TwoPhaseCrdInput`); `PlannedKeys.PlannedKeysExact` and
  `PlannedKeys.OneTargetApart` give the condition on the tasks found.
- **`Less` can go in a circle** (`TaskOrder.LessCanCycle`) when the difference of two waves overflows;
  `TaskOrder.SubtractionExact` gives the exact condition.
- **What is to be pruned last may be pruned first** when a wave of the Sync phase is the greatest integer
  (`PruneWaves.PrunedLastWraps`); `PruneWaves.PrunedLastIsLast` gives the exact condition.
- **Removing one of two StatefulSets that share a UID takes the claim's owner reference away from the other**
  (`CacheSpec.DuplicateUid`); `CacheSpec.DropKeepsInferred` gives the exact condition.
- **Removing an owner that a claim lists twice leaves one reference behind** (`OwnerRefs.RemovalNeedsDistinctUids`);
  `OwnerRefs.RemovalExact` gives the exact condition.
- **Walking the hierarchy may put an owner reference in a claim that its parent denies**, as it fills in the UIDs of
  references by name; `Backfill.BackfillKeepsInferred` gives the exact condition.
- **A target that leaves its namespace to the default does not protect its live object from de-duplication**, as its
  own key differs from the live key (`ReconcileSpec.SurvivesAlways`, an exact condition).
- **A target of unknown scope may leave one of its two live candidates without a target** (`ReconcileSpec.BothLive`):
  exactly when its scope is unknown and its effective namespace is not empty (`ReconcileSpec.TakesAllExactly`).

## Model

| member | source | states |
|---|---|---|
| `KeyStrings.StringLessTotal` | pkg/cache/cluster.go:1143-1147 | the comparison of key strings is a strict total order: of two strings they are equal or exactly one is less |
| `KeyStrings.StringLessTransitive` | pkg/cache/cluster.go:1143-1147 | and it is transitive |
| `KeyStrings.StringLessExact` | pkg/cache/cluster.go:1143-1147 | it is the lexicographic one: by the first difference, else by length |
| `KeyStrings.ToStringInjective` | pkg/utils/kube/kube.go:75-77 | keys without a slash in group, kind and namespace have different strings when they differ |
| `KeyStrings.GroupsDecide` | pkg/utils/kube/kube.go:75-77 | keys in different groups compare as their groups do |
| `KeyStrings.ToStringNotInjective` | pkg/utils/kube/kube.go:75-77 | without that restriction two different keys can print alike |
| `Tasks.MultiStepExact` | pkg/sync/sync_tasks.go:274-276 | on a sorted list, comparing the two ends is true exactly when two different (phase, wave) pairs occur |
| `TaskOrder.SubtractionExact` | pkg/sync/sync_tasks.go:94-97 | the wrapped 64-bit difference orders two waves as they are exactly when the true difference fits in 64 bits |
| `TaskOrder.LessBySlot` | pkg/sync/sync_tasks.go:85-110 | where waves of one phase fit, Less never goes against (phase, wave) and is asymmetric |
| `TaskOrder.NotLessPrecedes` | pkg/sync/sync_tasks.go:85-110 | where waves fit, "b is not less than a" says exactly: no later phase and wave, within one slot no higher rank of kind, within one rank no greater name |
| `KindTable.TableNoRepeats` | pkg/sync/sync_tasks.go:27-63 | no kind is listed twice; `KindTable.RowsOfLimits` and the four lemmas after it give the place of each |
| `KindTable.RankExact` | pkg/sync/sync_tasks.go:64-67 | the rank of a kind is at most that of another if and only if the table lists it no later, or does not list the other; ranks are equal only for one kind or two unlisted ones |
| `KindTable.InPlaceExact` | pkg/sync/sync_tasks.go:85-110 | so "not less" means, in terms of the table: phase, wave, place in the table with unlisted kinds last, name |
| `KindTable.PhasesInOrder` | pkg/sync/sync_tasks.go:15-20 | PreSync, Sync, PostSync and SyncFail run in this order whatever the waves, and lower waves first within a phase |
| `TaskOrder.NotLessTransitive` | pkg/sync/sync_tasks.go:85-110 | where waves of one phase fit, "not less" is transitive, so sorting by Less is meaningful |
| `TaskOrder.LessCanCycle` | pkg/sync/sync_tasks.go:94-97 | three concrete waves each less than the next in a circle, through overflow |
| `TaskOrder.LeastRefIs` | pkg/sync/sync_tasks.go:146-176 | the slot a dependency takes is the least among its own and those of all that refer to it |
| `TaskOrder.LoweredAnyOrder` | pkg/sync/sync_tasks.go:142-177 | where a dependency ends up does not depend on the order the list was in |
| `TaskOrder.LowerOrdersDependencies` | pkg/sync/sync_tasks.go:151-167 | afterwards no dependency has a later slot than what refers to it |
| `TaskArrays.SortByLess` | pkg/sync/sync_tasks.go:113 | sorting with Less and Swap permutes the array; when waves fit, of any two tasks the earlier has no later phase and wave, within one slot no higher rank of kind, and within one rank no greater name |
| `Dependencies.Move` | pkg/sync/sync_tasks.go:154-167 | one move of a dependency: it goes to the given place with that place's slot, everything between moves up by one, slots stay in order |
| `Dependencies.MoveKeepsOthers` | pkg/sync/sync_tasks.go:159-162 | moving a dependency leaves the other tasks in their order |
| `Placement.OthersKeepOrder` | pkg/sync/sync_tasks.go:142-177 | tasks that are no dependencies keep their order |
| `Placement.Placed` | pkg/sync/sync_tasks.go:142-177 | a dependency stands before another task afterwards if and only if it did before, or a task that refers to it stands at or before that other task; so nothing moves further than it must |
| `TaskSort.AdjustDeps` | pkg/sync/sync_tasks.go:142-177 | in place: the list is the one `Placement.Placed` characterises; a permutation, no dependency after a task that refers to it, slots still nondecreasing, each task at the slot the whole list determines |
| `TaskSort.Sort` | pkg/sync/sync_tasks.go:112-138 | sorted by phase, wave, the table of kinds and name (`sorted`, `infos`), and then both passes, each placing as `Placement.Placed` says: every CRD precedes all tasks of its kind; every Namespace precedes all tasks in it that are no CRDs; what is neither keeps the sorted order; (phase, wave) is nondecreasing; the slots are independent of the input order |
| `Placement.CrdAheadOfNamespace` | pkg/sync/sync_tasks.go:112-138 | a CRD ends ahead of the Namespace it is in if and only if, after the pass for Namespaces, a task of the kind it defines stands at or before that Namespace |
| `Placement.CrdAheadExactly` | pkg/sync/sync_tasks.go:112-138 | the same in terms of the list before both passes: such a task precedes the Namespace, and nothing in the Namespace stands at or before it |
| `Placement.CrdAheadInput` | pkg/sync/sync_tasks.go:112-138 | three tasks of a sorted list whose CRD ends ahead of its Namespace |
| `SortLaws.DepsFirstMeetNeeds` | pkg/sync/sync_tasks.go:112-138 | of the manifests: no task stands before the CRD that defines its group and kind, and none but a CRD or Namespace before the Namespace it is in |
| `SortLaws.PlainOrder` | pkg/sync/sync_tasks.go:112-138 | after both passes, tasks that are neither Namespaces nor CRDs still stand, among themselves, in the order of phase, wave, table of kinds and name |
| `PruneWaves.MirrorLaws` | pkg/sync/sync_context.go:925-939 | the symmetric swap maps the prune waves onto themselves, is its own inverse and strictly reverses their order |
| `PruneWaves.PruneOrderReversed` | pkg/sync/sync_context.go:911-958 | prune tasks that are not put last run in the reverse of their creation order, on the same waves |
| `PruneWaves.PrunedLastIsLast` | pkg/sync/sync_context.go:941-960 | in the list Sort yields, a prune-last task has a strictly greater wave than every other task of the Sync phase if and only if the greatest wave of that phase can be incremented in 64 bits, or there is no other task |
| `PruneWaves.PrunedLastWraps` | pkg/sync/sync_context.go:951 | where it cannot, the prune-last task comes first |
| `PruneOrder.SwapWaves` | pkg/sync/sync_context.go:911-939 | the loops over groups of prune waves give every prune task the mirrored wave, in place |
| `PruneOrder.LastSyncWave` | pkg/sync/sync_context.go:943-951 | one more, in 64 bits, than the greatest of zero and the waves of the Sync phase |
| `PruneOrder.OrderPrunes` | pkg/sync/sync_context.go:911-958 | all wave overrides of prune tasks together |
| `PlannedKeys.PlannedKeysExact` | pkg/sync/sync_tasks.go:154-157 | the sorted list has distinct result keys if and only if any two tasks found for one object are told apart by a phase by which one will run, or be needed, and the other will not |
| `PlannedKeys.OneTargetApart` | pkg/sync/sync_tasks.go:154-157 | where tasks of one object share its manifest: if and only if no object found for two phases is needed by the earlier of them |
| `PlannedKeys.TwoPhaseCrdInput` | pkg/sync/sync_tasks.go:154-157 | a CRD hook of two phases, needed by a PreSync hook, ends with one key for both |
| `SyncExample.SameKeyTwice` | pkg/sync/sync_context.go:1485-1499 | and a key that occurs twice in a batch is applied twice |
| `TaskList.GetSyncTasks` | pkg/sync/sync_context.go:911-974 | the list handed to Sync: the tasks found, each at its determined slot, Namespaces and CRDs ahead of what needs them, the rest in the order of phase, wave, kind and name, each carrying what is recorded for it; its keys are distinct exactly under the condition above |
| `SyncState.SyncContext.SetResourceResult` | pkg/sync/sync_context.go:1534-1576 | the task and its record get the new status, other records stay, recorded orders never change and number the records from one without a gap |
| `RunSpec.KindGroupsPartition` | pkg/sync/sync_context.go:1486-1498 | the create groups concatenate to the create list, each is of one kind, and neighbouring groups differ in kind |
| `RunLaws.RequestsOnce` | pkg/sync/sync_context.go:1382-1398 | a stage sends no request twice |
| `RunLaws.CreateGroupsFlat` | pkg/sync/sync_context.go:1486-1499 | creating group by group reports and records what creating all at once would |
| `RunLaws.RunTasksGrows` | pkg/sync/sync_context.go:1363-1500 | a run changes records of its own tasks only, removes none, and what it writes is never "pending" |
| `RunLaws.RunTasksSuccess` | pkg/sync/sync_context.go:1363-1531 | a successful run that is meant to be recorded leaves every task it does not leave out carried out: synced, or pruned or its pruning skipped |
| `RunLaws.RunTasksFailure` | pkg/sync/sync_context.go:1363-1531 | a failed run leaves a task recorded completed but unsuccessful |
| `RunBarriers.RunStateExact` | pkg/sync/sync_context.go:1363-1500 | the state returned in terms of the stages: the first stage that does not end well decides, by its most serious outcome, and a missing confirmation counts as pending |
| `RunAnswers.StateFromAnswers` | pkg/sync/sync_context.go:1363-1500 | the state returned in terms of the answers: failed exactly when a finalizer stays, or, with none left and nothing to confirm, a prune is refused, or, short of that, a hook's deletion, or, with no deletion refused or started, an apply; pending exactly when a confirmation is missing after the finalizers, or a deletion was started and none refused |
| `RunAnswers.RequestsFromAnswers` | pkg/sync/sync_context.go:1363-1531 | the requests sent, each if and only if: finalizers of hooks left over; deletions of what may be pruned and is not going; deletions of left-over hooks with that policy; applies of all that is to be created and not left out; each kind only when the answers before it were good, and none but client dry runs in a dry run |
| `RunAnswers.RecordsFromAnswers` | pkg/sync/sync_context.go:1363-1531 | what is recorded of every task afterwards, status and phase, in each of these cases |
| `RunAnswers.NothingOverDeletion` | pkg/sync/sync_context.go:1448-1483 | when the deletion of a hook was started, the run is not successful and applies nothing |
| `RunBarriers.CreatesBehindBarriers` | pkg/sync/sync_context.go:1400-1499 | nothing is applied unless the finalizer, prune and delete stages all ended well; then each kind group's requests follow the previous group's |
| `RunBarriers.PrunedApart` | pkg/sync/sync_context.go:1424-1449 | pruning changes nothing that the stages after it look at |
| `RunBarriers.DryRunHarmless` | pkg/sync/sync_context.go:1363-1531 | an effective dry run sends no request that changes the cluster, on any path |
| `RunBarriers.PreflightLeavesResults` | pkg/sync/sync_context.go:455-458 | a dry run that does not fail, in an operation that is not one itself, leaves every record as it was |
| `TaskRunner.AnyOrder` | pkg/sync/sync_context.go:1595-1626 | in whatever order goroutines finish, state, records and requests are the same |
| `TaskRunner.RunStage` | pkg/sync/sync_context.go:1382-1398 | one stage under every interleaving of its goroutines: the state is the most serious, the records and the requests are those of its tasks |
| `RunMethods.ProcessCreateTasks` | pkg/sync/sync_context.go:1502-1531 | one kind group: tasks left out of a dry run are left out, the others are applied |
| `RunMethods.CreateByKind` | pkg/sync/sync_context.go:1485-1499 | the accumulating loop computes the creation by kind groups |
| `StagedRun.RunTasks` | pkg/sync/sync_context.go:1363-1500 | the method on task objects returns, records and sends what the specification says, whatever the interleaving; and, told of the answers alone, the state, the records and the requests that `RunAnswers` gives |
| `SyncParts.RefreshTasks` | pkg/sync/sync_context.go:461-493 | running tasks take over what their live objects say, written out for every health status (getOperationPhase, lines 318-341): for a hook degraded and unknown are failures, an assessment error an error, progressing and suspended keep it running, the rest is success; other tasks succeed when healthy or without assessment and fail when degraded; nothing else changes |
| `HealthLaws.RefreshExactly` | pkg/sync/sync_context.go:461-493 | the same of the records of the tasks of a call |
| `SyncParts.CallEach` | pkg/sync/sync_context.go:712-719 | one call per hook, failures recorded, the rest of the records kept |
| `SyncMethods.HasToWait` | pkg/sync/sync_context.go:495-514 | true exactly when something running, or pruned and not gone, holds the operation back |
| `SyncMethods.SetOperationFailed` | pkg/sync/sync_context.go:732-762 | fails at once if all SyncFail hooks are done, else runs them and fails only if they fail |
| `SyncMethods.RunWave` | pkg/sync/sync_context.go:568-609 | runs exactly the first slot's candidates and concludes as specified |
| `SyncMethods.Preflight` | pkg/sync/sync_context.go:433-458 | the namespace first, for real; then the dry run over the others |
| `SyncMethods.Sync` | pkg/sync/sync_context.go:416-609 | the method's phase, records and requests are those of `SyncSpec.SyncStep`, whatever the interleaving; of a started operation the phase is also the one `HealthLaws.CallFollows` gives, and a call that is held up sends nothing |
| `TaskList.SyncOnce` | pkg/sync/sync_context.go:416-609 | the same from the unsorted tasks on |
| `HealthLaws.CallFollows` | pkg/sync/sync_context.go:497-579 | a call of a started operation, from its records and live objects: it waits exactly when a running hook, or with several slots a running task, is not found done, or something pruned is still going; else it fails exactly when a regular task has failed, is found degraded (a hook also unknown or in error), or is a hook whose finalizer stays; else it runs a wave exactly when a regular task is unrecorded and not skipped as unmodified, and otherwise succeeds |
| `HealthLaws.FailedTaskStops` | pkg/sync/sync_context.go:461-544 | a call that begins with a regular task running and found to have failed, or recorded so, runs no wave, does not succeed, applies and prunes nothing regular and leaves that task recorded as failed |
| `HealthLaws.SuccessNeedsHealth` | pkg/sync/sync_context.go:319-341 | when a call decides Succeeded, every hook that was running when it began has a live object that is healthy, missing or without assessment |
| `HookCleanup.HooksLetGo` | pkg/sync/sync_context.go:516-523 | the first requests of a call that does not wait remove the finalizers of exactly the hooks that have ended, or are found to, and have one |
| `HookCleanup.DeletedOnSuccess` | pkg/sync/sync_context.go:525-562 | the last requests of a call that decides Succeeded delete exactly the live hooks with that policy, whether they have run or not |
| `HookCleanup.DeletedOnFailure` | pkg/sync/sync_context.go:530-544 | a call that finds a regular task to have failed deletes exactly the live hooks with that policy |
| `HookCleanup.RecordsOnSuccess` | pkg/sync/sync_context.go:712-719 | a call that decides Succeeded leaves the records it decided on, but in error for exactly the hooks whose deletion failed otherwise than by their being gone |
| `HookCleanup.RecordsOnFailure` | pkg/sync/sync_context.go:712-719 | the same of the regular tasks when a call finds one to have failed |
| `CallEnds.PhaseAfterWave` | pkg/sync/sync_context.go:565-609 | the phase after a wave: failed if the wave hook objects to a wave that has not failed; running while it is pending; after success running exactly when a task beyond the slot can be started or a hook was in it, else Succeeded |
| `CallEnds.PhaseAfterFailure` | pkg/sync/sync_context.go:732-762 | after a failure the SyncFail hooks are run exactly when one is not completed; the operation fails if none is left or they fail, and otherwise keeps its phase |
| `FirstCall.PreflightExactly` | pkg/sync/sync_context.go:433-458 | the checks of the first call fail if and only if the application namespace is refused, or the dry run over another task is while no prune awaits confirmation |
| `FirstCall.FirstCallEnds` | pkg/sync/sync_context.go:433-458 | and then that call ends as Failed without a wave |
| `FirstCall.UnconfirmedChecksNothing` | pkg/sync/sync_context.go:1404-1421 | as long as a prune awaits confirmation the dry run of the first call sends nothing at all |
| `SyncExample.OneResource` | pkg/sync/sync_context.go:416-609 | a complete first call over one new resource: dry run, apply, Succeeded, with every request it sends |
| `SyncLaws.SyncGrows` | pkg/sync/sync_context.go:416-609 | a call on a valid list never drops a record, never touches records of other tasks and never makes a recorded task pending again |
| `SyncLaws.WaveSafety` | pkg/sync/sync_context.go:545-579 | a call's batch is exactly the pending regular tasks of the least slot that has one, and every regular task of an earlier slot has succeeded or was skipped as unmodified |
| `SyncLaws.FailStop` | pkg/sync/sync_context.go:539-544 | once a regular task is completed unsuccessfully, a call on a valid list runs no wave, does not succeed, and leaves a failure recorded |
| `SyncLaws.WaveFailureRecorded` | pkg/sync/sync_context.go:591-595 | a wave that fails leaves such a failure recorded, and the call does not succeed |
| `SyncRequests.RegularTouches` | pkg/sync/sync_context.go:437-609 | a call really applies or prunes no regular task but those of its batch and, in the first call of an operation that is no dry run, the application namespace, which it does apply |
| `SyncRequests.SyncFailTouches` | pkg/sync/sync_context.go:437-609 | a call that knows of no failed regular task really applies a SyncFail task if and only if that is the application namespace and the call the first of an operation that is no dry run; which is applied there in any case |
| `SyncExample.SyncFailNamespace` | pkg/sync/sync_context.go:625-633 | a SyncFail hook that is the application namespace is applied by the first call with no failure known |
| `SyncFailRuns.SyncFailOnce` | pkg/sync/sync_context.go:732-762 | a call that does not create it as the application namespace runs a SyncFail hook at most once, not at all once all of them are started, and then ends the operation or leaves all of them started |
| `SyncFailRuns.SyncFailAtMostOnce` | pkg/engine/engine.go:111-129 | over a whole operation with a fixed set of tasks a SyncFail hook is really applied at most once, unless some call creates it as the application namespace |
| `SyncFailTwice.BootstrapCall` | pkg/sync/sync_context.go:437-458 | a call that creates the application namespace as a SyncFail hook applies it once, takes no decision, and fails or leaves it recorded |
| `NamespaceRerun.RunsTwice` | pkg/sync/sync_context.go:732-762 | an operation from no records, with fixed targets, whose first call creates the namespace and whose last call applies it again after a regular task has failed; those in between skip tasks to be pruned |
| `NamespaceRerun.TwiceExactly` | pkg/sync/sync_context.go:732-762 | such an operation exists if and only if it is no dry run, the hook is the missing application namespace of the first list, the list has another SyncFail hook, and a regular task that is to be created or, if the operation prunes, pruned |
| `SyncOutcome.MeaningOfSucceeded` | pkg/sync/sync_context.go:539-609 | when a call that is no dry run decides Succeeded, regular hooks have succeeded, other regular tasks have succeeded, were skipped or belong to the final slot, and the final wave was carried out |
| `SyncOutcome.WaveProgress` | pkg/sync/sync_context.go:568-609 | a wave run that ends successful or failed strictly lowers the number of regular tasks not yet started |
| `AtMostOnce.RunTasksAccounted` | pkg/sync/sync_context.go:1363-1531 | whenever a run really applies or prunes a task, once, its record turns from pending to something; otherwise not at all |
| `AtMostOnce.SyncAccounted` | pkg/sync/sync_context.go:416-609 | the same of a whole call |
| `SyncRuns.AtMostOnceOverRuns` | pkg/engine/engine.go:111-129 | over a whole operation, however lists and answers vary, a regular task is applied or pruned for real at most once, and never if it was recorded before |
| `RequestRuns.RequestsInOrder` | pkg/engine/engine.go:111-129 | over a whole operation with a fixed set of tasks and no filter for out-of-sync ones, whatever regular task is applied or pruned for real has no earlier slot than those before it, the creation of the application namespace apart |
| `RequestRuns.RequestsAdvance` | pkg/engine/engine.go:111-129 | in an operation that is no dry run, it has a strictly later slot than those of a batch that was successful |
| `RequestRuns.NoRequestAfterFailure` | pkg/engine/engine.go:111-129 | after a recorded failure no later call of the operation applies or prunes a regular task, nor does the operation succeed |
| `RequestRuns.NoRequestAfterFailedWave` | pkg/engine/engine.go:111-129 | nor does any call after a batch that failed |
| `RequestRuns.NoRequestAfterBadHealth` | pkg/engine/engine.go:111-129 | nor does any call from one on that begins with a regular task found to have failed |
| `SyncRuns.WavesBounded` | pkg/engine/engine.go:111-129 | an operation that is no dry run has at most as many waves that end successful or failed as it has regular tasks to start |
| `GoodAnswers.SmoothRun` | pkg/sync/sync_context.go:1363-1531 | a run whose requests are all granted, with hooks to be deleted first gone, never fails and is pending exactly when pruning awaits confirmation |
| `Liveness.EndsWell` | pkg/engine/engine.go:111-129 | an operation that is no dry run, whose requests are all granted and whose started tasks are healthy by the next call, is running up to some call and then ends as Succeeded, after at most one call more than it has tasks to start |
| `DryRuns.DryWaveProgress` | pkg/sync/sync_context.go:1503-1526 | a successful wave of a dry-run operation makes progress exactly when some task of it is a prune or not left out of dry runs |
| `DryRuns.StallsExactly` | pkg/sync/sync_context.go:1505-1507 | a dry-run call whose batch is left out as a whole leaves phase Running and the records it found if and only if nothing was refreshed before the decision, the wave hook agrees, and something remains beyond the slot, or a hook in it |
| `DryRuns.StalledForEver` | pkg/engine/engine.go:111-129 | a call that leaves what it found does so however often it is repeated |
| `DryRuns.DryRunStalls` | pkg/sync/sync_context.go:1505-1507 | a dry-run operation over new resources of unknown kinds stalls in its first call if and only if they have more than one slot or one is a hook |
| `DryRunEffects.DryRunOnlyCleansUp` | pkg/sync/sync_context.go:539-609 | the only requests of a dry-run call that change the cluster remove the finalizer of a live hook that has it, or delete one to be deleted on success or, when there are regular tasks, on failure |
| `DryRunEffects.DryRunDeletesHook` | pkg/sync/sync_context.go:556-562 | where all tasks have succeeded, a dry-run call does delete a live hook with that policy |
| `DryRunEffects.DryRunChangesNothing` | pkg/sync/sync_context.go:416-609 | all calls of a dry-run operation, whatever is recorded and answered, send nothing that changes the cluster if and only if the list has none of those hooks |
| `DryRunEffects.FreshDryRunDeletes` | pkg/sync/sync_context.go:437-562 | begun without records and going well in all its tasks, a dry-run operation deletes the live hooks to be deleted on success in its first call |
| `CacheSpec.InferredMeans` | pkg/cache/cluster.go:455-466 | the invariant in the nodes' own terms: of PersistentVolumeClaims in the core group, and of what can infer, in one namespace |
| `CacheSpec.PutKeepsInferred` | pkg/cache/cluster.go:445-467 | setting a node keeps "a claim lists a parent's UID exactly when the parent infers it" if and only if parents sharing a UID agree about the claims |
| `CacheSpec.DropKeepsInferred` | pkg/cache/cluster.go:1349-1372 | removing a node keeps it if and only if no other parent with its UID shares a claim with it |
| `CacheSpec.DuplicateUid` | pkg/cache/cluster.go:1361-1365 | a cache in which removing one of two parents with one UID breaks it |
| `CacheSpec.RunKeepsInferred` | pkg/cache/cluster.go:1331-1340 | every run of updates and deletions in which parents have distinct UIDs keeps it |
| `CacheSpec.LoadSettles` | pkg/cache/cluster.go:932-957 | a first load, in any order of arrival and iteration, gives every claim the owners that the set of resources determines, if parents sharing a UID agree |
| `CacheSpec.LoadAnyOrder` | pkg/cache/cluster.go:932-957 | two loads of the same resources in different orders end in the same cache |
| `OwnerRefs.WithOwnerUids` | pkg/cache/resource.go:56-72 | with distinct UIDs, a reference is there afterwards exactly when asked for and all others are as before |
| `OwnerRefs.RemovalNeedsDistinctUids` | pkg/cache/resource.go:56-72 | with a repeated UID a removal leaves the second reference behind |
| `OwnerRefs.RemovalExact` | pkg/cache/resource.go:56-72 | a removal takes one reference with the UID away, so it leaves none if and only if at most one was listed |
| `OwnerRefs.Resource.SetOwnerRef` | pkg/cache/resource.go:56-72 | the method adds at the end, or removes the first with the UID, or does nothing |
| `NamespaceIndex.PartitionExact` | pkg/cache/cluster.go:445-453 | a map of buckets is the partition by namespace exactly when no bucket is empty and each holds just its namespace's resources |
| `NamespaceIndex.PartitionPut` | pkg/cache/cluster.go:445-453 | storing a key in both maps keeps them in agreement |
| `NamespaceIndex.PartitionDelete` | pkg/cache/cluster.go:1350-1359 | deleting a key from both maps, with its bucket if left empty, does too |
| `ClusterCache.AskedOthers` | pkg/cache/cluster.go:455-466 | in whatever order the namespace is asked, every other claim is told once of the new parent, and other resources keep their references |
| `ClusterCache.AskedPuts` | pkg/cache/cluster.go:455-466 | where claims list no UID twice, asking in any order gives the owners CacheSpec.Puts allows |
| `ClusterCache.Cluster.SetNode` | pkg/cache/cluster.go:445-467 | both maps get the node; the lists of references are those that asking the namespace in some order gives, whatever they were; where claims list no UID twice it is a step of CacheSpec |
| `ClusterCache.Cluster.OnNodeRemoved` | pkg/cache/cluster.go:1349-1372 | both maps lose the key; exactly the claims of the namespace inferred by it lose the first reference with its UID, and no other list changes; where claims list no UID twice it is a step of CacheSpec |
| `CacheMethods.FindResources` | pkg/cache/cluster.go:1028-1056 | looking in one bucket finds exactly what filtering all resources by namespace and predicates would |
| `CacheMethods.ProcessEvent` | pkg/cache/cluster.go:1331-1340 | an event sets or removes its node, the index still agrees, and the lists of references change as setting or removing does; where claims list no UID twice it is one step of a cache run |
| `CacheMethods.ReplaceResourceCache` | pkg/cache/cluster.go:391-415 | afterwards the keys of the kind (and namespace) are exactly the listed ones at the listed versions; a cached resource stays while no other version of it is listed, and one listed once that is new, or cached at another version, is stored; other keys are unchanged and the index agrees; with distinct UIDs the claims stay in step with what is inferred |
| `CacheMethods.Load` | pkg/cache/cluster.go:932-957 | loading a list holds its resources, and ends in the settled cache where claims list no UID twice and parents of one UID agree |
| `OwnerGraph.BackfillStable` | pkg/cache/cluster.go:1117-1131 | filling in a UID does not change what the reference stands for, and is idempotent |
| `OwnerGraph.GroupOfExact` | pkg/cache/cluster.go:1117-1121 | parsing an API version yields a group if and only if the version is "group/version", or bare and the group the core group; so at most one |
| `OwnerGraph.GroupOfInvalid` | pkg/cache/cluster.go:1117-1121 | it fails exactly on two slashes |
| `OwnerGraph.OwnerFoundByName` | pkg/cache/cluster.go:1117-1127 | round trip: the reference made to a cached resource, without its UID, finds that resource, if its API version is one of its group |
| `OwnerGraph.OwnerUidIs` | pkg/cache/cluster.go:1115-1131 | a reference with a UID stands for that UID; one without stands for u if and only if the resource of that group, kind and name in the child's namespace has UID u |
| `OwnerGraph.AddEdgeGraph` | pkg/cache/cluster.go:1137-1150 | one more owner-child pair: the graph still holds, for each owner and UID, the candidate of least key string |
| `OwnerGraph.GraphUnique` | pkg/cache/cluster.go:1102-1156 | on well-formed keys there is only one such graph, so it is the same for every order of iteration |
| `BuildGraph.BackfillKeepsEdges` | pkg/cache/cluster.go:1115-1131 | building again from back-filled references gives the same graph |
| `BuildGraph.BuildGraph` | pkg/cache/cluster.go:1102-1156 | an entry for owner and UID exists exactly when a node of that UID has a reference that stands for the owner's UID, by UID or by API group, kind, namespace and name; it is such a node, the one of least key string; references come out with those UIDs filled in |
| `Hierarchy.ClosedHasReached` | pkg/cache/resource.go:79-107 | a set holding the roots and the children of its accepted members holds all that is reached |
| `Hierarchy.Walk.IterateChildren` | pkg/cache/resource.go:79-107 | finishes on every graph, cycles included; everything it colours it finishes, and what was coloured before keeps its colour |
| `Hierarchy.Walk.WalkFrom` | pkg/cache/cluster.go:1074-1098 | the action is called on exactly what the given keys reach through accepted resources, on each accepted one once |
| `Backfill.BackfillKeepsInferred` | pkg/cache/cluster.go:1115-1131 | filling in UIDs keeps the claims' owners as inferred if and only if it fills in no parent that denies the claim, given parents with UIDs |
| `IterateHierarchy.IterateHierarchyV2` | pkg/cache/cluster.go:1059-1100 | the same in every namespace that has one of the keys, on the graph of what the owner references as they were stand for; the references of those namespaces come out back-filled and no others change; the cache stays valid, and stays as inferred exactly under the condition above |
| `ReconcileSpec.DedupKeeps` | pkg/sync/reconcile.go:33-63 | of every live object something with its UID stays, and an object whose own key is a target's stays itself |
| `ReconcileSpec.DedupLeavesOne` | pkg/sync/reconcile.go:33-63 | of two objects with one UID both stay only if both keys are targets', and a target's leaves no other |
| `ReconcileSpec.DedupAgain` | pkg/sync/reconcile.go:33-63 | de-duplicating twice is de-duplicating once |
| `ReconcileSpec.SurvivesAlways` | pkg/sync/reconcile.go:33-63 | an object is sure to survive if and only if it has no duplicate or its own key is a target's |
| `ReconcileSpec.GetsFirst` | pkg/sync/reconcile.go:75-103 | trying the keys in turn gives a namespaced target the live object of its group, kind and name in its own namespace, else the default one; a cluster-scoped one that without namespace; one of unknown scope the first of the two that is there |
| `ReconcileSpec.MatchesExact` | pkg/sync/reconcile.go:74-107 | giving each target, so written out, what no earlier target took has exactly one outcome, the one the loop computes |
| `ReconcileSpec.MatchedOnce` | pkg/sync/reconcile.go:95-103 | no live object goes to two targets |
| `ReconcileSpec.KnownScopeTaken` | pkg/sync/reconcile.go:75-107 | a live object of the group, kind, name and namespace of a target of known scope always gets a target |
| `ReconcileSpec.TakesAllExactly` | pkg/sync/reconcile.go:75-107 | a lone target takes every live object it may stand for, whatever is live, if and only if its scope is known or it has no namespace, not even by default |
| `ReconcileSpec.BothLive` | pkg/sync/reconcile.go:84-93 | otherwise, with both its objects live, it takes the one in a namespace and leaves the other |
| `Reconcile.SplitHooks` | pkg/sync/reconcile.go:13-27 | targets and hooks in their order: the objects that are not ignored, by whether they are hooks; ignored and nil objects in neither |
| `Reconcile.DropDuplicates` | pkg/sync/reconcile.go:48-60 | the countdown leaves of a group the targets, or one member if there is none |
| `Reconcile.DedupLiveResources` | pkg/sync/reconcile.go:33-63 | all groups, in any order |
| `Reconcile.MatchTargets` | pkg/sync/reconcile.go:74-107 | every target gets the live object written out above that no earlier target took, and what is taken leaves the map |
| `Reconcile.Reconcile` | pkg/sync/reconcile.go:71-117 | every surviving live object is in the result exactly once; targets, which are the objects given that are neither hooks nor ignored, come first in their order, each with the live object written out above; the rest have no target |
| `JsonFields.ProjectSelf` | pkg/utils/json/json.go:4-54 | projecting a document onto itself changes nothing |
| `JsonFields.ProjectTwice` | pkg/utils/json/json.go:4-54 | projecting twice is projecting once |
| `JsonFields.ProjectAt` | pkg/utils/json/json.go:4-54 | at any path the result has something exactly where live has and the configuration cuts nothing on the way, and it is live's part projected in turn |
| `JsonFields.ProjectLeaf` | pkg/utils/json/json.go:4-54 | every leaf of the result is live's leaf at the same path |
| `JsonFields.ProjectWhole` | pkg/utils/json/json.go:4-54 | a leaf or null of live is in the result unchanged exactly where the configuration cuts nothing on the way, and any part whose shape differs from the configuration's there is kept whole |
| `JsonFields.RemoveFields` | pkg/utils/json/json.go:4-21 | the dispatch computes the projection |
| `JsonFields.RemoveMapFields` | pkg/utils/json/json.go:24-37 | the loop over a map computes it, in any order of keys |
| `JsonFields.RemoveListFields` | pkg/utils/json/json.go:39-54 | the loop over a list computes it; elements beyond the configuration's are kept |

## Left out

- Kubernetes clients, discovery, kubectl, CRD readiness polling, client-side apply migration, conflict retries when a finalizer is removed: one answer per call takes their place.
- Texts: messages, annotation strings, regular expressions, images and timestamps. Wave, phase, hook type, delete policies and options are fields; the inferred-parent test is an arbitrary predicate on keys.
- The front half of getSyncTasks: creating tasks from resources and hooks, autoCreateNamespace, permission checks. Its verdict and its tasks are inputs.
- SyncLaws.SyncGrows: a list that fails a permission or discovery check overwrites records with an empty phase (pkg/sync/sync_context.go:896-903) before the operation fails; here an invalid list leaves the records alone.
- SyncLaws.FailStop: for the same reason, on an invalid list the failure may be overwritten; the operation has then failed all the same.
- Terminate, and the callbacks of the cache's event handlers.
- SyncSpec.SyncStep: a hook found to be gone when it is to be deleted keeps its live object here, where the code sets it to nil; nothing reads it again before the list is rebuilt.
- HealthLaws.CallFollows: told of the calls of a started operation; the first call, once its checks are done (FirstCall), goes on in the same way from the records they leave, by SyncSpec.SyncStep.
- TaskArrays.SortByLess: the library sort is modelled by an insertion sort; what is proved is used only as "a permutation with nothing out of order".
- TaskArrays.SyncTask: the target and live objects of a task object are fixed for the length of one call.
- SyncState.SyncContext.SetResourceResult: result keys are pairs of resource key and phase where the code joins them into a string, and of a record only status, phase and order are kept.
- KeyStrings.StringLessTotal: characters are compared where the code compares bytes, and strings are not normalised.
- OwnerRefs.Resource.SetOwnerRef: the owner list is a value here; that removal in Go shifts elements of a shared backing array is not modelled.
- BuildGraph.BuildGraph: the graph holds keys in place of pointers to the resources cached under them.
- CacheMethods.Load: a second sync, which clears one map and not the other, is not modelled; agreement of the two maps is claimed from a fresh cache on.
- CacheMethods.ReplaceResourceCache: inferred owners are claimed for claims that list no UID twice and for distinct UIDs only, given as the set of all nodes ever seen.
- TaskList.SyncOnce: for lists in which two tasks end under one result key the records of the two are not told apart; what a run does with such a pair is SyncExample.SameKeyTwice.
- NamespaceRerun.TwiceExactly: operations in which the namespace is found missing only after the first call are left out; SyncFailRuns.SyncFailAtMostOnce covers every call that does not create it.
- Liveness.EndsWell: hooks left over from before, which have to be deleted first, are taken to be gone.
- Reconcile.DedupLiveResources: the live map is taken to be keyed by its objects' own keys.
- isParentOf, GetManagedLiveObjs, watches, paging, locks and resync timers of the cache.
- Health assessors, diffing, tracing, generated schemas.
