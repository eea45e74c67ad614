/**
 What one run of tasks comes to (runTasks of pkg/sync/sync_context.go), told of the answers of the cluster and of the
 tasks alone: which state it reports, which requests it sends, and what is recorded of every task afterwards.
 */
module RunAnswers {
  import opened Kube
  import opened Lists
  import opened Tasks
  import opened RunSpec
  import opened RunLaws
  import opened RunBarriers

  // ----- what each task meets -----

  // A hook that has not been started in this operation, but is there all the same
  predicate IsLeftOver(t: Task, res: Results) {
    && !t.objs.TargetOnly?
    && (if t.objs.LiveOnly? then t.objs.live.isHook else t.objs.target.isHook)
    && (t.RKey() in res ==> res[t.RKey()].op.NoPhase?)
  }

  predicate LosesFinalizer(s: Stages, t: Task) {
    !s.dry && IsLeftOver(t, s.res) && t.objs.live.hookFinalizer
  }

  predicate FinalizerStays(s: Stages, t: Task) {
    LosesFinalizer(s, t) && !s.calls.removeFinalizer(t.RKey())
  }

  predicate NeedsConfirmation(s: Stages, t: Task) {
    !s.cfg.pruneConfirmed && t.objs.LiveOnly? && PruneRequireConfirm in t.objs.live.options
  }

  predicate MayBePruned(s: Stages, t: Task) {
    t.objs.LiveOnly? && s.cfg.prune && DisablePrune !in t.objs.live.options
  }

  predicate IsPruned(s: Stages, t: Task) {
    MayBePruned(s, t) && !s.dry && !t.objs.live.deleting
  }

  predicate PruneRefused(s: Stages, t: Task) {
    IsPruned(s, t) && !s.calls.deletePruned(t.RKey())
  }

  predicate IsDeleted(s: Stages, t: Task) {
    !s.dry && t.objs.TargetAndLive? && IsLeftOver(t, s.res) && BeforeHookCreation in t.objs.target.policies
  }

  predicate DeletionRefused(s: Stages, t: Task) {
    IsDeleted(s, t) && s.calls.deleteHook(t.RKey()).Err?
  }

  predicate DeletionStarted(s: Stages, t: Task) {
    IsDeleted(s, t) && s.calls.deleteHook(t.RKey()).Ok?
  }

  predicate IsApplied(s: Stages, t: Task) {
    !t.objs.LiveOnly? && !(s.dry && t.skipDryRun)
  }

  predicate ApplyRefused(s: Stages, t: Task) {
    IsApplied(s, t) && !s.calls.apply(t.RKey())
  }

  // ----- how far the run gets -----

  predicate PastFinalizers(s: Stages) {
    forall t :: t in s.ts ==> !FinalizerStays(s, t)
  }

  predicate ReachesPruning(s: Stages) {
    PastFinalizers(s) && forall t :: t in s.ts ==> !NeedsConfirmation(s, t)
  }

  predicate ReachesDeletion(s: Stages) {
    ReachesPruning(s) && forall t :: t in s.ts ==> !PruneRefused(s, t)
  }

  predicate ReachesCreation(s: Stages) {
    ReachesDeletion(s) && forall t :: t in s.ts ==> !DeletionRefused(s, t) && !DeletionStarted(s, t)
  }

  // ----- stage by stage -----

  // What a stage does for a task it concerns
  predicate DoesFor(s: Stages, stage: Stage, t: Task, fails: bool, waits: bool, q: Option<Request>,
                    write: Option<Result>)
    requires Fits(stage, t)
  {
    var w := s.Run(stage).Of(t, s.res);
    (w.state.RunFailed? <==> fails) && (w.state.RunPending? <==> waits) && w.request == q && w.write == write
  }

  lemma FinalizerOutcome(s: Stages, t: Task)
    requires t in s.ts
    ensures t in s.Tasks(Finalizers) <==> IsLeftOver(t, s.res)
    ensures IsLeftOver(t, s.res) ==>
              DoesFor(s, Finalizers, t, FinalizerStays(s, t), false,
                      if LosesFinalizer(s, t) then Some(UpdateFinalizer(t.RKey())) else None,
                      if FinalizerStays(s, t) then Some(Result(ResultOf(t, s.res).status, Error)) else None)
  {
  }

  lemma PruneOutcome(s: Stages, t: Task)
    requires t in s.ts
    ensures t in s.Tasks(Prune) <==> t.objs.LiveOnly?
    ensures t.objs.LiveOnly? ==>
              DoesFor(s, Prune, t, PruneRefused(s, t), false,
                      if IsPruned(s, t) then Some(DeletePruned(t.RKey())) else None,
                      if PruneRefused(s, t) then Some(Result(SyncFailed, Failed))
                      else if s.dry && !s.cfg.dryRun then None
                      else Some(Result(if MayBePruned(s, t) then Pruned else PruneSkipped, Succeeded)))
  {
  }

  lemma DeleteOutcome(s: Stages, t: Task)
    requires t in s.ts
    ensures t in s.Tasks(DeleteHooks) <==>
              t.objs.TargetAndLive? && IsLeftOver(t, s.res) && BeforeHookCreation in t.objs.target.policies
    ensures t in s.Tasks(DeleteHooks) ==>
              DoesFor(s, DeleteHooks, t, DeletionRefused(s, t), DeletionStarted(s, t),
                      if IsDeleted(s, t) then Some(DeleteHook(t.RKey())) else None,
                      if DeletionRefused(s, t) then Some(Result(ResultOf(t, s.res).status, Error)) else None)
  {
  }

  lemma ApplyOutcome(s: Stages, t: Task)
    requires t in s.ts
    ensures t in s.Tasks(Create) <==> IsApplied(s, t)
    ensures IsApplied(s, t) ==>
              DoesFor(s, Create, t, ApplyRefused(s, t), false, Some(Apply(t.RKey(), s.dry)),
                      if ApplyRefused(s, t) then Some(Result(SyncFailed, Failed))
                      else if s.dry && !s.cfg.dryRun then None
                      else Some(Result(Synced, if s.cfg.dryRun then Succeeded else Running)))
  {
  }

  lemma StagesSome(s: Stages)
    ensures s.SomeIn(Finalizers, RunFailed) <==> !PastFinalizers(s)
    ensures s.SomeIn(Prune, RunFailed) <==> exists t :: t in s.ts && PruneRefused(s, t)
    ensures s.SomeIn(DeleteHooks, RunFailed) <==> exists t :: t in s.ts && DeletionRefused(s, t)
    ensures s.SomeIn(DeleteHooks, RunPending) <==> exists t :: t in s.ts && DeletionStarted(s, t)
    ensures s.SomeIn(Create, RunFailed) <==> exists t :: t in s.ts && ApplyRefused(s, t)
    ensures s.Confirmed() <==> forall t :: t in s.ts ==> !NeedsConfirmation(s, t)
  {
    hide StageRun.Of;
    hide Filter;
    hide IsLeftOver;
    assert forall stage, t :: t in s.Tasks(stage) ==> t in s.ts;
    forall t | t in s.ts { FinalizerOutcome(s, t); }
    forall t | t in s.ts { PruneOutcome(s, t); }
    forall t | t in s.ts { DeleteOutcome(s, t); }
    forall t | t in s.ts { ApplyOutcome(s, t); }
  }

  // ----- the state -----

  /**
   A run fails when a finalizer stays; or, with all of them gone and nothing to confirm, a deletion by pruning is
   refused; or, nothing of that kind being refused, the deletion of a hook; or, with none of those refused nor
   started, an application.
   */
  predicate Fails(s: Stages) {
    || (exists t :: t in s.ts && FinalizerStays(s, t))
    || (ReachesPruning(s) && exists t :: t in s.ts && PruneRefused(s, t))
    || (ReachesDeletion(s) && exists t :: t in s.ts && DeletionRefused(s, t))
    || (ReachesCreation(s) && exists t :: t in s.ts && ApplyRefused(s, t))
  }

  /**
   It is pending when, all finalizers being gone, a confirmation is missing; or the deletion of a hook was started,
   and none refused.
   */
  predicate Waits(s: Stages) {
    || (PastFinalizers(s) && exists t :: t in s.ts && NeedsConfirmation(s, t))
    || (ReachesDeletion(s) && (forall t :: t in s.ts ==> !DeletionRefused(s, t)) &&
          exists t :: t in s.ts && DeletionStarted(s, t))
  }

  lemma StateFromAnswers(cfg: Config, ts: seq<Task>, dryRun: bool, calls: Calls, res: Results)
    requires DistinctKeys(ts)
    ensures var s := Stages(cfg, ts, dryRun || cfg.dryRun, calls, res);
            var state := RunTasks(cfg, ts, dryRun, calls, res).state;
            (state.RunFailed? <==> Fails(s)) && (state.RunPending? <==> Waits(s))
  {
    hide RunTasks;
    hide Stages.SomeIn;
    hide Stages.Confirmed;
    hide FinalizerStays;
    hide NeedsConfirmation;
    hide PruneRefused;
    hide DeletionRefused;
    hide DeletionStarted;
    hide ApplyRefused;
    var s := Stages(cfg, ts, dryRun || cfg.dryRun, calls, res);
    RunStateExact(cfg, ts, dryRun, calls, res);
    StagesSome(s);
    NoPendingCreate(s);
  }

  // ----- the requests -----

  predicate Sends(steps: seq<multiset<Request>>, q: Request) {
    exists i :: 0 <= i < |steps| && q in steps[i]
  }

  lemma SendsFirst(first: multiset<Request>, rest: seq<multiset<Request>>, q: Request)
    ensures Sends([first] + rest, q) <==> q in first || Sends(rest, q)
  {
    var all := [first] + rest;
    assert all[0] == first;
    if i :| 0 <= i < |rest| && q in rest[i] { assert q in all[i + 1]; }
    if i :| 0 < i < |all| && q in all[i] { assert q in rest[i - 1]; }
  }

  function StageAsks(s: Stages, stage: Stage): multiset<Request> {
    s.Run(stage).Requests(s.Tasks(stage), s.res)
  }

  // The requests of each stage, if it is reached
  lemma FinalizersAsk(s: Stages, q: Request)
    ensures q in StageAsks(s, Finalizers) <==>
            q.UpdateFinalizer? && exists t :: t in s.ts && t.RKey() == q.k && LosesFinalizer(s, t)
  {
    RequestsFrom(s.Run(Finalizers), s.Tasks(Finalizers), s.res, q);
    hide StageRun.Of;
    hide StageRun.Requests;
    hide Filter;
    hide IsLeftOver;
    forall t | t in s.ts { FinalizerOutcome(s, t); }
  }

  lemma PruningAsks(s: Stages, q: Request)
    ensures q in StageAsks(s, Prune) <==>
            q.DeletePruned? && exists t :: t in s.ts && t.RKey() == q.k && IsPruned(s, t)
  {
    RequestsFrom(s.Run(Prune), s.Tasks(Prune), s.res, q);
    hide StageRun.Of;
    hide StageRun.Requests;
    hide Filter;
    hide IsLeftOver;
    forall t | t in s.ts { PruneOutcome(s, t); }
  }

  lemma DeletionAsks(s: Stages, q: Request)
    ensures q in StageAsks(s, DeleteHooks) <==>
            q.DeleteHook? && exists t :: t in s.ts && t.RKey() == q.k && IsDeleted(s, t)
  {
    RequestsFrom(s.Run(DeleteHooks), s.Tasks(DeleteHooks), s.res, q);
    hide StageRun.Of;
    hide StageRun.Requests;
    hide Filter;
    hide IsLeftOver;
    forall t | t in s.ts { DeleteOutcome(s, t); }
  }

  lemma CreationAsks(s: Stages, q: Request)
    ensures q in StageAsks(s, Create) <==>
            q.Apply? && q.clientDryRun == s.dry && exists t :: t in s.ts && t.RKey() == q.k && IsApplied(s, t)
  {
    RequestsFrom(s.Run(Create), s.Tasks(Create), s.res, q);
    hide StageRun.Of;
    hide StageRun.Requests;
    hide Filter;
    hide IsLeftOver;
    forall t | t in s.ts { ApplyOutcome(s, t); }
  }

  lemma {:induction false} InConcat(groups: seq<seq<Task>>, t: Task)
    ensures t in Concat(groups) <==> exists i :: 0 <= i < |groups| && t in groups[i]
  {
    if groups != [] {
      InConcat(groups[1..], t);
      if i :| 0 <= i < |groups| && t in groups[i] && t !in groups[0] { assert t in groups[1..][i - 1]; }
      if i :| 0 <= i < |groups[1..]| && t in groups[1..][i] { assert t in groups[i + 1]; }
    }
  }

  // A task is in one of the groups, as far as it is applied at all.
  lemma InGroups(s: Stages, t: Task)
    ensures var groups := KindGroups(Creates(s.ts));
            t in s.Tasks(Create) <==> exists i :: 0 <= i < |groups| && t in Applied(groups[i], s.dry)
  {
    hide Filter;
    hide KindGroups;
    var groups := KindGroups(Creates(s.ts));
    KindGroupsPartition(Creates(s.ts));
    InConcat(groups, t);
    if i :| 0 <= i < |groups| && t in Applied(groups[i], s.dry) { assert t in groups[i]; }
    if t in s.Tasks(Create) {
      var i :| 0 <= i < |groups| && t in groups[i];
      assert t in Applied(groups[i], s.dry);
    }
  }

  // Group after group, the creation stage sends what it would send at once.
  lemma CreationSends(s: Stages, steps: seq<multiset<Request>>, q: Request)
    requires CreatesByKind(s, steps)
    ensures Sends(steps, q) <==> q in StageAsks(s, Create)
  {
    hide StageRun.Of;
    hide StageRun.Requests;
    hide KindGroups;
    hide Applied;
    hide Creates;
    var run, groups := s.Run(Create), KindGroups(Creates(s.ts));
    RequestsFrom(run, s.Tasks(Create), s.res, q);
    forall i | 0 <= i < |groups| { RequestsFrom(run, Applied(groups[i], s.dry), s.res, q); }
    forall t { InGroups(s, t); }
    if q in StageAsks(s, Create) {
      var t :| t in s.Tasks(Create) && run.Of(t, s.res).request == Some(q);
      var i :| 0 <= i < |groups| && t in Applied(groups[i], s.dry);
      assert q in steps[i];
    }
    if i :| 0 <= i < |steps| && q in steps[i] {
      var t :| t in Applied(groups[i], s.dry) && run.Of(t, s.res).request == Some(q);
    }
  }

  lemma DeletionSends(s: Stages, res: Results, q: Request)
    requires DistinctKeys(s.ts) && Undisturbed(s, res)
    ensures Sends(DeleteAndCreate(s.cfg, Creates(s.ts), s.dry, s.calls, res).steps, q) <==>
            q in StageAsks(s, DeleteHooks) || (s.Clean(DeleteHooks) && q in StageAsks(s, Create))
  {
    hide CreatesByKind;
    hide CreateGroups;
    hide StageRun.Requests;
    hide StageRun.State;
    hide StageRun.Writes;
    hide Stages.SomeIn;
    DeletesState(s, res);
    StageAgree(s.Run(DeleteHooks), RunSuccessful, s.Tasks(DeleteHooks), res, s.res);
    var deleted := s.Run(DeleteHooks).Run(RunSuccessful, s.Tasks(DeleteHooks), res);
    CreationSteps(s, RunSuccessful, deleted.res);
    var made := CreateGroups(s.Run(Create), RunSuccessful, KindGroups(Creates(s.ts)), deleted.res).steps;
    CreationSends(s, made, q);
    SendsFirst(deleted.steps[0], made, q);
    SendsFirst(deleted.steps[0], [], q);
    assert deleted.steps == [deleted.steps[0]] + [];
  }

  lemma PruningSends(s: Stages, q: Request)
    requires DistinctKeys(s.ts)
    ensures Sends(PruneAndCreate(s.cfg, s.ts, s.dry, s.calls, s.res).steps, q) <==>
            s.Confirmed() &&
            (|| q in StageAsks(s, Prune)
             || (s.Clean(Prune) && q in StageAsks(s, DeleteHooks))
             || (s.Clean(Prune) && s.Clean(DeleteHooks) && q in StageAsks(s, Create)))
  {
    hide DeleteAndCreate;
    StageStateIs(s, Prune);
    if s.Confirmed() {
      var pruned := s.Run(Prune).Run(RunSuccessful, s.Tasks(Prune), s.res);
      PrunedApart(s);
      DeletionSends(s, pruned.res, q);
      SendsFirst(pruned.steps[0], DeleteAndCreate(s.cfg, Creates(s.ts), s.dry, s.calls, pruned.res).steps, q);
      SendsFirst(pruned.steps[0], [], q);
      assert pruned.steps == [pruned.steps[0]] + [];
    }
  }

  lemma RunSends(s: Stages, dryRun: bool, q: Request)
    requires DistinctKeys(s.ts) && s.dry == (dryRun || s.cfg.dryRun)
    ensures Sends(RunTasks(s.cfg, s.ts, dryRun, s.calls, s.res).steps, q) <==>
            || q in StageAsks(s, Finalizers)
            || (s.Clean(Finalizers) && Sends(PruneAndCreate(s.cfg, s.ts, s.dry, s.calls, s.res).steps, q))
  {
    hide PruneAndCreate;
    SublistsDistinct(s.ts, s.res);
    StageStateIs(s, Finalizers);
    var finalized := s.Run(Finalizers).Run(RunSuccessful, s.Tasks(Finalizers), s.res);
    if s.Clean(Finalizers) { QuietStage(s.Run(Finalizers), s.Tasks(Finalizers), s.res); }
    SendsFirst(finalized.steps[0], PruneAndCreate(s.cfg, s.ts, s.dry, s.calls, s.res).steps, q);
    SendsFirst(finalized.steps[0], [], q);
    assert finalized.steps == [finalized.steps[0]] + [];
  }

  /** The requests a run sends, from the answers: those of each stage, if the stages before it ended well. */
  predicate Asks(s: Stages, q: Request) {
    match q
    case UpdateFinalizer(k) => exists t :: t in s.ts && t.RKey() == k && LosesFinalizer(s, t)
    case DeletePruned(k) => ReachesPruning(s) && exists t :: t in s.ts && t.RKey() == k && IsPruned(s, t)
    case DeleteHook(k) => ReachesDeletion(s) && exists t :: t in s.ts && t.RKey() == k && IsDeleted(s, t)
    case Apply(k, dry) =>
      ReachesCreation(s) && dry == s.dry && exists t :: t in s.ts && t.RKey() == k && IsApplied(s, t)
  }

  lemma RequestsFromAnswers(cfg: Config, ts: seq<Task>, dryRun: bool, calls: Calls, res: Results, q: Request)
    requires DistinctKeys(ts)
    ensures Sends(RunTasks(cfg, ts, dryRun, calls, res).steps, q) <==>
            Asks(Stages(cfg, ts, dryRun || cfg.dryRun, calls, res), q)
  {
    hide RunTasks;
    hide PruneAndCreate;
    hide Stages.SomeIn;
    hide Stages.Confirmed;
    hide StageAsks;
    hide Sends;
    hide FinalizerStays;
    hide NeedsConfirmation;
    hide PruneRefused;
    hide DeletionRefused;
    hide DeletionStarted;
    var s := Stages(cfg, ts, dryRun || cfg.dryRun, calls, res);
    RunSends(s, dryRun, q);
    PruningSends(s, q);
    StagesSome(s);
    NoPendingCreate(s);
    FinalizersAsk(s, q);
    PruningAsks(s, q);
    DeletionAsks(s, q);
    CreationAsks(s, q);
  }

  // ----- the records -----

  /** What is recorded of a task afterwards, from the answers. */
  function RecordAfter(s: Stages, t: Task): Result {
    var was := ResultOf(t, s.res);
    var silent := s.dry && !s.cfg.dryRun;
    if FinalizerStays(s, t) then Result(was.status, Error)
    else if !ReachesPruning(s) then was
    else if t.objs.LiveOnly? then
      if PruneRefused(s, t) then Result(SyncFailed, Failed)
      else if silent then was
      else Result(if MayBePruned(s, t) then Pruned else PruneSkipped, Succeeded)
    else if ReachesDeletion(s) && DeletionRefused(s, t) then Result(was.status, Error)
    else if !ReachesCreation(s) || !IsApplied(s, t) then was
    else if ApplyRefused(s, t) then Result(SyncFailed, Failed)
    else if silent then was
    else Result(Synced, if s.cfg.dryRun then Succeeded else Running)
  }

  // A stage's own record of a task, if it makes one
  function StageRecord(s: Stages, stage: Stage, t: Task, res: Results): Result {
    if t in s.Tasks(stage) && Fits(stage, t) && s.Run(stage).Of(t, res).write.Some?
    then s.Run(stage).Of(t, res).write.value else ResultOf(t, res)
  }

  lemma AfterStage(s: Stages, stage: Stage, t: Task, res: Results)
    requires DistinctKeys(s.ts) && t in s.ts
    ensures DistinctKeys(s.Tasks(stage))
    ensures ResultOf(t, res + s.Run(stage).Writes(s.Tasks(stage), res)) == StageRecord(s, stage, t, res)
  {
    hide StageRun.Of;
    hide StageRun.Writes;
    hide Filter;
    SublistsDistinct(s.ts, s.res);
    FilterDistinct(NotSkipped(s.dry), KeyOf(), Creates(s.ts));
    WritesAt(s.Run(stage), s.Tasks(stage), res);
    if t !in s.Tasks(stage) { NotAmongKeys(s.ts, s.Tasks(stage), t); }
  }

  lemma NotAmongKeys(ts: seq<Task>, part: seq<Task>, t: Task)
    requires DistinctKeys(ts) && t in ts && t !in part && forall u :: u in part ==> u in ts
    ensures t.RKey() !in KeysOf(part)
  {
  }

  lemma WorkAgrees(s: Stages, stage: Stage, t: Task, res: Results)
    requires ResultOf(t, res) == ResultOf(t, s.res)
    ensures StageRecord(s, stage, t, res) == StageRecord(s, stage, t, s.res)
  {
  }

  lemma CreationRecords(s: Stages, t: Task, res: Results)
    requires DistinctKeys(s.ts) && Undisturbed(s, res) && t in s.ts
    ensures ResultOf(t, DeleteAndCreate(s.cfg, Creates(s.ts), s.dry, s.calls, res).res) ==
            if !s.Clean(DeleteHooks) then StageRecord(s, DeleteHooks, t, res) else StageRecord(s, Create, t, res)
  {
    hide StageRun.Of;
    hide StageRun.Writes;
    hide StageRun.Requests;
    hide StageRun.State;
    hide StageRecord;
    hide CreateGroups;
    hide Filter;
    hide Stages.SomeIn;
    var del := s.Run(DeleteHooks);
    SublistsDistinct(s.ts, s.res);
    DeletesState(s, res);
    AfterStage(s, DeleteHooks, t, res);
    if s.Clean(DeleteHooks) {
      QuietStage(del, s.Tasks(DeleteHooks), res);
      CreateStage(s.cfg, Creates(s.ts), s.dry, s.calls, RunSuccessful, res);
      AfterStage(s, Create, t, res);
    }
  }

  lemma PruningRecords(s: Stages, t: Task)
    requires DistinctKeys(s.ts) && t in s.ts
    ensures ResultOf(t, PruneAndCreate(s.cfg, s.ts, s.dry, s.calls, s.res).res) ==
            if !s.Confirmed() then ResultOf(t, s.res)
            else if t.objs.LiveOnly? || !s.Clean(Prune) then StageRecord(s, Prune, t, s.res)
            else if !s.Clean(DeleteHooks) then StageRecord(s, DeleteHooks, t, s.res)
            else StageRecord(s, Create, t, s.res)
  {
    hide DeleteAndCreate;
    hide StageRun.Of;
    hide StageRun.Writes;
    hide StageRun.Requests;
    hide StageRun.State;
    hide StageRecord;
    hide Filter;
    hide Stages.SomeIn;
    StageStateIs(s, Prune);
    AfterStage(s, Prune, t, s.res);
    if s.Confirmed() && s.Clean(Prune) {
      var pruned := s.Run(Prune).Run(RunSuccessful, s.Tasks(Prune), s.res);
      PrunedApart(s);
      CreationRecords(s, t, pruned.res);
      if t.objs.LiveOnly? {
        PruneUnmoved(s, DeleteHooks, t, pruned.res);
        PruneUnmoved(s, Create, t, pruned.res);
      } else {
        assert t in Creates(s.ts);
        WorkAgrees(s, DeleteHooks, t, pruned.res);
        WorkAgrees(s, Create, t, pruned.res);
      }
    }
  }

  // The stages after pruning do not concern what was to be pruned.
  lemma PruneUnmoved(s: Stages, stage: Stage, t: Task, res: Results)
    requires t.objs.LiveOnly? && (stage.DeleteHooks? || stage.Create?)
    ensures StageRecord(s, stage, t, res) == ResultOf(t, res)
  {
  }

  lemma RunRecords(s: Stages, dryRun: bool, t: Task)
    requires DistinctKeys(s.ts) && t in s.ts && s.dry == (dryRun || s.cfg.dryRun)
    ensures ResultOf(t, RunTasks(s.cfg, s.ts, dryRun, s.calls, s.res).res) ==
            if s.Clean(Finalizers) then ResultOf(t, PruneAndCreate(s.cfg, s.ts, s.dry, s.calls, s.res).res)
            else StageRecord(s, Finalizers, t, s.res)
  {
    hide PruneAndCreate;
    hide StageRun.Writes;
    hide StageRun.Requests;
    hide StageRun.State;
    hide StageRecord;
    hide Stages.SomeIn;
    SublistsDistinct(s.ts, s.res);
    StageStateIs(s, Finalizers);
    AfterStage(s, Finalizers, t, s.res);
    if s.Clean(Finalizers) { QuietStage(s.Run(Finalizers), s.Tasks(Finalizers), s.res); }
  }

  lemma RecordsFromAnswers(cfg: Config, ts: seq<Task>, dryRun: bool, calls: Calls, res: Results, t: Task)
    requires DistinctKeys(ts) && t in ts
    ensures ResultOf(t, RunTasks(cfg, ts, dryRun, calls, res).res) ==
            RecordAfter(Stages(cfg, ts, dryRun || cfg.dryRun, calls, res), t)
  {
    hide RunTasks;
    hide PruneAndCreate;
    hide Stages.SomeIn;
    hide Stages.Confirmed;
    hide StageRun.Of;
    hide Filter;
    hide IsLeftOver;
    var s := Stages(cfg, ts, dryRun || cfg.dryRun, calls, res);
    RunRecords(s, dryRun, t);
    PruningRecords(s, t);
    StagesSome(s);
    NoPendingCreate(s);
    FinalizerOutcome(s, t);
    PruneOutcome(s, t);
    DeleteOutcome(s, t);
    ApplyOutcome(s, t);
  }

  // ----- all of it -----

  /** State, records and requests of a run are what the answers say. */
  ghost predicate AsAnswered(s: Stages, state: RunState, res: Results, sent: seq<Request>) {
    && (state.RunFailed? <==> Fails(s)) && (state.RunPending? <==> Waits(s))
    && (forall t :: t in s.ts ==> ResultOf(t, res) == RecordAfter(s, t))
    && (forall k :: k in res && k !in KeysOf(s.ts) ==> k in s.res && res[k] == s.res[k])
    && (forall q :: q in sent <==> Asks(s, q))
  }

  lemma RunAsAnswered(cfg: Config, ts: seq<Task>, dryRun: bool, calls: Calls, res: Results, sent: seq<Request>)
    requires DistinctKeys(ts)
    requires forall q :: q in sent <==> Sends(RunTasks(cfg, ts, dryRun, calls, res).steps, q)
    ensures var s, out := Stages(cfg, ts, dryRun || cfg.dryRun, calls, res), RunTasks(cfg, ts, dryRun, calls, res);
            AsAnswered(s, out.state, out.res, sent)
  {
    hide *;
    var s, out := Stages(cfg, ts, dryRun || cfg.dryRun, calls, res), RunTasks(cfg, ts, dryRun, calls, res);
    StateFromAnswers(cfg, ts, dryRun, calls, res);
    RunTasksGrows(cfg, ts, dryRun, calls, res);
    OthersKept(res, out.res, KeysOf(ts));
    forall t | t in ts { RecordsFromAnswers(cfg, ts, dryRun, calls, res, t); }
    forall q { RequestsFromAnswers(cfg, ts, dryRun, calls, res, q); }
    AsAnsweredIs(s, out.state, out.res, sent);
  }

  lemma OthersKept(res: Results, res': Results, ks: set<ResultKey>)
    requires Grows(res, res', ks)
    ensures forall k :: k in res' && k !in ks ==> k in res && res'[k] == res[k]
  {
  }

  lemma AsAnsweredIs(s: Stages, state: RunState, res: Results, sent: seq<Request>)
    requires (state.RunFailed? <==> Fails(s)) && (state.RunPending? <==> Waits(s))
    requires forall t :: t in s.ts ==> ResultOf(t, res) == RecordAfter(s, t)
    requires forall k :: k in res && k !in KeysOf(s.ts) ==> k in s.res && res[k] == s.res[k]
    requires forall q :: q in sent <==> Asks(s, q)
    ensures AsAnswered(s, state, res, sent)
  {
  }

  // Over a hook whose deletion has been started nothing is applied, the hook itself included.
  lemma NothingOverDeletion(cfg: Config, ts: seq<Task>, calls: Calls, res: Results, t: Task, k: ResultKey)
    requires DistinctKeys(ts) && !cfg.dryRun && t in ts && t.RKey() !in res
    requires t.objs.TargetAndLive? && t.objs.target.isHook && BeforeHookCreation in t.objs.target.policies
    requires calls.deleteHook(t.RKey()).Ok?
    ensures var out := RunTasks(cfg, ts, false, calls, res);
            !out.state.RunSuccessful? && !Sends(out.steps, Apply(k, false)) && !Sends(out.steps, Apply(k, true))
  {
    hide RunTasks;
    var s := Stages(cfg, ts, false, calls, res);
    assert DeletionStarted(s, t);
    StateFromAnswers(cfg, ts, false, calls, res);
    RequestsFromAnswers(cfg, ts, false, calls, res, Apply(k, false));
    RequestsFromAnswers(cfg, ts, false, calls, res, Apply(k, true));
  }
}
