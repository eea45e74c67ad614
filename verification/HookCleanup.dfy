/** Which hooks a call of Sync lets go and deletes (pkg/sync/sync_context.go), told of the records it begins with. */
module HookCleanup {
  import opened Kube
  import opened Lists
  import opened Tasks
  import opened RunSpec
  import opened RunLaws
  import opened SyncSpec
  import opened SyncLaws
  import opened HealthLaws

  // A hook with a live object and, on its manifest, a delete policy
  predicate IsDeletable(t: Task, policy: DeletePolicy) {
    && !t.objs.TargetOnly?
    && (if t.objs.LiveOnly? then t.objs.live.isHook && policy in t.objs.live.policies
        else t.objs.target.isHook && policy in t.objs.target.policies)
  }

  predicate AsksToDelete(ts: seq<Task>, policy: DeletePolicy, q: Request) {
    q.DeleteHook? && exists t :: t in ts && t.RKey() == q.k && IsDeletable(t, policy)
  }

  predicate AsksToLetGo(ts: seq<Task>, res: Results, q: Request) {
    q.UpdateFinalizer? &&
    exists t :: t in ts && t.RKey() == q.k && HookEnded(t, ResultOf(t, res)) && t.objs.live.hookFinalizer
  }

  // Hooks that hold nothing up have expired when their policy says so, whether they have run or not.
  lemma ExpiredAre(ts: seq<Task>, res: Results, env: Env, policy: DeletePolicy, t: Task)
    requires DistinctKeys(ts) && !IsHeldUp(ts, res) && t in ts
    ensures t in Filter(HasExpired(policy, Decided(ts, res, env)), ts) <==> IsDeletable(t, policy)
  {
    hide Decided;
    hide StillRunning;
    hide FinalizerStuck;
    DecidedExactly(ts, res, env, t);
  }

  lemma ExpiredExactly(ts: seq<Task>, res: Results, env: Env, policy: DeletePolicy, q: Request)
    requires DistinctKeys(ts) && !IsHeldUp(ts, res)
    ensures q in Asking(AsksDelete(), Filter(HasExpired(policy, Decided(ts, res, env)), ts)) <==>
            AsksToDelete(ts, policy, q)
  {
    hide Decided;
    hide Filter;
    hide HasExpired;
    hide IsDeletable;
    hide IsHeldUp;
    forall t | t in ts { ExpiredAre(ts, res, env, policy, t); }
    AskingExactly(AsksDelete(), Filter(HasExpired(policy, Decided(ts, res, env)), ts), q);
  }

  lemma LetGoExactly(ts: seq<Task>, res: Results, q: Request)
    requires DistinctKeys(ts)
    ensures q in Asking(AsksUpdate(), Filter(IsCleaned(Refresh(ts, res)), ts)) <==> AsksToLetGo(ts, res, q)
  {
    hide Refresh;
    var cleaned := Filter(IsCleaned(Refresh(ts, res)), ts);
    forall t | t in ts
      ensures t in cleaned <==> HookEnded(t, ResultOf(t, res)) && t.objs.live.hookFinalizer
    {
      RefreshExactly(ts, res, t);
    }
    hide Filter;
    hide HookEnded;
    AskingExactly(AsksUpdate(), cleaned, q);
  }

  // The requests of a call of a started operation that does not wait
  lemma CallSteps(cfg: Config, ts: seq<Task>, st: State, env: Env)
    requires DistinctKeys(ts) && Scheduled(ts) && env.valid && st.res != map[] && !IsHeldUp(ts, st.res)
    ensures SyncStep(cfg, ts, st, env) ==
            Decide(cfg, ts, st.phase, Decided(ts, st.res, env), env)
              .After([Asking(AsksUpdate(), Filter(IsCleaned(Refresh(ts, st.res)), ts))])
  {
    hide Refresh;
    hide CleanFinalizers;
    hide Decide;
    hide MustWait;
    hide AwaitsDeletion;
    hide IsHeldUp;
    WaitsExactly(ts, st.res);
  }

  /** The first thing such a call does is to let go of the hooks that have ended. */
  lemma HooksLetGo(cfg: Config, ts: seq<Task>, st: State, env: Env, q: Request)
    requires DistinctKeys(ts) && Scheduled(ts) && env.valid && st.res != map[] && !IsHeldUp(ts, st.res)
    ensures var steps := SyncStep(cfg, ts, st, env).steps;
            steps != [] && (q in steps[0] <==> AsksToLetGo(ts, st.res, q))
  {
    hide Decide;
    hide Decided;
    hide Refresh;
    hide IsHeldUp;
    CallSteps(cfg, ts, st, env);
    LetGoExactly(ts, st.res, q);
  }

  lemma SuccessSteps(cfg: Config, ts: seq<Task>, phase: OpPhase, res: Results, env: Env)
    requires Decide(cfg, ts, phase, res, env).phase.Succeeded? && !phase.Succeeded?
    ensures var steps := Decide(cfg, ts, phase, res, env).steps;
            steps != [] && steps[|steps| - 1] == Asking(AsksDelete(), Filter(HasExpired(HookSucceeded, res), ts))
  {
    hide RunTasks;
    hide Candidates;
    hide Filter;
    hide Asking;
    hide SetOperationFailed;
    hide Batch;
    DecideShape(cfg, ts, phase, res, env);
    FailPhase(cfg, ts, Filter(HasExpired(HookFailed, res), ts), phase, res, env);
    var todo, step := Candidates(cfg, ts, res, env), Decide(cfg, ts, phase, res, env);
    if !SomeRegularUnsuccessful(ts, res) && todo != [] {
      var out := RunTasks(cfg, Batch(todo), false, env.wave, res);
      AfterWaveSuccess(cfg, ts, todo, res, out, env);
      assert step.steps == out.steps + AfterWave(cfg, ts, todo, res, out, env).steps;
    }
  }

  lemma AfterWaveSuccess(cfg: Config, ts: seq<Task>, todo: seq<Task>, res: Results, out: RunOut, env: Env)
    requires todo != []
    ensures var step := AfterWave(cfg, ts, todo, res, out, env);
            step.phase.Succeeded? ==>
              step.steps == [Asking(AsksDelete(), Filter(HasExpired(HookSucceeded, res), ts))]
  {
    hide Filter;
    hide Asking;
    hide Fail;
    FailPhase(cfg, ts, Filter(HasExpired(HookFailed, res), ts), Running, out.res, env);
  }

  lemma FailPhase(cfg: Config, ts: seq<Task>, expired: seq<Task>, phase: OpPhase, res: Results, env: Env)
    ensures var out := Fail(cfg, ts, expired, phase, res, env);
            out.phase in {Failed, phase} && out.steps != [] && out.steps[0] == Asking(AsksDelete(), expired)
    ensures !Fail(cfg, ts, expired, Running, res, env).phase.Succeeded?
  {
    hide RunTasks;
    hide Filter;
    hide Asking;
  }

  /** The last thing a call does that decides Succeeded is to delete the live hooks with the policy for that. */
  lemma DeletedOnSuccess(cfg: Config, ts: seq<Task>, st: State, env: Env, q: Request)
    requires DistinctKeys(ts) && Scheduled(ts) && env.valid && st.res != map[] && !st.phase.Succeeded?
    requires SyncStep(cfg, ts, st, env).phase.Succeeded?
    ensures var steps := SyncStep(cfg, ts, st, env).steps;
            steps != [] && (q in steps[|steps| - 1] <==> AsksToDelete(ts, HookSucceeded, q))
  {
    hide SyncStep;
    hide Decide;
    hide Decided;
    hide Refresh;
    hide IsHeldUp;
    hide RegularFailed;
    hide CanStart;
    hide AsksToDelete;
    hide Asking;
    hide Filter;
    CallFollows(cfg, ts, st, env);
    CallSteps(cfg, ts, st, env);
    var res := Decided(ts, st.res, env);
    SuccessSteps(cfg, ts, st.phase, res, env);
    ExpiredExactly(ts, st.res, env, HookSucceeded, q);
  }

  /** A call that finds a regular task to have failed deletes the live hooks with the policy for that. */
  lemma DeletedOnFailure(cfg: Config, ts: seq<Task>, st: State, env: Env, q: Request)
    requires DistinctKeys(ts) && Scheduled(ts) && env.valid && st.res != map[]
    requires !IsHeldUp(ts, st.res) && RegularFailed(ts, st.res, env)
    ensures var steps := SyncStep(cfg, ts, st, env).steps;
            |steps| > 1 && (q in steps[1] <==> AsksToDelete(ts, HookFailed, q))
  {
    hide SyncStep;
    hide Decide;
    hide Decided;
    hide Refresh;
    hide IsHeldUp;
    hide RegularFailed;
    hide AsksToDelete;
    hide Fail;
    hide RunWave;
    hide Candidates;
    hide Asking;
    hide Filter;
    CallSteps(cfg, ts, st, env);
    var res := Decided(ts, st.res, env);
    FailsExactly(ts, st.res, env);
    DecideShape(cfg, ts, st.phase, res, env);
    FailPhase(cfg, ts, Filter(HasExpired(HookFailed, res), ts), st.phase, res, env);
    ExpiredExactly(ts, st.res, env, HookFailed, q);
  }

  // ----- what is recorded of it -----

  // A deletion that fails is recorded; one that finds the hook gone is not.
  function AfterDeletion(t: Task, policy: DeletePolicy, env: Env, was: Result): Result {
    if IsDeletable(t, policy) && env.cleanHook(t.RKey()).Err? then Result(NoCode, Error) else was
  }

  lemma DeletionRecords(ts: seq<Task>, res0: Results, env: Env, policy: DeletePolicy, res: Results, t: Task)
    requires DistinctKeys(ts) && !IsHeldUp(ts, res0) && t in ts
    ensures var expired := Filter(HasExpired(policy, Decided(ts, res0, env)), ts);
            ResultOf(t, DeleteExpired(expired, res, env)) == AfterDeletion(t, policy, env, ResultOf(t, res))
  {
    hide Decided;
    hide HasExpired;
    hide IsDeletable;
    hide IsHeldUp;
    ExpiredAre(ts, res0, env, policy, t);
    var expired := Filter(HasExpired(policy, Decided(ts, res0, env)), ts);
    SublistKeys(HasExpired(policy, Decided(ts, res0, env)), ts);
    hide Filter;
    UpdatesAt(DeleteFailure(env), expired);
    if t !in expired && t.RKey() in KeysOf(expired) {
      var u :| u in expired && u.RKey() == t.RKey();
      DistinctSame(KeyOf(), ts, t, u);
    }
  }

  lemma SuccessResults(cfg: Config, ts: seq<Task>, phase: OpPhase, res: Results, env: Env)
    requires Decide(cfg, ts, phase, res, env).phase.Succeeded? && !phase.Succeeded?
    ensures var step := Decide(cfg, ts, phase, res, env);
            step.res == DeleteExpired(Filter(HasExpired(HookSucceeded, res), ts), step.decided, env)
  {
    hide RunTasks;
    hide Candidates;
    hide Filter;
    hide SetOperationFailed;
    hide Batch;
    hide DeleteExpired;
    DecideShape(cfg, ts, phase, res, env);
    FailPhase(cfg, ts, Filter(HasExpired(HookFailed, res), ts), phase, res, env);
    var todo := Candidates(cfg, ts, res, env);
    if !SomeRegularUnsuccessful(ts, res) && todo != [] {
      var out := RunTasks(cfg, Batch(todo), false, env.wave, res);
      FailPhase(cfg, ts, Filter(HasExpired(HookFailed, res), ts), Running, out.res, env);
    }
  }

  /**
   The records a call leaves that decides Succeeded are those it decided on, but for hooks it could not delete: those
   are left in error, although the operation has succeeded.
   */
  lemma RecordsOnSuccess(cfg: Config, ts: seq<Task>, st: State, env: Env, t: Task)
    requires DistinctKeys(ts) && Scheduled(ts) && env.valid && st.res != map[] && !st.phase.Succeeded? && t in ts
    requires SyncStep(cfg, ts, st, env).phase.Succeeded?
    ensures var step := SyncStep(cfg, ts, st, env);
            ResultOf(t, step.res) == AfterDeletion(t, HookSucceeded, env, ResultOf(t, step.decided))
  {
    hide SyncStep;
    hide Decide;
    hide Decided;
    hide Refresh;
    hide IsHeldUp;
    hide RegularFailed;
    hide CanStart;
    hide Asking;
    hide Filter;
    hide DeleteExpired;
    hide AfterDeletion;
    CallFollows(cfg, ts, st, env);
    CallSteps(cfg, ts, st, env);
    var res := Decided(ts, st.res, env);
    SuccessResults(cfg, ts, st.phase, res, env);
    DeletionRecords(ts, st.res, env, HookSucceeded, Decide(cfg, ts, st.phase, res, env).decided, t);
  }

  lemma FailureResults(cfg: Config, ts: seq<Task>, expired: seq<Task>, phase: OpPhase, res: Results, env: Env, t: Task)
    requires DistinctKeys(ts) && t in ts && !t.phase.SyncFail?
    ensures ResultOf(t, Fail(cfg, ts, expired, phase, res, env).res) == ResultOf(t, DeleteExpired(expired, res, env))
  {
    hide RunTasks;
    hide DeleteExpired;
    hide Grows;
    var syncFail, deleted := Filter(IsSyncFail(), ts), DeleteExpired(expired, res, env);
    SublistKeys(IsSyncFail(), ts);
    RunTasksGrows(cfg, syncFail, false, env.syncFail, deleted);
    OthersStay(syncFail, deleted, RunTasks(cfg, syncFail, false, env.syncFail, deleted).res, t);
  }

  lemma OthersStay(part: seq<Task>, res: Results, res': Results, t: Task)
    requires Grows(res, res', KeysOf(part)) && !t.phase.SyncFail? && forall u :: u in part ==> u.phase.SyncFail?
    ensures ResultOf(t, res') == ResultOf(t, res)
  {
    assert t.RKey() !in KeysOf(part);
  }

  /** The same of the regular tasks, when a call finds one to have failed. */
  lemma RecordsOnFailure(cfg: Config, ts: seq<Task>, st: State, env: Env, t: Task)
    requires DistinctKeys(ts) && Scheduled(ts) && env.valid && st.res != map[]
    requires !IsHeldUp(ts, st.res) && RegularFailed(ts, st.res, env) && t in ts && !t.phase.SyncFail?
    ensures var step := SyncStep(cfg, ts, st, env);
            ResultOf(t, step.res) == AfterDeletion(t, HookFailed, env, ResultOf(t, step.decided))
  {
    hide SyncStep;
    hide Decide;
    hide Decided;
    hide Refresh;
    hide IsHeldUp;
    hide RegularFailed;
    hide Fail;
    hide RunWave;
    hide Candidates;
    hide Asking;
    hide Filter;
    hide DeleteExpired;
    hide AfterDeletion;
    CallSteps(cfg, ts, st, env);
    var res := Decided(ts, st.res, env);
    FailsExactly(ts, st.res, env);
    DecideShape(cfg, ts, st.phase, res, env);
    FailureResults(cfg, ts, Filter(HasExpired(HookFailed, res), ts), st.phase, res, env, t);
    DeletionRecords(ts, st.res, env, HookFailed, res, t);
  }
}
