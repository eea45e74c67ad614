/** SyncFail hooks over a whole operation: when they are run at most once. */
module SyncFailRuns {
  import opened Kube
  import opened Lists
  import opened Tasks
  import opened RunSpec
  import opened RunLaws
  import opened SyncSpec
  import opened SyncLaws
  import opened AtMostOnce
  import opened SyncRuns
  import opened SyncRequests
  import opened RequestRuns
  import opened DryRunEffects

  // ----- one run -----

  lemma StageTouchesNothing(run: StageRun, ts: seq<Task>, res: Results, k: ResultKey)
    requires run.FitsAll(ts) && (run.stage.Finalizers? || run.stage.DeleteHooks? || ts == [])
    ensures Touches([run.Requests(ts, res)], k) == 0
  {
    RequestsFrom(run, ts, res, Apply(k, false));
    RequestsFrom(run, ts, res, DeletePruned(k));
    CountOne(run.Requests(ts, res), Apply(k, false));
    CountOne(run.Requests(ts, res), DeletePruned(k));
  }

  lemma CreateEnds(run: StageRun, ts: seq<Task>, res: Results)
    requires run.stage.Create? && run.FitsAll(ts)
    ensures !run.State(RunSuccessful, ts, res).RunPending?
  {
    StateIs(run, RunSuccessful, ts, res);
  }

  lemma CreateTouchesOnce(cfg: Config, creates: seq<Task>, dry: bool, calls: Calls, res: Results, k: ResultKey)
    requires DistinctKeys(creates) && forall t :: t in creates ==> !t.IsPrune()
    ensures forall g :: g in KindGroups(creates) ==> StageRun(Create, cfg, dry, calls).FitsAll(g)
    ensures var out := CreateGroups(StageRun(Create, cfg, dry, calls), RunSuccessful, KindGroups(creates), res);
            Touches(out.steps, k) <= 1 && !out.state.RunPending?
  {
    hide CreateGroups;
    hide StageRun.Requests;
    hide StageRun.Writes;
    hide StageRun.State;
    hide WorkOf;
    hide Count;
    hide KindGroups;
    var run := StageRun(Create, cfg, dry, calls);
    var all := Applied(creates, dry);
    KindGroupsPartition(creates);
    CreateStage(cfg, creates, dry, calls, RunSuccessful, res);
    CreateGroupsCount(run, RunSuccessful, KindGroups(creates), res, Apply(k, false));
    CreateGroupsCount(run, RunSuccessful, KindGroups(creates), res, DeletePruned(k));
    StageTouch(run, all, res, k);
    CreateEnds(run, all, res);
  }

  lemma DeleteAndCreateTouchesOnce(cfg: Config, creates: seq<Task>, dry: bool, calls: Calls, res: Results, k: ResultKey)
    requires DistinctKeys(creates) && forall t :: t in creates ==> !t.IsPrune()
    ensures var out := DeleteAndCreate(cfg, creates, dry, calls, res);
            Touches(out.steps, k) <= 1 && (Touches(out.steps, k) > 0 ==> !out.state.RunPending?)
  {
    hide Touches;
    hide CreateGroups;
    var del := StageRun(DeleteHooks, cfg, dry, calls);
    var deleted := del.Run(RunSuccessful, HooksToDelete(creates, res), res);
    StageTouchesNothing(del, HooksToDelete(creates, res), res, k);
    if deleted.state.RunSuccessful? {
      CreateTouchesOnce(cfg, creates, dry, calls, deleted.res, k);
      TouchesAppend(deleted.steps, CreateGroups(StageRun(Create, cfg, dry, calls), RunSuccessful, KindGroups(creates),
                                                deleted.res).steps, k);
    }
  }

  // A run over tasks to be created touches each at most once, and only if it comes to an end.
  lemma RunTouchesOnce(cfg: Config, ts: seq<Task>, dryRun: bool, calls: Calls, res: Results, k: ResultKey)
    requires DistinctKeys(ts) && forall t :: t in ts ==> !t.IsPrune()
    ensures var out := RunTasks(cfg, ts, dryRun, calls, res);
            Touches(out.steps, k) <= 1 && (Touches(out.steps, k) > 0 ==> !out.state.RunPending?)
  {
    hide Touches;
    hide DeleteAndCreate;
    hide StageRun.Requests;
    var dry := dryRun || cfg.dryRun;
    var fin, prune := StageRun(Finalizers, cfg, dry, calls), StageRun(Prune, cfg, dry, calls);
    SublistsDistinct(ts, res);
    FilterNone(IsPrune(), ts);
    var finalized := fin.Run(RunSuccessful, ExistingHooks(ts, res), res);
    var pruned := prune.Run(RunSuccessful, [], finalized.res);
    var made := DeleteAndCreate(cfg, Creates(ts), dry, calls, pruned.res);
    StageTouchesNothing(fin, ExistingHooks(ts, res), res, k);
    StageTouchesNothing(prune, [], finalized.res, k);
    DeleteAndCreateTouchesOnce(cfg, Creates(ts), dry, calls, pruned.res, k);
    TouchesAppend(pruned.steps, made.steps, k);
    NoStepsTouchNothing(k);
    TouchesAppend(finalized.steps, PruneAndCreate(cfg, ts, dry, calls, finalized.res).steps, k);
  }

  // ----- one call -----

  // What getSyncTasks makes SyncFail tasks of: hooks, which have a target
  predicate SyncFailHooks(ts: seq<Task>) {
    forall t :: t in ts && t.phase.SyncFail? ==> t.IsHook() && !t.IsPrune()
  }

  predicate AllStarted(ts: seq<Task>, res: Results) {
    forall t :: t in ts && t.phase.SyncFail? ==> !Pending(t, res)
  }

  predicate AllOver(ts: seq<Task>, res: Results) {
    forall t :: t in ts && t.phase.SyncFail? ==> Op(t, res).Completed()
  }

  // Touched at most once; once only if not all were over, and then the operation has failed or all are started.
  predicate Sparing(ts: seq<Task>, res: Results, step: StepOut, k: ResultKey) {
    && Touches(step.steps, k) <= 1
    && (Touches(step.steps, k) > 0 ==> !AllOver(ts, res) && (step.phase.Completed() || AllStarted(ts, step.res)))
  }

  lemma CarriedOutStarted(cfg: Config, ts: seq<Task>, res: Results)
    requires forall t :: t in Filter(IsSyncFail(), ts) ==> CarriedOut(cfg, t, res)
    ensures AllStarted(ts, res)
  {
    forall t | t in ts && t.phase.SyncFail? ensures !Pending(t, res) { assert t in Filter(IsSyncFail(), ts); }
  }

  lemma OverInList(ts: seq<Task>, res: Results)
    ensures AllOver(ts, res) <==> forall t :: t in Filter(IsSyncFail(), ts) ==> Op(t, res).Completed()
  {
  }

  lemma HandlingSparing(cfg: Config, ts: seq<Task>, phase: OpPhase, res: Results, env: Env, k: ResultKey)
    requires DistinctKeys(ts) && SyncFailHooks(ts) && !cfg.dryRun
    ensures Sparing(ts, res, SetOperationFailed(cfg, Filter(IsSyncFail(), ts), phase, res, env), k)
  {
    hide RunTasks;
    hide Touches;
    hide AllOver;
    hide AllStarted;
    hide CarriedOut;
    hide DistinctKeys;
    var syncFail := Filter(IsSyncFail(), ts);
    SublistKeys(IsSyncFail(), ts);
    OverInList(ts, res);
    NoStepsTouchNothing(k);
    var out := RunTasks(cfg, syncFail, false, env.syncFail, res);
    RunTouchesOnce(cfg, syncFail, false, env.syncFail, res, k);
    if out.state.RunSuccessful? {
      RunTasksSuccess(cfg, syncFail, false, env.syncFail, res);
      CarriedOutStarted(cfg, ts, out.res);
    }
  }

  lemma FailSparing(cfg: Config, ts: seq<Task>, p: Task -> bool, phase: OpPhase, res: Results, env: Env, k: ResultKey)
    requires DistinctKeys(ts) && SyncFailHooks(ts) && !cfg.dryRun
    ensures Sparing(ts, res, Fail(cfg, ts, Filter(p, ts), phase, res, env), k)
  {
    hide SetOperationFailed;
    hide DeleteExpired;
    hide Touches;
    hide AllOver;
    hide AllStarted;
    hide SyncFailHooks;
    var expired := Filter(p, ts);
    var deleted := DeleteExpired(expired, res, env);
    SublistKeys(p, ts);
    DeletesTouchNothing(expired, k);
    HandlingSparing(cfg, ts, phase, deleted, env, k);
    TouchesAppend([Asking(AsksDelete(), expired)],
                  SetOperationFailed(cfg, Filter(IsSyncFail(), ts), phase, deleted, env).steps, k);
    if AllOver(ts, res) { StaysOver(ts, expired, res, env); }
  }

  lemma StaysOver(ts: seq<Task>, expired: seq<Task>, res: Results, env: Env)
    requires DistinctKeys(expired) && AllOver(ts, res)
    ensures AllOver(ts, DeleteExpired(expired, res, env))
  {
    UpdatesAt(DeleteFailure(env), expired);
    forall t | t in ts && t.phase.SyncFail? ensures Op(t, DeleteExpired(expired, res, env)).Completed() {
      if t.RKey() in Updates(DeleteFailure(env), expired) {
        var u :| u in expired && u.RKey() == t.RKey();
      }
    }
  }

  lemma SparingApart(ts: seq<Task>, res: Results, res': Results, step: StepOut, k: ResultKey)
    requires Sparing(ts, res', step, k) && forall t :: t in ts && t.phase.SyncFail? ==> Op(t, res') == Op(t, res)
    ensures Sparing(ts, res, step, k)
  {
  }

  lemma AfterWaveSparing(cfg: Config, ts: seq<Task>, todo: seq<Task>, res: Results, out: RunOut, env: Env, k: ResultKey)
    requires DistinctKeys(ts) && SyncFailHooks(ts) && !cfg.dryRun && todo != []
    requires forall t :: t in ts && t.phase.SyncFail? ==> Op(t, out.res) == Op(t, res)
    ensures Sparing(ts, res, AfterWave(cfg, ts, todo, res, out, env), k)
  {
    hide Fail;
    hide Touches;
    hide Filter;
    hide SyncFailHooks;
    hide DeleteExpired;
    DeletesTouchNothing(Filter(HasExpired(HookSucceeded, res), ts), k);
    DeletesTouchNothing(Filter(HasExpired(HookFailed, res), ts), k);
    NoStepsTouchNothing(k);
    if out.state.RunFailed? {
      FailSparing(cfg, ts, HasExpired(HookFailed, res), Running, out.res, env, k);
      SparingApart(ts, res, out.res, AfterWave(cfg, ts, todo, res, out, env), k);
    }
  }

  lemma RunWaveSparing(cfg: Config, ts: seq<Task>, res: Results, env: Env, k: ResultKey)
    requires DistinctKeys(ts) && SyncFailHooks(ts) && !cfg.dryRun && k.phase.SyncFail?
    requires Candidates(cfg, ts, res, env) != []
    ensures Sparing(ts, res, RunWave(cfg, ts, Candidates(cfg, ts, res, env), res, env), k)
  {
    hide RunTasks;
    hide AfterWave;
    hide Candidates;
    hide Batch;
    hide Touches;
    hide SyncFailHooks;
    var todo := Candidates(cfg, ts, res, env);
    var out := RunTasks(cfg, Batch(todo), false, env.wave, res);
    BatchKeys(cfg, ts, res, env);
    RunTouchesOwn(cfg, Batch(todo), false, env.wave, res, k);
    RunTasksGrows(cfg, Batch(todo), false, env.wave, res);
    forall t | t in ts && t.phase.SyncFail? ensures Op(t, out.res) == Op(t, res) {
      assert t.RKey() !in KeysOf(Batch(todo));
    }
    AfterWaveSparing(cfg, ts, todo, res, out, env, k);
    TouchesAppend(out.steps, AfterWave(cfg, ts, todo, res, out, env).steps, k);
  }

  lemma DecideSparing(cfg: Config, ts: seq<Task>, phase: OpPhase, res: Results, env: Env, k: ResultKey)
    requires DistinctKeys(ts) && SyncFailHooks(ts) && !cfg.dryRun && k.phase.SyncFail?
    ensures Sparing(ts, res, Decide(cfg, ts, phase, res, env), k)
  {
    hide Fail;
    hide RunWave;
    hide Candidates;
    hide Touches;
    hide Filter;
    hide SomeRegularUnsuccessful;
    DecideShape(cfg, ts, phase, res, env);
    if SomeRegularUnsuccessful(ts, res) {
      FailSparing(cfg, ts, HasExpired(HookFailed, res), phase, res, env, k);
    } else if Candidates(cfg, ts, res, env) == [] {
      DeletesTouchNothing(Filter(HasExpired(HookSucceeded, res), ts), k);
    } else {
      RunWaveSparing(cfg, ts, res, env, k);
    }
  }

  // Hooks are waited for: when the decision is taken, what is started is over.
  lemma StartedIsOver(cfg: Config, ts: seq<Task>, st: State, env: Env)
    requires DistinctKeys(ts) && SyncFailHooks(ts) && NoTerminating(st.res) && Reaches(cfg, ts, st, env)
    requires AllStarted(ts, st.res)
    ensures AllOver(ts, DecisionResults(cfg, ts, st, env))
  {
    hide DecisionResults;
    var res := DecisionResults(cfg, ts, st, env);
    DecisionGrows(cfg, ts, st, env);
    GrowsKeepsNoTerminating(st.res, res, KeysOf(ts));
    forall t | t in ts && t.phase.SyncFail? ensures Op(t, res).Completed() {
      assert !Pending(t, st.res);
      NotRunning(cfg, ts, st, env, t);
    }
  }

  lemma NotRunning(cfg: Config, ts: seq<Task>, st: State, env: Env, t: Task)
    requires DistinctKeys(ts) && Reaches(cfg, ts, st, env) && t in ts && t.IsHook()
    ensures !Op(t, DecisionResults(cfg, ts, st, env)).Running?
  {
    hide Refresh;
    hide Started;
    CleanKeepsRunning(ts, Refresh(ts, Started(cfg, ts, st, env)), env, t);
  }

  // A dry-run call applies and prunes nothing for real.
  lemma DryRunTouchesNothing(cfg: Config, ts: seq<Task>, st: State, env: Env, k: ResultKey)
    requires cfg.dryRun
    ensures Touches(SyncStep(cfg, ts, st, env).steps, k) == 0
  {
    hide SyncStep;
    DryRunOnlyCleansUp(cfg, ts, st, env);
    CleaningTouchesNothing(ts, SyncStep(cfg, ts, st, env).steps, k);
  }

  lemma {:induction false} CleaningTouchesNothing(ts: seq<Task>, steps: seq<multiset<Request>>, k: ResultKey)
    requires OnlyCleansUp(ts, steps)
    ensures Touches(steps, k) == 0
  {
    if steps != [] {
      forall i, q | 0 <= i < |steps[1..]| && q in steps[1..][i] && Mutating(q) ensures CleansUp(ts, q) {
        assert q in steps[i + 1];
      }
      CleaningTouchesNothing(ts, steps[1..], k);
      forall q | q in steps[0] && Mutating(q) ensures CleansUp(ts, q) {
      }
      assert Mutating(Apply(k, false)) && Mutating(DeletePruned(k));
    }
  }

  /**
   A call that does not create it as the application namespace runs a SyncFail hook at most once, not at all if all
   SyncFail hooks have been started, and unless that ends the operation it leaves all of them started.
   */
  lemma SyncFailOnce(cfg: Config, ts: seq<Task>, st: State, env: Env, k: ResultKey)
    requires DistinctKeys(ts) && SyncFailHooks(ts) && NoTerminating(st.res) && k.phase.SyncFail?
    requires !Bootstrapped(cfg, ts, st, env, k)
    ensures var step := SyncStep(cfg, ts, st, env);
            && Touches(step.steps, k) <= 1
            && (Touches(step.steps, k) > 0 ==>
                  !AllStarted(ts, st.res) && (step.phase.Completed() || AllStarted(ts, step.res)))
  {
    hide SyncStep;
    hide Decide;
    hide DecisionResults;
    hide Reaches;
    hide Touches;
    hide Bootstrapped;
    hide AllStarted;
    hide AllOver;
    hide SyncFailHooks;
    var step := SyncStep(cfg, ts, st, env);
    StepTouches(cfg, ts, st, env, k);
    if cfg.dryRun {
      DryRunTouchesNothing(cfg, ts, st, env, k);
    } else if Reaches(cfg, ts, st, env) {
      DecideSparing(cfg, ts, st.phase, DecisionResults(cfg, ts, st, env), env, k);
      if AllStarted(ts, st.res) { StartedIsOver(cfg, ts, st, env); }
      var made := Decision(cfg, ts, st, env);
      assert step.phase == step.(steps := []).phase == made.phase && step.res == step.(steps := []).res == made.res;
    }
  }

  // ----- a whole operation -----

  /**
   Whatever is settled by being touched, and settled for good, and not touched once settled, is touched at most
   once.
   */
  lemma {:induction false} TouchedOnce(cfg: Config, calls: seq<Call>, st: State, n: nat, k: ResultKey,
                                       settled: nat -> bool)
    requires n <= |calls|
    requires forall i :: 0 <= i < n ==> Touches(StepAt(cfg, calls, st, i).steps, k) <= if settled(i) then 0 else 1
    requires forall i :: 0 <= i < n ==>
               (settled(i) || Touches(StepAt(cfg, calls, st, i).steps, k) > 0 ==> settled(i + 1))
    ensures Touches(AllSteps(cfg, calls, st, n), k) <= if settled(n) then 1 else 0
  {
    hide SyncStep;
    hide Touches;
    NoStepsTouchNothing(k);
    if n > 0 {
      TouchedOnce(cfg, calls, st, n - 1, k, settled);
      TouchesAppend(AllSteps(cfg, calls, st, n - 1), StepAt(cfg, calls, st, n - 1).steps, k);
    }
  }

  // All SyncFail tasks of the operation have been started, or it is over.
  predicate SyncFailSettled(base: Catalogue, st: State) {
    st.phase.Completed() || forall k :: k in base && k.phase.SyncFail? ==> k in st.res && !st.res[k].op.NoPhase?
  }

  lemma StartedInList(base: Catalogue, ts: seq<Task>, res: Results)
    requires Enumerates(base, ts)
    ensures AllStarted(ts, res) <==> forall k :: k in base && k.phase.SyncFail? ==> k in res && !res[k].op.NoPhase?
  {
    if AllStarted(ts, res) {
      forall k | k in base && k.phase.SyncFail? ensures k in res && !res[k].op.NoPhase? {
        var t :| t in ts && t.RKey() == k;
        assert !Pending(t, res);
      }
    }
  }

  ghost predicate AllSyncFailHooks(calls: seq<Call>) {
    forall c :: c in calls ==> SyncFailHooks(c.ts)
  }

  lemma SettledStays(base: Catalogue, res: Results, res': Results)
    requires Grows(res, res', base.Keys)
    ensures forall k :: k in res && !res[k].op.NoPhase? ==> k in res' && !res'[k].op.NoPhase?
  {
  }

  lemma NoTerminatingAt(cfg: Config, base: Catalogue, calls: seq<Call>, st: State, i: nat)
    requires AllEnumerate(base, calls) && NoTerminating(st.res) && i <= |calls|
    ensures NoTerminating(StateAt(cfg, calls, st, i).res)
  {
    hide SyncStep;
    RunGrows(cfg, base, calls, st, 0, i);
    GrowsKeepsNoTerminating(st.res, StateAt(cfg, calls, st, i).res, base.Keys);
  }

  // Call number i touches the task at most once, not at all if all are settled, and settles all if it does.
  predicate Settles(cfg: Config, base: Catalogue, calls: seq<Call>, st: State, i: nat, k: ResultKey)
    requires i < |calls|
  {
    var before, after := StateAt(cfg, calls, st, i), StateAt(cfg, calls, st, i + 1);
    && Touches(StepAt(cfg, calls, st, i).steps, k) <= (if SyncFailSettled(base, before) then 0 else 1)
    && (SyncFailSettled(base, before) || TouchedAt(cfg, calls, st, i, k) ==> SyncFailSettled(base, after))
  }

  lemma OnceBySettling(cfg: Config, base: Catalogue, calls: seq<Call>, st: State, k: ResultKey)
    requires forall i :: 0 <= i < |calls| ==> Settles(cfg, base, calls, st, i, k)
    ensures Touches(AllSteps(cfg, calls, st, |calls|), k) <= 1
  {
    hide SyncStep;
    hide Touches;
    hide SyncFailSettled;
    var settled := (i: nat) => i <= |calls| && SyncFailSettled(base, StateAt(cfg, calls, st, i));
    forall i | 0 <= i < |calls|
      ensures Touches(StepAt(cfg, calls, st, i).steps, k) <= if settled(i) then 0 else 1
      ensures settled(i) || Touches(StepAt(cfg, calls, st, i).steps, k) > 0 ==> settled(i + 1)
    {
      assert Settles(cfg, base, calls, st, i, k);
    }
    TouchedOnce(cfg, calls, st, |calls|, k, settled);
  }

  lemma SyncFailOnceAt(cfg: Config, base: Catalogue, calls: seq<Call>, st: State, i: nat, k: ResultKey)
    requires AllEnumerate(base, calls) && AllSyncFailHooks(calls) && NoTerminating(st.res) && k.phase.SyncFail?
    requires i < |calls| && !StateAt(cfg, calls, st, i).phase.Completed() && !BootstrappedAt(cfg, calls, st, i, k)
    ensures Settles(cfg, base, calls, st, i, k)
  {
    hide SyncStep;
    hide Touches;
    hide AllStarted;
    hide SyncFailHooks;
    hide DistinctKeys;
    hide Scheduled;
    hide Bootstrapped;
    var call, before, after := calls[i], StateAt(cfg, calls, st, i), StateAt(cfg, calls, st, i + 1);
    assert call in calls;
    NoTerminatingAt(cfg, base, calls, st, i);
    SyncFailOnce(cfg, call.ts, before, call.env, k);
    StartedInList(base, call.ts, before.res);
    StartedInList(base, call.ts, after.res);
    SyncGrows(cfg, call.ts, before, call.env);
    SettledStays(base, before.res, after.res);
  }

  /**
   Over a whole operation with a fixed set of tasks every SyncFail hook is really applied at most once, unless some
   call creates it as the application namespace.
   */
  lemma SyncFailAtMostOnce(cfg: Config, base: Catalogue, calls: seq<Call>, st: State, k: ResultKey)
    requires AllEnumerate(base, calls) && AllSyncFailHooks(calls) && NoTerminating(st.res) && k.phase.SyncFail?
    requires calls != [] && Ongoing(cfg, calls, st, |calls| - 1)
    requires forall i :: 0 <= i < |calls| ==> !BootstrappedAt(cfg, calls, st, i, k)
    ensures Touches(AllSteps(cfg, calls, st, |calls|), k) <= 1
  {
    hide SyncStep;
    hide BootstrappedAt;
    hide Settles;
    hide AllEnumerate;
    forall i | 0 <= i < |calls| ensures Settles(cfg, base, calls, st, i, k) {
      SyncFailOnceAt(cfg, base, calls, st, i, k);
    }
    OnceBySettling(cfg, base, calls, st, k);
  }
}
