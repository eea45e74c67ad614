/** The phase in which a call of Sync leaves the operation (pkg/sync/sync_context.go), when it runs a wave or fails. */
module CallEnds {
  import opened Kube
  import opened Lists
  import opened Tasks
  import opened RunSpec
  import opened RunBarriers
  import opened RunAnswers
  import opened SyncSpec
  import opened SyncLaws
  import opened HealthLaws
  import opened HookCleanup

  // ----- a wave -----

  // Beyond the batch there is a task to start; or there is a hook in it, whose end has to be awaited.
  predicate MoreToDo(cfg: Config, ts: seq<Task>, res: Results, env: Env, slot: Slot) {
    exists t :: t in ts && CanStart(cfg, t, res, env) && (t.Slot() != slot || t.IsHook())
  }

  lemma RemainingExactly(cfg: Config, ts: seq<Task>, res: Results, env: Env, slot: Slot)
    requires DistinctKeys(ts) && Scheduled(ts)
    ensures Filter(IsBeyond(slot), Candidates(cfg, ts, Decided(ts, res, env), env)) != [] <==>
            MoreToDo(cfg, ts, res, env, slot)
  {
    hide Decided;
    hide Candidates;
    hide CanStart;
    hide Scheduled;
    forall t { CandidatesFromRecords(cfg, ts, res, env, t); }
    var todo := Candidates(cfg, ts, Decided(ts, res, env), env);
    var beyond := Filter(IsBeyond(slot), todo);
    if beyond != [] { assert beyond[0] in beyond && beyond[0] in todo; }
    if MoreToDo(cfg, ts, res, env, slot) {
      var t :| t in ts && CanStart(cfg, t, res, env) && (t.Slot() != slot || t.IsHook());
      assert t in todo && IsBeyond(slot)(t) && t in beyond;
    }
  }

  /**
   A call that runs a wave leaves the operation failed if the wave hook objects to a wave that has not failed; running
   if the wave is pending; and after a successful wave running if there is more to do, else succeeded.
   */
  lemma PhaseAfterWave(cfg: Config, ts: seq<Task>, st: State, env: Env)
    requires DistinctKeys(ts) && Scheduled(ts) && env.valid && st.res != map[]
    requires SyncStep(cfg, ts, st, env).wave.Some?
    ensures var step := SyncStep(cfg, ts, st, env);
            var wave := step.wave.value;
            if wave.state.RunFailed? then step.phase in {Running, Failed}
            else if cfg.syncWaveHook && !env.waveHookOk then step.phase.Failed?
            else if wave.state.RunPending? || MoreToDo(cfg, ts, st.res, env, wave.slot) then step.phase.Running?
            else step.phase.Succeeded?
  {
    hide RunTasks;
    hide Candidates;
    hide SyncStep;
    hide Decided;
    hide Filter;
    hide Fail;
    hide MoreToDo;
    var res := Decided(ts, st.res, env);
    assert DecisionResults(cfg, ts, st, env) == res by { DecisionIs(cfg, ts, st, env); }
    hide DecisionResults;
    WaveChosen(cfg, ts, st, env);
    var todo := Candidates(cfg, ts, res, env);
    var out := RunTasks(cfg, Batch(todo), false, env.wave, res);
    RemainingExactly(cfg, ts, st.res, env, todo[0].Slot());
    FailPhase(cfg, ts, Filter(HasExpired(HookFailed, res), ts), Running, out.res, env);
    var step, made := SyncStep(cfg, ts, st, env), RunWave(cfg, ts, todo, res, env);
    assert step.phase == made.phase && step.wave == made.wave by {
      assert step.(steps := []) == made.(steps := []);
    }
  }

  lemma DecisionIs(cfg: Config, ts: seq<Task>, st: State, env: Env)
    requires st.res != map[]
    ensures DecisionResults(cfg, ts, st, env) == Decided(ts, st.res, env)
  {
  }

  // ----- a failure -----

  // Some hook for the case of failure has not been completed, when the hooks to be deleted have been.
  predicate HooksLeft(ts: seq<Task>, env: Env, decided: Results) {
    exists t :: t in ts && t.phase.SyncFail? &&
      !AfterDeletion(t, HookFailed, env, ResultOf(t, decided)).op.Completed()
  }

  lemma LeftExactly(ts: seq<Task>, res: Results, env: Env)
    requires DistinctKeys(ts) && !IsHeldUp(ts, res)
    ensures var decided := Decided(ts, res, env);
            var deleted := DeleteExpired(Filter(HasExpired(HookFailed, decided), ts), decided, env);
            (forall t :: t in Filter(IsSyncFail(), ts) ==> Op(t, deleted).Completed()) <==> !HooksLeft(ts, env, decided)
  {
    hide Decided;
    hide HasExpired;
    hide DeleteExpired;
    hide AfterDeletion;
    hide IsHeldUp;
    var decided := Decided(ts, res, env);
    forall t | t in ts { DeletionRecords(ts, res, env, HookFailed, decided, t); }
    hide DistinctKeys;
    assert forall t :: t in Filter(IsSyncFail(), ts) <==> t in ts && t.phase.SyncFail?;
  }

  /**
   A call that finds a regular task to have failed runs the hooks for that case if some are left, and fails the
   operation if none is, or if they fail in turn; else it leaves the phase as it is.
   */
  lemma PhaseAfterFailure(cfg: Config, ts: seq<Task>, st: State, env: Env)
    requires DistinctKeys(ts) && Scheduled(ts) && env.valid && st.res != map[]
    requires !IsHeldUp(ts, st.res) && RegularFailed(ts, st.res, env)
    ensures var step := SyncStep(cfg, ts, st, env);
            var deleted := DeleteExpired(Filter(HasExpired(HookFailed, step.decided), ts), step.decided, env);
            var run := Stages(cfg, Filter(IsSyncFail(), ts), cfg.dryRun, env.syncFail, deleted);
            && (step.ranSyncFail <==> HooksLeft(ts, env, step.decided))
            && step.phase == (if !step.ranSyncFail || Fails(run) then Failed else st.phase)
  {
    hide RunTasks;
    hide SyncStep;
    hide Decide;
    hide Decided;
    hide Refresh;
    hide IsHeldUp;
    hide RegularFailed;
    hide HooksLeft;
    hide Fails;
    hide RunWave;
    hide Candidates;
    hide Asking;
    hide Filter;
    hide DeleteExpired;
    CallSteps(cfg, ts, st, env);
    var res := Decided(ts, st.res, env);
    FailsExactly(ts, st.res, env);
    DecideShape(cfg, ts, st.phase, res, env);
    LeftExactly(ts, st.res, env);
    SublistKeys(IsSyncFail(), ts);
    var deleted := DeleteExpired(Filter(HasExpired(HookFailed, res), ts), res, env);
    StateFromAnswers(cfg, Filter(IsSyncFail(), ts), false, env.syncFail, deleted);
  }
}
