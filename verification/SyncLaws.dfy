/** What one call of Sync guarantees. */
module SyncLaws {
  import opened Kube
  import opened Lists
  import opened Tasks
  import opened RunSpec
  import opened RunLaws
  import opened SyncSpec

  // Who is asked for when there is one request for each task
  lemma {:induction false} AskingExactly(ask: Task -> Request, hooks: seq<Task>, q: Request)
    ensures q in Asking(ask, hooks) <==> exists t :: t in hooks && q == ask(t)
  {
    if hooks != [] {
      AskingExactly(ask, hooks[1..], q);
      assert forall t :: t in hooks <==> t == hooks[0] || t in hooks[1..];
    }
  }

  // ----- results only grow -----

  lemma {:induction false} UpdatesAt(f: Task -> Option<Result>, ts: seq<Task>)
    requires DistinctKeys(ts)
    ensures Updates(f, ts).Keys <= KeysOf(ts)
    ensures forall t :: t in ts ==>
              (f(t).Some? <==> t.RKey() in Updates(f, ts)) &&
              (f(t).Some? ==> Updates(f, ts)[t.RKey()] == f(t).value)
  {
    if ts != [] {
      UpdatesAt(f, ts[1..]);
      assert KeysOf(ts[1..]) <= KeysOf(ts);
      assert forall t :: t in ts[1..] ==> t.RKey() != ts[0].RKey();
      assert ts[0].RKey() !in KeysOf(ts[1..]);
    }
  }

  predicate Records(f: Task -> Option<Result>, ts: seq<Task>) {
    forall t :: t in ts && f(t).Some? ==> Recordable(f(t).value.op)
  }

  lemma UpdatesGrow(f: Task -> Option<Result>, ts: seq<Task>, res: Results, ks: set<ResultKey>)
    requires DistinctKeys(ts) && Records(f, ts) && KeysOf(ts) <= ks
    ensures Grows(res, res + Updates(f, ts), ks)
  {
  }

  lemma SublistKeys(p: Task -> bool, ts: seq<Task>)
    requires DistinctKeys(ts)
    ensures DistinctKeys(Filter(p, ts))
    ensures KeysOf(Filter(p, ts)) <= KeysOf(ts)
  {
    FilterDistinct(p, KeyOf(), ts);
  }

  lemma RefreshGrows(ts: seq<Task>, res: Results)
    requires DistinctKeys(ts)
    ensures Grows(res, Refresh(ts, res), KeysOf(ts))
  {
    UpdatesGrow(Refreshed(res), ts, res, KeysOf(ts));
  }

  lemma CleanGrows(ts: seq<Task>, res: Results, env: Env)
    requires DistinctKeys(ts)
    ensures Grows(res, CleanFinalizers(ts, res, env), KeysOf(ts))
  {
    UpdatesGrow(CleanFailure(env, res), ts, res, KeysOf(ts));
  }

  lemma DeleteGrows(p: Task -> bool, ts: seq<Task>, res: Results, env: Env)
    requires DistinctKeys(ts)
    ensures Grows(res, DeleteExpired(Filter(p, ts), res, env), KeysOf(ts))
  {
    SublistKeys(p, ts);
    UpdatesGrow(DeleteFailure(env), Filter(p, ts), res, KeysOf(ts));
  }

  lemma FailGrows(cfg: Config, ts: seq<Task>, p: Task -> bool, phase: OpPhase, res: Results, env: Env)
    requires DistinctKeys(ts)
    ensures Grows(res, Fail(cfg, ts, Filter(p, ts), phase, res, env).res, KeysOf(ts))
  {
    DeleteGrows(p, ts, res, env);
    SublistKeys(IsSyncFail(), ts);
    var deleted := DeleteExpired(Filter(p, ts), res, env);
    RunTasksGrows(cfg, Filter(IsSyncFail(), ts), false, env.syncFail, deleted);
  }

  lemma CandidatesKeys(cfg: Config, ts: seq<Task>, res: Results, env: Env)
    requires DistinctKeys(ts)
    ensures DistinctKeys(Candidates(cfg, ts, res, env))
    ensures forall t :: t in Candidates(cfg, ts, res, env) ==> t in ts && !t.phase.SyncFail? && Pending(t, res)
  {
    SublistKeys(IsRegular(), ts);
    SublistKeys(IsPending(res), Filter(IsRegular(), ts));
    SublistKeys(IsOutOfSync(env), Filter(IsPending(res), Filter(IsRegular(), ts)));
  }

  lemma SucceedGrows(ts: seq<Task>, res0: Results, res: Results, env: Env)
    requires DistinctKeys(ts)
    ensures Grows(res, Succeed(ts, res0, res, env).res, KeysOf(ts))
  {
    DeleteGrows(HasExpired(HookSucceeded, res0), ts, res, env);
  }

  lemma AfterWaveGrows(cfg: Config, ts: seq<Task>, todo: seq<Task>, res: Results, out: RunOut, env: Env)
    requires DistinctKeys(ts) && todo != []
    ensures Grows(out.res, AfterWave(cfg, ts, todo, res, out, env).res, KeysOf(ts))
  {
    if cfg.syncWaveHook && !out.state.RunFailed? && !env.waveHookOk {
      DeleteGrows(HasExpired(HookFailed, res), ts, out.res, env);
    } else if out.state.RunFailed? {
      FailGrows(cfg, ts, HasExpired(HookFailed, res), Running, out.res, env);
    } else if out.state.RunSuccessful? {
      SucceedGrows(ts, res, out.res, env);
    }
  }

  lemma BatchKeys(cfg: Config, ts: seq<Task>, res: Results, env: Env)
    requires DistinctKeys(ts) && Candidates(cfg, ts, res, env) != []
    ensures var batch := Batch(Candidates(cfg, ts, res, env));
            DistinctKeys(batch) && Candidates(cfg, ts, res, env)[0] in batch &&
            forall t :: t in batch ==> t in ts && !t.phase.SyncFail? && Pending(t, res)
  {
    var todo := Candidates(cfg, ts, res, env);
    CandidatesKeys(cfg, ts, res, env);
    SublistKeys(IsAt(todo[0].Slot()), todo);
  }

  lemma RunWaveGrows(cfg: Config, ts: seq<Task>, todo: seq<Task>, res: Results, env: Env)
    requires DistinctKeys(ts) && DistinctKeys(todo) && todo != [] && KeysOf(todo) <= KeysOf(ts)
    ensures Grows(res, RunWave(cfg, ts, todo, res, env).res, KeysOf(ts))
  {
    var batch := Batch(todo);
    SublistKeys(IsAt(todo[0].Slot()), todo);
    var out := RunTasks(cfg, batch, false, env.wave, res);
    RunTasksGrows(cfg, batch, false, env.wave, res);
    AfterWaveGrows(cfg, ts, todo, res, out, env);
    GrowsWider(res, out.res, KeysOf(batch), KeysOf(ts));
    GrowsTransitive(res, out.res, AfterWave(cfg, ts, todo, res, out, env).res, KeysOf(ts));
  }

  lemma DecideGrows(cfg: Config, ts: seq<Task>, phase: OpPhase, res: Results, env: Env)
    requires DistinctKeys(ts)
    ensures Grows(res, Decide(cfg, ts, phase, res, env).res, KeysOf(ts))
  {
    hide RunTasks;
    hide RunWave;
    hide Fail;
    hide Candidates;
    hide Filter;
    FailGrows(cfg, ts, HasExpired(HookFailed, res), phase, res, env);
    DeleteGrows(HasExpired(HookSucceeded, res), ts, res, env);
    CandidatesKeys(cfg, ts, res, env);
    var todo := Candidates(cfg, ts, res, env);
    if todo != [] {
      RunWaveGrows(cfg, ts, todo, res, env);
    }
  }

  lemma BootstrapGrows(cfg: Config, ts: seq<Task>, res: Results, env: Env)
    requires DistinctKeys(ts)
    ensures Grows(res, Bootstrap(cfg, ts, res, env).res, KeysOf(ts))
  {
    var ns := NamespaceTask(cfg, ts);
    if ns != [] {
      RunTasksGrows(cfg, ns, false, env.bootstrap, res);
      assert KeysOf(ns) <= KeysOf(ts);
    }
  }

  lemma DryTasksKeys(cfg: Config, ts: seq<Task>, env: Env)
    requires DistinctKeys(ts)
    ensures DistinctKeys(DryTasks(cfg, ts, env)) && KeysOf(DryTasks(cfg, ts, env)) <= KeysOf(ts)
  {
    var ns := NamespaceTask(cfg, ts);
    SublistKeys(IsNotIn(ns), ts);
    SublistKeys(IsOutOfSync(env), Filter(IsNotIn(ns), ts));
  }

  lemma DryTasksIn(cfg: Config, ts: seq<Task>, env: Env)
    ensures forall t :: t in DryTasks(cfg, ts, env) ==> t in ts
  {
  }

  lemma PreflightGrows(cfg: Config, ts: seq<Task>, res: Results, env: Env)
    requires DistinctKeys(ts)
    ensures Grows(res, Preflight(cfg, ts, res, env).res, KeysOf(ts))
  {
    BootstrapGrows(cfg, ts, res, env);
    var boot := Bootstrap(cfg, ts, res, env);
    if !boot.state.RunFailed? {
      DryTasksKeys(cfg, ts, env);
      var dry := RunTasks(cfg, DryTasks(cfg, ts, env), true, env.preflight, boot.res);
      RunTasksGrows(cfg, DryTasks(cfg, ts, env), true, env.preflight, boot.res);
      GrowsWider(boot.res, dry.res, KeysOf(DryTasks(cfg, ts, env)), KeysOf(ts));
      GrowsTransitive(res, boot.res, dry.res, KeysOf(ts));
    }
  }

  lemma AdvanceGrows(cfg: Config, ts: seq<Task>, phase: OpPhase, res: Results, env: Env)
    requires DistinctKeys(ts)
    ensures Grows(res, Advance(cfg, ts, phase, res, env).res, KeysOf(ts))
  {
    var now := Refresh(ts, res);
    RefreshGrows(ts, res);
    if !MustWait(ts, now) && !AwaitsDeletion(ts, now) {
      var clean := CleanFinalizers(ts, now, env);
      CleanGrows(ts, now, env);
      GrowsTransitive(res, now, clean, KeysOf(ts));
      DecideGrows(cfg, ts, phase, clean, env);
      GrowsTransitive(res, clean, Decide(cfg, ts, phase, clean, env).res, KeysOf(ts));
    }
  }

  lemma DecisionGrows(cfg: Config, ts: seq<Task>, st: State, env: Env)
    requires DistinctKeys(ts)
    ensures Grows(st.res, DecisionResults(cfg, ts, st, env), KeysOf(ts))
  {
    var res := Started(cfg, ts, st, env);
    if st.res == map[] { PreflightGrows(cfg, ts, st.res, env); }
    RefreshGrows(ts, res);
    GrowsTransitive(st.res, res, Refresh(ts, res), KeysOf(ts));
    CleanGrows(ts, Refresh(ts, res), env);
    GrowsTransitive(st.res, Refresh(ts, res), DecisionResults(cfg, ts, st, env), KeysOf(ts));
  }

  // One call of Sync records results of its own tasks only, forgets none, and makes none pending again.
  lemma SyncGrows(cfg: Config, ts: seq<Task>, st: State, env: Env)
    requires DistinctKeys(ts)
    ensures Grows(st.res, SyncStep(cfg, ts, st, env).res, KeysOf(ts))
  {
    if env.valid {
      var res := Started(cfg, ts, st, env);
      if st.res == map[] { PreflightGrows(cfg, ts, st.res, env); }
      AdvanceGrows(cfg, ts, st.phase, res, env);
      GrowsTransitive(st.res, res, Advance(cfg, ts, st.phase, res, env).res, KeysOf(ts));
    }
  }

  // ----- wave safety -----

  // No recorded result is "terminating"; nothing in the package records one.
  predicate NoTerminating(res: Results) {
    forall k :: k in res ==> !res[k].op.Terminating?
  }

  lemma GrowsKeepsNoTerminating(res: Results, res': Results, ks: set<ResultKey>)
    requires Grows(res, res', ks) && NoTerminating(res)
    ensures NoTerminating(res')
  {
  }

  predicate SomeRegularUnsuccessful(ts: seq<Task>, res: Results) {
    exists t :: t in ts && !t.phase.SyncFail? && Op(t, res).Unsuccessful()
  }

  // A pending task left alone because its resource is unmodified
  predicate Skipped(cfg: Config, env: Env, t: Task, res: Results) {
    Pending(t, res) && cfg.applyOutOfSyncOnly && !IsOutOfSync(env)(t)
  }

  // The ways a call can end, requests aside
  predicate Decides(cfg: Config, ts: seq<Task>, st: State, env: Env) {
    && env.valid
    && !MustWait(ts, Refresh(ts, Started(cfg, ts, st, env)))
    && !AwaitsDeletion(ts, Refresh(ts, Started(cfg, ts, st, env)))
    && SyncStep(cfg, ts, st, env).(steps := [])
       == Decide(cfg, ts, st.phase, DecisionResults(cfg, ts, st, env), env).(steps := [])
  }

  lemma StepShape(cfg: Config, ts: seq<Task>, st: State, env: Env)
    ensures var step := SyncStep(cfg, ts, st, env).(steps := []);
            || step == Quiet(Failed, st.res)
            || (st.res == map[] && step == Quiet(Failed, Preflight(cfg, ts, st.res, env).res))
            || step == Quiet(Running, Refresh(ts, Started(cfg, ts, st, env)))
            || Decides(cfg, ts, st, env)
  {
    if env.valid {
      var start := Started(cfg, ts, st, env);
      if st.res == map[] && Preflight(cfg, ts, st.res, env).state.RunFailed? {
      } else {
        assert SyncStep(cfg, ts, st, env).(steps := []) == Advance(cfg, ts, st.phase, start, env).(steps := []);
      }
    }
  }

  lemma DecideShape(cfg: Config, ts: seq<Task>, phase: OpPhase, res: Results, env: Env)
    ensures var step := Decide(cfg, ts, phase, res, env);
            var todo := Candidates(cfg, ts, res, env);
            if SomeRegularUnsuccessful(ts, res) then
              step.wave.None? && step.decided == res &&
              step == Fail(cfg, ts, Filter(HasExpired(HookFailed, res), ts), phase, res, env)
            else if todo == [] then step == Succeed(ts, res, res, env)
            else step == RunWave(cfg, ts, todo, res, env)
  {
    var expired := Filter(HasExpired(HookFailed, res), ts);
    assert Fail(cfg, ts, expired, phase, res, env).wave.None?;
  }

  lemma AfterWaveShape(cfg: Config, ts: seq<Task>, todo: seq<Task>, res: Results, out: RunOut, env: Env)
    requires todo != []
    ensures var step := AfterWave(cfg, ts, todo, res, out, env);
            step.decided == out.res &&
            (step.ranSyncFail ==> out.state.RunFailed?) &&
            (step.phase.Succeeded? ==> out.state.RunSuccessful? && Filter(IsBeyond(todo[0].Slot()), todo) == [])
  {
  }

  // A call that runs a wave has nothing to wait for and no failure to handle.
  lemma WaveChosen(cfg: Config, ts: seq<Task>, st: State, env: Env)
    requires SyncStep(cfg, ts, st, env).wave.Some?
    ensures env.valid && !MustWait(ts, Refresh(ts, Started(cfg, ts, st, env)))
    ensures var res := DecisionResults(cfg, ts, st, env);
            var todo := Candidates(cfg, ts, res, env);
            todo != [] && !SomeRegularUnsuccessful(ts, res) &&
            var step, made := SyncStep(cfg, ts, st, env), RunWave(cfg, ts, todo, res, env);
            step.(steps := []) == made.(steps := [])
  {
    StepShape(cfg, ts, st, env);
    DecideShape(cfg, ts, st.phase, DecisionResults(cfg, ts, st, env), env);
  }

  // The results once the wave has run, before hooks are deleted and SyncFail hooks run
  function AfterBatch(cfg: Config, ts: seq<Task>, st: State, env: Env): RunOut
    requires SyncStep(cfg, ts, st, env).wave.Some?
  {
    RunTasks(cfg, SyncStep(cfg, ts, st, env).wave.value.tasks, false, env.wave, DecisionResults(cfg, ts, st, env))
  }

  lemma WaveResult(cfg: Config, ts: seq<Task>, st: State, env: Env)
    requires SyncStep(cfg, ts, st, env).wave.Some?
    ensures var step, res := SyncStep(cfg, ts, st, env), DecisionResults(cfg, ts, st, env);
            var todo := Candidates(cfg, ts, res, env);
            todo != [] &&
            step.wave.value == WaveRun(todo[0].Slot(), Batch(todo), AfterBatch(cfg, ts, st, env).state) &&
            step.res == AfterWave(cfg, ts, todo, res, AfterBatch(cfg, ts, st, env), env).res
  {
    hide RunTasks;
    hide AfterWave;
    hide SyncStep;
    hide DecisionResults;
    WaveChosen(cfg, ts, st, env);
  }

  // The three legs of a call that runs a wave: up to the decision, the wave, the rest.
  lemma WaveLegs(cfg: Config, ts: seq<Task>, st: State, env: Env)
    requires DistinctKeys(ts) && SyncStep(cfg, ts, st, env).wave.Some?
    ensures Grows(st.res, DecisionResults(cfg, ts, st, env), KeysOf(ts))
    ensures Grows(DecisionResults(cfg, ts, st, env), AfterBatch(cfg, ts, st, env).res, KeysOf(ts))
    ensures Grows(AfterBatch(cfg, ts, st, env).res, SyncStep(cfg, ts, st, env).res, KeysOf(ts))
    ensures var wave := SyncStep(cfg, ts, st, env).wave.value;
            wave.state == AfterBatch(cfg, ts, st, env).state && wave.tasks != [] && DistinctKeys(wave.tasks) &&
            forall t :: t in wave.tasks ==>
              t in ts && !t.phase.SyncFail? && Pending(t, DecisionResults(cfg, ts, st, env))
  {
    hide RunTasks;
    hide AfterWave;
    hide SyncStep;
    hide DecisionResults;
    hide Candidates;
    hide Batch;
    var res := DecisionResults(cfg, ts, st, env);
    WaveResult(cfg, ts, st, env);
    DecisionGrows(cfg, ts, st, env);
    BatchKeys(cfg, ts, res, env);
    var batch := SyncStep(cfg, ts, st, env).wave.value.tasks;
    RunTasksGrows(cfg, batch, false, env.wave, res);
    assert KeysOf(batch) <= KeysOf(ts);
    GrowsWider(res, AfterBatch(cfg, ts, st, env).res, KeysOf(batch), KeysOf(ts));
    AfterWaveGrows(cfg, ts, Candidates(cfg, ts, res, env), res, AfterBatch(cfg, ts, st, env), env);
  }

  // Candidates keep the schedule's order, and are exactly the pending regular tasks that are not skipped.
  lemma CandidatesExact(cfg: Config, ts: seq<Task>, res: Results, env: Env)
    requires Scheduled(ts)
    ensures Scheduled(Candidates(cfg, ts, res, env))
    ensures forall t :: t in Candidates(cfg, ts, res, env) <==>
              t in ts && !t.phase.SyncFail? && Pending(t, res) && !Skipped(cfg, env, t, res)
  {
    var regular := Filter(IsRegular(), ts);
    FilterOrdered(IsRegular(), BySlot, ts);
    FilterOrdered(IsPending(res), BySlot, regular);
    FilterOrdered(IsOutOfSync(env), BySlot, Filter(IsPending(res), regular));
  }

  // Cleaning finalizers finishes nothing and starts nothing.
  lemma CleanKeepsRunning(ts: seq<Task>, res: Results, env: Env, t: Task)
    requires DistinctKeys(ts) && t in ts
    ensures Op(t, CleanFinalizers(ts, res, env)).Running? ==> Op(t, res).Running?
  {
    UpdatesAt(CleanFailure(env, res), ts);
  }

  /**
   The tasks a call runs are exactly the candidates of the least slot that has one, and every regular
   task of an earlier slot has succeeded or was skipped as unmodified.
   */
  lemma WaveSafety(cfg: Config, ts: seq<Task>, st: State, env: Env)
    requires DistinctKeys(ts) && Scheduled(ts) && NoTerminating(st.res)
    requires SyncStep(cfg, ts, st, env).wave.Some?
    ensures var wave := SyncStep(cfg, ts, st, env).wave.value;
            var res := DecisionResults(cfg, ts, st, env);
            wave.tasks != [] &&
            (forall t :: t in wave.tasks <==>
               t in ts && t.Slot() == wave.slot &&
               !t.phase.SyncFail? && Pending(t, res) && !Skipped(cfg, env, t, res)) &&
            (forall t :: t in ts && !t.phase.SyncFail? && Pending(t, res) && !Skipped(cfg, env, t, res) ==>
               SlotLeq(wave.slot, t.Slot())) &&
            (forall t :: t in ts && !t.phase.SyncFail? && SlotLess(t.Slot(), wave.slot) ==>
               Op(t, res).Succeeded? || Skipped(cfg, env, t, res))
  {
    hide SyncStep;
    hide DecisionResults;
    hide RunTasks;
    var res := DecisionResults(cfg, ts, st, env);
    var todo := Candidates(cfg, ts, res, env);
    WaveChosen(cfg, ts, st, env);
    CandidatesExact(cfg, ts, res, env);
    forall t | t in todo ensures SlotLeq(todo[0].Slot(), t.Slot()) {
      var i :| 0 <= i < |todo| && todo[i] == t;
      assert i > 0 ==> BySlot(todo[0], todo[i]);
    }
    assert todo[0] in Batch(todo);
    DecisionGrows(cfg, ts, st, env);
    GrowsKeepsNoTerminating(st.res, res, KeysOf(ts));
    forall t | t in ts && !t.phase.SyncFail? && SlotLess(t.Slot(), todo[0].Slot())
      ensures Op(t, res).Succeeded? || Skipped(cfg, env, t, res)
    {
      EarlierTaskDone(cfg, ts, st, env, t, todo[0]);
    }
  }

  lemma EarlierTaskDone(cfg: Config, ts: seq<Task>, st: State, env: Env, t: Task, first: Task)
    requires DistinctKeys(ts) && Scheduled(ts) && t in ts && first in ts
    requires !t.phase.SyncFail? && SlotLess(t.Slot(), first.Slot())
    requires var res := DecisionResults(cfg, ts, st, env);
             NoTerminating(res) && !SomeRegularUnsuccessful(ts, res) &&
             !MustWait(ts, Refresh(ts, Started(cfg, ts, st, env))) &&
             forall u :: u in Candidates(cfg, ts, res, env) ==> SlotLeq(first.Slot(), u.Slot())
    ensures var res := DecisionResults(cfg, ts, st, env);
            Op(t, res).Succeeded? || Skipped(cfg, env, t, res)
  {
    var res := DecisionResults(cfg, ts, st, env);
    CandidatesExact(cfg, ts, res, env);
    CleanKeepsRunning(ts, Refresh(ts, Started(cfg, ts, st, env)), env, t);
    MultiStepExact(ts);
    var i :| 0 <= i < |ts| && ts[i] == t;
    var j :| 0 <= j < |ts| && ts[j] == first;
    assert MultiStep(ts) by {
      if i < j { assert ts[i].Slot() != ts[j].Slot(); } else { assert ts[j].Slot() != ts[i].Slot(); }
    }
    assert !Op(t, res).Running?;
  }

  // ----- fail-stop -----

  // Failures of regular tasks are never repaired.
  predicate KeepsFailures(res: Results, res': Results) {
    forall k :: k in res && !k.phase.SyncFail? && res[k].op.Unsuccessful() ==> k in res' && res'[k].op.Unsuccessful()
  }

  lemma KeepsSome(ts: seq<Task>, res: Results, res': Results)
    requires KeepsFailures(res, res') && SomeRegularUnsuccessful(ts, res)
    ensures SomeRegularUnsuccessful(ts, res')
  {
  }

  lemma UpdatesKeepFailures(f: Task -> Option<Result>, ts: seq<Task>, res: Results)
    requires DistinctKeys(ts)
    requires forall t :: t in ts && f(t).Some? && Op(t, res).Unsuccessful() ==> f(t).value.op.Unsuccessful()
    ensures KeepsFailures(res, res + Updates(f, ts))
  {
  }

  lemma HandlingKeepsFailures(cfg: Config, ts: seq<Task>, phase: OpPhase, res: Results, env: Env)
    requires DistinctKeys(ts)
    ensures var step := SetOperationFailed(cfg, Filter(IsSyncFail(), ts), phase, res, env);
            KeepsFailures(res, step.res) && step.phase in {Failed, phase}
  {
    hide RunTasks;
    hide DistinctKeys;
    hide Grows;
    hide KeepsFailures;
    var syncFail := Filter(IsSyncFail(), ts);
    SublistKeys(IsSyncFail(), ts);
    RunTasksGrows(cfg, syncFail, false, env.syncFail, res);
    SyncFailKeepsFailures(syncFail, res, RunTasks(cfg, syncFail, false, env.syncFail, res).res);
    SyncFailKeepsFailures([], res, res) by { NothingGrows(res); }
  }

  lemma NothingGrows(res: Results)
    ensures Grows(res, res, KeysOf([]))
  {
  }

  // Records of SyncFail tasks say nothing about the failures of regular ones.
  lemma SyncFailKeepsFailures(syncFail: seq<Task>, res: Results, res': Results)
    requires Grows(res, res', KeysOf(syncFail)) && forall t :: t in syncFail ==> t.phase.SyncFail?
    ensures KeepsFailures(res, res')
  {
    forall k | k in res && !k.phase.SyncFail? ensures k !in KeysOf(syncFail) {
    }
  }

  lemma FailKeepsFailures(cfg: Config, ts: seq<Task>, p: Task -> bool, phase: OpPhase, res: Results, env: Env)
    requires DistinctKeys(ts)
    ensures KeepsFailures(res, Fail(cfg, ts, Filter(p, ts), phase, res, env).res)
    ensures Fail(cfg, ts, Filter(p, ts), phase, res, env).phase in {Failed, phase}
  {
    hide SetOperationFailed;
    hide Updates;
    hide Filter;
    SublistKeys(p, ts);
    UpdatesKeepFailures(DeleteFailure(env), Filter(p, ts), res);
    HandlingKeepsFailures(cfg, ts, phase, DeleteExpired(Filter(p, ts), res, env), env);
  }

  lemma DecisionKeepsFailures(cfg: Config, ts: seq<Task>, st: State, env: Env)
    requires DistinctKeys(ts) && st.res != map[]
    ensures KeepsFailures(st.res, Refresh(ts, st.res))
    ensures KeepsFailures(st.res, DecisionResults(cfg, ts, st, env))
  {
    var now := Refresh(ts, st.res);
    UpdatesKeepFailures(Refreshed(st.res), ts, st.res);
    UpdatesKeepFailures(CleanFailure(env, now), ts, now);
  }

  lemma DecideFails(cfg: Config, ts: seq<Task>, phase: OpPhase, res: Results, env: Env)
    requires DistinctKeys(ts) && SomeRegularUnsuccessful(ts, res)
    ensures var step := Decide(cfg, ts, phase, res, env);
            step.wave.None? && step.phase in {Failed, phase} && SomeRegularUnsuccessful(ts, step.res)
  {
    var step := Fail(cfg, ts, Filter(HasExpired(HookFailed, res), ts), phase, res, env);
    assert Decide(cfg, ts, phase, res, env) == step;
    FailKeepsFailures(cfg, ts, HasExpired(HookFailed, res), phase, res, env);
    KeepsSome(ts, res, step.res);
  }

  // Once a regular task has failed, no call runs a wave, repairs the failure or succeeds.
  lemma FailStop(cfg: Config, ts: seq<Task>, st: State, env: Env)
    requires DistinctKeys(ts) && SomeRegularUnsuccessful(ts, st.res)
    ensures var step := SyncStep(cfg, ts, st, env);
            step.wave.None? && step.phase in {Running, Failed, st.phase} && SomeRegularUnsuccessful(ts, step.res)
  {
    if env.valid {
      var now, res := Refresh(ts, st.res), DecisionResults(cfg, ts, st, env);
      DecisionKeepsFailures(cfg, ts, st, env);
      assert SyncStep(cfg, ts, st, env) == Advance(cfg, ts, st.phase, st.res, env);
      if MustWait(ts, now) || AwaitsDeletion(ts, now) {
        KeepsSome(ts, st.res, now);
      } else {
        KeepsSome(ts, st.res, res);
        DecideFails(cfg, ts, st.phase, res, env);
      }
    }
  }

  lemma BatchFailure(cfg: Config, ts: seq<Task>, res: Results, env: Env)
    requires DistinctKeys(ts) && Candidates(cfg, ts, res, env) != []
    requires RunTasks(cfg, Batch(Candidates(cfg, ts, res, env)), false, env.wave, res).state.RunFailed?
    ensures SomeRegularUnsuccessful(ts, RunTasks(cfg, Batch(Candidates(cfg, ts, res, env)), false, env.wave, res).res)
  {
    var batch := Batch(Candidates(cfg, ts, res, env));
    BatchKeys(cfg, ts, res, env);
    RunTasksFailure(cfg, batch, false, env.wave, res);
    var t :| t in batch && Op(t, RunTasks(cfg, batch, false, env.wave, res).res).Unsuccessful();
  }

  // A wave that fails leaves the failure of one of its tasks behind, and the call does not succeed.
  lemma WaveFailureRecorded(cfg: Config, ts: seq<Task>, st: State, env: Env)
    requires DistinctKeys(ts)
    requires var step := SyncStep(cfg, ts, st, env); step.wave.Some? && step.wave.value.state.RunFailed?
    ensures var step := SyncStep(cfg, ts, st, env);
            step.phase in {Running, Failed} &&
            SomeRegularUnsuccessful(ts, step.decided) && SomeRegularUnsuccessful(ts, step.res)
  {
    hide RunTasks;
    hide SyncStep;
    hide DecisionResults;
    hide SetOperationFailed;
    WaveChosen(cfg, ts, st, env);
    var res := DecisionResults(cfg, ts, st, env);
    BatchFailure(cfg, ts, res, env);
    var after := RunTasks(cfg, Batch(Candidates(cfg, ts, res, env)), false, env.wave, res).res;
    var step := Fail(cfg, ts, Filter(HasExpired(HookFailed, res), ts), Running, after, env);
    FailKeepsFailures(cfg, ts, HasExpired(HookFailed, res), Running, after, env);
    KeepsSome(ts, after, step.res);
    assert SyncStep(cfg, ts, st, env).res == step.res && step.decided == after;
  }

  // SyncFail hooks are run by calls that know of a failed regular task, and only by those.
  lemma SyncFailOnlyAfterFailure(cfg: Config, ts: seq<Task>, st: State, env: Env)
    requires DistinctKeys(ts) && SyncStep(cfg, ts, st, env).ranSyncFail
    ensures SomeRegularUnsuccessful(ts, SyncStep(cfg, ts, st, env).decided)
  {
    var res := DecisionResults(cfg, ts, st, env);
    StepShape(cfg, ts, st, env);
    DecideShape(cfg, ts, st.phase, res, env);
    if !SomeRegularUnsuccessful(ts, res) {
      var todo := Candidates(cfg, ts, res, env);
      assert todo != [];
      AfterWaveShape(cfg, ts, todo, res, RunTasks(cfg, Batch(todo), false, env.wave, res), env);
      WaveFailureRecorded(cfg, ts, st, env);
    }
  }
}
