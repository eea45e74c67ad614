/** What a successful call means, and why calls cannot go on for ever. */
module SyncOutcome {
  import opened Kube
  import opened Lists
  import opened Tasks
  import opened RunSpec
  import opened RunLaws
  import opened SyncSpec
  import opened SyncLaws

  // ----- the meaning of Succeeded -----

  // A task no call would touch again, or a resource whose health the engine no longer waits for
  predicate Done(cfg: Config, env: Env, t: Task, res: Results, final: Slot) {
    || Op(t, res).Succeeded?
    || (!t.IsHook() && Skipped(cfg, env, t, res))
    || (!t.IsHook() && Op(t, res).Running? && t.Slot() == final)
  }

  // Nothing to wait for: whatever is neither pending nor running is Succeeded.
  lemma SettledTask(cfg: Config, ts: seq<Task>, st: State, env: Env, t: Task)
    requires DistinctKeys(ts) && Scheduled(ts) && NoTerminating(st.res) && t in ts && !t.phase.SyncFail?
    requires Decides(cfg, ts, st, env) && !SomeRegularUnsuccessful(ts, DecisionResults(cfg, ts, st, env))
    ensures var res := DecisionResults(cfg, ts, st, env);
            || Op(t, res).Succeeded?
            || Pending(t, res)
            || (Op(t, res).Running? && !t.IsHook() && forall u :: u in ts ==> u.Slot() == t.Slot())
  {
    var res := DecisionResults(cfg, ts, st, env);
    DecisionGrows(cfg, ts, st, env);
    GrowsKeepsNoTerminating(st.res, res, KeysOf(ts));
    assert !Op(t, res).Terminating?;
    if Op(t, res).Running? {
      CleanKeepsRunning(ts, Refresh(ts, Started(cfg, ts, st, env)), env, t);
      MultiStepExact(ts);
      forall u | u in ts ensures u.Slot() == t.Slot() {
        SameSlot(ts, t, u);
      }
    }
  }

  lemma SameSlot(ts: seq<Task>, t: Task, u: Task)
    requires Scheduled(ts) && !MultiStep(ts) && t in ts && u in ts
    ensures t.Slot() == u.Slot()
  {
  }

  // The slot a successful call leaves running: that of its wave, or the only one there is.
  function FinalSlot(step: StepOut, ts: seq<Task>): Slot
    requires ts != []
  {
    if step.wave.Some? then step.wave.value.slot else ts[0].Slot()
  }

  /**
   When a call of a sync that is not a dry run decides Succeeded, every regular hook has succeeded;
   every other regular task has succeeded, was skipped as unmodified, or was applied in the final
   slot; and the tasks of the call's own wave were carried out without error.
   */
  lemma MeaningOfSucceeded(cfg: Config, ts: seq<Task>, st: State, env: Env)
    requires DistinctKeys(ts) && Scheduled(ts) && NoTerminating(st.res) && !cfg.dryRun
    requires SyncStep(cfg, ts, st, env).phase.Succeeded? && !st.phase.Completed()
    ensures var step := SyncStep(cfg, ts, st, env);
            (forall t :: t in ts && !t.phase.SyncFail? ==> Done(cfg, env, t, step.decided, FinalSlot(step, ts))) &&
            (step.wave.Some? ==> forall t :: t in step.wave.value.tasks ==> CarriedOut(cfg, t, step.decided))
  {
    var step, res := SyncStep(cfg, ts, st, env), DecisionResults(cfg, ts, st, env);
    StepShape(cfg, ts, st, env);
    DecideShape(cfg, ts, st.phase, res, env);
    FailKeepsFailures(cfg, ts, HasExpired(HookFailed, res), st.phase, res, env);
    assert Decides(cfg, ts, st, env) && !SomeRegularUnsuccessful(ts, res);
    var todo := Candidates(cfg, ts, res, env);
    CandidatesExact(cfg, ts, res, env);
    if todo == [] {
      forall t | t in ts && !t.phase.SyncFail? ensures Done(cfg, env, t, res, FinalSlot(step, ts)) {
        SettledTask(cfg, ts, st, env, t);
      }
    } else {
      LastWave(cfg, ts, st, env);
    }
  }

  // A successful batch with nothing beyond it covers all the candidates and touches nothing else.
  lemma BatchDone(cfg: Config, ts: seq<Task>, res: Results, env: Env)
    requires DistinctKeys(ts) && Scheduled(ts) && !cfg.dryRun
    requires var todo := Candidates(cfg, ts, res, env);
             todo != [] && Filter(IsBeyond(todo[0].Slot()), todo) == [] &&
             RunTasks(cfg, Batch(todo), false, env.wave, res).state.RunSuccessful?
    ensures var todo := Candidates(cfg, ts, res, env);
            var after := RunTasks(cfg, Batch(todo), false, env.wave, res).res;
            (forall t :: t in todo ==> t in Batch(todo) && !t.IsHook()) &&
            (forall t :: t in Batch(todo) ==> CarriedOut(cfg, t, after)) &&
            (forall t :: t in ts && t !in Batch(todo) ==> ResultOf(t, after) == ResultOf(t, res))
  {
    hide RunTasks;
    hide Candidates;
    var todo := Candidates(cfg, ts, res, env);
    var slot, batch := todo[0].Slot(), Batch(todo);
    var after := RunTasks(cfg, batch, false, env.wave, res).res;
    BatchKeys(cfg, ts, res, env);
    RunTasksSuccess(cfg, batch, false, env.wave, res);
    RunTasksGrows(cfg, batch, false, env.wave, res);
    forall t | t in todo ensures t in batch && !t.IsHook() {
      assert t !in Filter(IsBeyond(slot), todo);
    }
    forall t | t in ts && t !in batch ensures ResultOf(t, after) == ResultOf(t, res) {
      NotInKeys(ts, batch, t);
    }
  }

  // A call that succeeds with candidates has run the last of them, and decides on what that left.
  lemma LastWaveOut(cfg: Config, ts: seq<Task>, st: State, env: Env)
    requires SyncStep(cfg, ts, st, env).phase.Succeeded?
    requires Decides(cfg, ts, st, env) && !SomeRegularUnsuccessful(ts, DecisionResults(cfg, ts, st, env))
    requires Candidates(cfg, ts, DecisionResults(cfg, ts, st, env), env) != []
    ensures var step, res := SyncStep(cfg, ts, st, env), DecisionResults(cfg, ts, st, env);
            var todo := Candidates(cfg, ts, res, env);
            var out := RunTasks(cfg, Batch(todo), false, env.wave, res);
            && step.wave == Some(WaveRun(todo[0].Slot(), Batch(todo), out.state)) && step.decided == out.res
            && out.state.RunSuccessful? && Filter(IsBeyond(todo[0].Slot()), todo) == []
  {
    hide RunTasks;
    hide Filter;
    hide DecisionResults;
    hide Candidates;
    hide SyncStep;
    hide Decide;
    hide AfterWave;
    hide Batch;
    hide SomeRegularUnsuccessful;
    var res := DecisionResults(cfg, ts, st, env);
    var todo := Candidates(cfg, ts, res, env);
    DecideShape(cfg, ts, st.phase, res, env);
    AfterWaveShape(cfg, ts, todo, res, RunTasks(cfg, Batch(todo), false, env.wave, res), env);
    var step, made := SyncStep(cfg, ts, st, env), Decide(cfg, ts, st.phase, res, env);
    assert step.(steps := []) == made.(steps := []);
    assert step.wave == made.wave && step.decided == made.decided && step.phase == made.phase;
  }

  lemma LastWave(cfg: Config, ts: seq<Task>, st: State, env: Env)
    requires DistinctKeys(ts) && Scheduled(ts) && NoTerminating(st.res) && !cfg.dryRun
    requires SyncStep(cfg, ts, st, env).phase.Succeeded?
    requires Decides(cfg, ts, st, env) && !SomeRegularUnsuccessful(ts, DecisionResults(cfg, ts, st, env))
    requires Candidates(cfg, ts, DecisionResults(cfg, ts, st, env), env) != []
    ensures var step := SyncStep(cfg, ts, st, env);
            step.wave.Some? &&
            (forall t :: t in ts && !t.phase.SyncFail? ==> Done(cfg, env, t, step.decided, step.wave.value.slot)) &&
            (forall t :: t in step.wave.value.tasks ==> CarriedOut(cfg, t, step.decided))
  {
    hide RunTasks;
    hide Filter;
    hide DecisionResults;
    hide SyncStep;
    hide Candidates;
    hide Decides;
    var res := DecisionResults(cfg, ts, st, env);
    var todo := Candidates(cfg, ts, res, env);
    assert forall t :: t in Batch(todo) ==> t in todo;
    hide Batch;
    var out := RunTasks(cfg, Batch(todo), false, env.wave, res);
    LastWaveOut(cfg, ts, st, env);
    BatchDone(cfg, ts, res, env);
    CandidatesExact(cfg, ts, res, env);
    forall t | t in ts && !t.phase.SyncFail? ensures Done(cfg, env, t, out.res, todo[0].Slot()) {
      SettledTask(cfg, ts, st, env, t);
      if t in Batch(todo) {
        assert t in todo && CarriedOut(cfg, t, out.res);
      } else {
        assert Op(t, out.res) == Op(t, res);
        assert todo[0] in ts;
      }
    }
  }

  lemma NotInKeys(ts: seq<Task>, part: seq<Task>, t: Task)
    requires DistinctKeys(ts) && t in ts && t !in part && forall u :: u in part ==> u in ts
    ensures t.RKey() !in KeysOf(part)
  {
  }

  // ----- progress -----

  // The regular tasks that have not been started
  function Unstarted(ks: set<ResultKey>, res: Results): set<ResultKey> {
    set k | k in ks && !k.phase.SyncFail? && (k in res ==> res[k].op.NoPhase?)
  }

  lemma UnstartedShrinks(ks: set<ResultKey>, res: Results, res': Results, changed: set<ResultKey>)
    requires Grows(res, res', changed)
    ensures Unstarted(ks, res') <= Unstarted(ks, res)
  {
  }

  // A wave that ends, well or badly, records one of its tasks.
  lemma BatchProgress(cfg: Config, ts: seq<Task>, st: State, env: Env) returns (t: Task)
    requires DistinctKeys(ts) && !cfg.dryRun
    requires var wave := SyncStep(cfg, ts, st, env).wave; wave.Some? && !wave.value.state.RunPending?
    ensures t in SyncStep(cfg, ts, st, env).wave.value.tasks && !Pending(t, AfterBatch(cfg, ts, st, env).res)
  {
    hide RunTasks;
    hide SyncStep;
    hide DecisionResults;
    WaveLegs(cfg, ts, st, env);
    var wave, res := SyncStep(cfg, ts, st, env).wave.value, DecisionResults(cfg, ts, st, env);
    if wave.state.RunSuccessful? {
      RunTasksSuccess(cfg, wave.tasks, false, env.wave, res);
      t := wave.tasks[0];
      assert CarriedOut(cfg, t, AfterBatch(cfg, ts, st, env).res);
    } else {
      RunTasksFailure(cfg, wave.tasks, false, env.wave, res);
      t :| t in wave.tasks && Op(t, AfterBatch(cfg, ts, st, env).res).Unsuccessful();
    }
  }

  // Unless the sync is a dry run, a wave that ends starts a task for good.
  lemma WaveProgress(cfg: Config, ts: seq<Task>, st: State, env: Env)
    requires DistinctKeys(ts) && !cfg.dryRun
    requires var wave := SyncStep(cfg, ts, st, env).wave; wave.Some? && !wave.value.state.RunPending?
    ensures Unstarted(KeysOf(ts), SyncStep(cfg, ts, st, env).res) < Unstarted(KeysOf(ts), st.res)
  {
    hide RunTasks;
    hide SyncStep;
    hide DecisionResults;
    hide AfterBatch;
    WaveLegs(cfg, ts, st, env);
    var res' := SyncStep(cfg, ts, st, env).res;
    SyncGrows(cfg, ts, st, env);
    UnstartedShrinks(KeysOf(ts), st.res, res', KeysOf(ts));
    var t := BatchProgress(cfg, ts, st, env);
    assert t.RKey() in Unstarted(KeysOf(ts), st.res) && t.RKey() !in Unstarted(KeysOf(ts), res');
  }
}
