/** Operations that are dry runs from start to end, and where they fall short. */
module DryRuns {
  import opened Kube
  import opened Lists
  import opened Tasks
  import opened RunSpec
  import opened RunLaws
  import opened RunBarriers
  import opened SyncSpec
  import opened SyncLaws
  import opened SyncOutcome
  import opened SyncRuns

  // ----- progress of a dry run -----

  // A dry run leaves out the tasks that ask for it, and records nothing for them.
  lemma LeftOut(cfg: Config, ts: seq<Task>, calls: Calls, res: Results, t: Task)
    requires cfg.dryRun && DistinctKeys(ts) && t in ts && t.skipDryRun && !t.IsPrune()
    requires RunTasks(cfg, ts, false, calls, res).state.RunSuccessful?
    ensures ResultOf(t, RunTasks(cfg, ts, false, calls, res).res) == ResultOf(t, res)
  {
    hide DeleteAndCreate;
    var prune := StageRun(Prune, cfg, true, calls);
    SublistsDistinct(ts, res);
    QuietStage(StageRun(Finalizers, cfg, true, calls), ExistingHooks(ts, res), res);
    var pruned := prune.Run(RunSuccessful, Prunes(ts), res);
    PrunedApart(Stages(cfg, ts, true, calls, res));
    LeftOutOfCreation(cfg, Creates(ts), calls, pruned.res, t);
  }

  lemma LeftOutOfCreation(cfg: Config, creates: seq<Task>, calls: Calls, res: Results, t: Task)
    requires cfg.dryRun && DistinctKeys(creates) && t in creates && t.skipDryRun
    requires forall c :: c in creates ==> !c.IsPrune()
    requires DeleteAndCreate(cfg, creates, true, calls, res).state.RunSuccessful?
    ensures ResultOf(t, DeleteAndCreate(cfg, creates, true, calls, res).res) == ResultOf(t, res)
  {
    hide WorkOf;
    hide StageRun.Writes;
    hide StageRun.Requests;
    hide StageRun.State;
    hide KindGroups;
    var create := StageRun(Create, cfg, true, calls);
    FilterDistinct(IsDeletedFirst(res), KeyOf(), creates);
    QuietStage(StageRun(DeleteHooks, cfg, true, calls), HooksToDelete(creates, res), res);
    CreateStage(cfg, creates, true, calls, RunSuccessful, res);
    WritesAt(create, Applied(creates, true), res);
    if t.RKey() in KeysOf(Applied(creates, true)) {
      var u :| u in Applied(creates, true) && u.RKey() == t.RKey();
      DistinctSame(KeyOf(), creates, t, u);
    }
  }

  // A successful wave of a dry-run operation makes progress exactly when not all its tasks are left out.
  lemma DryWaveProgress(cfg: Config, ts: seq<Task>, st: State, env: Env)
    requires cfg.dryRun && DistinctKeys(ts)
    requires var wave := SyncStep(cfg, ts, st, env).wave; wave.Some? && wave.value.state.RunSuccessful?
    ensures var wave := SyncStep(cfg, ts, st, env).wave.value;
            (exists t :: t in wave.tasks && !Pending(t, AfterBatch(cfg, ts, st, env).res)) <==>
            (exists t :: t in wave.tasks && (t.IsPrune() || !t.skipDryRun))
  {
    hide SyncStep;
    hide DecisionResults;
    hide RunTasks;
    var wave, res := SyncStep(cfg, ts, st, env).wave.value, DecisionResults(cfg, ts, st, env);
    WaveLegs(cfg, ts, st, env);
    RunTasksSuccess(cfg, wave.tasks, false, env.wave, res);
    forall t | t in wave.tasks && !t.IsPrune() && t.skipDryRun ensures Pending(t, AfterBatch(cfg, ts, st, env).res) {
      LeftOut(cfg, wave.tasks, env.wave, res, t);
    }
    forall t | t in wave.tasks && (t.IsPrune() || !t.skipDryRun)
      ensures !Pending(t, AfterBatch(cfg, ts, st, env).res)
    {
      assert CarriedOut(cfg, t, AfterBatch(cfg, ts, st, env).res);
    }
  }

  // The dry run leaves all of these out.
  predicate AllLeftOut(ts: seq<Task>) {
    forall t :: t in ts ==> !t.IsPrune() && t.skipDryRun
  }

  // In a dry run nothing is done about hooks from before.
  lemma DryHookStage(run: StageRun, ts: seq<Task>, res: Results)
    requires run.dry && (run.stage.Finalizers? || run.stage.DeleteHooks?) && run.FitsAll(ts)
    ensures run.State(RunSuccessful, ts, res).RunSuccessful? && run.Run(RunSuccessful, ts, res).res == res
  {
    StateIs(run, RunSuccessful, ts, res);
    NoWrites(run, ts, res);
    assert res + map[] == res;
  }

  lemma IdleRun(cfg: Config, ts: seq<Task>, dryRun: bool, calls: Calls, res: Results)
    requires DistinctKeys(ts) && AllLeftOut(ts) && (dryRun || cfg.dryRun)
    ensures var out := RunTasks(cfg, ts, dryRun, calls, res); out.state.RunSuccessful? && out.res == res
  {
    FilterNone(IsPrune(), ts);
    FilterNone(NotSkipped(true), Creates(ts));
    SublistsDistinct(ts, res);
    DryHookStage(StageRun(Finalizers, cfg, true, calls), ExistingHooks(ts, res), res);
    NoPrunes(StageRun(Prune, cfg, true, calls), res);
    DryHookStage(StageRun(DeleteHooks, cfg, true, calls), HooksToDelete(Creates(ts), res), res);
    CreateStage(cfg, Creates(ts), true, calls, RunSuccessful, res);
  }

  lemma NoPrunes(run: StageRun, res: Results)
    ensures run.Run(RunSuccessful, [], res).res == res
  {
    assert res + map[] == res;
  }

  // New regular resources whose kind the cluster does not know yet
  predicate Unknowns(ts: seq<Task>) {
    forall t :: t in ts ==> t.objs.TargetOnly? && t.skipDryRun && !t.phase.SyncFail?
  }

  lemma IdlePreflight(cfg: Config, ts: seq<Task>, env: Env)
    requires DistinctKeys(ts) && Unknowns(ts) && cfg.dryRun
    ensures var pre := Preflight(cfg, ts, map[], env); pre.state.RunSuccessful? && pre.res == map[]
  {
    hide RunTasks;
    IdleRun(cfg, NamespaceTask(cfg, ts), false, env.bootstrap, map[]);
    DryTasksKeys(cfg, ts, env);
    IdleRun(cfg, DryTasks(cfg, ts, env), true, env.preflight, map[]);
  }

  lemma {:induction false} NoUpdates(f: Task -> Option<Result>, ts: seq<Task>)
    requires forall t :: t in ts ==> f(t).None?
    ensures Updates(f, ts) == map[]
  {
    if ts != [] {
      NoUpdates(f, ts[1..]);
    }
  }

  /**
   When a dry-run call's whole batch is left out, it comes back Running with the results its decision was
   taken on exactly when the wave hook agrees and something remains beyond the batch's slot, or a hook in it.
   */
  lemma IdleWaveExactly(cfg: Config, ts: seq<Task>, st: State, env: Env)
    requires cfg.dryRun && DistinctKeys(ts) && SyncStep(cfg, ts, st, env).wave.Some?
    requires AllLeftOut(SyncStep(cfg, ts, st, env).wave.value.tasks)
    ensures var todo := Candidates(cfg, ts, DecisionResults(cfg, ts, st, env), env);
            todo != [] &&
            (SyncStep(cfg, ts, st, env).Next() == State(Running, DecisionResults(cfg, ts, st, env)) <==>
              (cfg.syncWaveHook ==> env.waveHookOk) && Filter(IsBeyond(todo[0].Slot()), todo) != [])
  {
    hide RunTasks;
    hide SyncStep;
    hide DecisionResults;
    WaveChosen(cfg, ts, st, env);
    WaveLegs(cfg, ts, st, env);
    IdleRun(cfg, SyncStep(cfg, ts, st, env).wave.value.tasks, false, env.wave, DecisionResults(cfg, ts, st, env));
  }

  /** So the call finds and leaves the same state exactly when, besides, nothing was refreshed before the decision. */
  lemma StallsExactly(cfg: Config, ts: seq<Task>, st: State, env: Env)
    requires cfg.dryRun && DistinctKeys(ts) && SyncStep(cfg, ts, st, env).wave.Some?
    requires AllLeftOut(SyncStep(cfg, ts, st, env).wave.value.tasks)
    ensures var res := DecisionResults(cfg, ts, st, env);
            var todo := Candidates(cfg, ts, res, env);
            todo != [] &&
            (SyncStep(cfg, ts, st, env).Next() == State(Running, st.res) <==>
              res == st.res && (cfg.syncWaveHook ==> env.waveHookOk) && Filter(IsBeyond(todo[0].Slot()), todo) != [])
  {
    hide SyncStep;
    hide DecisionResults;
    IdleWaveExactly(cfg, ts, st, env);
    IdleWaveResults(cfg, ts, st, env);
  }

  // Whatever comes back Running has the results the decision was taken on.
  lemma IdleWaveResults(cfg: Config, ts: seq<Task>, st: State, env: Env)
    requires cfg.dryRun && DistinctKeys(ts) && SyncStep(cfg, ts, st, env).wave.Some?
    requires AllLeftOut(SyncStep(cfg, ts, st, env).wave.value.tasks)
    ensures var step := SyncStep(cfg, ts, st, env);
            step.phase.Running? ==> step.res == DecisionResults(cfg, ts, st, env)
  {
    hide RunTasks;
    hide SyncStep;
    hide DecisionResults;
    hide Fail;
    hide Candidates;
    hide Batch;
    hide Filter;
    hide DeleteExpired;
    WaveChosen(cfg, ts, st, env);
    WaveLegs(cfg, ts, st, env);
    IdleRun(cfg, SyncStep(cfg, ts, st, env).wave.value.tasks, false, env.wave, DecisionResults(cfg, ts, st, env));
  }

  // A call that runs a wave does not look at the operation phase it finds.
  lemma PhaseUnseen(cfg: Config, ts: seq<Task>, st: State, phase: OpPhase, env: Env)
    requires SyncStep(cfg, ts, st, env).wave.Some?
    ensures SyncStep(cfg, ts, st.(phase := phase), env) == SyncStep(cfg, ts, st, env)
  {
    hide RunWave;
    hide Fail;
    hide Succeed;
    hide Preflight;
    WaveChosen(cfg, ts, st, env);
    var res := DecisionResults(cfg, ts, st, env);
    DecideShape(cfg, ts, st.phase, res, env);
    DecideShape(cfg, ts, phase, res, env);
    assert Decide(cfg, ts, st.phase, res, env) == Decide(cfg, ts, phase, res, env);
  }

  /** A call that leaves the state it found does so again and again: the operation never ends. */
  lemma {:induction false} StalledForEver(cfg: Config, ts: seq<Task>, st: State, env: Env, calls: seq<Call>, n: nat)
    requires SyncStep(cfg, ts, st, env).wave.Some? && SyncStep(cfg, ts, st, env).Next() == State(Running, st.res)
    requires n < |calls| && forall c :: c in calls ==> c == Call(ts, env)
    ensures StateAt(cfg, calls, st, n + 1) == State(Running, st.res)
  {
    hide SyncStep;
    assert calls[n] in calls;
    if n > 0 {
      StalledForEver(cfg, ts, st, env, calls, n - 1);
      PhaseUnseen(cfg, ts, st, Running, env);
    }
  }

  // The decision over such resources is taken on no results at all, and every one of them is a candidate.
  lemma UnknownDecision(cfg: Config, ts: seq<Task>, st: State, env: Env)
    requires DistinctKeys(ts) && Scheduled(ts) && Unknowns(ts) && cfg.dryRun
    requires st.res == map[] && env.valid
    ensures DecisionResults(cfg, ts, st, env) == map[] && Decides(cfg, ts, st, env)
    ensures forall t :: t in Candidates(cfg, ts, map[], env) <==> t in ts
  {
    hide RunTasks;
    hide Preflight;
    hide Decide;
    hide Candidates;
    var res: Results := map[];
    IdlePreflight(cfg, ts, env);
    NoUpdates(Refreshed(res), ts);
    assert forall t :: t in ts ==> !NeedsCleaning(t, res);
    NoUpdates(CleanFailure(env, res), ts);
    assert Refresh(ts, res) == res && CleanFinalizers(ts, res, env) == res;
    CandidatesExact(cfg, ts, res, env);
  }

  lemma UnknownBatch(cfg: Config, ts: seq<Task>, st: State, env: Env)
    requires DistinctKeys(ts) && Scheduled(ts) && Unknowns(ts) && cfg.dryRun && ts != []
    requires st.res == map[] && env.valid
    ensures SyncStep(cfg, ts, st, env).wave.Some? && DecisionResults(cfg, ts, st, env) == map[]
    ensures forall t :: t in Candidates(cfg, ts, map[], env) <==> t in ts
    ensures AllLeftOut(SyncStep(cfg, ts, st, env).wave.value.tasks)
  {
    hide RunTasks;
    hide SyncStep;
    hide DecisionResults;
    hide Candidates;
    hide AfterWave;
    UnknownDecision(cfg, ts, st, env);
    DecideShape(cfg, ts, st.phase, map[], env);
    assert ts[0] in Candidates(cfg, ts, map[], env);
  }

  /**
   A dry-run operation over resources the cluster does not know yet never ends, with nothing recorded, exactly
   when it has more than one slot or a hook; otherwise its first call succeeds.
   */
  lemma DryRunStalls(cfg: Config, ts: seq<Task>, phase: OpPhase, env: Env)
    requires DistinctKeys(ts) && Scheduled(ts) && Unknowns(ts) && cfg.dryRun && ts != []
    requires env.valid && (cfg.syncWaveHook ==> env.waveHookOk)
    ensures SyncStep(cfg, ts, State(phase, map[]), env).Next() == State(Running, map[]) <==>
            MultiStep(ts) || exists t :: t in ts && t.IsHook()
  {
    hide SyncStep;
    hide Candidates;
    var st := State(phase, map[]);
    UnknownBatch(cfg, ts, st, env);
    StallsExactly(cfg, ts, st, env);
    var todo := Candidates(cfg, ts, map[], env);
    var slot := todo[0].Slot();
    MultiStepExact(ts);
    assert todo[0] in ts;
    if Filter(IsBeyond(slot), todo) != [] {
      var t := Filter(IsBeyond(slot), todo)[0];
      assert t in Filter(IsBeyond(slot), todo) && t in ts;
      if !t.IsHook() { TwoSlots(ts, t, todo[0]); }
    } else {
      forall t | t in ts ensures t.Slot() == slot && !t.IsHook() { assert t !in Filter(IsBeyond(slot), todo); }
    }
  }

  lemma TwoSlots(ts: seq<Task>, t: Task, u: Task)
    requires Scheduled(ts) && t in ts && u in ts && t.Slot() != u.Slot()
    ensures MultiStep(ts)
  {
    if !MultiStep(ts) { SameSlot(ts, t, u); }
  }
}
