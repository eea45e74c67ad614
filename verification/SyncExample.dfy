/** A whole operation in small: one resource, checked, applied and done. */
module SyncExample {
  import opened Kube
  import opened Lists
  import opened Tasks
  import opened RunSpec
  import opened SyncSpec
  import opened SyncLaws
  import opened OneTask
  import opened AtMostOnce
  import opened DryRuns

  /**
   The first call of an operation over one new resource dry-runs it, applies it for real and succeeds; the
   record says it was synced. (Its being still Running is what a sync of a single slot settles for.)
   */
  lemma OneResource(cfg: Config, t: Task, phase: OpPhase, env: Env)
    requires t.objs.TargetOnly? && !t.IsHook() && !t.phase.SyncFail? && !t.skipDryRun && !CreatesNamespace(cfg, t)
    requires !cfg.dryRun && !cfg.syncWaveHook && env.valid
    requires env.preflight.apply(t.RKey()) && env.wave.apply(t.RKey())
    ensures var step := SyncStep(cfg, [t], State(phase, map[]), env);
            && step.phase == Succeeded && step.res == map[t.RKey() := Result(Synced, Running)]
            && step.wave == Some(WaveRun(t.Slot(), [t], RunSuccessful))
            && step.steps == [multiset{}, multiset{}, multiset{}, multiset{Apply(t.RKey(), true)}, multiset{},
                              multiset{}, multiset{}, multiset{}, multiset{Apply(t.RKey(), false)}, multiset{}]
  {
    hide Decide;
    hide Preflight;
    var res: Results := map[];
    PreflightOne(cfg, t, env);
    DecideOne(cfg, t, phase, env);
    NoUpdates(Refreshed(res), [t]);
    assert !NeedsCleaning(t, res);
    NoUpdates(CleanFailure(env, res), [t]);
    FilterOne(IsCleaned(res), t);
    assert Advance(cfg, [t], phase, res, env).steps == [multiset{}] + Decide(cfg, [t], phase, res, env).steps;
  }

  lemma PreflightOne(cfg: Config, t: Task, env: Env)
    requires t.objs.TargetOnly? && !t.IsHook() && !t.skipDryRun && !CreatesNamespace(cfg, t)
    requires !cfg.dryRun && env.preflight.apply(t.RKey())
    ensures Preflight(cfg, [t], map[], env) ==
            RunOut(RunSuccessful, map[], [multiset{}, multiset{}, multiset{}, multiset{Apply(t.RKey(), true)}])
  {
    hide RunTasks;
    FilterOne(IsNamespaceTask(cfg), t);
    FilterOne(IsNotIn([]), t);
    FilterOne(IsOutOfSync(env), t);
    RunOneWell(cfg, t, true, env.preflight, map[]);
  }

  lemma DecideOne(cfg: Config, t: Task, phase: OpPhase, env: Env)
    requires t.objs.TargetOnly? && !t.IsHook() && !t.phase.SyncFail? && !t.skipDryRun
    requires !cfg.dryRun && !cfg.syncWaveHook && env.wave.apply(t.RKey())
    ensures Decide(cfg, [t], phase, map[], env) ==
            StepOut(Succeeded, map[t.RKey() := Result(Synced, Running)], map[t.RKey() := Result(Synced, Running)],
                    Some(WaveRun(t.Slot(), [t], RunSuccessful)), false,
                    [multiset{}, multiset{}, multiset{}, multiset{Apply(t.RKey(), false)}, multiset{}])
  {
    hide RunTasks;
    var res: Results := map[];
    FilterOne(IsRegular(), t);
    FilterOne(IsPending(res), t);
    FilterOne(IsOutOfSync(env), t);
    FilterOne(HasExpired(HookFailed, res), t);
    FilterOne(HasExpired(HookSucceeded, res), t);
    FilterOne(IsAt(t.Slot()), t);
    FilterOne(IsBeyond(t.Slot()), t);
    RunOneWell(cfg, t, false, env.wave, res);
    var done: Results := map[t.RKey() := Result(Synced, Running)];
    assert res[t.RKey() := Result(Synced, Running)] == done && done + map[] == done;
    assert Candidates(cfg, [t], res, env) == [t];
    assert RunWave(cfg, [t], [t], res, env).steps
        == [multiset{}, multiset{}, multiset{}, multiset{Apply(t.RKey(), false)}] + [Asking(AsksDelete(), [])];
  }

  // ----- a SyncFail hook without a failure -----

  /**
   A SyncFail hook that is the application namespace is applied by the very first call, with no failure in
   sight: creating the namespace does not look at the phase.
   */
  lemma SyncFailNamespace(cfg: Config, t: Task, phase: OpPhase, env: Env)
    requires t.phase.SyncFail? && t.IsHook() && CreatesNamespace(cfg, t)
    requires !cfg.dryRun && env.valid && env.bootstrap.apply(t.RKey())
    ensures var step := SyncStep(cfg, [t], State(phase, map[]), env);
            && |step.steps| > 3 && Apply(t.RKey(), false) in step.steps[3]
            && !step.ranSyncFail && !SomeRegularUnsuccessful([t], step.decided)
  {
    hide Advance;
    hide RunTasks;
    var ns := NamespaceTask(cfg, [t]);
    FilterOne(IsNamespaceTask(cfg), t);
    assert ns == [t];
    RunOneWell(cfg, t, false, env.bootstrap, map[]);
    var boot := Bootstrap(cfg, [t], map[], env);
    assert Apply(t.RKey(), false) in boot.steps[3];
    var pre := Preflight(cfg, [t], map[], env);
    assert pre.steps[3] == boot.steps[3];
    assert !SomeRegularUnsuccessful([t], SyncStep(cfg, [t], State(phase, map[]), env).decided);
    if SyncStep(cfg, [t], State(phase, map[]), env).ranSyncFail {
      SyncFailOnlyAfterFailure(cfg, [t], State(phase, map[]), env);
    }
  }

  // ----- one key twice in a batch -----

  // Two tasks with one result key, as in PlannedKeys.TwoPhaseCrd, are both applied.
  lemma SameKeyTwice(cfg: Config, t: Task, calls: Calls, res: Results)
    requires t.objs.TargetOnly? && !cfg.dryRun
    ensures Touches(RunTasks(cfg, [t, t], false, calls, res).steps, t.RKey()) == 2
  {
    hide StageRun.Run;
    var two, create := [t, t], StageRun(Create, cfg, false, calls);
    FilterTwo(IsExistingHook(res), t);
    FilterTwo(IsPrune(), t);
    FilterTwo(IsCreate(), t);
    FilterTwo(IsDeletedFirst(res), t);
    NoTasks(StageRun(Finalizers, cfg, false, calls), RunSuccessful, res);
    NoTasks(StageRun(Prune, cfg, false, calls), RunSuccessful, res);
    NoTasks(StageRun(DeleteHooks, cfg, false, calls), RunSuccessful, res);
    CreateTwo(create, t, res);
    var made := CreateGroups(create, RunSuccessful, [two], res).steps;
    assert DeleteAndCreate(cfg, two, false, calls, res).steps == [multiset{}] + made;
    assert PruneAndCreate(cfg, two, false, calls, res).steps == [multiset{}] + ([multiset{}] + made);
    CountsOf(made, t.RKey());
  }

  lemma FilterTwo<T>(p: T -> bool, x: T)
    ensures Filter(p, [x, x]) == if p(x) then [x, x] else []
  {
    assert [x, x][1..] == [x];
    FilterOne(p, x);
  }

  lemma CreateTwo(run: StageRun, t: Task, res: Results)
    requires run.stage.Create? && !t.IsPrune() && !run.dry
    ensures KindGroups([t, t]) == [[t, t]] && run.FitsAll([t, t])
    ensures CreateGroups(run, RunSuccessful, [[t, t]], res).steps
         == [multiset{Apply(t.RKey(), false), Apply(t.RKey(), false)}]
  {
    assert [t, t][1..] == [t] && [t][1..] == [] && [t, t][..2] == [t, t] && [t, t][2..] == [] && [[t, t]][1..] == [];
    FilterTwo(NotSkipped(run.dry), t);
    assert run.FitsAll([t]);
    assert run.Requests([t], res) == multiset{Apply(t.RKey(), false)};
    assert run.Requests([t, t], res) == multiset{Apply(t.RKey(), false), Apply(t.RKey(), false)};
  }

  lemma CountsOf(made: seq<multiset<Request>>, k: ResultKey)
    requires made == [multiset{Apply(k, false), Apply(k, false)}]
    ensures Touches([multiset{}] + ([multiset{}] + ([multiset{}] + made)), k) == 2
  {
    TouchesAppend([multiset{}], [multiset{}] + ([multiset{}] + made), k);
    TouchesAppend([multiset{}], [multiset{}] + made, k);
    TouchesAppend([multiset{}], made, k);
    forall q ensures Count([multiset{}], q) == 0 { CountOne(multiset{}, q); }
    CountOne(made[0], Apply(k, false));
    CountOne(made[0], DeletePruned(k));
  }
}
