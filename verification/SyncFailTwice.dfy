/** The one SyncFail hook that an operation may run twice: the application namespace. */
module SyncFailTwice {
  import opened Kube
  import opened Lists
  import opened Tasks
  import opened RunSpec
  import opened RunLaws
  import opened RunBarriers
  import opened OneTask
  import opened SyncSpec
  import opened SyncLaws
  import opened AtMostOnce
  import opened SyncRequests
  import opened SyncRuns
  import opened RequestRuns
  import opened SyncOutcome
  import opened GoodAnswers
  import opened SyncFailRuns

  // ----- the operations over one list of tasks -----

  function TargetOf(t: Task): Option<Obj> {
    if t.IsPrune() then None else Some(t.objs.target)
  }

  predicate SameTargets(ts: seq<Task>, us: seq<Task>) {
    forall t, u :: t in ts && u in us && t.RKey() == u.RKey() ==> TargetOf(t) == TargetOf(u)
  }

  // As getSyncTasks finds them: hooks come from targets only, and nothing but hooks is for the SyncFail phase.
  predicate AsFound(ts: seq<Task>) {
    SyncFailHooks(ts) && forall t :: t in ts && t.IsPrune() ==> !t.IsHook()
  }

  /**
   An operation from its first call, which works on `ts`, on. The tasks and their targets are fixed; answers and live
   objects may differ from call to call, but the namespace of `k` is not found missing only later.
   */
  ghost predicate Operation(cfg: Config, base: Catalogue, ts: seq<Task>, calls: seq<Call>, st: State, k: ResultKey) {
    && st.res == map[] && calls != [] && calls[0].ts == ts
    && AllEnumerate(base, calls) && Ongoing(cfg, calls, st, |calls| - 1)
    && forall c :: c in calls ==>
         && AsFound(c.ts) && SameTargets(ts, c.ts)
         && (k in KeysOf(NamespaceTask(cfg, c.ts)) ==> k in KeysOf(NamespaceTask(cfg, ts)))
  }

  ghost predicate MayRunTwice(cfg: Config, base: Catalogue, ts: seq<Task>, k: ResultKey) {
    exists calls, phase ::
      && Operation(cfg, base, ts, calls, State(phase, map[]), k)
      && Touches(AllSteps(cfg, calls, State(phase, map[]), |calls|), k) > 1
  }

  predicate HasOtherSyncFail(ts: seq<Task>, k: ResultKey) {
    exists t :: t in ts && t.phase.SyncFail? && t.RKey() != k
  }

  // A task to be created may fail; one to be pruned may if the operation prunes at all.
  predicate MayFail(cfg: Config, t: Task) {
    !t.phase.SyncFail? && (!t.IsPrune() || cfg.prune)
  }

  predicate HasMayFail(cfg: Config, ts: seq<Task>) {
    exists t :: t in ts && MayFail(cfg, t)
  }

  // ----- the call that creates the namespace -----

  // A call that creates the namespace as a SyncFail hook waits for it, if it does not fail, and runs nothing else.
  lemma BootstrapCall(cfg: Config, ts: seq<Task>, st: State, env: Env, k: ResultKey)
    requires DistinctKeys(ts) && SyncFailHooks(ts) && k.phase.SyncFail? && Bootstrapped(cfg, ts, st, env, k)
    ensures var step := SyncStep(cfg, ts, st, env);
            && !Reaches(cfg, ts, st, env) && Touches(step.steps, k) == 1
            && (step.phase.Completed() || (k in step.res && !step.res[k].op.NoPhase?))
  {
    hide Touches;
    hide RunTasks;
    hide Advance;
    StepTouches(cfg, ts, st, env, k);
    var pre := Preflight(cfg, ts, map[], env);
    if !pre.state.RunFailed? {
      NamespaceWaits(cfg, ts, env, k);
      RefreshGrows(ts, pre.res);
      assert Advance(cfg, ts, st.phase, pre.res, env) == Quiet(Running, Refresh(ts, pre.res)) by {
        AdvanceWaits(cfg, ts, st.phase, pre.res, env);
      }
    }
  }

  lemma AdvanceWaits(cfg: Config, ts: seq<Task>, phase: OpPhase, res: Results, env: Env)
    requires MustWait(ts, Refresh(ts, res))
    ensures Advance(cfg, ts, phase, res, env) == Quiet(Running, Refresh(ts, res))
  {
  }

  lemma NamespaceWaits(cfg: Config, ts: seq<Task>, env: Env, k: ResultKey)
    requires DistinctKeys(ts) && SyncFailHooks(ts) && k.phase.SyncFail? && k in KeysOf(NamespaceTask(cfg, ts))
    requires !cfg.dryRun && !Preflight(cfg, ts, map[], env).state.RunFailed?
    ensures Preflight(cfg, ts, map[], env).res == map[k := Result(Synced, Running)]
    ensures MustWait(ts, Refresh(ts, Preflight(cfg, ts, map[], env).res))
  {
    hide RunTasks;
    var ns := NamespaceTask(cfg, ts);
    assert ns == [ns[0]] && ns[0] in ns && ns[0].RKey() == k;
    NamespaceApplied(cfg, ns[0], env);
    var boot := Bootstrap(cfg, ts, map[], env);
    DryTasksKeys(cfg, ts, env);
    PreflightLeavesResults(cfg, DryTasks(cfg, ts, env), env.preflight, boot.res);
    StaysRunning(ts, boot.res, ns[0]);
  }

  lemma NamespaceApplied(cfg: Config, t: Task, env: Env)
    requires t.objs.TargetOnly? && !cfg.dryRun && !RunTasks(cfg, [t], false, env.bootstrap, map[]).state.RunFailed?
    ensures RunTasks(cfg, [t], false, env.bootstrap, map[]).res == map[t.RKey() := Result(Synced, Running)]
  {
    hide RunTasks;
    hide StageRun.Run;
    RunOne(cfg, t, false, env.bootstrap, map[]);
    ApplyOne(StageRun(Create, cfg, false, env.bootstrap), t, map[]);
    if env.bootstrap.apply(t.RKey()) {
      assert map[][t.RKey() := Result(Synced, Running)] == map[t.RKey() := Result(Synced, Running)];
    } else {
      NotApplied(StageRun(Create, cfg, false, env.bootstrap), t);
    }
  }

  lemma NotApplied(run: StageRun, t: Task)
    requires run.stage.Create? && !t.IsPrune() && !run.calls.apply(t.RKey())
    ensures run.FitsAll([t]) && run.Run(RunSuccessful, [t], map[]).state.RunFailed?
  {
    assert t in [t] && run.Of(t, map[]).state.RunFailed?;
    StateIs(run, RunSuccessful, [t], map[]);
  }

  // A running hook without a live object stays running, and is waited for.
  lemma StaysRunning(ts: seq<Task>, res: Results, t: Task)
    requires DistinctKeys(ts) && t in ts && t.IsHook() && t.Live().None? && Op(t, res).Running?
    ensures MustWait(ts, Refresh(ts, res))
  {
    UpdatesAt(Refreshed(res), ts);
    assert Op(t, Refresh(ts, res)).Running?;
  }

  // ----- when it runs once at most -----

  lemma OnceInDryRun(cfg: Config, calls: seq<Call>, st: State, k: ResultKey)
    requires cfg.dryRun
    ensures Touches(AllSteps(cfg, calls, st, |calls|), k) == 0
  {
    hide SyncStep;
    hide Touches;
    forall i | 0 <= i < |calls| ensures Touches(StepAt(cfg, calls, st, i).steps, k) == 0 {
      DryRunTouchesNothing(cfg, calls[i].ts, StateAt(cfg, calls, st, i), calls[i].env, k);
    }
    TouchedOnce(cfg, calls, st, |calls|, k, i => false);
  }

  predicate KeySettled(st: State, k: ResultKey) {
    st.phase.Completed() || (k in st.res && !st.res[k].op.NoPhase?)
  }

  // With no other SyncFail hook, all of them are started once it is.
  lemma LoneSettled(base: Catalogue, st: State, k: ResultKey)
    requires forall l :: l in base && l.phase.SyncFail? <==> l == k
    ensures SyncFailSettled(base, st) <==> KeySettled(st, k)
  {
    assert k in base && k.phase.SyncFail?;
  }

  lemma LoneAt(cfg: Config, base: Catalogue, calls: seq<Call>, st: State, i: nat, k: ResultKey)
    requires AllEnumerate(base, calls) && AllSyncFailHooks(calls) && NoTerminating(st.res) && k.phase.SyncFail?
    requires i < |calls| && !StateAt(cfg, calls, st, i).phase.Completed()
    requires forall l :: l in base && l.phase.SyncFail? <==> l == k
    ensures Settles(cfg, base, calls, st, i, k)
  {
    hide SyncStep;
    hide Settles;
    if BootstrappedAt(cfg, calls, st, i, k) {
      LoneBootstrap(cfg, base, calls, st, i, k);
    } else {
      SyncFailOnceAt(cfg, base, calls, st, i, k);
    }
  }

  lemma LoneBootstrap(cfg: Config, base: Catalogue, calls: seq<Call>, st: State, i: nat, k: ResultKey)
    requires AllEnumerate(base, calls) && AllSyncFailHooks(calls) && k.phase.SyncFail?
    requires i < |calls| && !StateAt(cfg, calls, st, i).phase.Completed() && BootstrappedAt(cfg, calls, st, i, k)
    requires forall l :: l in base && l.phase.SyncFail? <==> l == k
    ensures Settles(cfg, base, calls, st, i, k)
  {
    hide SyncStep;
    hide Touches;
    hide Reaches;
    hide DistinctKeys;
    hide SyncFailHooks;
    hide SyncFailSettled;
    hide Enumerates;
    assert calls[i] in calls;
    LoneSettled(base, StateAt(cfg, calls, st, i), k);
    LoneSettled(base, StateAt(cfg, calls, st, i + 1), k);
    DistinctIn(base, calls[i].ts);
    BootstrapCall(cfg, calls[i].ts, StateAt(cfg, calls, st, i), calls[i].env, k);
  }

  lemma DistinctIn(base: Catalogue, ts: seq<Task>)
    requires Enumerates(base, ts)
    ensures DistinctKeys(ts)
  {
  }

  lemma LoneOnce(cfg: Config, base: Catalogue, calls: seq<Call>, st: State, k: ResultKey)
    requires AllEnumerate(base, calls) && AllSyncFailHooks(calls) && NoTerminating(st.res) && k.phase.SyncFail?
    requires calls != [] && Ongoing(cfg, calls, st, |calls| - 1)
    requires forall l :: l in base && l.phase.SyncFail? <==> l == k
    ensures Touches(AllSteps(cfg, calls, st, |calls|), k) <= 1
  {
    hide SyncStep;
    hide Settles;
    hide AllEnumerate;
    forall i | 0 <= i < |calls| ensures Settles(cfg, base, calls, st, i, k) {
      LoneAt(cfg, base, calls, st, i, k);
    }
    OnceBySettling(cfg, base, calls, st, k);
  }

  // ----- where no regular task can fail -----

  // All regular tasks are to be pruned, and the operation does not prune.
  predicate NothingMayFail(cfg: Config, ts: seq<Task>) {
    AsFound(ts) && !cfg.dryRun && forall t :: t in ts ==> !MayFail(cfg, t)
  }

  predicate RegularFine(ts: seq<Task>, res: Results) {
    forall t :: t in ts && !t.phase.SyncFail? ==> Op(t, res).NoPhase? || Op(t, res).Succeeded?
  }

  lemma StartedFine(cfg: Config, ts: seq<Task>, st: State, env: Env)
    requires DistinctKeys(ts) && NothingMayFail(cfg, ts) && RegularFine(ts, st.res)
    requires !(st.res == map[] && Preflight(cfg, ts, map[], env).state.RunFailed?)
    ensures RegularFine(ts, Started(cfg, ts, st, env))
  {
    hide RunTasks;
    if st.res == map[] {
      var ns, boot := NamespaceTask(cfg, ts), Bootstrap(cfg, ts, map[], env);
      RunTasksGrows(cfg, ns, false, env.bootstrap, map[]);
      DryTasksKeys(cfg, ts, env);
      PreflightLeavesResults(cfg, DryTasks(cfg, ts, env), env.preflight, boot.res);
      forall t | t in ts && !t.phase.SyncFail? ensures Op(t, boot.res).NoPhase? {
        assert t.RKey() !in KeysOf(ns);
      }
    }
  }

  lemma DecisionFine(cfg: Config, ts: seq<Task>, st: State, env: Env)
    requires DistinctKeys(ts) && NothingMayFail(cfg, ts) && RegularFine(ts, Started(cfg, ts, st, env))
    ensures RegularFine(ts, Refresh(ts, Started(cfg, ts, st, env)))
    ensures RegularFine(ts, DecisionResults(cfg, ts, st, env))
  {
    hide Started;
    var start := Started(cfg, ts, st, env);
    var now := Refresh(ts, start);
    UpdatesAt(Refreshed(start), ts);
    UpdatesAt(CleanFailure(env, now), ts);
  }

  lemma WaveFine(cfg: Config, ts: seq<Task>, res: Results, env: Env)
    requires DistinctKeys(ts) && NothingMayFail(cfg, ts) && RegularFine(ts, res) && Candidates(cfg, ts, res, env) != []
    ensures var out := RunTasks(cfg, Batch(Candidates(cfg, ts, res, env)), false, env.wave, res);
            !out.state.RunFailed? && RegularFine(ts, out.res)
  {
    hide RunTasks;
    var batch := Batch(Candidates(cfg, ts, res, env));
    var out := RunTasks(cfg, batch, false, env.wave, res);
    BatchKeys(cfg, ts, res, env);
    hide Candidates;
    hide Batch;
    PruneRun(cfg, batch, env.wave, res);
    RunTasksGrows(cfg, batch, false, env.wave, res);
    forall t | t in ts && !t.phase.SyncFail? ensures Op(t, out.res).NoPhase? || Op(t, out.res).Succeeded? {
      if t !in batch { NotInKeys(ts, batch, t); }
    }
  }

  lemma DecideFine(cfg: Config, ts: seq<Task>, phase: OpPhase, res: Results, env: Env)
    requires DistinctKeys(ts) && NothingMayFail(cfg, ts) && RegularFine(ts, res)
    ensures var step := Decide(cfg, ts, phase, res, env);
            RegularFine(ts, step.decided) && (step.phase.Completed() || RegularFine(ts, step.res))
  {
    hide RunTasks;
    hide Candidates;
    hide Batch;
    hide Fail;
    hide Filter;
    DecideShape(cfg, ts, phase, res, env);
    assert !SomeRegularUnsuccessful(ts, res);
    var todo := Candidates(cfg, ts, res, env);
    if todo != [] {
      WaveFine(cfg, ts, res, env);
      AfterWaveShape(cfg, ts, todo, res, RunTasks(cfg, Batch(todo), false, env.wave, res), env);
    }
  }

  // Such a call knows of no failure when it decides, and records none.
  lemma NoFailure(cfg: Config, ts: seq<Task>, st: State, env: Env)
    requires DistinctKeys(ts) && NothingMayFail(cfg, ts) && RegularFine(ts, st.res)
    ensures var step := SyncStep(cfg, ts, st, env);
            && (Reaches(cfg, ts, st, env) ==> !SomeRegularUnsuccessful(ts, step.decided))
            && (step.phase.Completed() || RegularFine(ts, step.res))
  {
    hide Decide;
    hide Preflight;
    hide RegularFine;
    hide DecisionResults;
    hide NothingMayFail;
    var step := SyncStep(cfg, ts, st, env);
    if env.valid && !(st.res == map[] && Preflight(cfg, ts, map[], env).state.RunFailed?) {
      StartedFine(cfg, ts, st, env);
      DecisionFine(cfg, ts, st, env);
      DecideFine(cfg, ts, st.phase, DecisionResults(cfg, ts, st, env), env);
      StepTouches(cfg, ts, st, env, ResultKey(ResourceKey("", "", "", ""), SyncFail));
      if Reaches(cfg, ts, st, env) {
        var made := Decision(cfg, ts, st, env);
        assert step.(steps := []) == made.(steps := []);
        assert step.decided == made.decided && step.res == made.res && step.phase == made.phase;
        FineIsNoFailure(ts, made.decided);
      } else {
        WaitsOnly(cfg, ts, st, env);
      }
    }
  }

  lemma FineIsNoFailure(ts: seq<Task>, res: Results)
    requires RegularFine(ts, res)
    ensures !SomeRegularUnsuccessful(ts, res)
  {
  }

  lemma WaitsOnly(cfg: Config, ts: seq<Task>, st: State, env: Env)
    requires env.valid && !(st.res == map[] && Preflight(cfg, ts, map[], env).state.RunFailed?)
    requires !Reaches(cfg, ts, st, env)
    ensures SyncStep(cfg, ts, st, env).res == Refresh(ts, Started(cfg, ts, st, env))
  {
    hide Decide;
    hide Preflight;
  }

  // In an operation without failures only the bootstrap runs a SyncFail hook.
  predicate OnlyBootstraps(cfg: Config, calls: seq<Call>, st: State, i: nat, k: ResultKey)
    requires i < |calls|
  {
    && Touches(StepAt(cfg, calls, st, i).steps, k) == (if BootstrappedAt(cfg, calls, st, i, k) then 1 else 0)
    && (|| StateAt(cfg, calls, st, i + 1).phase.Completed()
        || RegularFine(calls[i].ts, StateAt(cfg, calls, st, i + 1).res))
  }

  lemma BootstrapsAt(cfg: Config, base: Catalogue, calls: seq<Call>, st: State, i: nat, k: ResultKey)
    requires AllEnumerate(base, calls) && k.phase.SyncFail? && i < |calls| && NothingMayFail(cfg, calls[i].ts)
    requires RegularFine(calls[i].ts, StateAt(cfg, calls, st, i).res)
    ensures OnlyBootstraps(cfg, calls, st, i, k)
  {
    hide SyncStep;
    hide Touches;
    hide Reaches;
    hide RegularFine;
    hide SomeRegularUnsuccessful;
    hide Bootstrapped;
    hide Decide;
    var call, before := calls[i], StateAt(cfg, calls, st, i);
    assert call in calls;
    NoFailure(cfg, call.ts, before, call.env);
    StepTouches(cfg, call.ts, before, call.env, k);
    if Reaches(cfg, call.ts, before, call.env) { SparesSyncFail(cfg, call.ts, before, call.env, k); }
  }

  lemma SparesSyncFail(cfg: Config, ts: seq<Task>, st: State, env: Env, k: ResultKey)
    requires DistinctKeys(ts) && k.phase.SyncFail? && Reaches(cfg, ts, st, env)
    requires !SomeRegularUnsuccessful(ts, SyncStep(cfg, ts, st, env).decided)
    ensures Touches(Decision(cfg, ts, st, env).steps, k) == 0
  {
    hide SyncStep;
    hide Decide;
    hide Reaches;
    hide Touches;
    hide SomeRegularUnsuccessful;
    StepTouches(cfg, ts, st, env, k);
    var step, made := SyncStep(cfg, ts, st, env), Decision(cfg, ts, st, env);
    assert step.decided == step.(steps := []).decided == made.(steps := []).decided == made.decided;
    DecideSparesSyncFail(cfg, ts, st.phase, DecisionResults(cfg, ts, st, env), env, k);
  }

  lemma FineElsewhere(base: Catalogue, ts: seq<Task>, us: seq<Task>, res: Results)
    requires Enumerates(base, ts) && Enumerates(base, us) && RegularFine(ts, res)
    ensures RegularFine(us, res)
  {
    forall u | u in us && !u.phase.SyncFail? ensures Op(u, res).NoPhase? || Op(u, res).Succeeded? {
      assert u.RKey() in KeysOf(ts);
      var t :| t in ts && t.RKey() == u.RKey();
      assert Op(t, res) == Op(u, res);
    }
  }

  lemma {:induction false} FineAt(cfg: Config, base: Catalogue, calls: seq<Call>, st: State, i: nat, k: ResultKey)
    requires AllEnumerate(base, calls) && k.phase.SyncFail? && st.res == map[]
    requires i < |calls| && Ongoing(cfg, calls, st, i)
    requires forall c :: c in calls ==> NothingMayFail(cfg, c.ts)
    ensures RegularFine(calls[i].ts, StateAt(cfg, calls, st, i).res)
  {
    hide SyncStep;
    hide Touches;
    hide NothingMayFail;
    hide BootstrappedAt;
    hide Enumerates;
    if i > 0 {
      hide RegularFine;
      FineAt(cfg, base, calls, st, i - 1, k);
      assert calls[i - 1] in calls && calls[i] in calls;
      BootstrapsAt(cfg, base, calls, st, i - 1, k);
      FineElsewhere(base, calls[i - 1].ts, calls[i].ts, StateAt(cfg, calls, st, i).res);
    }
  }

  lemma FineOnce(cfg: Config, base: Catalogue, calls: seq<Call>, st: State, k: ResultKey)
    requires AllEnumerate(base, calls) && k.phase.SyncFail? && calls != [] && st.res == map[]
    requires Ongoing(cfg, calls, st, |calls| - 1)
    requires forall c :: c in calls ==> NothingMayFail(cfg, c.ts)
    ensures Touches(AllSteps(cfg, calls, st, |calls|), k) <= 1
  {
    hide SyncStep;
    hide Touches;
    hide NothingMayFail;
    hide RegularFine;
    var settled := (i: nat) => i <= |calls| && KeySettled(StateAt(cfg, calls, st, i), k);
    forall i | 0 <= i < |calls|
      ensures Touches(StepAt(cfg, calls, st, i).steps, k) <= if settled(i) then 0 else 1
      ensures settled(i) || Touches(StepAt(cfg, calls, st, i).steps, k) > 0 ==> settled(i + 1)
    {
      assert calls[i] in calls;
      FineAt(cfg, base, calls, st, i, k);
      KeySettles(cfg, base, calls, st, i, k);
    }
    TouchedOnce(cfg, calls, st, |calls|, k, settled);
  }

  lemma KeySettles(cfg: Config, base: Catalogue, calls: seq<Call>, st: State, i: nat, k: ResultKey)
    requires AllEnumerate(base, calls) && k.phase.SyncFail? && i < |calls| && NothingMayFail(cfg, calls[i].ts)
    requires RegularFine(calls[i].ts, StateAt(cfg, calls, st, i).res) && !StateAt(cfg, calls, st, i).phase.Completed()
    ensures var before, after := StateAt(cfg, calls, st, i), StateAt(cfg, calls, st, i + 1);
            && Touches(StepAt(cfg, calls, st, i).steps, k) <= (if KeySettled(before, k) then 0 else 1)
            && (KeySettled(before, k) || TouchedAt(cfg, calls, st, i, k) ==> KeySettled(after, k))
  {
    hide SyncStep;
    hide Touches;
    hide Reaches;
    hide RegularFine;
    assert calls[i] in calls;
    BootstrapsAt(cfg, base, calls, st, i, k);
    SyncGrows(cfg, calls[i].ts, StateAt(cfg, calls, st, i), calls[i].env);
    if BootstrappedAt(cfg, calls, st, i, k) {
      BootstrapCall(cfg, calls[i].ts, StateAt(cfg, calls, st, i), calls[i].env, k);
    }
  }
}
