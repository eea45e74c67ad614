/** Counting the requests that change the cluster: no regular task is applied or pruned twice. */
module AtMostOnce {
  import opened Kube
  import opened Lists
  import opened Tasks
  import opened RunSpec
  import opened RunLaws
  import opened SyncSpec
  import opened SyncLaws

  function Count(steps: seq<multiset<Request>>, q: Request): nat {
    if steps == [] then 0 else steps[0][q] + Count(steps[1..], q)
  }

  // How often the task of a key was really applied or pruned
  function Touches(steps: seq<multiset<Request>>, k: ResultKey): nat {
    Count(steps, Apply(k, false)) + Count(steps, DeletePruned(k))
  }

  function Recorded(res: Results, k: ResultKey): nat {
    if k in res && !res[k].op.NoPhase? then 1 else 0
  }

  lemma {:induction false} CountAppend(a: seq<multiset<Request>>, b: seq<multiset<Request>>, q: Request)
    ensures Count(a + b, q) == Count(a, q) + Count(b, q)
  {
    if a == [] {
      assert a + b == b;
    } else {
      assert (a + b)[1..] == a[1..] + b;
      CountAppend(a[1..], b, q);
    }
  }

  lemma CountOne(step: multiset<Request>, q: Request)
    ensures Count([step], q) == step[q]
  {
  }

  lemma TouchesAppend(a: seq<multiset<Request>>, b: seq<multiset<Request>>, k: ResultKey)
    ensures Touches(a + b, k) == Touches(a, k) + Touches(b, k)
  {
    CountAppend(a, b, Apply(k, false));
    CountAppend(a, b, DeletePruned(k));
  }

  // ----- one stage -----

  // Whoever applies or prunes writes it down.
  lemma WorkTouch(run: StageRun, t: Task, res: Results, k: ResultKey)
    requires Fits(run.stage, t)
    requires run.Of(t, res).request in {Some(Apply(k, false)), Some(DeletePruned(k))}
    ensures t.RKey() == k && run.Of(t, res).write.Some?
    ensures run.Of(t, res).request == Some(if run.stage.Create? then Apply(k, false) else DeletePruned(k))
  {
  }

  lemma StageTouch(run: StageRun, ts: seq<Task>, res: Results, k: ResultKey)
    requires run.FitsAll(ts) && DistinctKeys(ts)
    ensures var reqs := run.Requests(ts, res);
            reqs[Apply(k, false)] + reqs[DeletePruned(k)] <= if k in run.Writes(ts, res) then 1 else 0
  {
    var apply, prune := Apply(k, false), DeletePruned(k);
    WritesAt(run, ts, res);
    RequestsOnce(run, ts, res, apply);
    RequestsOnce(run, ts, res, prune);
    RequestsFrom(run, ts, res, apply);
    RequestsFrom(run, ts, res, prune);
    forall t | t in ts && run.Of(t, res).request in {Some(apply), Some(prune)}
      ensures k in run.Writes(ts, res)
      ensures run.Of(t, res).request == Some(if run.stage.Create? then apply else prune)
    {
      WorkTouch(run, t, res, k);
    }
  }

  lemma {:induction false} CreateGroupsCount(run: StageRun, from: RunState, groups: seq<seq<Task>>, res: Results,
                                             q: Request)
    requires run.stage.Create? && forall g :: g in groups ==> run.FitsAll(g)
    ensures run.FitsAll(Applied(Concat(groups), run.dry))
    ensures Count(CreateGroups(run, from, groups, res).steps, q) ==
            run.Requests(Applied(Concat(groups), run.dry), res)[q]
    decreases |groups|
  {
    if groups != [] {
      assert run.FitsAll(groups[0]);
      var a, b := Applied(groups[0], run.dry), Applied(Concat(groups[1..]), run.dry);
      var first := run.Run(from, a, res);
      CreateGroupsCount(run, first.state, groups[1..], first.res, q);
      CreateIgnoresResults(run, first.state, b, res, first.res);
      FilterAppend(NotSkipped(run.dry), groups[0], Concat(groups[1..]));
      RequestsAppend(run, a, b, res);
      CountAppend(first.steps, CreateGroups(run, first.state, groups[1..], first.res).steps, q);
    }
  }

  // ----- runTasks -----

  // A run touches a task only when it also turns its record from "not run" to something.
  predicate Accounted(steps: seq<multiset<Request>>, res: Results, res': Results, k: ResultKey) {
    Touches(steps, k) + Recorded(res, k) <= Recorded(res', k)
  }

  lemma AccountedChain(a: seq<multiset<Request>>, b: seq<multiset<Request>>, r0: Results, r1: Results, r2: Results,
                       k: ResultKey)
    requires Accounted(a, r0, r1, k) && Accounted(b, r1, r2, k)
    ensures Accounted(a + b, r0, r2, k)
  {
    TouchesAppend(a, b, k);
  }

  lemma StageAccounted(run: StageRun, from: RunState, ts: seq<Task>, res: Results, k: ResultKey)
    requires run.FitsAll(ts) && DistinctKeys(ts)
    requires k in KeysOf(ts) ==> Recorded(res, k) == 0
    ensures var out := run.Run(from, ts, res); Accounted(out.steps, res, out.res, k)
  {
    StageGrows(run, from, ts, res, KeysOf(ts));
    StageTouch(run, ts, res, k);
    CountOne(run.Requests(ts, res), Apply(k, false));
    CountOne(run.Requests(ts, res), DeletePruned(k));
  }

  lemma CreateAccounted(cfg: Config, creates: seq<Task>, dry: bool, calls: Calls, res: Results, k: ResultKey)
    requires DistinctKeys(creates) && forall t :: t in creates ==> !t.IsPrune()
    requires k in KeysOf(creates) ==> Recorded(res, k) == 0
    ensures forall g :: g in KindGroups(creates) ==> StageRun(Create, cfg, dry, calls).FitsAll(g)
    ensures var out := CreateGroups(StageRun(Create, cfg, dry, calls), RunSuccessful, KindGroups(creates), res);
            Accounted(out.steps, res, out.res, k)
  {
    var run := StageRun(Create, cfg, dry, calls);
    var all := Applied(creates, dry);
    KindGroupsPartition(creates);
    CreateStage(cfg, creates, dry, calls, RunSuccessful, res);
    StageAccounted(run, RunSuccessful, all, res, k);
    CreateGroupsCount(run, RunSuccessful, KindGroups(creates), res, Apply(k, false));
    CreateGroupsCount(run, RunSuccessful, KindGroups(creates), res, DeletePruned(k));
    StageTouch(run, all, res, k);
  }

  lemma DeleteAndCreateAccounted(cfg: Config, creates: seq<Task>, dry: bool, calls: Calls, res: Results, k: ResultKey)
    requires DistinctKeys(creates) && forall t :: t in creates ==> !t.IsPrune()
    requires k in KeysOf(creates) ==> Recorded(res, k) == 0
    ensures var out := DeleteAndCreate(cfg, creates, dry, calls, res); Accounted(out.steps, res, out.res, k)
  {
    var del := StageRun(DeleteHooks, cfg, dry, calls);
    var hooks := HooksToDelete(creates, res);
    FilterDistinct(IsDeletedFirst(res), KeyOf(), creates);
    StageAccounted(del, RunSuccessful, hooks, res, k);
    var deleted := del.Run(RunSuccessful, hooks, res);
    if deleted.state.RunSuccessful? {
      QuietStage(del, hooks, res);
      CreateAccounted(cfg, creates, dry, calls, res, k);
      var made := CreateGroups(StageRun(Create, cfg, dry, calls), RunSuccessful, KindGroups(creates), res);
      AccountedChain(deleted.steps, made.steps, res, res, made.res, k);
    }
  }

  lemma PruneAndCreateAccounted(cfg: Config, ts: seq<Task>, dry: bool, calls: Calls, res: Results, k: ResultKey)
    requires DistinctKeys(ts)
    requires k in KeysOf(ts) ==> Recorded(res, k) == 0
    ensures var out := PruneAndCreate(cfg, ts, dry, calls, res); Accounted(out.steps, res, out.res, k)
  {
    SublistsDistinct(ts, res);
    var run := StageRun(Prune, cfg, dry, calls);
    var pruned := run.Run(RunSuccessful, Prunes(ts), res);
    if !AwaitsConfirmation(cfg, Prunes(ts)) {
      StageAccounted(run, RunSuccessful, Prunes(ts), res, k);
      if pruned.state.RunSuccessful? {
        StageGrows(run, RunSuccessful, Prunes(ts), res, KeysOf(Prunes(ts)));
        DeleteAndCreateAccounted(cfg, Creates(ts), dry, calls, pruned.res, k);
        var made := DeleteAndCreate(cfg, Creates(ts), dry, calls, pruned.res);
        AccountedChain(pruned.steps, made.steps, res, pruned.res, made.res, k);
      }
    }
  }

  lemma RunTasksAccounted(cfg: Config, ts: seq<Task>, dryRun: bool, calls: Calls, res: Results, k: ResultKey)
    requires DistinctKeys(ts)
    requires k in KeysOf(ts) ==> Recorded(res, k) == 0
    ensures var out := RunTasks(cfg, ts, dryRun, calls, res); Accounted(out.steps, res, out.res, k)
  {
    var dry := dryRun || cfg.dryRun;
    SublistsDistinct(ts, res);
    var run := StageRun(Finalizers, cfg, dry, calls);
    var hooks := ExistingHooks(ts, res);
    StageAccounted(run, RunSuccessful, hooks, res, k);
    var finalized := run.Run(RunSuccessful, hooks, res);
    if finalized.state.RunSuccessful? {
      QuietStage(run, hooks, res);
      PruneAndCreateAccounted(cfg, ts, dry, calls, res, k);
      var rest := PruneAndCreate(cfg, ts, dry, calls, res);
      AccountedChain(finalized.steps, rest.steps, res, res, rest.res, k);
    }
  }

  // ----- one call of Sync -----

  lemma {:induction false} AskingQuiet(ask: Task -> Request, hooks: seq<Task>, k: ResultKey)
    requires forall t :: t in hooks ==> ask(t).UpdateFinalizer? || ask(t).DeleteHook?
    ensures Touches([Asking(ask, hooks)], k) == 0
  {
    CountOne(Asking(ask, hooks), Apply(k, false));
    CountOne(Asking(ask, hooks), DeletePruned(k));
    if hooks != [] {
      AskingQuiet(ask, hooks[1..], k);
      CountOne(Asking(ask, hooks[1..]), Apply(k, false));
      CountOne(Asking(ask, hooks[1..]), DeletePruned(k));
    }
  }

  lemma DeleteAccounted(p: Task -> bool, ts: seq<Task>, res: Results, env: Env, k: ResultKey)
    requires DistinctKeys(ts)
    ensures Accounted([Asking(AsksDelete(), Filter(p, ts))], res, DeleteExpired(Filter(p, ts), res, env), k)
  {
    DeleteGrows(p, ts, res, env);
    AskingQuiet(AsksDelete(), Filter(p, ts), k);
  }

  lemma FailAccounted(cfg: Config, ts: seq<Task>, p: Task -> bool, phase: OpPhase, res: Results, env: Env, k: ResultKey)
    requires DistinctKeys(ts) && !k.phase.SyncFail?
    ensures var step := Fail(cfg, ts, Filter(p, ts), phase, res, env); Accounted(step.steps, res, step.res, k)
  {
    var expired, syncFail := Filter(p, ts), Filter(IsSyncFail(), ts);
    var deleted := DeleteExpired(expired, res, env);
    DeleteAccounted(p, ts, res, env, k);
    SublistKeys(IsSyncFail(), ts);
    RunTasksAccounted(cfg, syncFail, false, env.syncFail, deleted, k);
    var out := SetOperationFailed(cfg, syncFail, phase, deleted, env);
    assert Accounted(out.steps, deleted, out.res, k);
    AccountedChain([Asking(AsksDelete(), expired)], out.steps, res, deleted, out.res, k);
  }

  lemma SucceedAccounted(ts: seq<Task>, res0: Results, res: Results, env: Env, k: ResultKey)
    requires DistinctKeys(ts)
    ensures var step := Succeed(ts, res0, res, env); Accounted(step.steps, res, step.res, k)
  {
    DeleteAccounted(HasExpired(HookSucceeded, res0), ts, res, env, k);
  }

  lemma AfterWaveAccounted(cfg: Config, ts: seq<Task>, todo: seq<Task>, res: Results, out: RunOut, env: Env,
                           k: ResultKey)
    requires DistinctKeys(ts) && todo != [] && !k.phase.SyncFail?
    ensures var step := AfterWave(cfg, ts, todo, res, out, env); Accounted(step.steps, out.res, step.res, k)
  {
    if cfg.syncWaveHook && !out.state.RunFailed? && !env.waveHookOk {
      DeleteAccounted(HasExpired(HookFailed, res), ts, out.res, env, k);
    } else if out.state.RunFailed? {
      FailAccounted(cfg, ts, HasExpired(HookFailed, res), Running, out.res, env, k);
    } else if out.state.RunSuccessful? {
      SucceedAccounted(ts, res, out.res, env, k);
    }
  }

  lemma RunWaveAccounted(cfg: Config, ts: seq<Task>, res: Results, env: Env, k: ResultKey)
    requires DistinctKeys(ts) && Candidates(cfg, ts, res, env) != [] && !k.phase.SyncFail?
    ensures var step := RunWave(cfg, ts, Candidates(cfg, ts, res, env), res, env);
            Accounted(step.steps, res, step.res, k)
  {
    var todo := Candidates(cfg, ts, res, env);
    BatchKeys(cfg, ts, res, env);
    forall t | t in Batch(todo) && t.RKey() == k ensures Recorded(res, k) == 0 {
      assert Pending(t, res);
    }
    RunTasksAccounted(cfg, Batch(todo), false, env.wave, res, k);
    var out := RunTasks(cfg, Batch(todo), false, env.wave, res);
    AfterWaveAccounted(cfg, ts, todo, res, out, env, k);
    var rest := AfterWave(cfg, ts, todo, res, out, env);
    AccountedChain(out.steps, rest.steps, res, out.res, rest.res, k);
  }

  lemma DecideAccounted(cfg: Config, ts: seq<Task>, phase: OpPhase, res: Results, env: Env, k: ResultKey)
    requires DistinctKeys(ts) && !k.phase.SyncFail?
    ensures var step := Decide(cfg, ts, phase, res, env); Accounted(step.steps, res, step.res, k)
  {
    DecideShape(cfg, ts, phase, res, env);
    if SomeRegularUnsuccessful(ts, res) {
      FailAccounted(cfg, ts, HasExpired(HookFailed, res), phase, res, env, k);
    } else if Candidates(cfg, ts, res, env) == [] {
      SucceedAccounted(ts, res, res, env, k);
    } else {
      RunWaveAccounted(cfg, ts, res, env, k);
    }
  }

  lemma AdvanceAccounted(cfg: Config, ts: seq<Task>, phase: OpPhase, res: Results, env: Env, k: ResultKey)
    requires DistinctKeys(ts) && !k.phase.SyncFail?
    ensures var step := Advance(cfg, ts, phase, res, env); Accounted(step.steps, res, step.res, k)
  {
    hide Decide;
    hide Refresh;
    hide CleanFinalizers;
    hide Asking;
    hide Filter;
    hide MustWait;
    hide AwaitsDeletion;
    var now := Refresh(ts, res);
    RefreshGrows(ts, res);
    if !MustWait(ts, now) && !AwaitsDeletion(ts, now) {
      var clean := CleanFinalizers(ts, now, env);
      CleanGrows(ts, now, env);
      AskingQuiet(AsksUpdate(), Filter(IsCleaned(now), ts), k);
      DecideAccounted(cfg, ts, phase, clean, env, k);
      var step := Decide(cfg, ts, phase, clean, env);
      AccountedChain([Asking(AsksUpdate(), Filter(IsCleaned(now), ts))], step.steps, res, clean, step.res, k);
    }
  }

  lemma PreflightAccounted(cfg: Config, ts: seq<Task>, env: Env, k: ResultKey)
    requires DistinctKeys(ts)
    ensures var pre := Preflight(cfg, ts, map[], env); Accounted(pre.steps, map[], pre.res, k)
  {
    var ns := NamespaceTask(cfg, ts);
    RunTasksAccounted(cfg, ns, false, env.bootstrap, map[], k);
    RunTasksGrows(cfg, ns, false, env.bootstrap, map[]);
    var boot := Bootstrap(cfg, ts, map[], env);
    if !boot.state.RunFailed? {
      DryTasksKeys(cfg, ts, env);
      var dry := RunTasks(cfg, DryTasks(cfg, ts, env), true, env.preflight, boot.res);
      RunTasksAccounted(cfg, DryTasks(cfg, ts, env), true, env.preflight, boot.res, k);
      AccountedChain(boot.steps, dry.steps, map[], boot.res, dry.res, k);
    }
  }

  /**
   However a call ends, the number of times it really applies or prunes a regular task is at most what
   its record gains: nothing for a task already recorded, once for a task recorded now.
   */
  lemma SyncAccounted(cfg: Config, ts: seq<Task>, st: State, env: Env, k: ResultKey)
    requires DistinctKeys(ts) && !k.phase.SyncFail?
    ensures var step := SyncStep(cfg, ts, st, env); Accounted(step.steps, st.res, step.res, k)
  {
    if env.valid {
      if st.res != map[] {
        AdvanceAccounted(cfg, ts, st.phase, st.res, env, k);
      } else {
        PreflightAccounted(cfg, ts, env, k);
        var pre := Preflight(cfg, ts, st.res, env);
        assert pre.steps + [] == pre.steps;
        if !pre.state.RunFailed? {
          AdvanceAccounted(cfg, ts, st.phase, pre.res, env, k);
          var rest := Advance(cfg, ts, st.phase, pre.res, env);
          AccountedChain(pre.steps, rest.steps, st.res, pre.res, rest.res, k);
        }
      }
    }
  }
}
