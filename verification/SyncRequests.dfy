/** Which tasks a call of Sync really applies or prunes: a statement about the requests it sends. */
module SyncRequests {
  import opened Kube
  import opened Lists
  import opened Tasks
  import opened RunSpec
  import opened RunLaws
  import opened RunBarriers
  import opened OneTask
  import opened SyncSpec
  import opened SyncLaws
  import opened AtMostOnce

  // ----- one run -----

  // A run touches its own tasks only.
  lemma RunTouchesOwn(cfg: Config, ts: seq<Task>, dryRun: bool, calls: Calls, res: Results, k: ResultKey)
    requires DistinctKeys(ts) && k !in KeysOf(ts)
    ensures Touches(RunTasks(cfg, ts, dryRun, calls, res).steps, k) == 0
  {
    hide RunTasks;
    RunTasksAccounted(cfg, ts, dryRun, calls, res, k);
    RunTasksGrows(cfg, ts, dryRun, calls, res);
  }

  lemma {:induction false} HarmlessUntouched(steps: seq<multiset<Request>>, k: ResultKey)
    requires Harmless(steps)
    ensures Touches(steps, k) == 0
  {
    if steps != [] {
      forall i, q | 0 <= i < |steps[1..]| && q in steps[1..][i] ensures !Mutating(q) {
        assert q in steps[i + 1];
      }
      HarmlessUntouched(steps[1..], k);
      forall q | q in steps[0] ensures !Mutating(q) {
      }
      assert Mutating(Apply(k, false)) && Mutating(DeletePruned(k));
    }
  }

  // Finishing, well or by an error of the wave hook, touches nothing.
  lemma DeletesTouchNothing(hooks: seq<Task>, k: ResultKey)
    ensures Touches([Asking(AsksDelete(), hooks)], k) == 0
  {
    AskingQuiet(AsksDelete(), hooks, k);
  }

  // ----- the bootstrap -----

  // The call is the first of an operation that is no dry run, and the task is the application namespace's.
  predicate Bootstrapped(cfg: Config, ts: seq<Task>, st: State, env: Env, k: ResultKey) {
    env.valid && st.res == map[] && !cfg.dryRun && k in KeysOf(NamespaceTask(cfg, ts))
  }

  lemma BootstrapTouches(cfg: Config, ts: seq<Task>, env: Env, k: ResultKey)
    ensures Touches(Bootstrap(cfg, ts, map[], env).steps, k) ==
            if !cfg.dryRun && k in KeysOf(NamespaceTask(cfg, ts)) then 1 else 0
  {
    hide RunTasks;
    var ns := NamespaceTask(cfg, ts);
    if cfg.dryRun {
      DryRunHarmless(cfg, ns, false, env.bootstrap, map[]);
      HarmlessUntouched(Bootstrap(cfg, ts, map[], env).steps, k);
    } else if ns != [] {
      assert ns == [ns[0]] && ns[0] in ns;
      RunOne(cfg, ns[0], false, env.bootstrap, map[]);
      LastApplies(ns[0].RKey(), k);
    }
  }

  lemma LastApplies(applied: ResultKey, k: ResultKey)
    ensures Touches([multiset{}, multiset{}, multiset{}, multiset{Apply(applied, false)}], k)
            == if k == applied then 1 else 0
  {
    var last := multiset{Apply(applied, false)};
    TouchesAppend([multiset{}], [multiset{}, multiset{}, last], k);
    TouchesAppend([multiset{}], [multiset{}, last], k);
    TouchesAppend([multiset{}], [last], k);
    assert [multiset{}] + [multiset{}, multiset{}, last] == [multiset{}, multiset{}, multiset{}, last];
    assert [multiset{}] + [multiset{}, last] == [multiset{}, multiset{}, last];
    assert [multiset{}] + [last] == [multiset{}, last];
    forall q ensures Count([multiset{}], q) == 0 { CountOne(multiset{}, q); }
    CountOne(last, Apply(k, false));
    CountOne(last, DeletePruned(k));
  }

  lemma PreflightTouches(cfg: Config, ts: seq<Task>, env: Env, k: ResultKey)
    ensures Touches(Preflight(cfg, ts, map[], env).steps, k) == Touches(Bootstrap(cfg, ts, map[], env).steps, k)
  {
    hide RunTasks;
    hide Bootstrap;
    var boot := Bootstrap(cfg, ts, map[], env);
    if !boot.state.RunFailed? {
      var dry := RunTasks(cfg, DryTasks(cfg, ts, env), true, env.preflight, boot.res);
      DryRunHarmless(cfg, DryTasks(cfg, ts, env), true, env.preflight, boot.res);
      HarmlessUntouched(dry.steps, k);
      TouchesAppend(boot.steps, dry.steps, k);
    }
  }

  // ----- the parts of a call -----

  // The call gets as far as the decision.
  predicate Reaches(cfg: Config, ts: seq<Task>, st: State, env: Env) {
    && env.valid
    && !(st.res == map[] && Preflight(cfg, ts, map[], env).state.RunFailed?)
    && !MustWait(ts, Refresh(ts, Started(cfg, ts, st, env)))
    && !AwaitsDeletion(ts, Refresh(ts, Started(cfg, ts, st, env)))
  }

  function Decision(cfg: Config, ts: seq<Task>, st: State, env: Env): StepOut {
    Decide(cfg, ts, st.phase, DecisionResults(cfg, ts, st, env), env)
  }

  lemma AdvanceTouches(cfg: Config, ts: seq<Task>, phase: OpPhase, res: Results, env: Env, k: ResultKey)
    ensures var now := Refresh(ts, res);
            Touches(Advance(cfg, ts, phase, res, env).steps, k) ==
            if MustWait(ts, now) || AwaitsDeletion(ts, now) then 0
            else Touches(Decide(cfg, ts, phase, CleanFinalizers(ts, now, env), env).steps, k)
  {
    hide Decide;
    hide Refresh;
    hide CleanFinalizers;
    hide MustWait;
    hide AwaitsDeletion;
    hide Asking;
    var now := Refresh(ts, res);
    var cleaned := Filter(IsCleaned(now), ts);
    AskingQuiet(AsksUpdate(), cleaned, k);
    TouchesAppend([Asking(AsksUpdate(), cleaned)],
                  Decide(cfg, ts, phase, CleanFinalizers(ts, now, env), env).steps, k);
  }

  // What a call touches it touches in the bootstrap or after the decision.
  lemma StepTouches(cfg: Config, ts: seq<Task>, st: State, env: Env, k: ResultKey)
    ensures Touches(SyncStep(cfg, ts, st, env).steps, k) ==
            (if Bootstrapped(cfg, ts, st, env, k) then 1 else 0) +
            (if Reaches(cfg, ts, st, env) then Touches(Decision(cfg, ts, st, env).steps, k) else 0)
    ensures Reaches(cfg, ts, st, env) ==>
              SyncStep(cfg, ts, st, env).(steps := []) == Decision(cfg, ts, st, env).(steps := [])
  {
    hide Decide;
    hide Preflight;
    hide Touches;
    hide MustWait;
    hide AwaitsDeletion;
    hide Refresh;
    hide CleanFinalizers;
    var start := Started(cfg, ts, st, env);
    AdvanceTouches(cfg, ts, st.phase, start, env, k);
    if st.res == map[] {
      PreflightTouches(cfg, ts, env, k);
      BootstrapTouches(cfg, ts, env, k);
      var pre := Preflight(cfg, ts, map[], env);
      TouchesAppend(pre.steps, Advance(cfg, ts, st.phase, start, env).steps, k);
      assert pre.steps + [] == pre.steps;
    }
    assert Touches([], k) == 0 by { NoStepsTouchNothing(k); }
  }

  lemma NoStepsTouchNothing(k: ResultKey)
    ensures Touches([], k) == 0
  {
  }

  // ----- regular tasks -----

  lemma FailTouchesNothingRegular(cfg: Config, ts: seq<Task>, p: Task -> bool, phase: OpPhase, res: Results, env: Env,
                                  k: ResultKey)
    requires DistinctKeys(ts) && !k.phase.SyncFail?
    ensures Touches(Fail(cfg, ts, Filter(p, ts), phase, res, env).steps, k) == 0
  {
    hide RunTasks;
    var expired, syncFail := Filter(p, ts), Filter(IsSyncFail(), ts);
    var deleted := DeleteExpired(expired, res, env);
    SublistKeys(IsSyncFail(), ts);
    DeletesTouchNothing(expired, k);
    RunTouchesOwn(cfg, syncFail, false, env.syncFail, deleted, k);
    TouchesAppend([Asking(AsksDelete(), expired)], SetOperationFailed(cfg, syncFail, phase, deleted, env).steps, k);
  }

  lemma AfterWaveTouchesNothingRegular(cfg: Config, ts: seq<Task>, todo: seq<Task>, res: Results, out: RunOut, env: Env,
                                       k: ResultKey)
    requires DistinctKeys(ts) && todo != [] && !k.phase.SyncFail?
    ensures Touches(AfterWave(cfg, ts, todo, res, out, env).steps, k) == 0
  {
    hide Fail;
    hide Filter;
    DeletesTouchNothing(Filter(HasExpired(HookFailed, res), ts), k);
    DeletesTouchNothing(Filter(HasExpired(HookSucceeded, res), ts), k);
    FailTouchesNothingRegular(cfg, ts, HasExpired(HookFailed, res), Running, out.res, env, k);
  }

  lemma DecideTouchesRegular(cfg: Config, ts: seq<Task>, phase: OpPhase, res: Results, env: Env, k: ResultKey)
    requires DistinctKeys(ts) && !k.phase.SyncFail?
    requires Touches(Decide(cfg, ts, phase, res, env).steps, k) > 0
    ensures var wave := Decide(cfg, ts, phase, res, env).wave; wave.Some? && k in KeysOf(wave.value.tasks)
  {
    hide RunTasks;
    hide Fail;
    hide AfterWave;
    hide Candidates;
    hide Batch;
    hide Touches;
    var todo := Candidates(cfg, ts, res, env);
    DecideShape(cfg, ts, phase, res, env);
    FailTouchesNothingRegular(cfg, ts, HasExpired(HookFailed, res), phase, res, env, k);
    DeletesTouchNothing(Filter(HasExpired(HookSucceeded, res), ts), k);
    if todo != [] {
      var out := RunTasks(cfg, Batch(todo), false, env.wave, res);
      BatchKeys(cfg, ts, res, env);
      AfterWaveTouchesNothingRegular(cfg, ts, todo, res, out, env, k);
      TouchesAppend(out.steps, AfterWave(cfg, ts, todo, res, out, env).steps, k);
      if k !in KeysOf(Batch(todo)) { RunTouchesOwn(cfg, Batch(todo), false, env.wave, res, k); }
    }
  }

  /**
   A call really applies or prunes no regular task but those of its wave, and the application namespace when it
   is the first of an operation; and of those it does apply the namespace.
   */
  lemma RegularTouches(cfg: Config, ts: seq<Task>, st: State, env: Env, k: ResultKey)
    requires DistinctKeys(ts) && !k.phase.SyncFail?
    ensures var step := SyncStep(cfg, ts, st, env);
            && (Bootstrapped(cfg, ts, st, env, k) ==> Touches(step.steps, k) > 0)
            && (Touches(step.steps, k) > 0 && !Bootstrapped(cfg, ts, st, env, k) ==>
                  step.wave.Some? && k in KeysOf(step.wave.value.tasks))
  {
    hide SyncStep;
    hide Decide;
    hide Touches;
    hide DecisionResults;
    hide Reaches;
    hide Bootstrapped;
    StepTouches(cfg, ts, st, env, k);
    if Reaches(cfg, ts, st, env) && Touches(Decision(cfg, ts, st, env).steps, k) > 0 {
      DecideTouchesRegular(cfg, ts, st.phase, DecisionResults(cfg, ts, st, env), env, k);
    }
  }

  // ----- SyncFail hooks -----

  // Short of a failed regular task, no SyncFail hook is run by what follows the decision.
  lemma DecideSparesSyncFail(cfg: Config, ts: seq<Task>, phase: OpPhase, res: Results, env: Env, k: ResultKey)
    requires DistinctKeys(ts) && k.phase.SyncFail?
    requires !SomeRegularUnsuccessful(ts, Decide(cfg, ts, phase, res, env).decided)
    ensures Touches(Decide(cfg, ts, phase, res, env).steps, k) == 0
  {
    hide RunTasks;
    hide Fail;
    hide Candidates;
    hide Batch;
    hide Touches;
    hide Filter;
    hide SomeRegularUnsuccessful;
    var todo := Candidates(cfg, ts, res, env);
    DecideShape(cfg, ts, phase, res, env);
    DeletesTouchNothing(Filter(HasExpired(HookSucceeded, res), ts), k);
    DeletesTouchNothing(Filter(HasExpired(HookFailed, res), ts), k);
    if todo != [] && !SomeRegularUnsuccessful(ts, res) {
      var out := RunTasks(cfg, Batch(todo), false, env.wave, res);
      BatchKeys(cfg, ts, res, env);
      RunTouchesOwn(cfg, Batch(todo), false, env.wave, res, k);
      AfterWaveShape(cfg, ts, todo, res, out, env);
      if out.state.RunFailed? { BatchFailure(cfg, ts, res, env); }
      NoStepsTouchNothing(k);
      TouchesAppend(out.steps, AfterWave(cfg, ts, todo, res, out, env).steps, k);
    }
  }

  /**
   A call really applies or prunes a SyncFail task only when it knows of a failed regular task, or when the task
   is the application namespace's and the call the first of an operation; and short of a failure exactly then.
   */
  lemma SyncFailTouches(cfg: Config, ts: seq<Task>, st: State, env: Env, k: ResultKey)
    requires DistinctKeys(ts) && k.phase.SyncFail?
    ensures var step := SyncStep(cfg, ts, st, env);
            && (Bootstrapped(cfg, ts, st, env, k) ==> Touches(step.steps, k) > 0)
            && (!SomeRegularUnsuccessful(ts, step.decided) ==>
                  (Touches(step.steps, k) > 0 <==> Bootstrapped(cfg, ts, st, env, k)))
  {
    hide SyncStep;
    hide Decide;
    hide Touches;
    hide DecisionResults;
    hide Reaches;
    hide Bootstrapped;
    hide SomeRegularUnsuccessful;
    StepTouches(cfg, ts, st, env, k);
    var step := SyncStep(cfg, ts, st, env);
    if Reaches(cfg, ts, st, env) && !SomeRegularUnsuccessful(ts, step.decided) {
      assert step.decided == step.(steps := []).decided == Decision(cfg, ts, st, env).decided;
      DecideSparesSyncFail(cfg, ts, st.phase, DecisionResults(cfg, ts, st, env), env, k);
    }
  }
}
