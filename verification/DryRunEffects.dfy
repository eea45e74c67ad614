/** What a sync operation that is a dry run from start to end changes all the same, and when it changes nothing. */
module DryRunEffects {
  import opened Kube
  import opened Lists
  import opened Tasks
  import opened RunSpec
  import opened RunLaws
  import opened RunBarriers
  import opened SyncSpec
  import opened SyncLaws
  import opened SyncOutcome
  import opened GoodAnswers
  import opened DryRuns

  predicate HasRegular(ts: seq<Task>) {
    exists t :: t in ts && !t.phase.SyncFail?
  }

  predicate Deletable(ts: seq<Task>, t: Task) {
    t.LiveWithPolicy(HookSucceeded) || (t.LiveWithPolicy(HookFailed) && HasRegular(ts))
  }

  predicate Releasable(t: Task) {
    t.IsHook() && t.Live().Some? && t.Live().value.hookFinalizer
  }

  predicate CleansUp(ts: seq<Task>, q: Request) {
    || (exists t :: t in ts && Releasable(t) && q == UpdateFinalizer(t.RKey()))
    || (exists t :: t in ts && Deletable(ts, t) && q == DeleteHook(t.RKey()))
  }

  predicate OnlyCleansUp(ts: seq<Task>, steps: seq<multiset<Request>>) {
    forall i, q :: 0 <= i < |steps| && q in steps[i] && Mutating(q) ==> CleansUp(ts, q)
  }

  lemma OnlyCleansUpAppend(ts: seq<Task>, a: seq<multiset<Request>>, b: seq<multiset<Request>>)
    requires OnlyCleansUp(ts, a) && OnlyCleansUp(ts, b)
    ensures OnlyCleansUp(ts, a + b)
  {
  }

  lemma DeletesCleanUp(policy: DeletePolicy, ts: seq<Task>, res: Results)
    requires policy.HookSucceeded? || (policy.HookFailed? && HasRegular(ts))
    ensures OnlyCleansUp(ts, [Asking(AsksDelete(), Filter(HasExpired(policy, res), ts))])
  {
    hide Asking;
    hide HasRegular;
    var hooks := Filter(HasExpired(policy, res), ts);
    forall q | q in Asking(AsksDelete(), hooks) ensures CleansUp(ts, q) {
      AskingExactly(AsksDelete(), hooks, q);
      var t :| t in hooks && q == AsksDelete()(t);
      assert t in ts && Deletable(ts, t);
    }
  }

  lemma FinalizersCleanUp(ts: seq<Task>, res: Results)
    ensures OnlyCleansUp(ts, [Asking(AsksUpdate(), Filter(IsCleaned(res), ts))])
  {
    hide Asking;
    var hooks := Filter(IsCleaned(res), ts);
    forall q | q in Asking(AsksUpdate(), hooks) ensures CleansUp(ts, q) {
      AskingExactly(AsksUpdate(), hooks, q);
      var t :| t in hooks && q == AsksUpdate()(t);
      assert t in ts && Releasable(t);
    }
  }

  lemma FailCleansUp(cfg: Config, ts: seq<Task>, res0: Results, phase: OpPhase, res: Results, env: Env)
    requires cfg.dryRun && HasRegular(ts)
    ensures OnlyCleansUp(ts, Fail(cfg, ts, Filter(HasExpired(HookFailed, res0), ts), phase, res, env).steps)
  {
    hide RunTasks;
    hide CleansUp;
    var expired := Filter(HasExpired(HookFailed, res0), ts);
    DeletesCleanUp(HookFailed, ts, res0);
    var deleted := DeleteExpired(expired, res, env);
    DryRunHarmless(cfg, Filter(IsSyncFail(), ts), false, env.syncFail, deleted);
    OnlyCleansUpAppend(ts, [Asking(AsksDelete(), expired)],
                       SetOperationFailed(cfg, Filter(IsSyncFail(), ts), phase, deleted, env).steps);
  }

  lemma WaveCleansUp(cfg: Config, ts: seq<Task>, todo: seq<Task>, res: Results, env: Env)
    requires cfg.dryRun && todo != [] && HasRegular(ts)
    ensures OnlyCleansUp(ts, RunWave(cfg, ts, todo, res, env).steps)
  {
    hide RunTasks;
    hide CleansUp;
    hide HasRegular;
    var out := RunTasks(cfg, Batch(todo), false, env.wave, res);
    DryRunHarmless(cfg, Batch(todo), false, env.wave, res);
    DeletesCleanUp(HookFailed, ts, res);
    DeletesCleanUp(HookSucceeded, ts, res);
    FailCleansUp(cfg, ts, res, Running, out.res, env);
    OnlyCleansUpAppend(ts, out.steps, AfterWave(cfg, ts, todo, res, out, env).steps);
  }

  lemma DecideCleansUp(cfg: Config, ts: seq<Task>, phase: OpPhase, res: Results, env: Env)
    requires cfg.dryRun
    ensures OnlyCleansUp(ts, Decide(cfg, ts, phase, res, env).steps)
  {
    hide RunTasks;
    hide RunWave;
    hide Fail;
    hide CleansUp;
    var todo := Candidates(cfg, ts, res, env);
    DecideShape(cfg, ts, phase, res, env);
    if SomeRegularUnsuccessful(ts, res) {
      FailCleansUp(cfg, ts, res, phase, res, env);
    } else if todo == [] {
      DeletesCleanUp(HookSucceeded, ts, res);
    } else {
      assert todo[0] in Filter(IsRegular(), ts);
      WaveCleansUp(cfg, ts, todo, res, env);
    }
  }

  lemma AdvanceCleansUp(cfg: Config, ts: seq<Task>, phase: OpPhase, res: Results, env: Env)
    requires cfg.dryRun
    ensures OnlyCleansUp(ts, Advance(cfg, ts, phase, res, env).steps)
  {
    hide Decide;
    hide CleansUp;
    var now := Refresh(ts, res);
    FinalizersCleanUp(ts, now);
    var clean := CleanFinalizers(ts, now, env);
    DecideCleansUp(cfg, ts, phase, clean, env);
    OnlyCleansUpAppend(ts, [Asking(AsksUpdate(), Filter(IsCleaned(now), ts))],
                       Decide(cfg, ts, phase, clean, env).steps);
  }

  /**
   All a dry-run operation changes in the cluster are hooks that are already there: it removes their finalizer,
   deletes those to be deleted on success and, when there are regular tasks, those to be deleted on failure.
   */
  lemma DryRunOnlyCleansUp(cfg: Config, ts: seq<Task>, st: State, env: Env)
    requires cfg.dryRun
    ensures OnlyCleansUp(ts, SyncStep(cfg, ts, st, env).steps)
  {
    hide RunTasks;
    hide Advance;
    hide CleansUp;
    var boot := Bootstrap(cfg, ts, st.res, env);
    DryRunHarmless(cfg, NamespaceTask(cfg, ts), false, env.bootstrap, st.res);
    DryRunHarmless(cfg, DryTasks(cfg, ts, env), true, env.preflight, boot.res);
    OnlyCleansUpAppend(ts, boot.steps, RunTasks(cfg, DryTasks(cfg, ts, env), true, env.preflight, boot.res).steps);
    var pre := Preflight(cfg, ts, st.res, env);
    AdvanceCleansUp(cfg, ts, st.phase, Started(cfg, ts, st, env), env);
    AdvanceCleansUp(cfg, ts, st.phase, pre.res, env);
    OnlyCleansUpAppend(ts, pre.steps, Advance(cfg, ts, st.phase, pre.res, env).steps);
    OnlyCleansUpAppend(ts, pre.steps, []);
  }

  // ----- when a dry-run operation is sure to change nothing -----

  predicate NothingToCleanUp(ts: seq<Task>) {
    && (forall t :: t in ts && t.IsHook() && t.Live().Some? ==>
          !t.Live().value.hookFinalizer && HookSucceeded !in t.Obj().policies)
    && (HasRegular(ts) ==> forall t :: t in ts && t.IsHook() && t.Live().Some? ==> HookFailed !in t.Obj().policies)
  }

  // Records that keep nobody waiting
  predicate Still(ts: seq<Task>, res: Results) {
    forall t :: t in ts ==> !Op(t, res).Running? && !ResultOf(t, res).status.Pruned?
  }

  const GOOD_CALLS := Calls(k => true, k => true, k => Ok, k => true)

  const GOOD_ENV := Env(true, GOOD_CALLS, GOOD_CALLS, GOOD_CALLS, GOOD_CALLS, k => true, k => Ok, true, k => false)

  // Over such records, and with good answers only, a call goes straight to its decision.
  lemma StillStep(cfg: Config, ts: seq<Task>, st: State)
    requires st.res != map[] && Still(ts, st.res)
    ensures SyncStep(cfg, ts, st, GOOD_ENV) ==
            Decide(cfg, ts, st.phase, st.res, GOOD_ENV).After([Asking(AsksUpdate(), Filter(IsCleaned(st.res), ts))])
  {
    hide Decide;
    NoUpdates(Refreshed(st.res), ts);
    NoUpdates(CleanFailure(GOOD_ENV, st.res), ts);
    assert Refresh(ts, st.res) == st.res && CleanFinalizers(ts, st.res, GOOD_ENV) == st.res;
  }

  lemma Sends(steps: seq<multiset<Request>>, i: nat, ask: Task -> Request, hooks: seq<Task>, t: Task)
    requires i < |steps| && steps[i] == Asking(ask, hooks) && t in hooks && Mutating(ask(t))
    ensures ask(t) in steps[i] && !Harmless(steps)
  {
    AskingExactly(ask, hooks, ask(t));
    assert ask(t) in steps[i];
  }

  lemma FinalizerRemoved(cfg: Config, ts: seq<Task>, t: Task, phase: OpPhase)
    requires t in ts && Releasable(t)
    ensures var steps := SyncStep(cfg, ts, State(phase, map[t.RKey() := Result(NoCode, Succeeded)]), GOOD_ENV).steps;
            |steps| > 0 && UpdateFinalizer(t.RKey()) in steps[0] && !Harmless(steps)
  {
    hide SyncStep;
    hide Decide;
    hide Harmless;
    var res: Results := map[t.RKey() := Result(NoCode, Succeeded)];
    assert t.RKey() in res;
    StillStep(cfg, ts, State(phase, res));
    Sends(SyncStep(cfg, ts, State(phase, res), GOOD_ENV).steps, 0, AsksUpdate(), Filter(IsCleaned(res), ts), t);
  }

  function AllSucceeded(ts: seq<Task>): (res: Results)
    ensures forall t :: t in ts ==> ResultOf(t, res) == Result(NoCode, Succeeded)
  {
    map k | k in KeysOf(ts) :: Result(NoCode, Succeeded)
  }

  predicate AllDone(ts: seq<Task>, res: Results) {
    forall t :: t in ts ==> Op(t, res).Succeeded?
  }

  // Where all have succeeded, the decision is to succeed.
  lemma AllDoneDecides(cfg: Config, ts: seq<Task>, phase: OpPhase, res: Results, env: Env)
    requires AllDone(ts, res)
    ensures Decide(cfg, ts, phase, res, env) == Succeed(ts, res, res, env)
  {
    hide Succeed;
    hide Fail;
    hide RunWave;
    DecideShape(cfg, ts, phase, res, env);
    FilterNone(IsPending(res), Filter(IsRegular(), ts));
  }

  // A hook whose policy says so is deleted when all is done, dry run or not.
  lemma DryRunDeletesHook(cfg: Config, ts: seq<Task>, t: Task, phase: OpPhase)
    requires t in ts && t.LiveWithPolicy(HookSucceeded)
    ensures var steps := SyncStep(cfg, ts, State(phase, AllSucceeded(ts)), GOOD_ENV).steps;
            |steps| == 2 && DeleteHook(t.RKey()) in steps[1] && !Harmless(steps)
  {
    hide SyncStep;
    hide Decide;
    hide Harmless;
    var res := AllSucceeded(ts);
    assert t.RKey() in res;
    StillStep(cfg, ts, State(phase, res));
    AllDoneDecides(cfg, ts, phase, res, GOOD_ENV);
    var steps := SyncStep(cfg, ts, State(phase, res), GOOD_ENV).steps;
    Sends(steps, 1, AsksDelete(), Filter(HasExpired(HookSucceeded, res), ts), t);
  }

  lemma FailedDeleted(cfg: Config, ts: seq<Task>, t: Task, regular: Task, phase: OpPhase)
    requires t in ts && t.LiveWithPolicy(HookFailed) && regular in ts && !regular.phase.SyncFail?
    ensures var st := State(phase, map[regular.RKey() := Result(SyncFailed, Failed)]);
            var steps := SyncStep(cfg, ts, st, GOOD_ENV).steps;
            |steps| > 1 && DeleteHook(t.RKey()) in steps[1] && !Harmless(steps)
  {
    hide SyncStep;
    hide Decide;
    hide SetOperationFailed;
    hide Harmless;
    var res: Results := map[regular.RKey() := Result(SyncFailed, Failed)];
    assert regular.RKey() in res && Op(regular, res).Unsuccessful();
    StillStep(cfg, ts, State(phase, res));
    DecideShape(cfg, ts, phase, res, GOOD_ENV);
    var steps := SyncStep(cfg, ts, State(phase, res), GOOD_ENV).steps;
    Sends(steps, 1, AsksDelete(), Filter(HasExpired(HookFailed, res), ts), t);
  }

  // ----- from no records at all -----

  // Nothing is left out of the dry run, held back or waited for, and all of it is granted.
  ghost predicate DryRunsWell(cfg: Config, ts: seq<Task>, env: Env) {
    && env.valid && Smooth(env.bootstrap, ts) && Smooth(env.preflight, ts) && !AwaitsConfirmation(cfg, Prunes(ts))
    && (forall k :: env.cleanFinalizer(k)) && (forall k :: !env.unmodified(k))
    && forall t :: t in ts ==>
         (t.skipDryRun ==> t.IsPrune()) && (t.Live().Some? ==> !t.Live().value.deleting)
  }

  lemma DryRunPart(cfg: Config, ts: seq<Task>, part: seq<Task>, dryRun: bool, calls: Calls, res: Results)
    requires cfg.dryRun && DistinctKeys(part) && Smooth(calls, ts) && !AwaitsConfirmation(cfg, Prunes(ts))
    requires forall t :: t in part ==> t in ts && (t.skipDryRun ==> t.IsPrune())
    ensures var out := RunTasks(cfg, part, dryRun, calls, res);
            out.state.RunSuccessful? && Grows(res, out.res, KeysOf(part)) && AllDone(part, out.res)
  {
    hide RunTasks;
    SmoothPart(calls, ts, part);
    ConfirmedPart(cfg, ts, part);
    SmoothRun(cfg, part, dryRun, calls, res);
    RunTasksGrows(cfg, part, dryRun, calls, res);
    RunTasksSuccess(cfg, part, dryRun, calls, res);
    var out := RunTasks(cfg, part, dryRun, calls, res);
    forall t | t in part ensures Op(t, out.res).Succeeded? { assert CarriedOut(cfg, t, out.res); }
  }

  // The namespace and the tasks of the dry run are all there is.
  lemma DryTasksCover(cfg: Config, ts: seq<Task>, env: Env, t: Task)
    requires DistinctKeys(ts) && t in ts && !env.unmodified(t.LookupKey())
    ensures t in NamespaceTask(cfg, ts) || t in DryTasks(cfg, ts, env)
  {
    var ns := NamespaceTask(cfg, ts);
    if t !in ns {
      forall n | n in ns ensures t.RKey() != n.RKey() {
        if t.RKey() == n.RKey() { DistinctSame(KeyOf(), ts, t, n); }
      }
    }
  }

  // The dry run before the first decision records success for every task.
  lemma AllSucceedAtOnce(cfg: Config, ts: seq<Task>, env: Env)
    requires cfg.dryRun && DistinctKeys(ts) && DryRunsWell(cfg, ts, env)
    ensures var pre := Preflight(cfg, ts, map[], env); !pre.state.RunFailed? && AllDone(ts, pre.res)
  {
    hide RunTasks;
    hide Smooth;
    var ns, dry := NamespaceTask(cfg, ts), DryTasks(cfg, ts, env);
    DryRunPart(cfg, ts, ns, false, env.bootstrap, map[]);
    var boot := Bootstrap(cfg, ts, map[], env);
    DryTasksKeys(cfg, ts, env);
    DryTasksIn(cfg, ts, env);
    forall t | t in ts ensures t in ns || t in dry { DryTasksCover(cfg, ts, env, t); }
    DryRunPart(cfg, ts, dry, true, env.preflight, boot.res);
    var pre := Preflight(cfg, ts, map[], env);
    hide DryTasks;
    hide NamespaceTask;
    assert pre.res == RunTasks(cfg, dry, true, env.preflight, boot.res).res;
    hide Preflight;
    hide DryRunsWell;
    forall t | t in ts ensures Op(t, pre.res).Succeeded? {
      if t !in dry { NotInKeys(ts, dry, t); }
    }
  }

  lemma SucceededAdvance(cfg: Config, ts: seq<Task>, phase: OpPhase, res: Results, env: Env)
    requires AllDone(ts, res) && (forall k :: env.cleanFinalizer(k))
    requires forall t :: t in ts && t.Live().Some? ==> !t.Live().value.deleting
    ensures Advance(cfg, ts, phase, res, env).steps
         == [Asking(AsksUpdate(), Filter(IsCleaned(res), ts)),
             Asking(AsksDelete(), Filter(HasExpired(HookSucceeded, res), ts))]
  {
    hide Decide;
    hide Filter;
    NoUpdates(Refreshed(res), ts);
    forall t | t in ts ensures CleanFailure(env, res)(t).None? { assert env.cleanFinalizer(t.RKey()); }
    NoUpdates(CleanFailure(env, res), ts);
    assert Refresh(ts, res) == res && CleanFinalizers(ts, res, env) == res;
    AllDoneDecides(cfg, ts, phase, res, env);
  }

  /**
   So the first call of a dry-run operation that goes well in all its tasks succeeds, and deletes the hooks to be
   deleted on success. (If some are left out it may stall before; see DryRuns.DryRunStalls.)
   */
  lemma FreshDryRunDeletes(cfg: Config, ts: seq<Task>, t: Task, phase: OpPhase, env: Env)
    requires cfg.dryRun && DistinctKeys(ts) && DryRunsWell(cfg, ts, env) && t in ts && t.LiveWithPolicy(HookSucceeded)
    ensures var steps := SyncStep(cfg, ts, State(phase, map[]), env).steps;
            |steps| > 1 && DeleteHook(t.RKey()) in steps[|steps| - 1] && !Harmless(steps)
  {
    hide Preflight;
    hide Advance;
    hide Harmless;
    AllSucceedAtOnce(cfg, ts, env);
    var pre := Preflight(cfg, ts, map[], env);
    SucceededAdvance(cfg, ts, phase, pre.res, env);
    var steps := SyncStep(cfg, ts, State(phase, map[]), env).steps;
    assert t in Filter(HasExpired(HookSucceeded, pre.res), ts);
    Sends(steps, |steps| - 1, AsksDelete(), Filter(HasExpired(HookSucceeded, pre.res), ts), t);
  }

  // ----- exactly when -----

  // Whatever is recorded and whatever is answered, a call changes nothing.
  ghost predicate AlwaysHarmless(cfg: Config, ts: seq<Task>) {
    forall st, env :: Harmless(SyncStep(cfg, ts, st, env).steps)
  }

  // Whatever is there to be cleaned up, some call does clean up.
  lemma SomeCallCleansUp(cfg: Config, ts: seq<Task>)
    requires !NothingToCleanUp(ts)
    ensures !AlwaysHarmless(cfg, ts)
  {
    hide SyncStep;
    if t :| t in ts && Releasable(t) {
      FinalizerRemoved(cfg, ts, t, Running);
    } else if t :| t in ts && t.LiveWithPolicy(HookSucceeded) {
      DryRunDeletesHook(cfg, ts, t, Running);
    } else {
      var t :| t in ts && t.LiveWithPolicy(HookFailed);
      var regular :| regular in ts && !regular.phase.SyncFail?;
      FailedDeleted(cfg, ts, t, regular, Running);
    }
  }

  /**
   A dry-run operation is sure to change nothing, whatever has happened and whatever is answered, exactly when
   none of its live hooks has the hook finalizer or is to be deleted on success and, if it has regular tasks,
   none is to be deleted on failure.
   */
  lemma DryRunChangesNothing(cfg: Config, ts: seq<Task>)
    requires cfg.dryRun
    ensures AlwaysHarmless(cfg, ts) <==> NothingToCleanUp(ts)
  {
    hide SyncStep;
    if NothingToCleanUp(ts) {
      forall st, env ensures Harmless(SyncStep(cfg, ts, st, env).steps) {
        DryRunOnlyCleansUp(cfg, ts, st, env);
        NothingCleansUp(ts);
      }
    } else {
      SomeCallCleansUp(cfg, ts);
    }
  }

  lemma NothingCleansUp(ts: seq<Task>)
    requires NothingToCleanUp(ts)
    ensures forall q :: !CleansUp(ts, q)
  {
    hide HasRegular;
    forall t | t in ts ensures !Releasable(t) && !Deletable(ts, t) { }
  }
}
