/** An operation ends well when everything it asks for is granted: bounded progress up to Succeeded. */
module Liveness {
  import opened Lists
  import opened Tasks
  import opened RunSpec
  import opened RunLaws
  import opened RunBarriers
  import opened SyncSpec
  import opened SyncLaws
  import opened SyncOutcome
  import opened SyncRuns
  import opened DryRuns
  import opened GoodAnswers

  // What has been started has neither failed nor been terminated.
  predicate Fine(ts: seq<Task>, res: Results) {
    forall t :: t in ts ==> Op(t, res).NoPhase? || Op(t, res).Running? || Op(t, res).Succeeded?
  }

  // The tasks of the operation that have not been started
  function Waiting(ks: set<ResultKey>, res: Results): set<ResultKey> {
    set k | k in ks && (k in res ==> res[k].op.NoPhase?)
  }

  // All requests of the call are granted and confirmed.
  ghost predicate Granted(cfg: Config, ts: seq<Task>, env: Env) {
    && env.valid && env.waveHookOk && !AwaitsConfirmation(cfg, Prunes(ts))
    && Smooth(env.bootstrap, ts) && Smooth(env.preflight, ts) && Smooth(env.wave, ts)
    && forall k :: env.cleanFinalizer(k)
  }

  // What is running when the call begins is live and healthy, and what is pruned is gone or stays.
  predicate Healthful(ts: seq<Task>, res: Results) {
    forall t :: t in ts ==>
      && (Op(t, res).Running? ==> t.Live().Some? && t.Live().value.health.Healthy?)
      && (t.Live().Some? ==> !t.Live().value.deleting)
  }

  lemma GrantedRun(cfg: Config, ts: seq<Task>, part: seq<Task>, dryRun: bool, calls: Calls, res: Results)
    requires DistinctKeys(part) && Smooth(calls, ts) && !AwaitsConfirmation(cfg, Prunes(ts))
    requires forall t :: t in part ==> t in ts
    ensures RunTasks(cfg, part, dryRun, calls, res).state.RunSuccessful?
  {
    SmoothPart(calls, ts, part);
    ConfirmedPart(cfg, ts, part);
    SmoothRun(cfg, part, dryRun, calls, res);
  }

  // A run that is meant to be recorded and ends well keeps everything fine.
  lemma RunFine(cfg: Config, ts: seq<Task>, part: seq<Task>, calls: Calls, res: Results)
    requires DistinctKeys(ts) && DistinctKeys(part) && (forall t :: t in part ==> t in ts) && !cfg.dryRun
    requires Fine(ts, res) && RunTasks(cfg, part, false, calls, res).state.RunSuccessful?
    ensures Fine(ts, RunTasks(cfg, part, false, calls, res).res)
  {
    hide RunTasks;
    var out := RunTasks(cfg, part, false, calls, res);
    RunTasksSuccess(cfg, part, false, calls, res);
    RunTasksGrows(cfg, part, false, calls, res);
    forall t | t in ts ensures Op(t, out.res).NoPhase? || Op(t, out.res).Running? || Op(t, out.res).Succeeded? {
      if t in part {
        assert CarriedOut(cfg, t, out.res);
      } else {
        NotInKeys(ts, part, t);
      }
    }
  }

  // ----- the start of a call -----

  lemma StartFine(cfg: Config, ts: seq<Task>, st: State, env: Env)
    requires DistinctKeys(ts) && Granted(cfg, ts, env) && Fine(ts, st.res) && !cfg.dryRun
    ensures !Preflight(cfg, ts, map[], env).state.RunFailed?
    ensures Fine(ts, Started(cfg, ts, st, env))
  {
    hide RunTasks;
    hide Smooth;
    var ns := NamespaceTask(cfg, ts);
    GrantedRun(cfg, ts, ns, false, env.bootstrap, map[]);
    var boot := Bootstrap(cfg, ts, map[], env);
    DryTasksKeys(cfg, ts, env);
    DryTasksIn(cfg, ts, env);
    GrantedRun(cfg, ts, DryTasks(cfg, ts, env), true, env.preflight, boot.res);
    if st.res == map[] {
      RunFine(cfg, ts, ns, env.bootstrap, map[]);
      assert Fine(ts, boot.res);
      PreflightLeavesResults(cfg, DryTasks(cfg, ts, env), env.preflight, boot.res);
    }
  }

  // After refreshing, nothing has failed, and of what is running nothing is live.
  predicate Refreshing(t: Task, res: Results, now: Results) {
    && (Op(t, now).NoPhase? || Op(t, now).Running? || Op(t, now).Succeeded?)
    && (Op(t, now).Running? ==> t.Live().None? && Op(t, res).Running?)
    && (Pending(t, now) <==> Pending(t, res))
  }

  lemma RefreshFine(ts: seq<Task>, res: Results, t: Task)
    requires DistinctKeys(ts) && Fine(ts, res) && t in ts
    requires Op(t, res).Running? && t.Live().Some? ==> t.Live().value.health.Healthy?
    ensures Refreshing(t, res, Refresh(ts, res))
  {
    hide Updates;
    UpdatesAt(Refreshed(res), ts);
  }

  lemma CleanFine(cfg: Config, ts: seq<Task>, res: Results, env: Env)
    requires Granted(cfg, ts, env)
    ensures CleanFinalizers(ts, res, env) == res
  {
    forall t | t in ts ensures CleanFailure(env, res)(t).None? { assert env.cleanFinalizer(t.RKey()); }
    NoUpdates(CleanFailure(env, res), ts);
    assert res + map[] == res;
  }

  // ----- the decision -----

  // It is to succeed, or to run a wave that goes well.
  lemma DecideGood(cfg: Config, ts: seq<Task>, phase: OpPhase, res: Results, env: Env)
    requires DistinctKeys(ts) && Granted(cfg, ts, env) && Fine(ts, res) && !cfg.dryRun
    ensures var step := Decide(cfg, ts, phase, res, env);
            || (step.phase.Succeeded?)
            || (step.phase.Running? && Fine(ts, step.res)
                && exists t :: t in ts && Pending(t, res) && !Pending(t, step.res))
  {
    hide RunTasks;
    hide Smooth;
    hide Candidates;
    hide Fail;
    DecideShape(cfg, ts, phase, res, env);
    var todo := Candidates(cfg, ts, res, env);
    if todo != [] {
      BatchKeys(cfg, ts, res, env);
      var batch := Batch(todo);
      hide Batch;
      GrantedRun(cfg, ts, batch, false, env.wave, res);
      RunFine(cfg, ts, batch, env.wave, res);
      RunTasksSuccess(cfg, batch, false, env.wave, res);
      var out := RunTasks(cfg, batch, false, env.wave, res);
      assert todo[0] in batch && CarriedOut(cfg, todo[0], out.res);
      assert Pending(todo[0], res) && !Pending(todo[0], out.res);
    }
  }

  // ----- one call -----

  // The operation has succeeded, or goes on with a task started.
  predicate Advances(ts: seq<Task>, res: Results, st: State) {
    || st.phase.Succeeded?
    || (st.phase.Running? && Fine(ts, st.res) && exists t :: t in ts && Pending(t, res) && !Pending(t, st.res))
  }

  lemma AdvanceGood(cfg: Config, ts: seq<Task>, phase: OpPhase, res: Results, env: Env, before: Results)
    requires DistinctKeys(ts) && Granted(cfg, ts, env) && Fine(ts, res) && !cfg.dryRun
    requires forall t :: t in ts ==>
               && (Op(t, res).Running? && t.Live().Some? ==> t.Live().value.health.Healthy?)
               && (t.Live().Some? ==> !t.Live().value.deleting)
    requires forall t :: t in ts && Pending(t, res) ==> Pending(t, before)
    requires forall t :: t in ts && Op(t, res).Running? && t.Live().None? ==> Pending(t, before)
    ensures Advances(ts, before, Advance(cfg, ts, phase, res, env).Next())
  {
    hide Decide;
    hide Refresh;
    hide Granted;
    var now := Refresh(ts, res);
    forall t | t in ts ensures Refreshing(t, res, now) { RefreshFine(ts, res, t); }
    if MustWait(ts, now) {
      var t :| t in ts && Op(t, now).Running?;
      assert Refreshing(t, res, now);
    } else {
      assert !AwaitsDeletion(ts, now);
      CleanFine(cfg, ts, now, env);
      DecideGood(cfg, ts, phase, now, env);
    }
  }

  // Before a call advances, it has started nothing but the application namespace, which is not live yet.
  lemma StartedOnly(cfg: Config, ts: seq<Task>, st: State, env: Env, t: Task)
    requires DistinctKeys(ts) && Granted(cfg, ts, env) && Fine(ts, st.res) && Healthful(ts, st.res) && !cfg.dryRun
    requires t in ts
    ensures var res := Started(cfg, ts, st, env);
            && (Op(t, res).Running? && t.Live().Some? ==> t.Live().value.health.Healthy?)
            && (Pending(t, res) ==> Pending(t, st.res))
            && (Op(t, res).Running? && t.Live().None? ==> Pending(t, st.res))
  {
    hide RunTasks;
    hide Smooth;
    if st.res == map[] {
      var ns, boot := NamespaceTask(cfg, ts), Bootstrap(cfg, ts, map[], env);
      StartFine(cfg, ts, st, env);
      DryTasksKeys(cfg, ts, env);
      PreflightLeavesResults(cfg, DryTasks(cfg, ts, env), env.preflight, boot.res);
      RunTasksGrows(cfg, ns, false, env.bootstrap, map[]);
      if t !in ns { NotInKeys(ts, ns, t); }
    }
  }

  lemma GoodCall(cfg: Config, ts: seq<Task>, st: State, env: Env)
    requires DistinctKeys(ts) && Granted(cfg, ts, env) && Fine(ts, st.res) && Healthful(ts, st.res) && !cfg.dryRun
    ensures Advances(ts, st.res, SyncStep(cfg, ts, st, env).Next())
  {
    hide RunTasks;
    hide Advance;
    hide Fine;
    hide Preflight;
    StartFine(cfg, ts, st, env);
    forall t | t in ts
      ensures var res := Started(cfg, ts, st, env);
              && (Op(t, res).Running? && t.Live().Some? ==> t.Live().value.health.Healthy?)
              && (Pending(t, res) ==> Pending(t, st.res))
              && (Op(t, res).Running? && t.Live().None? ==> Pending(t, st.res))
    {
      StartedOnly(cfg, ts, st, env, t);
    }
    AdvanceGood(cfg, ts, st.phase, Started(cfg, ts, st, env), env, st.res);
  }

  // ----- the whole operation -----

  predicate FineIn(base: Catalogue, res: Results) {
    forall k :: k in base && k in res ==> res[k].op.NoPhase? || res[k].op.Running? || res[k].op.Succeeded?
  }

  lemma FineInList(base: Catalogue, ts: seq<Task>, res: Results)
    requires Enumerates(base, ts)
    ensures FineIn(base, res) <==> Fine(ts, res)
  {
    if Fine(ts, res) {
      forall k | k in base && k in res ensures res[k].op.NoPhase? || res[k].op.Running? || res[k].op.Succeeded? {
        var t :| t in ts && t.RKey() == k;
        assert Op(t, res) == res[k].op;
      }
    }
  }

  // As long as the operation has not ended, its calls are granted and what it has started is healthy.
  ghost predicate AllGranted(cfg: Config, calls: seq<Call>, st: State) {
    forall i :: 0 <= i < |calls| && !StateAt(cfg, calls, st, i).phase.Completed() ==>
      Granted(cfg, calls[i].ts, calls[i].env) && Healthful(calls[i].ts, StateAt(cfg, calls, st, i).res)
  }

  // Call number i leaves the operation succeeded, or fine with fewer tasks waiting.
  lemma CallProgress(cfg: Config, base: Catalogue, calls: seq<Call>, st: State, i: nat)
    requires AllEnumerate(base, calls) && AllGranted(cfg, calls, st) && !cfg.dryRun && i < |calls|
    requires !StateAt(cfg, calls, st, i).phase.Completed() && FineIn(base, StateAt(cfg, calls, st, i).res)
    ensures var before, after := StateAt(cfg, calls, st, i), StateAt(cfg, calls, st, i + 1);
            || after.phase.Succeeded?
            || (after.phase.Running? && FineIn(base, after.res)
                && Waiting(base.Keys, after.res) < Waiting(base.Keys, before.res))
  {
    hide SyncStep;
    hide Fine;
    hide FineIn;
    hide Healthful;
    hide Granted;
    hide Scheduled;
    var call, before, after := calls[i], StateAt(cfg, calls, st, i), StateAt(cfg, calls, st, i + 1);
    assert call in calls;
    FineInList(base, call.ts, before.res);
    FineInList(base, call.ts, after.res);
    GoodCall(cfg, call.ts, before, call.env);
    SyncGrows(cfg, call.ts, before, call.env);
    if !after.phase.Succeeded? {
      var t :| t in call.ts && Pending(t, before.res) && !Pending(t, after.res);
      WaitingShrinks(base.Keys, before.res, after.res, t.RKey());
    }
  }

  lemma WaitingShrinks(ks: set<ResultKey>, res: Results, res': Results, k: ResultKey)
    requires Grows(res, res', ks) && k in Waiting(ks, res) && k !in Waiting(ks, res')
    ensures Waiting(ks, res') < Waiting(ks, res)
  {
  }

  // Succeeded after call number n, and running up to then
  ghost predicate SucceedsAfter(cfg: Config, calls: seq<Call>, st: State, n: nat)
    requires n <= |calls|
  {
    n > 0 && StateAt(cfg, calls, st, n).phase.Succeeded? && RunsUpTo(cfg, calls, st, n - 1)
  }

  ghost predicate RunsUpTo(cfg: Config, calls: seq<Call>, st: State, n: nat)
    requires n <= |calls|
  {
    forall i :: 0 < i <= n ==> StateAt(cfg, calls, st, i).phase.Running?
  }

  lemma {:induction false} Progress(cfg: Config, base: Catalogue, calls: seq<Call>, st: State, n: nat)
    requires AllEnumerate(base, calls) && AllGranted(cfg, calls, st) && !cfg.dryRun && n <= |calls|
    requires !st.phase.Completed() && FineIn(base, st.res)
    ensures || (exists m :: 0 < m <= n && SucceedsAfter(cfg, calls, st, m))
            || (&& RunsUpTo(cfg, calls, st, n)
                && FineIn(base, StateAt(cfg, calls, st, n).res)
                && |Waiting(base.Keys, StateAt(cfg, calls, st, n).res)| + n <= |Waiting(base.Keys, st.res)|)
  {
    hide SyncStep;
    hide FineIn;
    hide Waiting;
    hide AllGranted;
    hide AllEnumerate;
    if n > 0 {
      Progress(cfg, base, calls, st, n - 1);
      if m :| 0 < m <= n - 1 && SucceedsAfter(cfg, calls, st, m) {
      } else {
        CallProgress(cfg, base, calls, st, n - 1);
        var before, after := StateAt(cfg, calls, st, n - 1), StateAt(cfg, calls, st, n);
        if after.phase.Succeeded? {
          assert SucceedsAfter(cfg, calls, st, n);
        } else {
          ProperSubsetSmaller(Waiting(base.Keys, after.res), Waiting(base.Keys, before.res));
        }
      }
    }
  }

  /**
   An operation that is no dry run, whose requests are all granted and whose started tasks are healthy by the next
   call, ends as Succeeded, after at most one call more than it has tasks to start.
   */
  lemma EndsWell(cfg: Config, base: Catalogue, calls: seq<Call>, st: State)
    requires AllEnumerate(base, calls) && AllGranted(cfg, calls, st) && !cfg.dryRun
    requires !st.phase.Completed() && FineIn(base, st.res) && |calls| > |Waiting(base.Keys, st.res)|
    ensures exists n :: 0 < n <= |Waiting(base.Keys, st.res)| + 1 && SucceedsAfter(cfg, calls, st, n)
  {
    hide SyncStep;
    Progress(cfg, base, calls, st, |Waiting(base.Keys, st.res)| + 1);
  }
}
