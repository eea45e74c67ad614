/**
 What a call of Sync makes of the health of live objects (pkg/sync/sync_context.go), told of the records it begins
 with and of the live objects: what is recorded of running tasks, and whether the call waits, fails or goes on.
 */
module HealthLaws {
  import opened Kube
  import opened Tasks
  import opened RunSpec
  import opened SyncSpec
  import opened SyncLaws
  import opened AtMostOnce
  import opened SyncRequests

  // ----- records -----

  /**
   What a refresh makes of a record. The live object is asked only while the task is running; a hook takes over
   what it says, another task only that it is done or degraded.
   */
  predicate RefreshedAs(t: Task, was: Result, now: Result) {
    if !was.op.Running? || t.objs.TargetOnly? then now == was
    else if t.IsHook() then
      && now.status == NoCode
      && match t.objs.live.health
         case HealthError => now.op == Error
         case Unknown => now.op == Failed
         case Degraded => now.op == Failed
         case Progressing => now.op == Running
         case Suspended => now.op == Running
         case Healthy => now.op == Succeeded
         case Missing => now.op == Succeeded
         case NoHealth => now.op == Succeeded
    else
      && now.status == was.status
      && match t.objs.live.health
         case Healthy => now.op == Succeeded
         case NoHealth => now.op == Succeeded
         case Degraded => now.op == Failed
         case _ => now.op == Running
  }

  lemma RefreshExactly(ts: seq<Task>, res: Results, t: Task)
    requires DistinctKeys(ts) && t in ts
    ensures RefreshedAs(t, ResultOf(t, res), ResultOf(t, Refresh(ts, res)))
  {
    UpdatesAt(Refreshed(res), ts);
  }

  // ----- waiting -----

  // The task was running, and its live object does not say that it is done.
  predicate StillRunning(t: Task, was: Result) {
    was.op.Running? &&
    (|| t.objs.TargetOnly?
     || (t.IsHook() && t.objs.live.health in {Progressing, Suspended})
     || (!t.IsHook() && t.objs.live.health !in {Healthy, NoHealth, Degraded}))
  }

  // The task has been pruned, and its object is still going.
  predicate StillGoing(t: Task, was: Result) {
    was.status.Pruned? && !t.objs.TargetOnly? && t.objs.live.deleting && !(t.IsHook() && was.op.Running?)
  }

  /** Something running, a hook or anything at all if there are several slots, or an object on its way out */
  predicate IsHeldUp(ts: seq<Task>, res: Results) {
    || (exists t :: t in ts && StillRunning(t, ResultOf(t, res)) &&
          (t.IsHook() || exists i, j :: 0 <= i < j < |ts| && ts[i].Slot() != ts[j].Slot()))
    || (exists t :: t in ts && StillGoing(t, ResultOf(t, res)))
  }

  lemma RunningAfter(ts: seq<Task>, res: Results, t: Task)
    requires DistinctKeys(ts) && t in ts
    ensures Op(t, Refresh(ts, res)).Running? <==> StillRunning(t, ResultOf(t, res))
    ensures StillGoing(t, ResultOf(t, res)) <==>
            ResultOf(t, Refresh(ts, res)).status.Pruned? && t.Live().Some? && t.Live().value.deleting
  {
    RefreshExactly(ts, res, t);
  }

  lemma WaitsExactly(ts: seq<Task>, res: Results)
    requires DistinctKeys(ts) && Scheduled(ts)
    ensures MustWait(ts, Refresh(ts, res)) || AwaitsDeletion(ts, Refresh(ts, res)) <==> IsHeldUp(ts, res)
  {
    hide Refresh;
    hide StillRunning;
    hide StillGoing;
    hide MultiStep;
    forall t | t in ts { RunningAfter(ts, res, t); }
    MultiStepExact(ts);
  }

  // ----- failing -----

  // Recorded as failed, or running and found to have failed
  predicate EndedBadly(t: Task, was: Result) {
    || was.op.Failed? || was.op.Error?
    || (was.op.Running? && !t.objs.TargetOnly? &&
        (t.objs.live.health.Degraded? || (t.IsHook() && t.objs.live.health in {Unknown, HealthError})))
  }

  // A hook that has ended, or is found to have ended
  predicate HookEnded(t: Task, was: Result) {
    && t.IsHook() && !t.objs.TargetOnly?
    && (|| was.op.Failed? || was.op.Error? || was.op.Succeeded?
        || (was.op.Running? && t.objs.live.health !in {Progressing, Suspended}))
  }

  // It has ended but is not let go.
  predicate FinalizerStuck(t: Task, was: Result, env: Env) {
    HookEnded(t, was) && t.objs.live.hookFinalizer && !env.cleanFinalizer(t.RKey())
  }

  predicate HasFailed(t: Task, was: Result, env: Env) {
    EndedBadly(t, was) || FinalizerStuck(t, was, env)
  }

  predicate RegularFailed(ts: seq<Task>, res: Results, env: Env) {
    exists t :: t in ts && !t.phase.SyncFail? && HasFailed(t, ResultOf(t, res), env)
  }

  function Decided(ts: seq<Task>, res: Results, env: Env): Results {
    CleanFinalizers(ts, Refresh(ts, res), env)
  }

  lemma CleanedOne(ts: seq<Task>, now: Results, env: Env, t: Task)
    requires DistinctKeys(ts) && t in ts
    ensures ResultOf(t, CleanFinalizers(ts, now, env)) ==
            if NeedsCleaning(t, now) && !env.cleanFinalizer(t.RKey()) then Result(ResultOf(t, now).status, Error)
            else ResultOf(t, now)
  {
    hide NeedsCleaning;
    UpdatesAt(CleanFailure(env, now), ts);
  }

  lemma CleanedExactly(ts: seq<Task>, res: Results, env: Env, t: Task)
    requires DistinctKeys(ts) && t in ts
    ensures var now := ResultOf(t, Refresh(ts, res));
            ResultOf(t, Decided(ts, res, env)) ==
            if FinalizerStuck(t, ResultOf(t, res), env) then Result(now.status, Error) else now
  {
    hide Refresh;
    hide CleanFinalizers;
    RefreshExactly(ts, res, t);
    CleanedOne(ts, Refresh(ts, res), env, t);
  }

  lemma DecidedExactly(ts: seq<Task>, res: Results, env: Env, t: Task)
    requires DistinctKeys(ts) && t in ts
    ensures Op(t, Decided(ts, res, env)).Unsuccessful() <==> HasFailed(t, ResultOf(t, res), env)
    ensures Pending(t, Decided(ts, res, env)) <==> Pending(t, res)
    ensures Op(t, Decided(ts, res, env)).Running? <==>
            StillRunning(t, ResultOf(t, res)) && !FinalizerStuck(t, ResultOf(t, res), env)
  {
    hide Decided;
    CleanedExactly(ts, res, env, t);
    RefreshExactly(ts, res, t);
  }

  lemma FailsExactly(ts: seq<Task>, res: Results, env: Env)
    requires DistinctKeys(ts)
    ensures SomeRegularUnsuccessful(ts, Decided(ts, res, env)) <==> RegularFailed(ts, res, env)
  {
    hide Decided;
    hide HasFailed;
    forall t | t in ts { DecidedExactly(ts, res, env, t); }
  }

  // ----- one call of an operation that has been started -----

  // A regular task the call might start: nothing is recorded of it, and it is not to be skipped as unmodified.
  predicate CanStart(cfg: Config, t: Task, res: Results, env: Env) {
    && !t.phase.SyncFail? && (t.RKey() in res ==> res[t.RKey()].op.NoPhase?)
    && !(cfg.applyOutOfSyncOnly && !t.IsHook() && t.objs.TargetAndLive? &&
         env.unmodified(t.objs.target.key.(namespace := t.objs.live.key.namespace)))
  }

  lemma CandidatesFromRecords(cfg: Config, ts: seq<Task>, res: Results, env: Env, t: Task)
    requires DistinctKeys(ts) && Scheduled(ts)
    ensures t in Candidates(cfg, ts, Decided(ts, res, env), env) <==> t in ts && CanStart(cfg, t, res, env)
  {
    hide Decided;
    hide Candidates;
    hide Scheduled;
    CandidatesExact(cfg, ts, Decided(ts, res, env), env);
    if t in ts {
      DecidedExactly(ts, res, env, t);
      SkippedExactly(cfg, t, Decided(ts, res, env), env);
    }
  }

  lemma SkippedExactly(cfg: Config, t: Task, res: Results, env: Env)
    ensures Skipped(cfg, env, t, res) <==>
            Pending(t, res) && cfg.applyOutOfSyncOnly && !t.IsHook() && t.objs.TargetAndLive? &&
            env.unmodified(t.objs.target.key.(namespace := t.objs.live.key.namespace))
  {
    if t.objs.TargetAndLive? {
      assert t.LookupKey() == t.objs.target.key.(namespace := t.objs.live.key.namespace);
    }
  }

  /**
   What a call of a started operation does: it waits exactly when something holds it up; else it deals with a failure
   exactly when a regular task has failed; else it runs a wave exactly when there is a task to start, and
   succeeds when there is none.
   */
  lemma CallFollows(cfg: Config, ts: seq<Task>, st: State, env: Env)
    requires DistinctKeys(ts) && Scheduled(ts) && env.valid && st.res != map[] && !st.phase.Succeeded?
    ensures var step := SyncStep(cfg, ts, st, env);
            if IsHeldUp(ts, st.res) then step.phase.Running? && step.wave.None? && step.steps == []
            else if RegularFailed(ts, st.res, env) then
              step.wave.None? && !step.phase.Succeeded? && step.phase in {Failed, st.phase} && step.steps != []
            else if exists t :: t in ts && CanStart(cfg, t, st.res, env) then step.wave.Some?
            else step.wave.None? && step.phase.Succeeded?
  {
    hide RegularFailed;
    hide IsHeldUp;
    hide CanStart;
    hide Fail;
    hide RunWave;
    hide Candidates;
    WaitsExactly(ts, st.res);
    FailsExactly(ts, st.res, env);
    forall t { CandidatesFromRecords(cfg, ts, st.res, env, t); }
    var res := Decided(ts, st.res, env);
    DecideShape(cfg, ts, st.phase, res, env);
    FailKeepsFailures(cfg, ts, HasExpired(HookFailed, res), st.phase, res, env);
    RunsWave(cfg, ts, res, env);
  }

  // The phase that such a call leaves; a wave may end in any.
  predicate PhaseFollows(cfg: Config, ts: seq<Task>, st: State, env: Env, phase: OpPhase) {
    if IsHeldUp(ts, st.res) then phase.Running?
    else if RegularFailed(ts, st.res, env) then phase in {Failed, st.phase}
    else (exists t :: t in ts && CanStart(cfg, t, st.res, env)) || phase.Succeeded?
  }

  lemma RunsWave(cfg: Config, ts: seq<Task>, res: Results, env: Env)
    ensures var todo := Candidates(cfg, ts, res, env);
            todo != [] ==> todo[0] in todo && RunWave(cfg, ts, todo, res, env).wave.Some?
  {
    hide RunTasks;
    hide AfterWave;
    hide Candidates;
  }

  // A call of a started operation waits, or decides.
  lemma WaitsOrDecides(cfg: Config, ts: seq<Task>, st: State, env: Env)
    requires env.valid && st.res != map[]
    ensures var step, now, res := SyncStep(cfg, ts, st, env), Refresh(ts, st.res), Decided(ts, st.res, env);
            if MustWait(ts, now) || AwaitsDeletion(ts, now) then step == Quiet(Running, now)
            else step.(steps := []) == Decide(cfg, ts, st.phase, res, env).(steps := [])
  {
    hide Refresh;
    hide CleanFinalizers;
    hide Decide;
    hide MustWait;
    hide AwaitsDeletion;
  }

  lemma FailureStays(cfg: Config, ts: seq<Task>, phase: OpPhase, res: Results, env: Env, t: Task)
    requires DistinctKeys(ts) && t in ts && !t.phase.SyncFail? && Op(t, res).Unsuccessful()
    ensures var step := Decide(cfg, ts, phase, res, env);
            step.wave.None? && step.phase in {Failed, phase} &&
            t.RKey() in step.res && step.res[t.RKey()].op.Unsuccessful()
  {
    hide Decide;
    hide Fail;
    hide RunWave;
    hide Candidates;
    assert SomeRegularUnsuccessful(ts, res);
    DecideShape(cfg, ts, phase, res, env);
    FailKeepsFailures(cfg, ts, HasExpired(HookFailed, res), phase, res, env);
  }

  /**
   A call that begins with a regular task found to have failed runs no wave and does not succeed, really applies or
   prunes no regular task, and leaves the task recorded as failed or in error.
   */
  lemma FailedTaskStops(cfg: Config, ts: seq<Task>, st: State, env: Env, t: Task, k: ResultKey)
    requires DistinctKeys(ts) && env.valid && !st.phase.Succeeded? && t in ts && !t.phase.SyncFail?
    requires t.RKey() in st.res && EndedBadly(t, st.res[t.RKey()]) && !k.phase.SyncFail?
    ensures var step := SyncStep(cfg, ts, st, env);
            && step.wave.None? && !step.phase.Succeeded? && Touches(step.steps, k) == 0
            && t.RKey() in step.res && step.res[t.RKey()].op in {Failed, Error}
  {
    hide SyncStep;
    hide Refresh;
    hide Decided;
    hide Decide;
    hide Touches;
    hide MustWait;
    hide AwaitsDeletion;
    RefreshExactly(ts, st.res, t);
    DecidedExactly(ts, st.res, env, t);
    RegularTouches(cfg, ts, st, env, k);
    WaitsOrDecides(cfg, ts, st, env);
    FailureStays(cfg, ts, st.phase, Decided(ts, st.res, env), env, t);
    var step, made := SyncStep(cfg, ts, st, env), Decide(cfg, ts, st.phase, Decided(ts, st.res, env), env);
    if step.(steps := []) == made.(steps := []) {
      assert step.wave == made.wave && step.phase == made.phase && step.res == made.res;
    }
  }

  /**
   When a call decides Succeeded, every hook that was running when it began has a live object, which is healthy,
   missing or without assessment; a hook for the case of failure may also have ended badly.
   */
  lemma SuccessNeedsHealth(cfg: Config, ts: seq<Task>, st: State, env: Env, t: Task)
    requires DistinctKeys(ts) && Scheduled(ts) && t in ts && t.IsHook() && !st.phase.Succeeded?
    requires t.RKey() in st.res && st.res[t.RKey()].op.Running?
    requires SyncStep(cfg, ts, st, env).phase.Succeeded?
    ensures !t.objs.TargetOnly? && t.objs.live.health !in {Progressing, Suspended}
    ensures !t.phase.SyncFail? ==> t.objs.live.health in {Healthy, Missing, NoHealth}
  {
    hide SyncStep;
    hide IsHeldUp;
    hide RegularFailed;
    hide CanStart;
    assert SyncStep(cfg, ts, st, env).phase.Succeeded? ==> env.valid by { InvalidFails(cfg, ts, st, env); }
    CallFollows(cfg, ts, st, env);
    assert !IsHeldUp(ts, st.res) && !RegularFailed(ts, st.res, env);
    HooksDone(ts, st.res, env, t);
  }

  lemma InvalidFails(cfg: Config, ts: seq<Task>, st: State, env: Env)
    ensures !env.valid ==> SyncStep(cfg, ts, st, env).phase.Failed?
  {
  }

  lemma HooksDone(ts: seq<Task>, res: Results, env: Env, t: Task)
    requires t in ts && t.IsHook() && t.RKey() in res && res[t.RKey()].op.Running?
    requires !IsHeldUp(ts, res) && !RegularFailed(ts, res, env)
    ensures !t.objs.TargetOnly? && t.objs.live.health !in {Progressing, Suspended}
    ensures !t.phase.SyncFail? ==> t.objs.live.health in {Healthy, Missing, NoHealth}
  {
    assert ResultOf(t, res) == res[t.RKey()];
  }
}
