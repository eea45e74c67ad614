/** An operation that does run the application namespace twice, as a SyncFail hook, and when there is one. */
module NamespaceRerun {
  import opened Kube
  import opened Lists
  import opened Tasks
  import opened RunSpec
  import opened RunLaws
  import opened SyncSpec
  import opened SyncLaws
  import opened SyncOutcome
  import opened AtMostOnce
  import opened SyncRequests
  import opened SyncRuns
  import opened RequestRuns
  import opened DryRuns
  import opened GoodAnswers
  import opened SyncFailRuns
  import opened SyncFailTwice

  // ----- what is live after the first call -----

  predicate LikeTask(t: Task, u: Task) {
    u.RKey() == t.RKey() && u.Slot() == t.Slot() && u.IsHook() == t.IsHook() && TargetOf(u) == TargetOf(t)
  }

  predicate LaterFacts(k: ResultKey, u: Task) {
    && (u.IsPrune() ==> u.objs.live.options == {} && !u.objs.live.deleting)
    && (u.RKey() == k && !u.IsPrune() ==>
          u.objs.TargetAndLive? && u.objs.live.health.Healthy? && !u.objs.live.hookFinalizer)
  }

  // The namespace exists and is healthy; what is to be pruned is neither protected nor being deleted.
  function LaterTask(k: ResultKey, t: Task): (u: Task)
    ensures LikeTask(t, u) && LaterFacts(k, u)
  {
    if t.IsPrune() then t.(objs := LiveOnly(t.objs.live.(options := {}, deleting := false)))
    else if t.RKey() == k then
      var live := t.objs.target.(hookFinalizer := false, deleting := false, health := Healthy);
      t.(objs := TargetAndLive(t.objs.target, live))
    else t
  }

  function Later(k: ResultKey, ts: seq<Task>): (us: seq<Task>)
    ensures Alike(ts, us) && forall u :: u in us ==> LaterFacts(k, u)
  {
    seq(|ts|, i requires 0 <= i < |ts| => LaterTask(k, ts[i]))
  }

  predicate Alike(ts: seq<Task>, us: seq<Task>) {
    |us| == |ts| && forall i :: 0 <= i < |ts| ==> LikeTask(ts[i], us[i])
  }

  lemma AlikeKeys(ts: seq<Task>, us: seq<Task>)
    requires Alike(ts, us)
    ensures KeysOf(us) == KeysOf(ts)
  {
    forall k | k in KeysOf(ts) ensures k in KeysOf(us) {
      var t :| t in ts && t.RKey() == k;
      var i :| 0 <= i < |ts| && ts[i] == t;
      assert us[i] in us;
    }
    forall k | k in KeysOf(us) ensures k in KeysOf(ts) {
      var u :| u in us && u.RKey() == k;
      var i :| 0 <= i < |us| && us[i] == u;
      assert ts[i] in ts;
    }
  }

  lemma AlikeOrder(ts: seq<Task>, us: seq<Task>)
    requires Alike(ts, us) && DistinctKeys(ts) && Scheduled(ts)
    ensures DistinctKeys(us) && Scheduled(us)
  {
    hide TargetOf;
    hide SlotLeq;
    assert forall i :: 0 <= i < |ts| ==> us[i].RKey() == ts[i].RKey() && us[i].Slot() == ts[i].Slot();
  }

  lemma AlikeEnumerates(base: Catalogue, ts: seq<Task>, us: seq<Task>)
    requires Alike(ts, us) && Enumerates(base, ts)
    ensures Enumerates(base, us)
  {
    AlikeKeys(ts, us);
    AlikeOrder(ts, us);
    hide DistinctKeys;
    hide Scheduled;
    forall u | u in us ensures base[u.RKey()] == u.wave {
      var i :| 0 <= i < |us| && us[i] == u;
      assert ts[i] in ts && u.wave == u.Slot().wave == ts[i].Slot().wave == ts[i].wave;
    }
  }

  lemma AlikeFound(ts: seq<Task>, us: seq<Task>)
    requires Alike(ts, us) && AsFound(ts)
    ensures AsFound(us)
  {
    forall u | u in us ensures (u.phase.SyncFail? ==> u.IsHook() && !u.IsPrune()) && (u.IsPrune() ==> !u.IsHook()) {
      var i :| 0 <= i < |us| && us[i] == u;
      assert ts[i] in ts && u.phase == u.Slot().phase == ts[i].Slot().phase == ts[i].phase;
      assert u.IsPrune() <==> TargetOf(u).None?;
    }
  }

  lemma AlikeTargets(ts: seq<Task>, us: seq<Task>)
    requires Alike(ts, us) && DistinctKeys(ts)
    ensures SameTargets(ts, us)
  {
    hide TargetOf;
    forall t, u | t in ts && u in us && t.RKey() == u.RKey() ensures TargetOf(t) == TargetOf(u) {
      var i :| 0 <= i < |us| && us[i] == u;
      DistinctSame(KeyOf(), ts, t, ts[i]);
    }
  }

  predicate IsLater(k: ResultKey, us: seq<Task>) {
    && DistinctKeys(us) && Scheduled(us) && AsFound(us) && k.phase.SyncFail? && k in KeysOf(us)
    && forall t :: t in us ==> LaterFacts(k, t)
  }

  const STEADY :=
    Env(true, SMOOTH_CALLS, SMOOTH_CALLS, SMOOTH_CALLS, SMOOTH_CALLS, k => true, k => Ok, true, k => false)

  const FAILING := STEADY.(wave := BAD_CALLS)

  // ----- from the first call to the failure -----

  // The namespace has been created; some tasks to be pruned have been skipped, and nothing else has happened.
  predicate Calm(k: ResultKey, us: seq<Task>, res: Results) {
    && k in res && res[k] in {Result(Synced, Running), Result(NoCode, Succeeded)}
    && forall t :: t in us && t.RKey() != k ==>
         t.RKey() !in res || (!t.phase.SyncFail? && t.IsPrune() && Op(t, res).Succeeded?)
  }

  ghost predicate Steady(env: Env) {
    && env.valid
    && (forall k :: env.cleanFinalizer(k)) && (forall k :: env.cleanHook(k).Ok?)
    && forall k :: !env.unmodified(k)
  }

  // Only the namespace is running, so only it is refreshed.
  lemma RefreshedAt(k: ResultKey, us: seq<Task>, res: Results, t: Task)
    requires IsLater(k, us) && Calm(k, us, res) && t in us
    ensures var now := Refresh(us, res);
            if t.RKey() == k then k in now && now[k] == Result(NoCode, Succeeded)
            else ResultOf(t, now) == ResultOf(t, res) && (t.RKey() in now <==> t.RKey() in res)
  {
    hide Updates;
    UpdatesAt(Refreshed(res), us);
  }

  lemma CalmRefreshed(k: ResultKey, us: seq<Task>, res: Results)
    requires IsLater(k, us) && Calm(k, us, res)
    ensures var now := Refresh(us, res);
            Calm(k, us, now) && now[k] == Result(NoCode, Succeeded) && !MustWait(us, now) && !AwaitsDeletion(us, now)
  {
    hide Refresh;
    var now := Refresh(us, res);
    forall t | t in us
      ensures if t.RKey() == k then k in now && now[k] == Result(NoCode, Succeeded)
              else ResultOf(t, now) == ResultOf(t, res) && (t.RKey() in now <==> t.RKey() in res)
    {
      RefreshedAt(k, us, res, t);
    }
    CalmIdle(k, us, now);
  }

  lemma CalmIdle(k: ResultKey, us: seq<Task>, res: Results)
    requires IsLater(k, us) && Calm(k, us, res) && res[k] == Result(NoCode, Succeeded)
    ensures !MustWait(us, res) && !AwaitsDeletion(us, res)
  {
  }

  lemma CalmDecision(cfg: Config, k: ResultKey, us: seq<Task>, res: Results, env: Env)
    requires IsLater(k, us) && Calm(k, us, res) && Steady(env)
    ensures var st := State(Running, res);
            && Reaches(cfg, us, st, env)
            && Calm(k, us, DecisionResults(cfg, us, st, env))
            && DecisionResults(cfg, us, st, env)[k] == Result(NoCode, Succeeded)
            && DecisionResults(cfg, us, st, env) == Refresh(us, res)
  {
    hide Calm;
    hide MustWait;
    hide AwaitsDeletion;
    hide Refresh;
    assert res != map[] by { CalmNotEmpty(k, us, res); }
    CalmRefreshed(k, us, res);
    var now := Refresh(us, res);
    NoUpdates(CleanFailure(env, now), us);
    assert CleanFinalizers(us, now, env) == now;
  }

  lemma CalmNotEmpty(k: ResultKey, us: seq<Task>, res: Results)
    requires Calm(k, us, res)
    ensures res != map[]
  {
  }

  // The candidates are the regular tasks not started, and none of them has failed.
  lemma CalmCandidates(cfg: Config, k: ResultKey, us: seq<Task>, res: Results, env: Env)
    requires IsLater(k, us) && Calm(k, us, res) && Steady(env)
    ensures !SomeRegularUnsuccessful(us, res)
    ensures forall t :: t in Candidates(cfg, us, res, env) <==> t in us && !t.phase.SyncFail? && t.RKey() !in res
    ensures Scheduled(Candidates(cfg, us, res, env))
  {
    CandidatesExact(cfg, us, res, env);
    hide Candidates;
    forall t | t in us && !t.phase.SyncFail?
      ensures !Op(t, res).Unsuccessful() && !Skipped(cfg, env, t, res) && (Pending(t, res) <==> t.RKey() !in res)
    {
      assert t.RKey() != k && !env.unmodified(t.LookupKey());
    }
  }

  lemma Confirmed(cfg: Config, k: ResultKey, us: seq<Task>, part: seq<Task>)
    requires IsLater(k, us) && forall t :: t in part ==> t in us
    ensures !AwaitsConfirmation(cfg, Prunes(part)) && !AwaitsConfirmation(cfg, part)
  {
  }

  // ----- the call that fails -----

  lemma AllSmooth(ts: seq<Task>)
    ensures Smooth(SMOOTH_CALLS, ts)
  {
  }

  lemma NoneFail(hooks: seq<Task>, res: Results, env: Env)
    requires Steady(env)
    ensures DeleteExpired(hooks, res, env) == res
  {
    forall u | u in hooks ensures DeleteFailure(env)(u).None? { assert env.cleanHook(u.RKey()).Ok?; }
    NoUpdates(DeleteFailure(env), hooks);
    assert res + map[] == res;
  }

  // Handling a failure runs all SyncFail hooks as long as one of them is pending.
  lemma FailTouches(cfg: Config, us: seq<Task>, p: Task -> bool, phase: OpPhase, res: Results, env: Env, t: Task,
                    o: Task)
    requires t in us && o in us && t.phase.SyncFail? && o.phase.SyncFail? && Pending(o, res) && !cfg.dryRun
    requires SyncFailHooks(us) && Steady(env) && env.syncFail == SMOOTH_CALLS
    ensures Touches(Fail(cfg, us, Filter(p, us), phase, res, env).steps, t.RKey()) > 0
  {
    hide RunTasks;
    hide Touches;
    hide Smooth;
    var expired, syncFail := Filter(p, us), Filter(IsSyncFail(), us);
    NoneFail(expired, res, env);
    hide DeleteExpired;
    hide Steady;
    assert o in syncFail && Smooth(SMOOTH_CALLS, syncFail) by { AllSmooth(syncFail); }
    SmoothTouches(cfg, syncFail, SMOOTH_CALLS, res, t);
    TouchesAppend([Asking(AsksDelete(), expired)], RunTasks(cfg, syncFail, false, SMOOTH_CALLS, res).steps, t.RKey());
  }

  lemma BatchFails(cfg: Config, k: ResultKey, us: seq<Task>, batch: seq<Task>, res: Results, o: Task, r: Task)
    requires IsLater(k, us) && !cfg.dryRun && Pending(o, res) && o in us && o.phase.SyncFail?
    requires DistinctKeys(batch) && forall t :: t in batch ==> t in us && !t.phase.SyncFail?
    requires r in batch && Fallible(cfg, r)
    ensures var out := RunTasks(cfg, batch, false, BAD_CALLS, res); out.state.RunFailed? && Pending(o, out.res)
  {
    hide RunTasks;
    hide IsLater;
    Confirmed(cfg, k, us, batch);
    BadRun(cfg, batch, res, r);
    RunTasksGrows(cfg, batch, false, BAD_CALLS, res);
    assert o.RKey() !in KeysOf(batch);
  }

  lemma FailingWave(cfg: Config, k: ResultKey, us: seq<Task>, res: Results, n: Task, o: Task, r: Task)
    requires IsLater(k, us) && Calm(k, us, res) && !cfg.dryRun
    requires n in us && n.RKey() == k && o in us && o.phase.SyncFail? && o.RKey() != k
    requires Candidates(cfg, us, res, FAILING) != [] && r in Batch(Candidates(cfg, us, res, FAILING))
    requires Fallible(cfg, r)
    ensures Touches(RunWave(cfg, us, Candidates(cfg, us, res, FAILING), res, FAILING).steps, k) > 0
  {
    hide RunTasks;
    hide Touches;
    hide Fail;
    hide Candidates;
    var todo := Candidates(cfg, us, res, FAILING);
    BatchKeys(cfg, us, res, FAILING);
    var batch := Batch(todo);
    hide Batch;
    assert o.RKey() !in res;
    hide Calm;
    var out := RunTasks(cfg, batch, false, BAD_CALLS, res);
    BatchFails(cfg, k, us, batch, res, o, r);
    assert SyncFailHooks(us) && Steady(FAILING) && n.phase == n.RKey().phase;
    hide IsLater;
    hide Steady;
    FailedWaveSteps(cfg, us, todo, res, FAILING);
    hide RunWave;
    hide Filter;
    FailTouches(cfg, us, HasExpired(HookFailed, res), Running, out.res, FAILING, n, o);
    TouchesAppend(out.steps, Fail(cfg, us, Filter(HasExpired(HookFailed, res), us), Running, out.res, FAILING).steps,
                  k);
  }

  lemma FailedWaveSteps(cfg: Config, us: seq<Task>, todo: seq<Task>, res: Results, env: Env)
    requires todo != [] && RunTasks(cfg, Batch(todo), false, env.wave, res).state.RunFailed?
    ensures var out := RunTasks(cfg, Batch(todo), false, env.wave, res);
            RunWave(cfg, us, todo, res, env).steps ==
            out.steps + Fail(cfg, us, Filter(HasExpired(HookFailed, res), us), Running, out.res, env).steps
  {
    hide RunTasks;
    hide Fail;
    hide Filter;
  }

  // ----- a call that skips tasks to be pruned -----

  lemma SkippingWave(cfg: Config, k: ResultKey, us: seq<Task>, res: Results, r: Task)
    requires IsLater(k, us) && Calm(k, us, res) && res[k] == Result(NoCode, Succeeded) && !cfg.dryRun
    requires Candidates(cfg, us, res, STEADY) != [] && r in Candidates(cfg, us, res, STEADY) && MayFail(cfg, r)
    requires forall t :: t in Batch(Candidates(cfg, us, res, STEADY)) ==> !MayFail(cfg, t)
    ensures var step := RunWave(cfg, us, Candidates(cfg, us, res, STEADY), res, STEADY);
            && step.phase.Running? && Calm(k, us, step.res) && r.RKey() !in step.res
            && step.wave.Some? && step.wave.value.state.RunSuccessful?
  {
    hide RunTasks;
    hide AfterWave;
    var todo := Candidates(cfg, us, res, STEADY);
    CalmCandidates(cfg, k, us, res, STEADY);
    BatchKeys(cfg, us, res, STEADY);
    hide Candidates;
    var batch := Batch(todo);
    assert r !in batch && r in Filter(IsBeyond(todo[0].Slot()), todo);
    hide Batch;
    var out := RunTasks(cfg, batch, false, SMOOTH_CALLS, res);
    SkippingBatch(cfg, k, us, batch, res);
    NotInKeys(us, batch, r);
    RunTasksGrows(cfg, batch, false, SMOOTH_CALLS, res);
    GoesOn(cfg, us, todo, res, out, STEADY);
  }

  lemma GoesOn(cfg: Config, us: seq<Task>, todo: seq<Task>, res: Results, out: RunOut, env: Env)
    requires todo != [] && out.state.RunSuccessful? && env.waveHookOk && Filter(IsBeyond(todo[0].Slot()), todo) != []
    ensures AfterWave(cfg, us, todo, res, out, env) == Quiet(Running, out.res)
  {
  }

  lemma SkippingBatch(cfg: Config, k: ResultKey, us: seq<Task>, batch: seq<Task>, res: Results)
    requires IsLater(k, us) && Calm(k, us, res) && !cfg.dryRun && DistinctKeys(batch) && batch != []
    requires forall t :: t in batch ==> t in us && !t.phase.SyncFail? && !MayFail(cfg, t)
    ensures var out := RunTasks(cfg, batch, false, SMOOTH_CALLS, res); out.state.RunSuccessful? && Calm(k, us, out.res)
  {
    hide RunTasks;
    var out := RunTasks(cfg, batch, false, SMOOTH_CALLS, res);
    assert batch[0] in batch;
    Confirmed(cfg, k, us, batch);
    PruneRun(cfg, batch, SMOOTH_CALLS, res);
    RunTasksSuccess(cfg, batch, false, SMOOTH_CALLS, res);
    RunTasksGrows(cfg, batch, false, SMOOTH_CALLS, res);
    SkippedCalm(cfg, k, us, batch, res, out.res);
  }

  lemma SkippedCalm(cfg: Config, k: ResultKey, us: seq<Task>, batch: seq<Task>, res: Results, res': Results)
    requires IsLater(k, us) && Calm(k, us, res) && Grows(res, res', KeysOf(batch)) && !cfg.dryRun
    requires forall t :: t in batch ==> t in us && !t.phase.SyncFail? && t.IsPrune() && CarriedOut(cfg, t, res')
    ensures Calm(k, us, res')
  {
    forall t | t in us && t.RKey() != k
      ensures t.RKey() !in res' || (!t.phase.SyncFail? && t.IsPrune() && Op(t, res').Succeeded?)
    {
      if t !in batch { NotInKeys(us, batch, t); }
    }
    assert k !in KeysOf(batch);
  }

  // ----- call after call, up to the failure -----

  // The requests of a call that takes its decision, in an operation that has begun, are those of its wave.
  lemma WaveOnly(cfg: Config, k: ResultKey, us: seq<Task>, res: Results, env: Env)
    requires IsLater(k, us) && Calm(k, us, res) && Steady(env)
    requires Candidates(cfg, us, DecisionResults(cfg, us, State(Running, res), env), env) != []
    ensures var st := State(Running, res);
            var made := RunWave(cfg, us, Candidates(cfg, us, DecisionResults(cfg, us, st, env), env),
                                DecisionResults(cfg, us, st, env), env);
            && SyncStep(cfg, us, st, env).(steps := []) == made.(steps := [])
            && Touches(SyncStep(cfg, us, st, env).steps, k) == Touches(made.steps, k)
  {
    hide SyncStep;
    hide Decide;
    hide DecisionResults;
    hide Candidates;
    hide RunWave;
    hide Touches;
    hide IsLater;
    hide Reaches;
    hide Fail;
    hide SomeRegularUnsuccessful;
    var st := State(Running, res);
    CalmNotEmpty(k, us, res);
    CalmDecision(cfg, k, us, res, env);
    StepTouches(cfg, us, st, env, k);
    CalmCandidates(cfg, k, us, DecisionResults(cfg, us, st, env), env);
    DecideShape(cfg, us, Running, DecisionResults(cfg, us, st, env), env);
  }

  lemma StateAfter(cfg: Config, call: Call, rest: seq<Call>, st: State, i: nat)
    requires i <= |rest|
    ensures StateAt(cfg, [call] + rest, st, i + 1) == StateAt(cfg, rest, SyncStep(cfg, call.ts, st, call.env).Next(), i)
  {
    hide SyncStep;
    var calls := [call] + rest;
    if i > 0 {
      StateAfter(cfg, call, rest, st, i - 1);
      assert calls[i] == rest[i - 1];
    }
  }

  lemma StepsAfter(cfg: Config, call: Call, rest: seq<Call>, st: State, i: nat)
    requires i <= |rest|
    ensures StateAt(cfg, [call] + rest, st, i + 1) == StateAt(cfg, rest, SyncStep(cfg, call.ts, st, call.env).Next(), i)
    ensures var first := SyncStep(cfg, call.ts, st, call.env);
            AllSteps(cfg, [call] + rest, st, i + 1) == first.steps + AllSteps(cfg, rest, first.Next(), i)
  {
    hide SyncStep;
    hide StateAt;
    StateAfter(cfg, call, rest, st, i);
    var calls, first := [call] + rest, SyncStep(cfg, call.ts, st, call.env);
    if i == 0 {
      assert StateAt(cfg, calls, st, 0) == st by { StateAtStart(cfg, calls, st); }
      assert AllSteps(cfg, calls, st, 1) == AllSteps(cfg, calls, st, 0) + StepAt(cfg, calls, st, 0).steps;
      assert first.steps + [] == [] + first.steps;
    } else {
      StepsAfter(cfg, call, rest, st, i - 1);
      assert calls[i] == rest[i - 1];
      assert StepAt(cfg, calls, st, i) == StepAt(cfg, rest, first.Next(), i - 1);
      hide StepAt;
      Regroup(first.steps, AllSteps(cfg, rest, first.Next(), i - 1), StepAt(cfg, rest, first.Next(), i - 1).steps);
    }
  }

  lemma Regroup<T>(a: seq<T>, b: seq<T>, c: seq<T>)
    ensures a + (b + c) == (a + b) + c
  {
  }

  lemma StateAtStart(cfg: Config, calls: seq<Call>, st: State)
    ensures StateAt(cfg, calls, st, 0) == st
  {
  }

  // Calls that only skip, and then one that fails: the namespace is applied on the way.
  ghost predicate RunsOnTo(cfg: Config, us: seq<Task>, st: State, k: ResultKey, calls: seq<Call>) {
    && calls != [] && (forall c :: c in calls ==> c.ts == us)
    && (forall i :: 0 <= i < |calls| ==> StateAt(cfg, calls, st, i).phase.Running?)
    && Touches(AllSteps(cfg, calls, st, |calls|), k) > 0
  }

  lemma RunsOnOne(cfg: Config, us: seq<Task>, st: State, k: ResultKey, env: Env)
    requires st.phase.Running? && Touches(SyncStep(cfg, us, st, env).steps, k) > 0
    ensures RunsOnTo(cfg, us, st, k, [Call(us, env)])
  {
    hide SyncStep;
    hide Touches;
    var calls := [Call(us, env)];
    assert AllSteps(cfg, calls, st, 1) == AllSteps(cfg, calls, st, 0) + StepAt(cfg, calls, st, 0).steps;
    assert [] + SyncStep(cfg, us, st, env).steps == SyncStep(cfg, us, st, env).steps;
  }

  lemma RunsOnMore(cfg: Config, us: seq<Task>, st: State, k: ResultKey, env: Env, rest: seq<Call>)
    requires st.phase.Running? && RunsOnTo(cfg, us, SyncStep(cfg, us, st, env).Next(), k, rest)
    ensures RunsOnTo(cfg, us, st, k, [Call(us, env)] + rest)
  {
    hide SyncStep;
    hide Touches;
    var calls := [Call(us, env)] + rest;
    forall i | 0 <= i < |calls| ensures StateAt(cfg, calls, st, i).phase.Running? {
      if i > 0 { StepsAfter(cfg, Call(us, env), rest, st, i - 1); }
    }
    StepsAfter(cfg, Call(us, env), rest, st, |rest|);
    TouchesAppend(SyncStep(cfg, us, st, env).steps, AllSteps(cfg, rest, SyncStep(cfg, us, st, env).Next(), |rest|), k);
  }

  lemma RunsOn(cfg: Config, k: ResultKey, us: seq<Task>, res: Results, n: Task, o: Task, r: Task)
    returns (calls: seq<Call>)
    requires IsLater(k, us) && Calm(k, us, res) && !cfg.dryRun
    requires n in us && n.RKey() == k && o in us && o.phase.SyncFail? && o.RKey() != k
    requires r in us && MayFail(cfg, r) && r.RKey() !in res
    ensures RunsOnTo(cfg, us, State(Running, res), k, calls)
    decreases |Unstarted(KeysOf(us), res)|
  {
    hide SyncStep;
    hide DecisionResults;
    hide Candidates;
    hide RunWave;
    hide RunsOnTo;
    hide Touches;
    hide Batch;
    hide Unstarted;
    hide Calm;
    var st := State(Running, res);
    NowCalm(cfg, k, us, res, r);
    var dr := DecisionResults(cfg, us, st, STEADY);
    var todo := Candidates(cfg, us, dr, STEADY);
    if t :| t in Batch(todo) && MayFail(cfg, t) {
      FailsNow(cfg, k, us, res, n, o, t);
      RunsOnOne(cfg, us, st, k, FAILING);
      calls := [Call(us, FAILING)];
    } else {
      SkippingWave(cfg, k, us, dr, r);
      WaveOnly(cfg, k, us, res, STEADY);
      var step := SyncStep(cfg, us, st, STEADY);
      var bare := step.(steps := []);
      assert step.wave == bare.wave && step.res == bare.res && step.phase == bare.phase;
      assert DistinctKeys(us);
      WaveProgress(cfg, us, st, STEADY);
      ProperSubsetSmaller(Unstarted(KeysOf(us), step.res), Unstarted(KeysOf(us), res));
      var rest := RunsOn(cfg, k, us, step.res, n, o, r);
      RunsOnMore(cfg, us, st, k, STEADY, rest);
      calls := [Call(us, STEADY)] + rest;
    }
  }

  // The candidates are the same whichever of the two answers is to come.
  lemma NowCalm(cfg: Config, k: ResultKey, us: seq<Task>, res: Results, r: Task)
    requires IsLater(k, us) && Calm(k, us, res) && r in us && !r.phase.SyncFail? && r.RKey() !in res
    ensures var st := State(Running, res);
            var dr := DecisionResults(cfg, us, st, STEADY);
            && dr == DecisionResults(cfg, us, st, FAILING)
            && Candidates(cfg, us, dr, STEADY) == Candidates(cfg, us, dr, FAILING)
            && Calm(k, us, dr) && dr[k] == Result(NoCode, Succeeded) && r in Candidates(cfg, us, dr, STEADY)
  {
    hide DecisionResults;
    hide Reaches;
    CalmDecision(cfg, k, us, res, STEADY);
    CalmDecision(cfg, k, us, res, FAILING);
    RefreshedAt(k, us, res, r);
    var dr := Refresh(us, res);
    CalmCandidates(cfg, k, us, dr, STEADY);
    FilterAgree(IsOutOfSync(STEADY), IsOutOfSync(FAILING), Filter(IsPending(dr), Filter(IsRegular(), us)));
  }

  lemma FailsNow(cfg: Config, k: ResultKey, us: seq<Task>, res: Results, n: Task, o: Task, t: Task)
    requires IsLater(k, us) && Calm(k, us, res) && !cfg.dryRun
    requires n in us && n.RKey() == k && o in us && o.phase.SyncFail? && o.RKey() != k
    requires var dr := DecisionResults(cfg, us, State(Running, res), FAILING);
             Candidates(cfg, us, dr, FAILING) != [] && t in Batch(Candidates(cfg, us, dr, FAILING)) && MayFail(cfg, t)
    ensures Touches(SyncStep(cfg, us, State(Running, res), FAILING).steps, k) > 0
  {
    hide DecisionResults;
    hide Reaches;
    hide SyncStep;
    hide Touches;
    hide RunWave;
    var dr := DecisionResults(cfg, us, State(Running, res), FAILING);
    CalmDecision(cfg, k, us, res, FAILING);
    WaveOnly(cfg, k, us, res, FAILING);
    assert t in us && LaterFacts(k, t);
    assert Fallible(cfg, t);
    hide Candidates;
    FailingWave(cfg, k, us, dr, n, o, t);
  }

  // ----- the first call -----

  lemma FirstCall(cfg: Config, ts: seq<Task>, phase: OpPhase, k: ResultKey)
    requires DistinctKeys(ts) && SyncFailHooks(ts) && k.phase.SyncFail? && !cfg.dryRun
    requires k in KeysOf(NamespaceTask(cfg, ts))
    ensures var step := SyncStep(cfg, ts, State(phase, map[]), STEADY);
            step.phase.Running? && Touches(step.steps, k) == 1 &&
            step.res == Refresh(ts, map[k := Result(Synced, Running)])
  {
    hide RunTasks;
    hide Touches;
    hide Reaches;
    hide Advance;
    var st := State(phase, map[]);
    FirstPreflight(cfg, ts);
    BootstrapCall(cfg, ts, st, STEADY, k);
    NamespaceWaits(cfg, ts, STEADY, k);
    AdvanceWaits(cfg, ts, phase, map[k := Result(Synced, Running)], STEADY);
  }

  lemma FirstPreflight(cfg: Config, ts: seq<Task>)
    requires DistinctKeys(ts)
    ensures !Preflight(cfg, ts, map[], STEADY).state.RunFailed?
  {
    hide RunTasks;
    SmoothRun(cfg, NamespaceTask(cfg, ts), false, SMOOTH_CALLS, map[]);
    DryTasksKeys(cfg, ts, STEADY);
    SmoothRun(cfg, DryTasks(cfg, ts, STEADY), true, SMOOTH_CALLS, Bootstrap(cfg, ts, map[], STEADY).res);
  }

  // A live object found for the namespace is not there yet, so its record stays as it is.
  lemma FirstRefresh(cfg: Config, ts: seq<Task>, k: ResultKey)
    requires DistinctKeys(ts) && k in KeysOf(NamespaceTask(cfg, ts))
    ensures Refresh(ts, map[k := Result(Synced, Running)]) == map[k := Result(Synced, Running)]
  {
    var res: Results := map[k := Result(Synced, Running)];
    var n :| n in NamespaceTask(cfg, ts) && n.RKey() == k;
    forall t | t in ts ensures Refreshed(res)(t).None? {
      if t.RKey() == k { DistinctSame(KeyOf(), ts, t, n); }
    }
    NoUpdates(Refreshed(res), ts);
    assert res + map[] == res;
  }

  /** The application namespace is created by the first call, and applied again once a regular task has failed. */
  lemma RunsTwice(cfg: Config, base: Catalogue, ts: seq<Task>, k: ResultKey)
    requires Enumerates(base, ts) && AsFound(ts) && k in base && k.phase.SyncFail? && !cfg.dryRun
    requires k in KeysOf(NamespaceTask(cfg, ts)) && HasOtherSyncFail(ts, k) && HasMayFail(cfg, ts)
    ensures MayRunTwice(cfg, base, ts, k)
  {
    var us := Later(k, ts);
    var res: Results := map[k := Result(Synced, Running)];
    assert DistinctKeys(ts) && SyncFailHooks(ts);
    hide *;
    FirstCall(cfg, ts, Running, k);
    FirstRefresh(cfg, ts, k);
    LaterList(base, k, ts);
    CalmAtFirst(k, us);
    var n := TaskOf(k, us);
    var o, r := LaterOthers(cfg, k, ts);
    assert r.RKey() !in res by { RegularApart(cfg, k, r); }
    var rest := RunsOn(cfg, k, us, res, n, o, r);
    TwiceBy(cfg, base, ts, us, k, rest);
  }

  lemma TaskOf(k: ResultKey, us: seq<Task>) returns (n: Task)
    requires IsLater(k, us)
    ensures n in us && n.RKey() == k
  {
    n :| n in us && n.RKey() == k;
  }

  lemma RegularApart(cfg: Config, k: ResultKey, r: Task)
    requires MayFail(cfg, r) && k.phase.SyncFail?
    ensures r.RKey() != k
  {
  }

  lemma CalmAtFirst(k: ResultKey, us: seq<Task>)
    ensures Calm(k, us, map[k := Result(Synced, Running)])
  {
  }

  lemma LaterList(base: Catalogue, k: ResultKey, ts: seq<Task>)
    requires Enumerates(base, ts) && AsFound(ts) && k in base && k.phase.SyncFail?
    ensures var us := Later(k, ts); Enumerates(base, us) && AsFound(us) && SameTargets(ts, us) && IsLater(k, us)
  {
    var us := Later(k, ts);
    hide Later;
    AlikeEnumerates(base, ts, us);
    AlikeFound(ts, us);
    AlikeTargets(ts, us);
  }

  lemma LaterOthers(cfg: Config, k: ResultKey, ts: seq<Task>) returns (o: Task, r: Task)
    requires HasOtherSyncFail(ts, k) && HasMayFail(cfg, ts)
    ensures var us := Later(k, ts);
            && o in us && o.phase.SyncFail? && o.RKey() != k
            && r in us && MayFail(cfg, r)
  {
    var us := Later(k, ts);
    hide Later;
    var t :| t in ts && t.phase.SyncFail? && t.RKey() != k;
    var i :| 0 <= i < |ts| && ts[i] == t;
    var u :| u in ts && MayFail(cfg, u);
    var j :| 0 <= j < |ts| && ts[j] == u;
    o, r := us[i], us[j];
    assert LikeTask(t, o) && LikeTask(u, r);
    assert o.phase == o.Slot().phase == t.Slot().phase && r.phase == r.Slot().phase == u.Slot().phase;
  }

  lemma TwiceBy(cfg: Config, base: Catalogue, ts: seq<Task>, us: seq<Task>, k: ResultKey, rest: seq<Call>)
    requires Enumerates(base, ts) && AsFound(ts) && Enumerates(base, us) && AsFound(us) && SameTargets(ts, us)
    requires k in KeysOf(NamespaceTask(cfg, ts))
    requires var step := SyncStep(cfg, ts, State(Running, map[]), STEADY);
             step.phase.Running? && Touches(step.steps, k) == 1 && RunsOnTo(cfg, us, step.Next(), k, rest)
    ensures MayRunTwice(cfg, base, ts, k)
  {
    hide SyncStep;
    hide Touches;
    hide Enumerates;
    hide AsFound;
    hide SameTargets;
    hide NamespaceTask;
    var st, first := State(Running, map[]), Call(ts, STEADY);
    var calls, step := [first] + rest, SyncStep(cfg, ts, st, STEADY);
    RunsThrough(cfg, us, k, first, rest, st);
    SameTargetsItself(ts, base);
    forall c | c in calls ensures c.ts in {ts, us} {
      assert c == first || c in rest;
    }
    assert calls[0] == first;
    assert Operation(cfg, base, ts, calls, st, k);
  }

  lemma RunsThrough(cfg: Config, us: seq<Task>, k: ResultKey, first: Call, rest: seq<Call>, st: State)
    requires st.phase.Running? && Touches(SyncStep(cfg, first.ts, st, first.env).steps, k) == 1
    requires RunsOnTo(cfg, us, SyncStep(cfg, first.ts, st, first.env).Next(), k, rest)
    ensures Ongoing(cfg, [first] + rest, st, |rest|) && Touches(AllSteps(cfg, [first] + rest, st, |rest| + 1), k) > 1
  {
    hide SyncStep;
    hide Touches;
    var calls, step := [first] + rest, SyncStep(cfg, first.ts, st, first.env);
    hide StateAt;
    hide AllSteps;
    StateAtStart(cfg, calls, st);
    forall i | 0 <= i <= |rest| ensures !StateAt(cfg, calls, st, i).phase.Completed() {
      if i > 0 { StateAfter(cfg, first, rest, st, i - 1); }
    }
    StepsAfter(cfg, first, rest, st, |rest|);
    TouchesAppend(step.steps, AllSteps(cfg, rest, step.Next(), |rest|), k);
  }

  lemma SameTargetsItself(ts: seq<Task>, base: Catalogue)
    requires Enumerates(base, ts)
    ensures SameTargets(ts, ts)
  {
    forall t, u | t in ts && u in ts && t.RKey() == u.RKey() ensures TargetOf(t) == TargetOf(u) {
      DistinctSame(KeyOf(), ts, t, u);
    }
  }

  // ----- exactly when -----

  lemma TwiceOnlyIf(cfg: Config, base: Catalogue, ts: seq<Task>, calls: seq<Call>, st: State, k: ResultKey)
    requires Enumerates(base, ts) && k in base && k.phase.SyncFail? && Operation(cfg, base, ts, calls, st, k)
    requires Touches(AllSteps(cfg, calls, st, |calls|), k) > 1
    ensures !cfg.dryRun && k in KeysOf(NamespaceTask(cfg, ts)) && HasOtherSyncFail(ts, k) && HasMayFail(cfg, ts)
  {
    hide SyncStep;
    hide Touches;
    assert AllSyncFailHooks(calls);
    if cfg.dryRun { OnceInDryRun(cfg, calls, st, k); }
    if k !in KeysOf(NamespaceTask(cfg, ts)) {
      forall i | 0 <= i < |calls| ensures !BootstrappedAt(cfg, calls, st, i, k) { assert calls[i] in calls; }
      SyncFailAtMostOnce(cfg, base, calls, st, k);
    }
    if !HasOtherSyncFail(ts, k) {
      OnlyOne(base, ts, k);
      LoneOnce(cfg, base, calls, st, k);
    }
    if !HasMayFail(cfg, ts) && !cfg.dryRun {
      forall c | c in calls ensures NothingMayFail(cfg, c.ts) { SameFallibility(cfg, base, ts, c.ts); }
      FineOnce(cfg, base, calls, st, k);
    }
  }

  lemma OnlyOne(base: Catalogue, ts: seq<Task>, k: ResultKey)
    requires Enumerates(base, ts) && k in base && k.phase.SyncFail? && !HasOtherSyncFail(ts, k)
    ensures forall l :: l in base && l.phase.SyncFail? <==> l == k
  {
    forall l | l in base && l.phase.SyncFail? ensures l == k {
      var t :| t in ts && t.RKey() == l;
    }
  }

  lemma SameFallibility(cfg: Config, base: Catalogue, ts: seq<Task>, us: seq<Task>)
    requires Enumerates(base, ts) && Enumerates(base, us) && SameTargets(ts, us) && AsFound(us)
    requires !HasMayFail(cfg, ts) && !cfg.dryRun
    ensures NothingMayFail(cfg, us)
  {
    forall u | u in us ensures !MayFail(cfg, u) {
      assert u.RKey() in KeysOf(ts);
      var t :| t in ts && t.RKey() == u.RKey();
      assert TargetOf(t) == TargetOf(u) && !MayFail(cfg, t) && t.phase == t.RKey().phase == u.phase;
    }
  }

  /**
   A SyncFail hook may run twice in an operation that begins with the list `ts` exactly when the operation is no dry
   run, the hook is the application namespace and missing, there is another SyncFail hook, and some regular task
   can fail: one to be created, or any if the operation prunes.
   */
  lemma TwiceExactly(cfg: Config, base: Catalogue, ts: seq<Task>, k: ResultKey)
    requires Enumerates(base, ts) && AsFound(ts) && k in base && k.phase.SyncFail?
    ensures MayRunTwice(cfg, base, ts, k) <==>
            !cfg.dryRun && k in KeysOf(NamespaceTask(cfg, ts)) && HasOtherSyncFail(ts, k) && HasMayFail(cfg, ts)
  {
    hide SyncStep;
    hide Touches;
    hide Operation;
    if MayRunTwice(cfg, base, ts, k) {
      var calls, phase :| Operation(cfg, base, ts, calls, State(phase, map[]), k)
        && Touches(AllSteps(cfg, calls, State(phase, map[]), |calls|), k) > 1;
      TwiceOnlyIf(cfg, base, ts, calls, State(phase, map[]), k);
    } else if !cfg.dryRun && k in KeysOf(NamespaceTask(cfg, ts)) && HasOtherSyncFail(ts, k) && HasMayFail(cfg, ts) {
      RunsTwice(cfg, base, ts, k);
    }
  }
}
