/** Sync of pkg/sync/sync_context.go: the method, and the proof that it computes SyncStep. */
module SyncMethods {
  import opened Kube
  import opened Lists
  import opened Tasks
  import opened TaskArrays
  import opened RunSpec
  import opened RunLaws
  import opened SyncSpec
  import opened SyncLaws
  import opened SyncState
  import opened RunMethods
  import opened SyncParts
  import opened HealthLaws
  import opened FirstCall
  import StagedRun

  // The phase, the results and the requests since `before` are those of `out`.
  ghost predicate Took(out: StepOut, sc: SyncContext, before: seq<Request>)
    reads sc`phase, sc`syncRes, sc`sent
  {
    sc.phase == out.phase && Strip(sc.syncRes) == out.res && Sent(before, sc.sent, out.steps)
  }

  lemma TookThen(first: seq<multiset<Request>>, out: StepOut, sc: SyncContext, a: seq<Request>, b: seq<Request>)
    requires Sent(a, b, first) && Took(out, sc, b)
    ensures Took(out.After(first), sc, a)
  {
    SentChain(a, b, sc.sent, first, out.steps);
  }

  // ----- the steps of Sync -----

  lemma {:induction false} CleanedOnly(env: Env, fails: Task -> bool, ts: seq<Task>, res: Results)
    requires forall t :: t in ts ==> fails(t) == !env.cleanFinalizer(t.RKey())
    ensures Updates(CallFailure(fails, true, res), Filter(IsCleaned(res), ts)) == Updates(CleanFailure(env, res), ts)
  {
    if ts != [] {
      CleanedOnly(env, fails, ts[1..], res);
      var rest := Filter(IsCleaned(res), ts[1..]);
      assert ([ts[0]] + rest)[1..] == rest;
    }
  }

  // Removing the finalizers of completed hooks
  method CleanHooks(sc: SyncContext, tasks: seq<SyncTask>, env: Env)
    requires Ready(sc, tasks)
    modifies sc`syncRes, sc`sent, (set t | t in tasks)`syncStatus, (set t | t in tasks)`operationState
    ensures Ready(sc, tasks) && Strip(sc.syncRes) == CleanFinalizers(Infos(tasks), Strip(old(sc.syncRes)), env)
    ensures Sent(old(sc.sent), sc.sent, [Asking(AsksUpdate(), Filter(IsCleaned(Strip(old(sc.syncRes))), Infos(tasks)))])
  {
    hide Infos;
    hide DistinctKeys;
    hide Filter;
    hide Strip;
    hide Ready;
    hide Sent;
    hide Updates;
    hide CallFailure;
    hide CleanFailure;
    ghost var infos, res := Infos(tasks), Strip(sc.syncRes);
    var cleaned := Choose(sc, tasks,
      (t: Task, r: Result) => t.IsHook() && r.op.Completed() && t.Live().Some? && t.Live().value.hookFinalizer,
      IsCleaned(res));
    ReadyKeys(sc, tasks);
    SelectedKeys(cleaned, tasks, IsCleaned(res));
    var fails := (t: Task) => !env.cleanFinalizer(t.RKey());
    CleanedOnly(env, fails, infos, res);
    CallEach(sc, cleaned, fails, true, AsksUpdate(), tasks);
  }

  lemma {:induction false} UpdatesAgree(f: Task -> Option<Result>, g: Task -> Option<Result>, ts: seq<Task>)
    requires forall t :: t in ts ==> f(t) == g(t)
    ensures Updates(f, ts) == Updates(g, ts)
  {
    if ts != [] {
      UpdatesAgree(f, g, ts[1..]);
    }
  }

  // deleteHooks
  method DeleteHooks(sc: SyncContext, hooks: seq<SyncTask>, env: Env, ghost tasks: seq<SyncTask>)
    requires Ready(sc, tasks) && Among(hooks, tasks) && DistinctKeys(Infos(hooks))
    modifies sc`syncRes, sc`sent, (set t | t in hooks)`syncStatus, (set t | t in hooks)`operationState
    ensures Ready(sc, tasks) && Strip(sc.syncRes) == DeleteExpired(Infos(hooks), Strip(old(sc.syncRes)), env)
    ensures Sent(old(sc.sent), sc.sent, [Asking(AsksDelete(), Infos(hooks))])
  {
    hide Infos;
    hide DistinctKeys;
    hide Strip;
    hide Ready;
    hide Sent;
    hide Updates;
    ghost var infos, res := Infos(hooks), Strip(sc.syncRes);
    var fails := (t: Task) => env.cleanHook(t.RKey()).Err?;
    UpdatesAgree(CallFailure(fails, false, res), DeleteFailure(env), infos);
    CallEach(sc, hooks, fails, false, AsksDelete(), tasks);
  }

  // runTasks on some of the tasks
  method RunSome(sc: SyncContext, part: seq<SyncTask>, dryRun: bool, calls: Calls, ghost tasks: seq<SyncTask>)
    returns (state: RunState)
    requires Ready(sc, tasks) && Among(part, tasks) && DistinctKeys(Infos(part))
    modifies sc`syncRes, sc`sent, (set t | t in part)`syncStatus, (set t | t in part)`operationState
    ensures Ready(sc, tasks)
    ensures Did(RunTasks(sc.cfg, Infos(part), dryRun, calls, Strip(old(sc.syncRes))), state, sc, old(sc.sent))
  {
    hide Infos;
    hide DistinctKeys;
    hide Strip;
    hide Numbered;
    hide RunTasks;
    ghost var res := Strip(sc.syncRes);
    state := StagedRun.RunTasks(sc, part, dryRun, calls);
    RunTasksGrows(sc.cfg, Infos(part), dryRun, calls, res);
    OthersTrack(part, tasks, res, Strip(sc.syncRes));
  }

  lemma OthersTrack(part: seq<SyncTask>, tasks: seq<SyncTask>, res: Results, res': Results)
    requires DistinctKeys(Infos(tasks)) && Among(part, tasks) && Grows(res, res', KeysOf(Infos(part)))
    requires TracksAll(part, res') && forall t :: t in tasks && t !in part ==> Tracks(t, res)
    ensures TracksAll(tasks, res')
  {
    hide DistinctKeys;
    hide Infos;
    KeysApart(tasks);
    forall t | t in tasks && t !in part ensures Tracks(t, res') {
      NotAmong(tasks, part, t);
    }
  }

  // setOperationFailed
  method SetOperationFailed(sc: SyncContext, syncFail: seq<SyncTask>, env: Env, ghost tasks: seq<SyncTask>)
    requires Ready(sc, tasks) && Among(syncFail, tasks) && DistinctKeys(Infos(syncFail))
    modifies sc`phase, sc`syncRes, sc`sent, (set t | t in syncFail)`syncStatus, (set t | t in syncFail)`operationState
    ensures Ready(sc, tasks)
    ensures Took(SyncSpec.SetOperationFailed(sc.cfg, Infos(syncFail), old(sc.phase), Strip(old(sc.syncRes)), env),
                 sc, old(sc.sent))
  {
    hide Infos;
    hide DistinctKeys;
    hide Strip;
    hide RunTasks;
    hide Ready;
    hide Sent;
    ghost var before := sc.sent;
    var completed := AllCompleted(sc, syncFail, tasks);
    if completed {
      sc.phase := Failed;
      SentNothing(before);
    } else {
      var state := RunSome(sc, syncFail, false, env.syncFail, tasks);
      if state.RunFailed? {
        sc.phase := Failed;
      }
    }
  }

  method AllCompleted(sc: SyncContext, part: seq<SyncTask>, ghost tasks: seq<SyncTask>) returns (b: bool)
    requires Ready(sc, tasks) && Among(part, tasks)
    ensures b == forall t :: t in Infos(part) ==> Op(t, Strip(sc.syncRes)).Completed()
  {
    hide Strip;
    hide DistinctKeys;
    hide Numbered;
    hide Infos;
    ghost var infos, res := Infos(part), Strip(sc.syncRes);
    b := true;
    for i := 0 to |part|
      invariant b <==> forall j :: 0 <= j < i ==> Op(infos[j], res).Completed()
    {
      assert part[i] in part && Tracks(part[i], res);
      if !part[i].operationState.Completed() {
        b := false;
      }
    }
  }

  method Fail(sc: SyncContext, tasks: seq<SyncTask>, syncFail: seq<SyncTask>, expired: seq<SyncTask>, env: Env)
    requires Ready(sc, tasks) && Selected(syncFail, tasks, IsSyncFail())
    requires Among(expired, tasks) && DistinctKeys(Infos(expired))
    modifies sc`phase, sc`syncRes, sc`sent, (set t | t in tasks)`syncStatus, (set t | t in tasks)`operationState
    ensures Ready(sc, tasks)
    ensures Took(SyncSpec.Fail(sc.cfg, Infos(tasks), Infos(expired), old(sc.phase), Strip(old(sc.syncRes)), env),
                 sc, old(sc.sent))
  {
    hide Infos;
    hide DistinctKeys;
    hide Strip;
    hide Ready;
    hide Sent;
    hide SyncSpec.SetOperationFailed;
    hide DeleteExpired;
    hide Filter;
    ghost var before, infos, res := sc.sent, Infos(tasks), Strip(sc.syncRes);
    ReadyKeys(sc, tasks);
    SelectedKeys(syncFail, tasks, IsSyncFail());
    DeleteHooks(sc, expired, env, tasks);
    ghost var between, phase := sc.sent, sc.phase;
    SetOperationFailed(sc, syncFail, env, tasks);
    TookThen([Asking(AsksDelete(), Infos(expired))],
      SyncSpec.SetOperationFailed(sc.cfg, Filter(IsSyncFail(), infos), phase,
                                  DeleteExpired(Infos(expired), res, env), env),
      sc, before, between);
  }

  // Deleting hooks, and then the phase: `out` ends the call.
  method Conclude(sc: SyncContext, hooks: seq<SyncTask>, phase: OpPhase, env: Env, ghost out: StepOut,
                  ghost tasks: seq<SyncTask>)
    requires Ready(sc, tasks) && Among(hooks, tasks) && DistinctKeys(Infos(hooks))
    requires out.phase == phase && out.res == DeleteExpired(Infos(hooks), Strip(sc.syncRes), env)
    requires out.steps == [Asking(AsksDelete(), Infos(hooks))]
    modifies sc`phase, sc`syncRes, sc`sent, (set t | t in hooks)`syncStatus, (set t | t in hooks)`operationState
    ensures Ready(sc, tasks) && Took(out, sc, old(sc.sent))
  {
    hide Infos;
    hide DistinctKeys;
    hide Strip;
    hide Ready;
    hide Sent;
    hide DeleteExpired;
    DeleteHooks(sc, hooks, env, tasks);
    sc.phase := phase;
  }

  // ----- the decision -----

  // The hooks each outcome deletes, chosen before the wave is run
  datatype Expired = Expired(onSuccess: seq<SyncTask>, onFailure: seq<SyncTask>)

  ghost predicate ExpiredFrom(e: Expired, tasks: seq<SyncTask>, res: Results)
    reads (set t | t in tasks)`phase, (set t | t in tasks)`waveOverride,
      (set t | t in e.onSuccess)`phase, (set t | t in e.onSuccess)`waveOverride,
      (set t | t in e.onFailure)`phase, (set t | t in e.onFailure)`waveOverride
  {
    && Selected(e.onSuccess, tasks, HasExpired(HookSucceeded, res))
    && Selected(e.onFailure, tasks, HasExpired(HookFailed, res))
  }

  method ChooseExpired(sc: SyncContext, tasks: seq<SyncTask>) returns (e: Expired)
    requires Ready(sc, tasks)
    ensures ExpiredFrom(e, tasks, Strip(sc.syncRes))
  {
    hide Selected;
    hide Ready;
    hide Strip;
    ghost var res := Strip(sc.syncRes);
    var onSuccess := Choose(sc, tasks,
      (t: Task, r: Result) => !r.op.Running? && t.LiveWithPolicy(HookSucceeded), HasExpired(HookSucceeded, res));
    var onFailure := Choose(sc, tasks,
      (t: Task, r: Result) => !r.op.Running? && t.LiveWithPolicy(HookFailed), HasExpired(HookFailed, res));
    e := Expired(onSuccess, onFailure);
  }

  lemma ExpiredParts(e: Expired, tasks: seq<SyncTask>, res: Results)
    requires ExpiredFrom(e, tasks, res) && DistinctKeys(Infos(tasks))
    ensures Among(e.onSuccess, tasks) && Infos(e.onSuccess) == Filter(HasExpired(HookSucceeded, res), Infos(tasks))
    ensures Among(e.onFailure, tasks) && Infos(e.onFailure) == Filter(HasExpired(HookFailed, res), Infos(tasks))
    ensures DistinctKeys(Infos(e.onSuccess)) && DistinctKeys(Infos(e.onFailure))
  {
    SelectedKeys(e.onSuccess, tasks, HasExpired(HookSucceeded, res));
    SelectedKeys(e.onFailure, tasks, HasExpired(HookFailed, res));
  }

  lemma PartReady(sc: SyncContext, part: seq<SyncTask>, tasks: seq<SyncTask>, q: Task -> bool)
    requires Ready(sc, tasks) && Selected(part, tasks, q)
    ensures Ready(sc, part)
  {
    SelectedKeys(part, tasks, q);
  }

  lemma SelectedIs(part: seq<SyncTask>, tasks: seq<SyncTask>, q: Task -> bool)
    requires Selected(part, tasks, q)
    ensures Infos(part) == Filter(q, Infos(tasks)) && Among(part, tasks)
  {
  }

  // filterOutOfSyncTasks
  method FilterOutOfSync(sc: SyncContext, tasks: seq<SyncTask>, env: Env) returns (r: seq<SyncTask>)
    requires Ready(sc, tasks)
    ensures Infos(r) == OutOfSync(sc.cfg, env, Infos(tasks)) && Among(r, tasks) && Ready(sc, r)
  {
    hide Ready;
    hide Infos;
    hide IsOutOfSync;
    r := tasks;
    if sc.cfg.applyOutOfSyncOnly {
      r := Choose(sc, tasks, (t: Task, _: Result) => IsOutOfSync(env)(t), IsOutOfSync(env));
      PartReady(sc, r, tasks, IsOutOfSync(env));
    }
  }

  // The candidates: regular tasks still pending, and out of sync if only those are wanted
  method ChoosePending(sc: SyncContext, tasks: seq<SyncTask>) returns (pending: seq<SyncTask>)
    requires Ready(sc, tasks)
    ensures Infos(pending) == Filter(IsPending(Strip(sc.syncRes)), Filter(IsRegular(), Infos(tasks)))
    ensures Among(pending, tasks) && Ready(sc, pending)
  {
    hide Ready;
    hide Infos;
    hide Filter;
    hide Strip;
    ghost var res := Strip(sc.syncRes);
    var regular := Choose(sc, tasks, (t: Task, _: Result) => !t.phase.SyncFail?, IsRegular());
    PartReady(sc, regular, tasks, IsRegular());
    pending := Choose(sc, regular, (_: Task, r: Result) => r.op.NoPhase?, IsPending(res));
    PartReady(sc, pending, regular, IsPending(res));
  }

  method ChooseCandidates(sc: SyncContext, tasks: seq<SyncTask>, env: Env) returns (todo: seq<SyncTask>)
    requires Ready(sc, tasks)
    ensures Infos(todo) == Candidates(sc.cfg, Infos(tasks), Strip(sc.syncRes), env)
    ensures Among(todo, tasks) && Ready(sc, todo)
  {
    hide Ready;
    hide Infos;
    hide Filter;
    hide Strip;
    hide OutOfSync;
    var pending := ChoosePending(sc, tasks);
    todo := FilterOutOfSync(sc, pending, env);
  }

  method AfterWave(sc: SyncContext, tasks: seq<SyncTask>, syncFail: seq<SyncTask>, e: Expired, remaining: seq<SyncTask>,
                   state: RunState, env: Env, ghost todo: seq<Task>, ghost res: Results, ghost out: RunOut)
    requires Ready(sc, tasks) && Selected(syncFail, tasks, IsSyncFail()) && ExpiredFrom(e, tasks, res)
    requires sc.phase.Running? && state == out.state && Strip(sc.syncRes) == out.res
    requires todo != [] && Infos(remaining) == Filter(IsBeyond(todo[0].Slot()), todo)
    modifies sc`phase, sc`syncRes, sc`sent, (set t | t in tasks)`syncStatus, (set t | t in tasks)`operationState
    ensures Ready(sc, tasks)
    ensures Took(SyncSpec.AfterWave(sc.cfg, Infos(tasks), todo, res, out, env), sc, old(sc.sent))
  {
    hide Infos;
    hide DistinctKeys;
    hide Strip;
    hide Ready;
    hide DeleteExpired;
    hide SyncSpec.Fail;
    hide Filter;
    hide Sent;
    ReadyKeys(sc, tasks);
    ExpiredParts(e, tasks, res);
    ghost var goal := SyncSpec.AfterWave(sc.cfg, Infos(tasks), todo, res, out, env);
    if sc.cfg.syncWaveHook && !state.RunFailed? && !env.waveHookOk {
      Conclude(sc, e.onFailure, Failed, env, goal, tasks);
      return;
    }
    match state
    case RunFailed =>
      Fail(sc, tasks, syncFail, e.onFailure, env);
    case RunSuccessful =>
      if |remaining| == 0 {
        Conclude(sc, e.onSuccess, Succeeded, env, goal, tasks);
      } else {
        SentNothing(sc.sent);
      }
    case RunPending =>
      SentNothing(sc.sent);
  }

  method ChooseBatch(sc: SyncContext, todo: seq<SyncTask>) returns (batch: seq<SyncTask>, remaining: seq<SyncTask>)
    requires |todo| > 0 && Ready(sc, todo)
    ensures Infos(batch) == Batch(Infos(todo)) && Among(batch, todo) && DistinctKeys(Infos(batch))
    ensures Infos(remaining) == Filter(IsBeyond(Infos(todo)[0].Slot()), Infos(todo))
  {
    hide Infos;
    hide DistinctKeys;
    hide Ready;
    hide Filter;
    var phase, wave := todo[0].phase, todo[0].Wave();
    ghost var slot := Infos(todo)[0].Slot();
    remaining :=
      Choose(sc, todo, (t: Task, _: Result) => t.phase != phase || t.wave != wave || t.IsHook(), IsBeyond(slot));
    batch := Choose(sc, todo, (t: Task, _: Result) => t.phase == phase && t.wave == wave, IsAt(slot));
    PartReady(sc, batch, todo, IsAt(slot));
    ReadyKeys(sc, batch);
  }

  method RunWave(sc: SyncContext, tasks: seq<SyncTask>, syncFail: seq<SyncTask>, e: Expired, todo: seq<SyncTask>,
                 env: Env)
    requires Ready(sc, tasks) && Selected(syncFail, tasks, IsSyncFail()) && ExpiredFrom(e, tasks, Strip(sc.syncRes))
    requires |todo| > 0 && Among(todo, tasks) && Ready(sc, todo)
    modifies sc`phase, sc`syncRes, sc`sent, (set t | t in tasks)`syncStatus, (set t | t in tasks)`operationState
    ensures Ready(sc, tasks)
    ensures Took(SyncSpec.RunWave(sc.cfg, Infos(tasks), Infos(todo), Strip(old(sc.syncRes)), env), sc, old(sc.sent))
  {
    hide Infos;
    hide DistinctKeys;
    hide Strip;
    hide Ready;
    hide Filter;
    hide Batch;
    hide Sent;
    hide RunTasks;
    hide SyncSpec.AfterWave;
    hide Took;
    hide ExpiredFrom;
    hide Selected;
    ghost var before, infos, res, todos := sc.sent, Infos(tasks), Strip(sc.syncRes), Infos(todo);
    var batch, remaining := ChooseBatch(sc, todo);
    sc.phase := Running;
    var state := RunSome(sc, batch, false, env.wave, tasks);
    ghost var out := RunTasks(sc.cfg, Batch(todos), false, env.wave, res);
    ghost var between := sc.sent;
    AfterWave(sc, tasks, syncFail, e, remaining, state, env, todos, res, out);
    WaveTook(infos, todos, res, env, out, sc, before, between);
  }

  lemma WaveTook(ts: seq<Task>, todo: seq<Task>, res: Results, env: Env, out: RunOut, sc: SyncContext,
                 a: seq<Request>, b: seq<Request>)
    requires todo != [] && out == RunTasks(sc.cfg, Batch(todo), false, env.wave, res) && Sent(a, b, out.steps)
    requires Took(SyncSpec.AfterWave(sc.cfg, ts, todo, res, out, env), sc, b)
    ensures Took(SyncSpec.RunWave(sc.cfg, ts, todo, res, env), sc, a)
  {
    hide RunTasks;
    hide SyncSpec.AfterWave;
    hide Batch;
    hide Sent;
    TookThen(out.steps, SyncSpec.AfterWave(sc.cfg, ts, todo, res, out, env), sc, a, b);
  }

  method AnyUnsuccessful(sc: SyncContext, tasks: seq<SyncTask>) returns (b: bool)
    requires Ready(sc, tasks)
    ensures b == SomeRegularUnsuccessful(Infos(tasks), Strip(sc.syncRes))
  {
    hide Infos;
    hide Strip;
    hide DistinctKeys;
    hide Numbered;
    ghost var infos, res := Infos(tasks), Strip(sc.syncRes);
    b := false;
    for i := 0 to |tasks|
      invariant b <==> exists j :: 0 <= j < i && !infos[j].phase.SyncFail? && Op(infos[j], res).Unsuccessful()
    {
      assert Tracks(tasks[i], res);
      if !tasks[i].phase.SyncFail? && tasks[i].operationState.Unsuccessful() {
        b := true;
      }
    }
  }

  // No regular task has failed: run the next wave, or end.
  method Proceed(sc: SyncContext, tasks: seq<SyncTask>, syncFail: seq<SyncTask>, e: Expired, env: Env)
    requires Ready(sc, tasks) && Selected(syncFail, tasks, IsSyncFail()) && ExpiredFrom(e, tasks, Strip(sc.syncRes))
    modifies sc`phase, sc`syncRes, sc`sent, (set t | t in tasks)`syncStatus, (set t | t in tasks)`operationState
    ensures Ready(sc, tasks)
    ensures var infos, res := Infos(tasks), Strip(old(sc.syncRes));
            var todo := Candidates(sc.cfg, infos, res, env);
            Took(if todo == [] then Succeed(infos, res, res, env) else SyncSpec.RunWave(sc.cfg, infos, todo, res, env),
                 sc, old(sc.sent))
  {
    hide Infos;
    hide DistinctKeys;
    hide Strip;
    hide Ready;
    hide Took;
    hide Candidates;
    hide SyncSpec.RunWave;
    hide Filter;
    hide Selected;
    hide ExpiredFrom;
    hide DeleteExpired;
    ghost var infos, res := Infos(tasks), Strip(sc.syncRes);
    var todo := ChooseCandidates(sc, tasks, env);
    if |todo| == 0 {
      ReadyKeys(sc, tasks);
      ExpiredParts(e, tasks, res);
      Conclude(sc, e.onSuccess, Succeeded, env, Succeed(infos, res, res, env), tasks);
    } else {
      RunWave(sc, tasks, syncFail, e, todo, env);
    }
  }

  method Decide(sc: SyncContext, tasks: seq<SyncTask>, env: Env)
    requires Ready(sc, tasks)
    modifies sc`phase, sc`syncRes, sc`sent, (set t | t in tasks)`syncStatus, (set t | t in tasks)`operationState
    ensures Ready(sc, tasks)
    ensures Took(SyncSpec.Decide(sc.cfg, Infos(tasks), old(sc.phase), Strip(old(sc.syncRes)), env), sc, old(sc.sent))
  {
    hide Infos;
    hide DistinctKeys;
    hide Strip;
    hide Ready;
    hide Took;
    hide Candidates;
    hide SyncSpec.Decide;
    hide SyncSpec.Fail;
    hide SyncSpec.RunWave;
    hide Succeed;
    hide Filter;
    hide Selected;
    hide SomeRegularUnsuccessful;
    ghost var infos, res := Infos(tasks), Strip(sc.syncRes);
    var e := ChooseExpired(sc, tasks);
    var syncFail := Choose(sc, tasks, (t: Task, _: Result) => t.phase.SyncFail?, IsSyncFail());
    DecideShape(sc.cfg, infos, sc.phase, res, env);
    var failure := AnyUnsuccessful(sc, tasks);
    if failure {
      ReadyKeys(sc, tasks);
      ExpiredParts(e, tasks, res);
      Fail(sc, tasks, syncFail, e.onFailure, env);
    } else {
      Proceed(sc, tasks, syncFail, e, env);
    }
  }

  // ----- waiting -----

  method HasSeveralSlots(tasks: seq<SyncTask>) returns (b: bool)
    ensures b == MultiStep(Infos(tasks))
  {
    b := |tasks| > 0
      && (tasks[0].phase != tasks[|tasks| - 1].phase || tasks[0].Wave() != tasks[|tasks| - 1].Wave());
  }

  method HasToWait(sc: SyncContext, tasks: seq<SyncTask>) returns (b: bool)
    requires Ready(sc, tasks)
    ensures b == (MustWait(Infos(tasks), Strip(sc.syncRes)) || AwaitsDeletion(Infos(tasks), Strip(sc.syncRes)))
  {
    hide Infos;
    hide Strip;
    hide DistinctKeys;
    hide Numbered;
    hide MultiStep;
    ghost var infos, res := Infos(tasks), Strip(sc.syncRes);
    var multiStep := HasSeveralSlots(tasks);
    b := false;
    for i := 0 to |tasks|
      invariant b <==> exists j :: 0 <= j < i && Waited(multiStep, res, infos[j])
    {
      assert Tracks(tasks[i], res);
      var t := tasks[i].Info();
      if (tasks[i].operationState.Running? && (multiStep || t.IsHook()))
        || (tasks[i].syncStatus.Pruned? && t.Live().Some? && t.Live().value.deleting)
      {
        b := true;
      }
    }
    WaitedFor(infos, res, multiStep);
  }

  // A task the call has to wait for: one still running, or one pruned and not yet gone
  predicate Waited(multiStep: bool, res: Results, t: Task) {
    || (Op(t, res).Running? && (multiStep || t.IsHook()))
    || (ResultOf(t, res).status.Pruned? && t.Live().Some? && t.Live().value.deleting)
  }

  lemma WaitedFor(ts: seq<Task>, res: Results, multiStep: bool)
    requires multiStep == MultiStep(ts)
    ensures (exists j :: 0 <= j < |ts| && Waited(multiStep, res, ts[j])) <==>
            MustWait(ts, res) || AwaitsDeletion(ts, res)
  {
  }

  method Advance(sc: SyncContext, tasks: seq<SyncTask>, env: Env)
    requires Ready(sc, tasks)
    modifies sc`phase, sc`syncRes, sc`sent, (set t | t in tasks)`syncStatus, (set t | t in tasks)`operationState
    ensures Ready(sc, tasks)
    ensures Took(SyncSpec.Advance(sc.cfg, Infos(tasks), old(sc.phase), Strip(old(sc.syncRes)), env), sc, old(sc.sent))
  {
    hide Infos;
    hide DistinctKeys;
    hide Strip;
    hide Ready;
    hide MustWait;
    hide AwaitsDeletion;
    hide SyncSpec.Decide;
    hide Refresh;
    hide CleanFinalizers;
    hide Filter;
    hide Sent;
    ghost var before, infos, phase := sc.sent, Infos(tasks), sc.phase;
    RefreshTasks(sc, tasks);
    ghost var now := Strip(sc.syncRes);
    var wait := HasToWait(sc, tasks);
    if wait {
      sc.phase := Running;
      SentNothing(before);
      return;
    }
    CleanHooks(sc, tasks, env);
    ghost var between, clean := sc.sent, Strip(sc.syncRes);
    Decide(sc, tasks, env);
    TookThen([Asking(AsksUpdate(), Filter(IsCleaned(now), infos))],
      SyncSpec.Decide(sc.cfg, infos, phase, clean, env), sc, before, between);
  }

  // ----- before the first result -----

  // getNamespaceCreationTask
  method FindNamespaceTask(sc: SyncContext, tasks: seq<SyncTask>) returns (found: seq<SyncTask>)
    requires Ready(sc, tasks)
    ensures Infos(found) == NamespaceTask(sc.cfg, Infos(tasks)) && Among(found, tasks) && |found| <= 1
  {
    hide Infos;
    hide Ready;
    hide Filter;
    var all := Choose(sc, tasks, (t: Task, _: Result) => CreatesNamespace(sc.cfg, t), IsNamespaceTask(sc.cfg));
    found := if |all| > 0 then [all[0]] else [];
  }

  // All the tasks but the one found
  method ChooseOthers(sc: SyncContext, tasks: seq<SyncTask>, found: seq<SyncTask>) returns (others: seq<SyncTask>)
    requires Ready(sc, tasks) && |found| <= 1
    ensures Selected(others, tasks, IsNotIn(Infos(found)))
  {
    hide Infos;
    hide Ready;
    hide Filter;
    hide Selected;
    ghost var ns := Infos(found);
    if |found| > 0 {
      var key := found[0].Info().RKey();
      others := Choose(sc, tasks, (t: Task, _: Result) => t.RKey() != key, IsNotIn(ns));
    } else {
      others := Choose(sc, tasks, (_: Task, _: Result) => true, IsNotIn(ns));
    }
  }

  // The tasks of the dry run
  method ChooseDryTasks(sc: SyncContext, tasks: seq<SyncTask>, found: seq<SyncTask>, env: Env)
    returns (r: seq<SyncTask>)
    requires Ready(sc, tasks) && |found| <= 1 && Infos(found) == NamespaceTask(sc.cfg, Infos(tasks))
    ensures Infos(r) == DryTasks(sc.cfg, Infos(tasks), env) && Among(r, tasks) && DistinctKeys(Infos(r))
  {
    hide Infos;
    hide Ready;
    hide Filter;
    hide OutOfSync;
    hide DistinctKeys;
    hide Selected;
    hide NamespaceTask;
    ghost var ns := Infos(found);
    var others := ChooseOthers(sc, tasks, found);
    PartReady(sc, others, tasks, IsNotIn(ns));
    SelectedIs(others, tasks, IsNotIn(ns));
    r := FilterOutOfSync(sc, others, env);
    ReadyKeys(sc, r);
  }

  method Bootstrap(sc: SyncContext, found: seq<SyncTask>, env: Env, ghost tasks: seq<SyncTask>)
    returns (state: RunState)
    requires Ready(sc, tasks) && |found| <= 1 && Among(found, tasks)
    requires Infos(found) == NamespaceTask(sc.cfg, Infos(tasks))
    modifies sc`syncRes, sc`sent, (set t | t in found)`syncStatus, (set t | t in found)`operationState
    ensures Ready(sc, tasks)
    ensures Did(SyncSpec.Bootstrap(sc.cfg, Infos(tasks), Strip(old(sc.syncRes)), env), state, sc, old(sc.sent))
  {
    hide Infos;
    hide Ready;
    hide Strip;
    hide Sent;
    hide NamespaceTask;
    hide RunTasks;
    state := RunSuccessful;
    if |found| > 0 {
      state := RunSome(sc, found, false, env.bootstrap, tasks);
    } else {
      SentNothing(sc.sent);
    }
  }

  method Preflight(sc: SyncContext, tasks: seq<SyncTask>, env: Env) returns (state: RunState)
    requires Ready(sc, tasks)
    modifies sc`syncRes, sc`sent, (set t | t in tasks)`syncStatus, (set t | t in tasks)`operationState
    ensures Ready(sc, tasks)
    ensures Did(SyncSpec.Preflight(sc.cfg, Infos(tasks), Strip(old(sc.syncRes)), env), state, sc, old(sc.sent))
  {
    hide Infos;
    hide Ready;
    hide Strip;
    hide Sent;
    hide RunTasks;
    hide NamespaceTask;
    hide DryTasks;
    hide DistinctKeys;
    hide SyncSpec.Bootstrap;
    ghost var before, infos, res := sc.sent, Infos(tasks), Strip(sc.syncRes);
    ghost var boot := SyncSpec.Bootstrap(sc.cfg, infos, res, env);
    var found := FindNamespaceTask(sc, tasks);
    state := Bootstrap(sc, found, env, tasks);
    if state.RunFailed? {
      return;
    }
    ghost var between := sc.sent;
    var dry := ChooseDryTasks(sc, tasks, found, env);
    state := RunSome(sc, dry, true, env.preflight, tasks);
    DidThen(boot, RunTasks(sc.cfg, DryTasks(sc.cfg, infos, env), true, env.preflight, boot.res), sc, state,
            before, between);
  }

  // ----- the whole call -----

  lemma SyncFollows(out: StepOut, ts: seq<Task>, st: State, env: Env, sc: SyncContext, before: seq<Request>)
    requires DistinctKeys(ts) && Scheduled(ts) && env.valid && st.res != map[] && !st.phase.Succeeded?
    requires out == SyncStep(sc.cfg, ts, st, env) && Took(out, sc, before)
    ensures PhaseFollows(sc.cfg, ts, st, env, sc.phase)
    ensures IsHeldUp(ts, st.res) ==> sc.sent == before
  {
    hide IsHeldUp;
    hide RegularFailed;
    hide CanStart;
    hide SyncStep;
    CallFollows(sc.cfg, ts, st, env);
    if IsHeldUp(ts, st.res) {
      assert sc.sent[|before|..] == [];
      assert sc.sent == before + sc.sent[|before|..];
    }
  }

  /**
   One call. Of a started operation, the phase it leaves is also told of the records it begins with and of the live
   objects (HealthLaws); the first call of one fails at once if anything is refused (FirstCall).
   */
  method Sync(sc: SyncContext, tasks: seq<SyncTask>, env: Env)
    requires Ready(sc, tasks)
    modifies sc`phase, sc`syncRes, sc`sent, (set t | t in tasks)`syncStatus, (set t | t in tasks)`operationState
    ensures Ready(sc, tasks)
    ensures Took(SyncStep(sc.cfg, Infos(tasks), State(old(sc.phase), Strip(old(sc.syncRes))), env), sc, old(sc.sent))
    ensures var ts, st := Infos(tasks), State(old(sc.phase), Strip(old(sc.syncRes)));
            Scheduled(ts) && env.valid && st.res != map[] && !st.phase.Succeeded? ==>
              PhaseFollows(sc.cfg, ts, st, env, sc.phase) && (IsHeldUp(ts, st.res) ==> sc.sent == old(sc.sent))
    ensures env.valid && Strip(old(sc.syncRes)) == map[] && IsRefused(sc.cfg, Infos(tasks), env) ==> sc.phase.Failed?
  {
    hide IsRefused;
    hide Infos;
    hide Ready;
    hide Sent;
    hide Scheduled;
    hide PhaseFollows;
    hide IsHeldUp;
    hide SyncSpec.Preflight;
    hide SyncSpec.Advance;
    ReadyKeys(sc, tasks);
    ghost var before, infos, phase, res := sc.sent, Infos(tasks), sc.phase, Strip(sc.syncRes);
    SentNothing(before);
    if !env.valid {
      sc.phase := Failed;
    } else if |sc.syncRes| > 0 {
      StartedAlready(sc.syncRes);
      Advance(sc, tasks, env);
    } else {
      NotStarted(sc.syncRes);
      var state := Preflight(sc, tasks, env);
      ghost var pre := SyncSpec.Preflight(sc.cfg, infos, res, env);
      ghost var between := sc.sent;
      if state.RunFailed? {
        sc.phase := Failed;
        SentNothing(between);
        TookThen(pre.steps, Quiet(Failed, pre.res), sc, before, between);
      } else {
        Advance(sc, tasks, env);
        TookThen(pre.steps, SyncSpec.Advance(sc.cfg, infos, phase, pre.res, env), sc, before, between);
      }
    }
    ghost var st := State(phase, res);
    if Scheduled(infos) && env.valid && res != map[] && !phase.Succeeded? {
      SyncFollows(SyncStep(sc.cfg, infos, st, env), infos, st, env, sc, before);
    }
    if env.valid && res == map[] { FirstCallEnds(sc.cfg, infos, st, env); }
  }

  lemma StartedAlready(syncRes: map<ResultKey, SyncResult>)
    requires |syncRes| > 0
    ensures Strip(syncRes) != map[]
  {
  }

  lemma NotStarted(syncRes: map<ResultKey, SyncResult>)
    requires |syncRes| == 0
    ensures Strip(syncRes) == map[]
  {
  }
}
