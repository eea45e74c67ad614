/** Runs in which the cluster says yes to everything, and runs in which it says no. */
module GoodAnswers {
  import opened Kube
  import opened Lists
  import opened Tasks
  import opened RunSpec
  import opened RunLaws
  import opened RunBarriers
  import opened AtMostOnce

  // Every request succeeds, and a hook that has to be deleted first is gone already.
  predicate Smooth(calls: Calls, ts: seq<Task>) {
    forall t :: t in ts ==>
      && calls.removeFinalizer(t.RKey()) && calls.deletePruned(t.RKey())
      && calls.deleteHook(t.RKey()).NotFound? && calls.apply(t.RKey())
  }

  lemma SmoothWork(run: StageRun, t: Task, res: Results)
    requires Fits(run.stage, t) && Smooth(run.calls, [t])
    ensures run.Of(t, res).state.RunSuccessful?
  {
    assert t in [t];
  }

  lemma SmoothStage(s: Stages, stage: Stage)
    requires Smooth(s.calls, s.ts)
    ensures s.Clean(stage)
  {
    hide WorkOf;
    forall t | t in s.Tasks(stage) && Fits(stage, t) ensures s.Run(stage).Of(t, s.res).state.RunSuccessful? {
      assert t in s.ts;
      SmoothWork(s.Run(stage), t, s.res);
    }
  }

  // Such a run never fails, and waits for nothing but a confirmation.
  lemma SmoothRun(cfg: Config, ts: seq<Task>, dryRun: bool, calls: Calls, res: Results)
    requires DistinctKeys(ts) && Smooth(calls, ts)
    ensures var state := RunTasks(cfg, ts, dryRun, calls, res).state;
            !state.RunFailed? && (state.RunPending? <==> AwaitsConfirmation(cfg, Prunes(ts)))
  {
    hide RunTasks;
    hide Smooth;
    hide Stages.SomeIn;
    var s := Stages(cfg, ts, dryRun || cfg.dryRun, calls, res);
    SmoothStage(s, Finalizers);
    SmoothStage(s, Prune);
    SmoothStage(s, DeleteHooks);
    SmoothStage(s, Create);
    RunStateExact(cfg, ts, dryRun, calls, res);
  }

  lemma SmoothPart(calls: Calls, ts: seq<Task>, part: seq<Task>)
    requires Smooth(calls, ts) && forall t :: t in part ==> t in ts
    ensures Smooth(calls, part)
  {
  }

  lemma ConfirmedPart(cfg: Config, ts: seq<Task>, part: seq<Task>)
    requires !AwaitsConfirmation(cfg, Prunes(ts)) && forall t :: t in part ==> t in ts
    ensures !AwaitsConfirmation(cfg, Prunes(part))
  {
    forall t | t in Prunes(part) ensures t in Prunes(ts) {
    }
  }

  const SMOOTH_CALLS := Calls(k => true, k => true, k => NotFound, k => true)

  const BAD_CALLS := Calls(k => false, k => false, k => Err, k => false)

  // A task whose run fails if the cluster says no
  predicate Fallible(cfg: Config, t: Task) {
    !t.IsPrune() || (cfg.prune && DisablePrune !in t.objs.live.options && !t.objs.live.deleting)
  }

  // Saying no to everything fails a real run as soon as something in it can fail.
  lemma BadRun(cfg: Config, ts: seq<Task>, res: Results, t: Task)
    requires DistinctKeys(ts) && t in ts && Fallible(cfg, t) && !cfg.dryRun && !AwaitsConfirmation(cfg, Prunes(ts))
    ensures RunTasks(cfg, ts, false, BAD_CALLS, res).state.RunFailed?
  {
    hide RunTasks;
    var s := Stages(cfg, ts, false, BAD_CALLS, res);
    RunStateExact(cfg, ts, false, BAD_CALLS, res);
    assert s.Confirmed();
    BadStage(s, Finalizers);
    BadStage(s, Prune);
    BadStage(s, DeleteHooks);
    if t.IsPrune() {
      assert t in s.Tasks(Prune) && s.Run(Prune).Of(t, res).state.RunFailed?;
      assert s.SomeIn(Prune, RunFailed);
    } else {
      assert t in s.Tasks(Create) && s.Run(Create).Of(t, res).state.RunFailed?;
      assert s.SomeIn(Create, RunFailed);
    }
  }

  lemma BadStage(s: Stages, stage: Stage)
    requires s.calls == BAD_CALLS && !s.dry
    ensures !s.SomeIn(stage, RunPending)
  {
  }

  // ----- what a smooth run applies -----

  lemma SmoothQuiet(run: StageRun, ts: seq<Task>, res: Results)
    requires run.FitsAll(ts) && (run.stage.Finalizers? || run.stage.DeleteHooks?) && Smooth(run.calls, ts)
    ensures run.State(RunSuccessful, ts, res).RunSuccessful? && run.Run(RunSuccessful, ts, res).res == res
  {
    hide WorkOf;
    forall t | t in ts ensures run.Of(t, res).state.RunSuccessful? { SmoothWork(run, t, res); }
    StateIs(run, RunSuccessful, ts, res);
    NoWrites(run, ts, res);
    assert res + map[] == res;
  }

  lemma CreatesTouched(run: StageRun, creates: seq<Task>, res: Results, t: Task)
    requires run.stage.Create? && !run.dry && t in creates && forall u :: u in creates ==> !u.IsPrune()
    ensures forall g :: g in KindGroups(creates) ==> run.FitsAll(g)
    ensures Touches(CreateGroups(run, RunSuccessful, KindGroups(creates), res).steps, t.RKey()) > 0
  {
    hide CreateGroups;
    hide StageRun.Requests;
    hide Count;
    KindGroupsPartition(creates);
    CreateGroupsCount(run, RunSuccessful, KindGroups(creates), res, Apply(t.RKey(), false));
    RequestsFrom(run, Applied(creates, false), res, Apply(t.RKey(), false));
    assert t in Applied(creates, false) && run.Of(t, res).request == Some(Apply(t.RKey(), false));
  }

  // A real run that is smooth, over tasks to be created, applies every one of them.
  lemma SmoothTouches(cfg: Config, ts: seq<Task>, calls: Calls, res: Results, t: Task)
    requires t in ts && !cfg.dryRun && Smooth(calls, ts) && forall u :: u in ts ==> !u.IsPrune()
    ensures Touches(RunTasks(cfg, ts, false, calls, res).steps, t.RKey()) > 0
  {
    hide Touches;
    hide CreateGroups;
    hide StageRun.Requests;
    hide StageRun.State;
    hide StageRun.Writes;
    var fin, prune := StageRun(Finalizers, cfg, false, calls), StageRun(Prune, cfg, false, calls);
    var del, create := StageRun(DeleteHooks, cfg, false, calls), StageRun(Create, cfg, false, calls);
    FilterNone(IsPrune(), ts);
    var creates := Creates(ts);
    SmoothQuiet(fin, ExistingHooks(ts, res), res);
    NoPrunesRun(prune, res);
    SmoothQuiet(del, HooksToDelete(creates, res), res);
    CreatesTouched(create, creates, res, t);
    var finalized, pruned := fin.Run(RunSuccessful, ExistingHooks(ts, res), res), prune.Run(RunSuccessful, [], res);
    var deleted := del.Run(RunSuccessful, HooksToDelete(creates, res), res);
    var made := CreateGroups(create, RunSuccessful, KindGroups(creates), res).steps;
    TouchesAppend(deleted.steps, made, t.RKey());
    TouchesAppend(pruned.steps, deleted.steps + made, t.RKey());
    TouchesAppend(finalized.steps, pruned.steps + (deleted.steps + made), t.RKey());
  }

  lemma NoPrunesRun(run: StageRun, res: Results)
    ensures var out := run.Run(RunSuccessful, [], res); out.state.RunSuccessful? && out.res == res
  {
    assert res + map[] == res;
  }

  // ----- runs over tasks to be pruned, in an operation that does not prune -----

  predicate PrunesOnly(ts: seq<Task>) {
    forall t :: t in ts ==> t.IsPrune() && !t.IsHook()
  }

  lemma PruneRun(cfg: Config, ts: seq<Task>, calls: Calls, res: Results)
    requires DistinctKeys(ts) && PrunesOnly(ts) && !cfg.prune && !cfg.dryRun
    ensures var out := RunTasks(cfg, ts, false, calls, res);
            && !out.state.RunFailed?
            && (out.state.RunPending? <==> AwaitsConfirmation(cfg, ts))
            && (forall t :: t in ts ==> Op(t, out.res) == Op(t, res) || Op(t, out.res).Succeeded?)
  {
    hide RunTasks;
    var s := Stages(cfg, ts, false, calls, res);
    var out := RunTasks(cfg, ts, false, calls, res);
    PrunesAll(ts);
    FilterNone(IsCreate(), ts);
    FilterNone(IsExistingHook(res), ts);
    RunStateExact(cfg, ts, false, calls, res);
    assert s.Tasks(Finalizers) == [] && s.Tasks(DeleteHooks) == [] && s.Tasks(Create) == [];
    assert s.Clean(Prune);
    if out.state.RunSuccessful? {
      RunTasksSuccess(cfg, ts, false, calls, res);
      assert forall t :: t in ts ==> CarriedOut(cfg, t, out.res);
    } else {
      Unconfirmed(cfg, ts, calls, res);
    }
  }

  lemma {:induction false} PrunesAll(ts: seq<Task>)
    requires forall t :: t in ts ==> t.IsPrune()
    ensures Prunes(ts) == ts
  {
    if ts != [] {
      PrunesAll(ts[1..]);
      assert Filter(IsPrune(), ts) == [ts[0]] + Filter(IsPrune(), ts[1..]);
    }
  }

  lemma Unconfirmed(cfg: Config, ts: seq<Task>, calls: Calls, res: Results)
    requires PrunesOnly(ts) && AwaitsConfirmation(cfg, Prunes(ts))
    ensures RunTasks(cfg, ts, false, calls, res).res == res
  {
    FilterNone(IsExistingHook(res), ts);
    NoPrunesRun(StageRun(Finalizers, cfg, cfg.dryRun, calls), res);
  }
}
