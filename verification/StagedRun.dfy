/** runTasks of pkg/sync/sync_context.go: each stage starts only if the one before it ended well. */
module StagedRun {
  import opened Kube
  import opened Lists
  import opened Tasks
  import opened TaskArrays
  import opened RunSpec
  import opened SyncState
  import opened TaskRunner
  import opened RunMethods
  import RunBarriers
  import opened RunAnswers

  method SplitTasks(tasks: seq<SyncTask>) returns (prunes: seq<SyncTask>, creates: seq<SyncTask>)
    ensures Infos(prunes) == Prunes(Infos(tasks)) && Among(prunes, tasks)
    ensures Infos(creates) == Creates(Infos(tasks)) && Among(creates, tasks)
  {
    hide Filter;
    hide Infos;
    prunes, creates := [], [];
    ghost var infos := Infos(tasks);
    FilterNone(IsPrune(), infos[..0]);
    FilterNone(IsCreate(), infos[..0]);
    for i := 0 to |tasks|
      invariant Infos(prunes) == Filter(IsPrune(), infos[..i]) && Among(prunes, tasks)
      invariant Infos(creates) == Filter(IsCreate(), infos[..i]) && Among(creates, tasks)
    {
      FilterNext(IsPrune(), infos, i);
      FilterNext(IsCreate(), infos, i);
      InfosNext(prunes, tasks[i]);
      InfosNext(creates, tasks[i]);
      assert tasks[i] in tasks;
      if tasks[i].objs.LiveOnly? {
        prunes := prunes + [tasks[i]];
      } else {
        creates := creates + [tasks[i]];
      }
    }
    assert infos[..|tasks|] == infos;
  }

  method NeedsConfirmation(cfg: Config, prunes: seq<SyncTask>) returns (b: bool)
    requires forall t :: t in Infos(prunes) ==> t.IsPrune()
    ensures b == AwaitsConfirmation(cfg, Infos(prunes))
  {
    b := false;
    if !cfg.pruneConfirmed {
      ghost var infos := Infos(prunes);
      for i := 0 to |prunes|
        invariant b <==>
                  exists j :: 0 <= j < i && infos[j].IsPrune() && PruneRequireConfirm in infos[j].objs.live.options
      {
        assert infos[i] in infos;
        if PruneRequireConfirm in prunes[i].objs.live.options {
          b := true;
        }
      }
    }
  }

  lemma PartsDistinct(ts: seq<Task>)
    requires DistinctKeys(ts)
    ensures DistinctKeys(Prunes(ts)) && DistinctKeys(Creates(ts))
  {
    FilteredKeys(IsPrune(), ts);
    FilteredKeys(IsCreate(), ts);
  }

  method PruneAndCreate(sc: SyncContext, prunes: seq<SyncTask>, creates: seq<SyncTask>, dry: bool, calls: Calls,
                        tasks: seq<SyncTask>)
    returns (state: RunState)
    requires DistinctKeys(Infos(tasks)) && TracksAll(tasks, Strip(sc.syncRes)) && Numbered(sc.syncRes)
    requires Among(prunes, tasks) && Infos(prunes) == Prunes(Infos(tasks))
    requires Among(creates, tasks) && Infos(creates) == Creates(Infos(tasks))
    modifies sc`syncRes, sc`sent, (set t | t in tasks)`syncStatus, (set t | t in tasks)`operationState
    ensures TracksAll(tasks, Strip(sc.syncRes)) && Numbered(sc.syncRes)
    ensures Did(RunSpec.PruneAndCreate(sc.cfg, Infos(tasks), dry, calls, Strip(old(sc.syncRes))),
                state, sc, old(sc.sent))
  {
    hide Numbered;
    hide DistinctKeys;
    hide Infos;
    hide StageRun.Run;
    hide RunSpec.DeleteAndCreate;
    hide Prunes;
    hide Creates;
    hide Sent;
    hide TracksAll;
    ghost var before, infos, res := sc.sent, Infos(tasks), Strip(sc.syncRes);
    PartsDistinct(infos);
    var confirm := NeedsConfirmation(sc.cfg, prunes);
    if confirm {
      SentNothing(before);
      assert Did(RunOut(RunPending, res, []), RunPending, sc, before);
      return RunPending;
    }
    var run := StageRun(Prune, sc.cfg, dry, calls);
    ghost var pruned := run.Run(RunSuccessful, Prunes(infos), res);
    state := RunPart(sc, run, RunSuccessful, prunes, tasks);
    if !state.RunSuccessful? {
      return;
    }
    ghost var between := sc.sent;
    state := RunMethods.DeleteAndCreate(sc, creates, dry, calls, tasks);
    DidThen(pruned, RunSpec.DeleteAndCreate(sc.cfg, Creates(infos), dry, calls, pruned.res), sc, state,
            before, between);
  }

  lemma {:induction false} InStepsMember(log: seq<Request>, steps: seq<multiset<Request>>, q: Request)
    requires InSteps(log, steps)
    ensures q in log <==> Sends(steps, q)
  {
    if steps != [] {
      var n := |steps[0]|;
      InStepsMember(log[n..], steps[1..], q);
      SendsFirst(steps[0], steps[1..], q);
      assert steps == [steps[0]] + steps[1..] && log == log[..n] + log[n..];
      assert q in log[..n] <==> q in multiset(log[..n]);
    }
  }

  lemma DidAsAnswered(out: RunOut, s: RunBarriers.Stages, dryRun: bool, state: RunState, sc: SyncContext,
                      before: seq<Request>)
    requires DistinctKeys(s.ts) && s.dry == (dryRun || s.cfg.dryRun)
    requires out == RunSpec.RunTasks(s.cfg, s.ts, dryRun, s.calls, s.res) && Did(out, state, sc, before)
    ensures before <= sc.sent && AsAnswered(s, state, Strip(sc.syncRes), sc.sent[|before|..])
  {
    hide RunSpec.RunTasks;
    hide AsAnswered;
    hide Sends;
    hide InSteps;
    forall q { InStepsMember(sc.sent[|before|..], out.steps, q); }
    RunAsAnswered(s.cfg, s.ts, dryRun, s.calls, s.res, sc.sent[|before|..]);
  }

  /** The stages in turn. What they come to is also told task by task, of the answers alone (RunAnswers). */
  method RunTasks(sc: SyncContext, tasks: seq<SyncTask>, dryRun: bool, calls: Calls)
    returns (state: RunState)
    requires DistinctKeys(Infos(tasks)) && TracksAll(tasks, Strip(sc.syncRes)) && Numbered(sc.syncRes)
    modifies sc`syncRes, sc`sent, (set t | t in tasks)`syncStatus, (set t | t in tasks)`operationState
    ensures TracksAll(tasks, Strip(sc.syncRes)) && Numbered(sc.syncRes)
    ensures Did(RunSpec.RunTasks(sc.cfg, Infos(tasks), dryRun, calls, Strip(old(sc.syncRes))), state, sc, old(sc.sent))
    ensures var s := RunBarriers.Stages(sc.cfg, Infos(tasks), dryRun || sc.cfg.dryRun, calls, Strip(old(sc.syncRes)));
            old(sc.sent) <= sc.sent && AsAnswered(s, state, Strip(sc.syncRes), sc.sent[|old(sc.sent)|..])
  {
    hide Numbered;
    hide DistinctKeys;
    hide Infos;
    hide StageRun.Run;
    hide RunSpec.PruneAndCreate;
    hide ExistingHooks;
    hide Sent;
    hide TracksAll;
    hide AsAnswered;
    ghost var before, infos, res := sc.sent, Infos(tasks), Strip(sc.syncRes);
    var dry := dryRun || sc.cfg.dryRun;
    var prunes, creates := SplitTasks(tasks);
    var run := StageRun(Finalizers, sc.cfg, dry, calls);
    ghost var finalized := run.Run(RunSuccessful, ExistingHooks(infos, res), res);
    ghost var goal := RunSpec.RunTasks(sc.cfg, infos, dryRun, calls, res);
    state := RemoveFinalizers(sc, run, tasks);
    if state.RunSuccessful? {
      ghost var between := sc.sent;
      state := PruneAndCreate(sc, prunes, creates, dry, calls, tasks);
      DidThen(finalized, RunSpec.PruneAndCreate(sc.cfg, infos, dry, calls, finalized.res), sc, state, before, between);
    }
    DidAsAnswered(goal, RunBarriers.Stages(sc.cfg, infos, dry, calls, res), dryRun, state, sc, before);
  }

  method RemoveFinalizers(sc: SyncContext, run: StageRun, tasks: seq<SyncTask>) returns (state: RunState)
    requires run.stage.Finalizers?
    requires DistinctKeys(Infos(tasks)) && TracksAll(tasks, Strip(sc.syncRes)) && Numbered(sc.syncRes)
    modifies sc`syncRes, sc`sent, (set t | t in tasks)`syncStatus, (set t | t in tasks)`operationState
    ensures TracksAll(tasks, Strip(sc.syncRes)) && Numbered(sc.syncRes)
    ensures var res := Strip(old(sc.syncRes));
            Did(run.Run(RunSuccessful, ExistingHooks(Infos(tasks), res), res), state, sc, old(sc.sent))
  {
    hide Numbered;
    hide DistinctKeys;
    hide Infos;
    hide StageRun.Run;
    hide Did;
    hide Strip;
    ghost var res := Strip(sc.syncRes);
    assert run.FitsAll(ExistingHooks(Infos(tasks), res));
    state := RunSelected(sc, run, RunSuccessful, tasks,
      (t: Task, r: Result) => t.IsHook() && r.op.NoPhase? && t.Live().Some?, IsExistingHook(res), tasks);
  }
}
