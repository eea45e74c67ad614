/** Running a single task that has no live object: nothing to remove, prune or delete, one thing to apply. */
module OneTask {
  import opened Lists
  import opened Tasks
  import opened RunSpec

  lemma FilterOne<T>(p: T -> bool, x: T)
    ensures Filter(p, [x]) == if p(x) then [x] else []
  {
    assert [x][1..] == [];
  }

  lemma NoTasks(run: StageRun, from: RunState, res: Results)
    ensures run.Run(from, [], res) == RunOut(from, res, [multiset{}])
  {
    assert res + map[] == res;
  }

  lemma ApplyOne(run: StageRun, t: Task, res: Results)
    requires run.stage.Create? && !t.IsPrune()
    ensures run.FitsAll([t])
    ensures var out := run.Run(RunSuccessful, [t], res);
            && out.steps == [multiset{Apply(t.RKey(), run.dry)}]
            && (out.state.RunSuccessful? <==> run.calls.apply(t.RKey()))
            && (run.calls.apply(t.RKey()) && !run.cfg.dryRun ==>
                  out.res == if run.dry then res else res[t.RKey() := Result(Synced, Running)])
  {
    assert [t][1..] == [];
    assert run.Writes([], res) == map[] && run.Requests([], res) == multiset{};
    assert run.Requests([t], res) == multiset{Apply(t.RKey(), run.dry)};
    assert run.State(RunSuccessful, [], res) == RunSuccessful;
    if run.calls.apply(t.RKey()) && !run.cfg.dryRun {
      var result := Result(Synced, Running);
      assert run.Writes([t], res) == if run.dry then map[] else map[t.RKey() := result];
      assert res + map[] == res && res + map[t.RKey() := result] == res[t.RKey() := result];
    }
  }

  lemma CreateOne(run: StageRun, t: Task, res: Results)
    requires run.stage.Create? && !t.IsPrune() && !(run.dry && t.skipDryRun)
    ensures KindGroups([t]) == [[t]] && run.FitsAll([t])
    ensures CreateGroups(run, RunSuccessful, [[t]], res) == run.Run(RunSuccessful, [t], res)
  {
    hide StageRun.Run;
    assert [t][..1] == [t] && [t][1..] == [] && [[t]][1..] == [];
    FilterOne(NotSkipped(run.dry), t);
    ApplyOne(run, t, res);
    var out := run.Run(RunSuccessful, [t], res);
    assert CreateGroups(run, out.state, [], out.res) == RunOut(out.state, out.res, []);
    assert out.steps + [] == out.steps;
  }

  // One application is the last of four steps.
  lemma RunOne(cfg: Config, t: Task, dryRun: bool, calls: Calls, res: Results)
    requires t.objs.TargetOnly? && !((dryRun || cfg.dryRun) && t.skipDryRun)
    ensures StageRun(Create, cfg, dryRun || cfg.dryRun, calls).FitsAll([t])
    ensures var made := StageRun(Create, cfg, dryRun || cfg.dryRun, calls).Run(RunSuccessful, [t], res);
            RunTasks(cfg, [t], dryRun, calls, res) ==
            RunOut(made.state, made.res, [multiset{}, multiset{}, multiset{},
                                          multiset{Apply(t.RKey(), dryRun || cfg.dryRun)}])
  {
    hide StageRun.Run;
    var dry := dryRun || cfg.dryRun;
    FilterOne(IsExistingHook(res), t);
    FilterOne(IsPrune(), t);
    FilterOne(IsCreate(), t);
    FilterOne(IsDeletedFirst(res), t);
    NoTasks(StageRun(Finalizers, cfg, dry, calls), RunSuccessful, res);
    NoTasks(StageRun(Prune, cfg, dry, calls), RunSuccessful, res);
    NoTasks(StageRun(DeleteHooks, cfg, dry, calls), RunSuccessful, res);
    CreateOne(StageRun(Create, cfg, dry, calls), t, res);
    ApplyOne(StageRun(Create, cfg, dry, calls), t, res);
    var q := multiset{Apply(t.RKey(), dry)};
    assert DeleteAndCreate(cfg, [t], dry, calls, res).steps == [multiset{}, q];
    assert PruneAndCreate(cfg, [t], dry, calls, res).steps == [multiset{}, multiset{}, q];
  }

  // Where that goes well
  lemma RunOneWell(cfg: Config, t: Task, dryRun: bool, calls: Calls, res: Results)
    requires t.objs.TargetOnly? && !(dryRun && t.skipDryRun) && !cfg.dryRun && calls.apply(t.RKey())
    ensures RunTasks(cfg, [t], dryRun, calls, res) ==
            RunOut(RunSuccessful, if dryRun then res else res[t.RKey() := Result(Synced, Running)],
                   [multiset{}, multiset{}, multiset{}, multiset{Apply(t.RKey(), dryRun)}])
  {
    hide StageRun.Run;
    hide RunTasks;
    RunOne(cfg, t, dryRun, calls, res);
    ApplyOne(StageRun(Create, cfg, dryRun, calls), t, res);
  }
}
