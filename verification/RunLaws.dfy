/** What runTasks guarantees about the results it records and the requests it sends. */
module RunLaws {
  import opened Kube
  import opened Lists
  import opened Tasks
  import opened RunSpec

  // ----- one stage -----

  lemma {:induction false} WritesAt(run: StageRun, ts: seq<Task>, res: Results)
    requires run.FitsAll(ts) && DistinctKeys(ts)
    ensures run.Writes(ts, res).Keys <= KeysOf(ts)
    ensures forall t :: t in ts ==>
              (run.Of(t, res).write.Some? <==> t.RKey() in run.Writes(ts, res)) &&
              (run.Of(t, res).write.Some? ==> run.Writes(ts, res)[t.RKey()] == run.Of(t, res).write.value)
  {
    hide WorkOf;
    hide StageRun.Of;
    hide Fits;
    if ts != [] {
      WritesAt(run, ts[1..], res);
      assert forall t :: t in ts <==> t == ts[0] || t in ts[1..];
      assert KeysOf(ts[1..]) <= KeysOf(ts);
      assert forall t :: t in ts[1..] ==> t.RKey() != ts[0].RKey();
      assert ts[0].RKey() !in KeysOf(ts[1..]);
    }
  }

  lemma {:induction false} StateIs(run: StageRun, from: RunState, ts: seq<Task>, res: Results)
    requires run.FitsAll(ts)
    ensures run.State(from, ts, res).RunFailed? <==>
            from.RunFailed? || exists t :: t in ts && run.Of(t, res).state.RunFailed?
    ensures run.State(from, ts, res).RunSuccessful? <==>
            from.RunSuccessful? && forall t :: t in ts ==> run.Of(t, res).state.RunSuccessful?
  {
    if ts != [] {
      StateIs(run, from, ts[1..], res);
      assert forall t :: t in ts <==> t == ts[0] || t in ts[1..];
    }
  }

  lemma RequestNamesTask(run: StageRun, t: Task, res: Results)
    requires Fits(run.stage, t)
    ensures var q := run.Of(t, res).request; q.Some? ==> q.value.k == t.RKey()
  {
  }

  lemma {:induction false} RequestsFrom(run: StageRun, ts: seq<Task>, res: Results, q: Request)
    requires run.FitsAll(ts)
    ensures q in run.Requests(ts, res) <==> exists t :: t in ts && run.Of(t, res).request == Some(q)
  {
    if ts != [] {
      RequestsFrom(run, ts[1..], res, q);
      assert forall t :: t in ts <==> t == ts[0] || t in ts[1..];
    }
  }

  lemma {:induction false} RequestsOnce(run: StageRun, ts: seq<Task>, res: Results, q: Request)
    requires run.FitsAll(ts) && DistinctKeys(ts)
    ensures run.Requests(ts, res)[q] <= 1
  {
    if ts != [] {
      RequestsOnce(run, ts[1..], res, q);
      RequestsFrom(run, ts[1..], res, q);
      if run.Of(ts[0], res).request == Some(q) && q in run.Requests(ts[1..], res) {
        var t :| t in ts[1..] && run.Of(t, res).request == Some(q);
        RequestNamesTask(run, t, res);
        RequestNamesTask(run, ts[0], res);
        assert false;
      }
    }
  }

  lemma {:induction false} RequestsAppend(run: StageRun, a: seq<Task>, b: seq<Task>, res: Results)
    requires run.FitsAll(a) && run.FitsAll(b)
    ensures run.FitsAll(a + b)
    ensures run.Requests(a + b, res) == run.Requests(a, res) + run.Requests(b, res)
  {
    if a == [] {
      assert a + b == b;
    } else {
      assert (a + b)[1..] == a[1..] + b;
      RequestsAppend(run, a[1..], b, res);
    }
  }

  // ----- creating by kind -----

  // Applying does not look at what is recorded.
  lemma {:induction false} CreateIgnoresResults(run: StageRun, from: RunState, ts: seq<Task>, res: Results,
                                                res': Results)
    requires run.stage.Create? && run.FitsAll(ts)
    ensures run.Writes(ts, res) == run.Writes(ts, res')
    ensures run.Requests(ts, res) == run.Requests(ts, res')
    ensures run.State(from, ts, res) == run.State(from, ts, res')
  {
    if ts != [] {
      CreateIgnoresResults(run, from, ts[1..], res, res');
    }
  }

  lemma {:induction false} StageAppend(run: StageRun, from: RunState, a: seq<Task>, b: seq<Task>, res: Results)
    requires run.FitsAll(a) && run.FitsAll(b) && DistinctKeys(a + b)
    ensures run.FitsAll(a + b)
    ensures run.Writes(a + b, res) == run.Writes(a, res) + run.Writes(b, res)
    ensures run.State(from, a + b, res) == run.State(run.State(from, a, res), b, res)
  {
    assert forall t :: t in a + b <==> t in a || t in b;
    StateIs(run, from, a + b, res);
    StateIs(run, from, a, res);
    StateIs(run, run.State(from, a, res), b, res);
    WritesAppend(run, a, b, res);
  }

  lemma {:induction false} WritesAppend(run: StageRun, a: seq<Task>, b: seq<Task>, res: Results)
    requires run.FitsAll(a) && run.FitsAll(b) && DistinctKeys(a + b)
    ensures run.FitsAll(a + b)
    ensures run.Writes(a + b, res) == run.Writes(a, res) + run.Writes(b, res)
  {
    hide WorkOf;
    hide StageRun.Of;
    if a == [] {
      assert a + b == b;
    } else {
      assert (a + b)[1..] == a[1..] + b;
      WritesAppend(run, a[1..], b, res);
      DistinctParts(KeyOf(), a, b);
      WritesAt(run, b, res);
      assert a[0] in a;
      assert a[0].RKey() !in KeysOf(b);
    }
  }

  lemma AppliedConcat(groups: seq<seq<Task>>, dry: bool)
    requires groups != [] && DistinctKeys(Applied(Concat(groups), dry))
    ensures Applied(Concat(groups), dry) == Applied(groups[0], dry) + Applied(Concat(groups[1..]), dry)
    ensures DistinctKeys(Applied(groups[0], dry)) && DistinctKeys(Applied(Concat(groups[1..]), dry))
  {
    FilterAppend(NotSkipped(dry), groups[0], Concat(groups[1..]));
    DistinctParts(KeyOf(), Applied(groups[0], dry), Applied(Concat(groups[1..]), dry));
  }

  // Applying one list and then another records and reports what applying both at once would.
  lemma CreateTwice(run: StageRun, from: RunState, a: seq<Task>, b: seq<Task>, res: Results)
    requires run.stage.Create? && run.FitsAll(a) && run.FitsAll(b) && DistinctKeys(a + b)
    ensures run.FitsAll(a + b)
    ensures var first := run.Run(from, a, res);
            run.State(first.state, b, first.res) == run.State(from, a + b, res) &&
            first.res + run.Writes(b, first.res) == res + run.Writes(a + b, res)
  {
    var wa, wb := run.Writes(a, res), run.Writes(b, res);
    StageAppend(run, from, a, b, res);
    CreateIgnoresResults(run, run.State(from, a, res), b, res, res + wa);
    assert (res + wa) + wb == res + (wa + wb);
  }

  lemma {:induction false} CreateGroupsFlat(run: StageRun, from: RunState, groups: seq<seq<Task>>, res: Results)
    requires run.stage.Create?
    requires forall g :: g in groups ==> run.FitsAll(g)
    requires DistinctKeys(Applied(Concat(groups), run.dry))
    ensures run.FitsAll(Applied(Concat(groups), run.dry))
    ensures CreateGroups(run, from, groups, res).state == run.State(from, Applied(Concat(groups), run.dry), res)
    ensures CreateGroups(run, from, groups, res).res == res + run.Writes(Applied(Concat(groups), run.dry), res)
    decreases |groups|
  {
    if groups != [] {
      assert run.FitsAll(groups[0]);
      AppliedConcat(groups, run.dry);
      var a, b := Applied(groups[0], run.dry), Applied(Concat(groups[1..]), run.dry);
      var first := run.Run(from, a, res);
      CreateGroupsFlat(run, first.state, groups[1..], first.res);
      CreateTwice(run, from, a, b, res);
    }
  }

  lemma {:induction false} CreateGroupsSteps(run: StageRun, from: RunState, groups: seq<seq<Task>>, res: Results)
    requires run.stage.Create?
    requires forall g :: g in groups ==> run.FitsAll(g)
    ensures var steps := CreateGroups(run, from, groups, res).steps;
            |steps| == |groups| &&
            (forall i :: 0 <= i < |groups| ==>
              run.FitsAll(groups[i]) && steps[i] == run.Requests(Applied(groups[i], run.dry), res))
    decreases |groups|
  {
    if groups != [] {
      assert run.FitsAll(groups[0]);
      var first := run.Run(from, Applied(groups[0], run.dry), res);
      CreateGroupsSteps(run, first.state, groups[1..], first.res);
      forall i | 0 < i < |groups|
        ensures run.FitsAll(groups[i]) &&
                CreateGroups(run, from, groups, res).steps[i] == run.Requests(Applied(groups[i], run.dry), res)
      {
        assert groups[i] == groups[1..][i - 1];
        CreateIgnoresResults(run, first.state, Applied(groups[i], run.dry), res, first.res);
      }
    }
  }

  // ----- runTasks -----

  lemma SublistsDistinct(ts: seq<Task>, res: Results)
    requires DistinctKeys(ts)
    ensures DistinctKeys(ExistingHooks(ts, res)) && DistinctKeys(Prunes(ts)) && DistinctKeys(Creates(ts))
    ensures DistinctKeys(HooksToDelete(Creates(ts), res))
    ensures forall t :: t in ts ==> t in Prunes(ts) || t in Creates(ts)
    ensures forall x, y :: x in Prunes(ts) && y in Creates(ts) ==> x.RKey() != y.RKey()
  {
    FilterDistinct(IsExistingHook(res), KeyOf(), ts);
    FilterDistinct(IsPrune(), KeyOf(), ts);
    FilterDistinct(IsCreate(), KeyOf(), ts);
    FilterDistinct(IsDeletedFirst(res), KeyOf(), Creates(ts));
    forall x, y | x in Prunes(ts) && y in Creates(ts) ensures x.RKey() != y.RKey() {
      if x.RKey() == y.RKey() {
        DistinctSame(KeyOf(), ts, x, y);
      }
    }
  }

  // What the package ever writes down: not "not run" and not "terminating".
  predicate Recordable(op: OpPhase) { !op.NoPhase? && !op.Terminating? }

  // Recorded results stay recorded, only results of the given tasks change, and none changes back to "not run".
  predicate Grows(res: Results, res': Results, ks: set<ResultKey>) {
    && res.Keys <= res'.Keys <= res.Keys + ks
    && (forall k :: k in res && k !in ks ==> res'[k] == res[k])
    && (forall k :: k in res' && (k !in res || res'[k] != res[k]) ==> Recordable(res'[k].op))
  }

  lemma GrowsTransitive(a: Results, b: Results, c: Results, ks: set<ResultKey>)
    requires Grows(a, b, ks) && Grows(b, c, ks)
    ensures Grows(a, c, ks)
  {
  }

  lemma WorkRecords(run: StageRun, t: Task, res: Results)
    requires Fits(run.stage, t)
    ensures var w := run.Of(t, res);
            w.write.Some? ==> Recordable(w.write.value.op) && (w.state.RunFailed? <==> w.write.value.op.Unsuccessful())
    ensures run.Of(t, res).state.RunFailed? ==> run.Of(t, res).write.Some?
  {
  }

  lemma GrowsWider(a: Results, b: Results, ks: set<ResultKey>, wider: set<ResultKey>)
    requires Grows(a, b, ks) && ks <= wider
    ensures Grows(a, b, wider)
  {
  }

  lemma StageGrows(run: StageRun, from: RunState, ts: seq<Task>, res: Results, ks: set<ResultKey>)
    requires run.FitsAll(ts) && DistinctKeys(ts) && KeysOf(ts) <= ks
    ensures forall k :: k in run.Writes(ts, res) ==> k in KeysOf(ts) && Recordable(run.Writes(ts, res)[k].op)
    ensures Grows(res, run.Run(from, ts, res).res, ks)
  {
    WritesAt(run, ts, res);
    forall k | k in run.Writes(ts, res) ensures Recordable(run.Writes(ts, res)[k].op) {
      var t :| t in ts && t.RKey() == k;
      WorkRecords(run, t, res);
    }
  }

  // Creating by kind records what one stage over all the create tasks would.
  lemma CreateStage(cfg: Config, creates: seq<Task>, dry: bool, calls: Calls, from: RunState, res: Results)
    requires DistinctKeys(creates) && forall t :: t in creates ==> !t.IsPrune()
    ensures forall g :: g in KindGroups(creates) ==> StageRun(Create, cfg, dry, calls).FitsAll(g)
    ensures DistinctKeys(Applied(creates, dry))
    ensures var run := StageRun(Create, cfg, dry, calls);
            var out := CreateGroups(run, from, KindGroups(creates), res);
            out.state == run.State(from, Applied(creates, dry), res) &&
            out.res == res + run.Writes(Applied(creates, dry), res)
  {
    KindGroupsPartition(creates);
    FilterDistinct(NotSkipped(dry), KeyOf(), creates);
    CreateGroupsFlat(StageRun(Create, cfg, dry, calls), from, KindGroups(creates), res);
  }

  lemma DeleteAndCreateGrows(cfg: Config, creates: seq<Task>, dry: bool, calls: Calls, res: Results)
    requires DistinctKeys(creates) && forall t :: t in creates ==> !t.IsPrune()
    ensures Grows(res, DeleteAndCreate(cfg, creates, dry, calls, res).res, KeysOf(creates))
  {
    var del, create := StageRun(DeleteHooks, cfg, dry, calls), StageRun(Create, cfg, dry, calls);
    var hooks := HooksToDelete(creates, res);
    FilterDistinct(IsDeletedFirst(res), KeyOf(), creates);
    StageGrows(del, RunSuccessful, hooks, res, KeysOf(creates));
    var deleted := del.Run(RunSuccessful, hooks, res);
    if deleted.state.RunSuccessful? {
      CreateStage(cfg, creates, dry, calls, RunSuccessful, deleted.res);
      StageGrows(create, RunSuccessful, Applied(creates, dry), deleted.res, KeysOf(creates));
    }
  }

  lemma RunTasksGrows(cfg: Config, ts: seq<Task>, dryRun: bool, calls: Calls, res: Results)
    requires DistinctKeys(ts)
    ensures Grows(res, RunTasks(cfg, ts, dryRun, calls, res).res, KeysOf(ts))
  {
    var dry := dryRun || cfg.dryRun;
    SublistsDistinct(ts, res);
    var fin, prune := StageRun(Finalizers, cfg, dry, calls), StageRun(Prune, cfg, dry, calls);
    StageGrows(fin, RunSuccessful, ExistingHooks(ts, res), res, KeysOf(ts));
    var finalized := fin.Run(RunSuccessful, ExistingHooks(ts, res), res);
    if finalized.state.RunSuccessful? && !AwaitsConfirmation(cfg, Prunes(ts)) {
      StageGrows(prune, RunSuccessful, Prunes(ts), finalized.res, KeysOf(ts));
      var pruned := prune.Run(RunSuccessful, Prunes(ts), finalized.res);
      if pruned.state.RunSuccessful? {
        assert KeysOf(Creates(ts)) <= KeysOf(ts);
        DeleteAndCreateGrows(cfg, Creates(ts), dry, calls, pruned.res);
      }
    }
  }

  // ----- what success records -----

  // A stage without failure leaves the results alone unless it writes on success.
  lemma QuietStage(run: StageRun, ts: seq<Task>, res: Results)
    requires run.FitsAll(ts) && DistinctKeys(ts)
    requires run.stage.Finalizers? || run.stage.DeleteHooks?
    requires !run.State(RunSuccessful, ts, res).RunFailed?
    ensures run.Run(RunSuccessful, ts, res).res == res
  {
    StateIs(run, RunSuccessful, ts, res);
    NoWrites(run, ts, res);
  }

  lemma {:induction false} NoWrites(run: StageRun, ts: seq<Task>, res: Results)
    requires run.FitsAll(ts)
    requires run.stage.Finalizers? || run.stage.DeleteHooks?
    requires forall t :: t in ts ==> !run.Of(t, res).state.RunFailed?
    ensures run.Writes(ts, res) == map[]
  {
    if ts != [] {
      NoWrites(run, ts[1..], res);
      WorkRecords(run, ts[0], res);
    }
  }

  // The result of a task that was carried out without error
  predicate GoodResult(cfg: Config, t: Task, r: Result) {
    if t.IsPrune() then r in {Result(Pruned, Succeeded), Result(PruneSkipped, Succeeded)}
    else r == Result(Synced, if cfg.dryRun then Succeeded else Running)
  }

  predicate CarriedOut(cfg: Config, t: Task, res: Results) {
    t.RKey() in res && GoodResult(cfg, t, res[t.RKey()])
  }

  lemma LoudWork(run: StageRun, t: Task, res: Results)
    requires (run.stage.Prune? || run.stage.Create?) && Fits(run.stage, t)
    requires !run.dry || run.cfg.dryRun
    requires run.Of(t, res).state.RunSuccessful?
    ensures run.Of(t, res).write.Some? && GoodResult(run.cfg, t, run.Of(t, res).write.value)
  {
  }

  lemma LoudStage(run: StageRun, ts: seq<Task>, res: Results)
    requires (run.stage.Prune? || run.stage.Create?) && run.FitsAll(ts) && DistinctKeys(ts)
    requires !run.dry || run.cfg.dryRun
    requires run.State(RunSuccessful, ts, res).RunSuccessful?
    ensures forall t :: t in ts ==> CarriedOut(run.cfg, t, run.Run(RunSuccessful, ts, res).res)
  {
    WritesAt(run, ts, res);
    StateIs(run, RunSuccessful, ts, res);
    forall t | t in ts ensures CarriedOut(run.cfg, t, run.Run(RunSuccessful, ts, res).res) {
      LoudWork(run, t, res);
    }
  }

  lemma CreateSuccess(cfg: Config, creates: seq<Task>, dry: bool, calls: Calls, res: Results)
    requires DistinctKeys(creates) && forall t :: t in creates ==> !t.IsPrune()
    requires DeleteAndCreate(cfg, creates, dry, calls, res).state.RunSuccessful?
    requires !dry || cfg.dryRun
    ensures var out := DeleteAndCreate(cfg, creates, dry, calls, res);
            forall t :: t in creates && !(dry && t.skipDryRun) ==> CarriedOut(cfg, t, out.res)
  {
    FilterDistinct(IsDeletedFirst(res), KeyOf(), creates);
    QuietStage(StageRun(DeleteHooks, cfg, dry, calls), HooksToDelete(creates, res), res);
    CreateStage(cfg, creates, dry, calls, RunSuccessful, res);
    LoudStage(StageRun(Create, cfg, dry, calls), Applied(creates, dry), res);
  }

  lemma RunTasksSuccess(cfg: Config, ts: seq<Task>, dryRun: bool, calls: Calls, res: Results)
    requires DistinctKeys(ts)
    requires RunTasks(cfg, ts, dryRun, calls, res).state.RunSuccessful?
    requires !dryRun || cfg.dryRun
    ensures var out := RunTasks(cfg, ts, dryRun, calls, res);
            forall t :: t in ts && !(cfg.dryRun && t.skipDryRun && !t.IsPrune()) ==> CarriedOut(cfg, t, out.res)
  {
    var dry := dryRun || cfg.dryRun;
    SublistsDistinct(ts, res);
    QuietStage(StageRun(Finalizers, cfg, dry, calls), ExistingHooks(ts, res), res);
    var prune := StageRun(Prune, cfg, dry, calls);
    var pruned := prune.Run(RunSuccessful, Prunes(ts), res);
    LoudStage(prune, Prunes(ts), res);
    CreateSuccess(cfg, Creates(ts), dry, calls, pruned.res);
    DeleteAndCreateGrows(cfg, Creates(ts), dry, calls, pruned.res);
    forall t | t in Prunes(ts) ensures CarriedOut(cfg, t, RunTasks(cfg, ts, dryRun, calls, res).res) {
      assert t.RKey() !in KeysOf(Creates(ts));
    }
  }

  // ----- what failure records -----

  predicate SomeUnsuccessful(ts: seq<Task>, res: Results) {
    exists t :: t in ts && Op(t, res).Unsuccessful()
  }

  lemma FailedStage(run: StageRun, ts: seq<Task>, res: Results)
    requires run.FitsAll(ts) && DistinctKeys(ts)
    requires run.State(RunSuccessful, ts, res).RunFailed?
    ensures SomeUnsuccessful(ts, run.Run(RunSuccessful, ts, res).res)
  {
    WritesAt(run, ts, res);
    StateIs(run, RunSuccessful, ts, res);
    var t :| t in ts && run.Of(t, res).state.RunFailed?;
    WorkRecords(run, t, res);
    assert Op(t, run.Run(RunSuccessful, ts, res).res).Unsuccessful();
  }

  lemma RunTasksFailure(cfg: Config, ts: seq<Task>, dryRun: bool, calls: Calls, res: Results)
    requires DistinctKeys(ts)
    requires RunTasks(cfg, ts, dryRun, calls, res).state.RunFailed?
    ensures SomeUnsuccessful(ts, RunTasks(cfg, ts, dryRun, calls, res).res)
  {
    var dry := dryRun || cfg.dryRun;
    SublistsDistinct(ts, res);
    var fin, prune := StageRun(Finalizers, cfg, dry, calls), StageRun(Prune, cfg, dry, calls);
    var finalized := fin.Run(RunSuccessful, ExistingHooks(ts, res), res);
    if finalized.state.RunFailed? {
      FailedStage(fin, ExistingHooks(ts, res), res);
    } else if finalized.state.RunSuccessful? {
      QuietStage(fin, ExistingHooks(ts, res), res);
      var pruned := prune.Run(RunSuccessful, Prunes(ts), res);
      if pruned.state.RunFailed? {
        FailedStage(prune, Prunes(ts), res);
      } else {
        CreateFailure(cfg, Creates(ts), dry, calls, pruned.res);
      }
    }
  }

  lemma CreateFailure(cfg: Config, creates: seq<Task>, dry: bool, calls: Calls, res: Results)
    requires DistinctKeys(creates) && forall t :: t in creates ==> !t.IsPrune()
    requires DeleteAndCreate(cfg, creates, dry, calls, res).state.RunFailed?
    ensures SomeUnsuccessful(creates, DeleteAndCreate(cfg, creates, dry, calls, res).res)
  {
    var del, create := StageRun(DeleteHooks, cfg, dry, calls), StageRun(Create, cfg, dry, calls);
    var hooks := HooksToDelete(creates, res);
    FilterDistinct(IsDeletedFirst(res), KeyOf(), creates);
    if del.State(RunSuccessful, hooks, res).RunFailed? {
      FailedStage(del, hooks, res);
    } else {
      QuietStage(del, hooks, res);
      CreateStage(cfg, creates, dry, calls, RunSuccessful, res);
      FailedStage(create, Applied(creates, dry), res);
    }
  }
}
