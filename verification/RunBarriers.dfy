/** The order runTasks keeps between its stages, and what its dry run leaves alone. */
module RunBarriers {
  import opened Kube
  import opened Lists
  import opened Tasks
  import opened RunSpec
  import opened RunLaws

  // ----- stage by stage, in terms of what each task alone meets -----

  // The stages of one run over a list, each with the tasks it concerns
  datatype Stages = Stages(cfg: Config, ts: seq<Task>, dry: bool, calls: Calls, res: Results)
  {
    function Run(stage: Stage): StageRun { StageRun(stage, cfg, dry, calls) }

    function Tasks(stage: Stage): (r: seq<Task>)
      ensures Run(stage).FitsAll(r)
    {
      match stage
      case Finalizers => ExistingHooks(ts, res)
      case Prune => Prunes(ts)
      case DeleteHooks => HooksToDelete(Creates(ts), res)
      case Create => Applied(Creates(ts), dry)
    }

    predicate SomeIn(stage: Stage, state: RunState) {
      exists t :: t in Tasks(stage) && Fits(stage, t) && Run(stage).Of(t, res).state == state
    }

    predicate Clean(stage: Stage) { !SomeIn(stage, RunFailed) && !SomeIn(stage, RunPending) }

    predicate Confirmed() { !AwaitsConfirmation(cfg, Prunes(ts)) }
  }

  predicate Creating(steps: seq<multiset<Request>>) {
    exists i, q :: 0 <= i < |steps| && q in steps[i] && q.Apply?
  }

  lemma StageStateIs(s: Stages, stage: Stage)
    ensures s.Run(stage).State(RunSuccessful, s.Tasks(stage), s.res).RunFailed? <==> s.SomeIn(stage, RunFailed)
    ensures s.Run(stage).State(RunSuccessful, s.Tasks(stage), s.res).RunSuccessful? <==> s.Clean(stage)
  {
    StateIs(s.Run(stage), RunSuccessful, s.Tasks(stage), s.res);
  }

  lemma NoApply(s: Stages, stage: Stage, res: Results)
    requires !stage.Create?
    ensures !Creating([s.Run(stage).Requests(s.Tasks(stage), res)])
  {
    hide StageRun.Requests;
    hide Filter;
    var run := s.Run(stage);
    forall q | q in run.Requests(s.Tasks(stage), res) ensures !q.Apply? {
      RequestsFrom(run, s.Tasks(stage), res, q);
      var t :| t in s.Tasks(stage) && run.Of(t, res).request == Some(q);
    }
  }

  // Pruning changes nothing a task to be created looks at.
  lemma PrunedApart(s: Stages)
    requires DistinctKeys(s.ts)
    ensures var pruned := s.Run(Prune).Run(RunSuccessful, s.Tasks(Prune), s.res).res;
            HooksToDelete(Creates(s.ts), pruned) == s.Tasks(DeleteHooks) &&
            forall t :: t in Creates(s.ts) ==> ResultOf(t, pruned) == ResultOf(t, s.res)
  {
    hide WorkOf;
    hide StageRun.Of;
    hide StageRun.Writes;
    hide StageRun.Requests;
    hide StageRun.State;
    SublistsDistinct(s.ts, s.res);
    var run := s.Run(Prune);
    var pruned := run.Run(RunSuccessful, s.Tasks(Prune), s.res).res;
    WritesAt(run, s.Tasks(Prune), s.res);
    forall t | t in Creates(s.ts) ensures ResultOf(t, pruned) == ResultOf(t, s.res) {
      assert t.RKey() !in KeysOf(Prunes(s.ts));
    }
    FilterAgree(IsDeletedFirst(pruned), IsDeletedFirst(s.res), Creates(s.ts));
  }

  // A stage reports and asks the same of results that agree on its tasks.
  lemma {:induction false} StageAgree(run: StageRun, from: RunState, ts: seq<Task>, res: Results, res': Results)
    requires run.FitsAll(ts)
    requires forall t :: t in ts ==> ResultOf(t, res) == ResultOf(t, res')
    ensures run.State(from, ts, res) == run.State(from, ts, res')
    ensures run.Requests(ts, res) == run.Requests(ts, res')
  {
    if ts != [] {
      StageAgree(run, from, ts[1..], res, res');
    }
  }

  // The results agree with those the run started from, as far as the tasks to be created go.
  predicate Undisturbed(s: Stages, res: Results) {
    && HooksToDelete(Creates(s.ts), res) == s.Tasks(DeleteHooks)
    && forall t :: t in Creates(s.ts) ==> ResultOf(t, res) == ResultOf(t, s.res)
  }

  lemma DeletesState(s: Stages, res: Results)
    requires Undisturbed(s, res)
    ensures var state := s.Run(DeleteHooks).State(RunSuccessful, s.Tasks(DeleteHooks), res);
            (state.RunFailed? <==> s.SomeIn(DeleteHooks, RunFailed)) && (state.RunSuccessful? <==> s.Clean(DeleteHooks))
  {
    StageAgree(s.Run(DeleteHooks), RunSuccessful, s.Tasks(DeleteHooks), res, s.res);
    StageStateIs(s, DeleteHooks);
  }

  lemma CreatesState(s: Stages, res: Results)
    requires DistinctKeys(s.ts)
    ensures forall g :: g in KindGroups(Creates(s.ts)) ==> s.Run(Create).FitsAll(g)
    ensures var state := CreateGroups(s.Run(Create), RunSuccessful, KindGroups(Creates(s.ts)), res).state;
            (state.RunFailed? <==> s.SomeIn(Create, RunFailed)) && !state.RunPending?
  {
    SublistsDistinct(s.ts, s.res);
    CreateStage(s.cfg, Creates(s.ts), s.dry, s.calls, RunSuccessful, res);
    CreateIgnoresResults(s.Run(Create), RunSuccessful, s.Tasks(Create), res, s.res);
    StageStateIs(s, Create);
    NoPendingCreate(s);
  }

  lemma CreateStateIs(s: Stages, res: Results)
    requires DistinctKeys(s.ts) && Undisturbed(s, res)
    ensures var state := DeleteAndCreate(s.cfg, Creates(s.ts), s.dry, s.calls, res).state;
            (state.RunFailed? <==>
               s.SomeIn(DeleteHooks, RunFailed) || (s.Clean(DeleteHooks) && s.SomeIn(Create, RunFailed))) &&
            (state.RunPending? <==> !s.SomeIn(DeleteHooks, RunFailed) && s.SomeIn(DeleteHooks, RunPending))
  {
    DeletesState(s, res);
    var deleted := s.Run(DeleteHooks).Run(RunSuccessful, s.Tasks(DeleteHooks), res);
    CreatesState(s, deleted.res);
    assert HooksToDelete(Creates(s.ts), res) == s.Tasks(DeleteHooks);
  }

  lemma NoPendingCreate(s: Stages)
    ensures !s.SomeIn(Create, RunPending) && !s.SomeIn(Prune, RunPending) && !s.SomeIn(Finalizers, RunPending)
  {
  }

  /**
   The state of a run is decided by the first stage that does not end well, and within that stage by
   its most serious outcome; waiting for a prune confirmation counts as pending.
   */
  lemma RunStateExact(cfg: Config, ts: seq<Task>, dryRun: bool, calls: Calls, res: Results)
    requires DistinctKeys(ts)
    ensures var s := Stages(cfg, ts, dryRun || cfg.dryRun, calls, res);
            var out := RunTasks(cfg, ts, dryRun, calls, res);
            (out.state.RunFailed? <==>
               || s.SomeIn(Finalizers, RunFailed)
               || (s.Confirmed() && s.SomeIn(Prune, RunFailed))
               || (s.Confirmed() && s.Clean(Prune) && s.SomeIn(DeleteHooks, RunFailed))
               || (s.Confirmed() && s.Clean(Prune) && s.Clean(DeleteHooks) && s.SomeIn(Create, RunFailed))) &&
            (out.state.RunPending? <==>
               s.Clean(Finalizers) &&
               (|| !s.Confirmed()
                || (s.Clean(Prune) && !s.SomeIn(DeleteHooks, RunFailed) && s.SomeIn(DeleteHooks, RunPending))))
  {
    var s := Stages(cfg, ts, dryRun || cfg.dryRun, calls, res);
    hide DeleteAndCreate;
    SublistsDistinct(ts, res);
    StageStateIs(s, Finalizers);
    StageStateIs(s, Prune);
    NoPendingCreate(s);
    if s.Clean(Finalizers) {
      QuietStage(s.Run(Finalizers), s.Tasks(Finalizers), res);
      PrunedApart(s);
      CreateStateIs(s, s.Run(Prune).Run(RunSuccessful, s.Tasks(Prune), res).res);
    }
  }

  // Everything before the creation of resources ended well.
  predicate ReadyToCreate(s: Stages) {
    s.Clean(Finalizers) && s.Confirmed() && s.Clean(Prune) && s.Clean(DeleteHooks)
  }

  // The requests of the creation stage: one barrier-separated step per stretch of tasks of one kind.
  predicate CreatesByKind(s: Stages, steps: seq<multiset<Request>>) {
    var groups := KindGroups(Creates(s.ts));
    && |steps| == |groups|
    && forall i :: 0 <= i < |groups| ==>
         (forall t :: t in groups[i] ==> !t.IsPrune()) &&
         steps[i] == s.Run(Create).Requests(Applied(groups[i], s.dry), s.res)
  }

  lemma CreationSteps(s: Stages, from: RunState, res: Results)
    ensures forall g :: g in KindGroups(Creates(s.ts)) ==> s.Run(Create).FitsAll(g)
    ensures CreatesByKind(s, CreateGroups(s.Run(Create), from, KindGroups(Creates(s.ts)), res).steps)
  {
    var groups := KindGroups(Creates(s.ts));
    KindGroupsPartition(Creates(s.ts));
    CreateGroupsSteps(s.Run(Create), from, groups, res);
    forall i | 0 <= i < |groups| ensures forall t: Task :: t in groups[i] ==> !t.IsPrune() {
      assert groups[i] in groups;
    }
    forall i | 0 <= i < |groups| {
      CreateIgnoresResults(s.Run(Create), from, Applied(groups[i], s.dry), res, s.res);
    }
  }

  lemma DeleteAndCreateSteps(s: Stages, res: Results)
    requires DistinctKeys(s.ts) && Undisturbed(s, res)
    ensures var steps := DeleteAndCreate(s.cfg, Creates(s.ts), s.dry, s.calls, res).steps;
            if s.Clean(DeleteHooks) then steps != [] && CreatesByKind(s, steps[1..]) && !Creating(steps[..1])
            else !Creating(steps)
  {
    DeletesState(s, res);
    var deleted := s.Run(DeleteHooks).Run(RunSuccessful, s.Tasks(DeleteHooks), res);
    CreationSteps(s, RunSuccessful, deleted.res);
    NoApply(s, DeleteHooks, res);
    var out := DeleteAndCreate(s.cfg, Creates(s.ts), s.dry, s.calls, res);
    if s.Clean(DeleteHooks) {
      assert out.steps[..1] == deleted.steps;
      assert out.steps[1..] == CreateGroups(s.Run(Create), RunSuccessful, KindGroups(Creates(s.ts)), deleted.res).steps;
    }
  }

  // Creation, if it happens, starts after the first n steps.
  predicate CreatesAfter(s: Stages, steps: seq<multiset<Request>>, n: nat, ready: bool) {
    if ready then |steps| >= n && CreatesByKind(s, steps[n..]) && !Creating(steps[..n]) else !Creating(steps)
  }

  lemma StepBefore(s: Stages, first: multiset<Request>, steps: seq<multiset<Request>>, n: nat, ready: bool)
    requires !Creating([first]) && CreatesAfter(s, steps, n, ready)
    ensures CreatesAfter(s, [first] + steps, n + 1, ready)
  {
  }

  lemma PruneAndCreateSteps(s: Stages)
    requires DistinctKeys(s.ts)
    ensures CreatesAfter(s, PruneAndCreate(s.cfg, s.ts, s.dry, s.calls, s.res).steps, 2,
                         s.Confirmed() && s.Clean(Prune) && s.Clean(DeleteHooks))
  {
    hide DeleteAndCreate;
    hide CreatesByKind;
    StageStateIs(s, Prune);
    NoApply(s, Prune, s.res);
    if s.Confirmed() && s.Clean(Prune) {
      var pruned := s.Run(Prune).Run(RunSuccessful, s.Tasks(Prune), s.res);
      PrunedApart(s);
      DeleteAndCreateSteps(s, pruned.res);
      var made := DeleteAndCreate(s.cfg, Creates(s.ts), s.dry, s.calls, pruned.res).steps;
      StepBefore(s, pruned.steps[0], made, 1, s.Clean(DeleteHooks));
    }
  }

  /**
   Nothing is created unless the finalizer, prune and delete stages all ended well; then the create
   tasks are sent kind by kind, each stretch after the one before it.
   */
  lemma CreatesBehindBarriers(cfg: Config, ts: seq<Task>, dryRun: bool, calls: Calls, res: Results)
    requires DistinctKeys(ts)
    ensures var s := Stages(cfg, ts, dryRun || cfg.dryRun, calls, res);
            CreatesAfter(s, RunTasks(cfg, ts, dryRun, calls, res).steps, 3, ReadyToCreate(s))
  {
    var s := Stages(cfg, ts, dryRun || cfg.dryRun, calls, res);
    hide PruneAndCreate;
    hide CreatesByKind;
    SublistsDistinct(ts, res);
    StageStateIs(s, Finalizers);
    NoApply(s, Finalizers, res);
    if s.Clean(Finalizers) {
      QuietStage(s.Run(Finalizers), s.Tasks(Finalizers), res);
      PruneAndCreateSteps(s);
      var fin := s.Run(Finalizers).Run(RunSuccessful, s.Tasks(Finalizers), res);
      StepBefore(s, fin.steps[0], PruneAndCreate(cfg, ts, s.dry, calls, res).steps, 2,
                 s.Confirmed() && s.Clean(Prune) && s.Clean(DeleteHooks));
    }
  }

  // ----- dry runs -----

  lemma DryWork(run: StageRun, t: Task, res: Results)
    requires run.dry && Fits(run.stage, t)
    ensures var w := run.Of(t, res);
            (w.request.Some? ==> !Mutating(w.request.value)) &&
            (!run.cfg.dryRun && !w.state.RunFailed? ==> w.write.None?)
  {
  }

  predicate Harmless(steps: seq<multiset<Request>>) {
    forall i, q :: 0 <= i < |steps| && q in steps[i] ==> !Mutating(q)
  }

  lemma HarmlessStage(run: StageRun, ts: seq<Task>, res: Results)
    requires run.dry && run.FitsAll(ts)
    ensures Harmless([run.Requests(ts, res)])
  {
    forall q | q in run.Requests(ts, res) ensures !Mutating(q) {
      RequestsFrom(run, ts, res, q);
      var t :| t in ts && run.Of(t, res).request == Some(q);
      DryWork(run, t, res);
    }
  }

  lemma {:induction false} HarmlessGroups(run: StageRun, from: RunState, groups: seq<seq<Task>>, res: Results)
    requires run.dry && run.stage.Create? && forall g :: g in groups ==> run.FitsAll(g)
    ensures Harmless(CreateGroups(run, from, groups, res).steps)
    decreases |groups|
  {
    if groups != [] {
      assert run.FitsAll(groups[0]);
      var first := run.Run(from, Applied(groups[0], run.dry), res);
      HarmlessStage(run, Applied(groups[0], run.dry), res);
      HarmlessGroups(run, first.state, groups[1..], first.res);
    }
  }

  // A dry run, of a call or of the whole operation, sends no request that could change the cluster.
  lemma DryRunHarmless(cfg: Config, ts: seq<Task>, dryRun: bool, calls: Calls, res: Results)
    requires dryRun || cfg.dryRun
    ensures Harmless(RunTasks(cfg, ts, dryRun, calls, res).steps)
  {
    HarmlessStage(StageRun(Finalizers, cfg, true, calls), ExistingHooks(ts, res), res);
    var res1 := StageRun(Finalizers, cfg, true, calls).Run(RunSuccessful, ExistingHooks(ts, res), res).res;
    var prune := StageRun(Prune, cfg, true, calls);
    HarmlessStage(prune, Prunes(ts), res1);
    DryCreateHarmless(cfg, Creates(ts), calls, prune.Run(RunSuccessful, Prunes(ts), res1).res);
  }

  lemma DryCreateHarmless(cfg: Config, creates: seq<Task>, calls: Calls, res: Results)
    requires forall t :: t in creates ==> !t.IsPrune()
    ensures Harmless(DeleteAndCreate(cfg, creates, true, calls, res).steps)
  {
    var del, create := StageRun(DeleteHooks, cfg, true, calls), StageRun(Create, cfg, true, calls);
    HarmlessStage(del, HooksToDelete(creates, res), res);
    var deleted := del.Run(RunSuccessful, HooksToDelete(creates, res), res);
    KindGroupsPartition(creates);
    HarmlessGroups(create, RunSuccessful, KindGroups(creates), deleted.res);
  }

  lemma DryStageQuiet(run: StageRun, ts: seq<Task>, res: Results)
    requires run.dry && !run.cfg.dryRun && run.FitsAll(ts)
    requires !run.State(RunSuccessful, ts, res).RunFailed?
    ensures run.Run(RunSuccessful, ts, res).res == res
  {
    StateIs(run, RunSuccessful, ts, res);
    DryWritesNothing(run, ts, res);
  }

  lemma {:induction false} DryWritesNothing(run: StageRun, ts: seq<Task>, res: Results)
    requires run.dry && !run.cfg.dryRun && run.FitsAll(ts)
    requires forall t :: t in ts ==> !run.Of(t, res).state.RunFailed?
    ensures run.Writes(ts, res) == map[]
  {
    if ts != [] {
      DryWritesNothing(run, ts[1..], res);
      DryWork(run, ts[0], res);
    }
  }

  /**
   The dry run before an operation that is not itself one leaves every recorded result as it was,
   unless it fails; so the operation proper starts with the same pending tasks.
   */
  lemma PreflightLeavesResults(cfg: Config, ts: seq<Task>, calls: Calls, res: Results)
    requires DistinctKeys(ts) && !cfg.dryRun
    requires !RunTasks(cfg, ts, true, calls, res).state.RunFailed?
    ensures RunTasks(cfg, ts, true, calls, res).res == res
  {
    var prune := StageRun(Prune, cfg, true, calls);
    SublistsDistinct(ts, res);
    DryStageQuiet(StageRun(Finalizers, cfg, true, calls), ExistingHooks(ts, res), res);
    if StageRun(Finalizers, cfg, true, calls).State(RunSuccessful, ExistingHooks(ts, res), res).RunSuccessful?
       && !AwaitsConfirmation(cfg, Prunes(ts)) {
      DryStageQuiet(prune, Prunes(ts), res);
      DryCreateQuiet(cfg, Creates(ts), calls, res);
    }
  }

  lemma DryCreateQuiet(cfg: Config, creates: seq<Task>, calls: Calls, res: Results)
    requires DistinctKeys(creates) && !cfg.dryRun && forall t :: t in creates ==> !t.IsPrune()
    ensures var out := DeleteAndCreate(cfg, creates, true, calls, res); !out.state.RunFailed? ==> out.res == res
  {
    var del, create := StageRun(DeleteHooks, cfg, true, calls), StageRun(Create, cfg, true, calls);
    var deleted := del.Run(RunSuccessful, HooksToDelete(creates, res), res);
    if !deleted.state.RunFailed? {
      DryStageQuiet(del, HooksToDelete(creates, res), res);
      CreateStage(cfg, creates, true, calls, RunSuccessful, res);
      if !create.State(RunSuccessful, Applied(creates, true), res).RunFailed? {
        DryStageQuiet(create, Applied(creates, true), res);
      }
    }
  }
}
