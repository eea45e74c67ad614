/**
 What the first call of an operation checks before it starts anything (Sync of pkg/sync/sync_context.go): the
 application namespace for real, and then every other task in a dry run.
 */
module FirstCall {
  import opened Kube
  import opened Lists
  import opened Tasks
  import opened RunSpec
  import opened RunBarriers
  import opened RunAnswers
  import opened SyncSpec
  import opened SyncLaws

  // ----- which tasks -----

  // A Namespace to be created that is named like the application's, and is not there yet
  predicate IsAppNamespace(cfg: Config, t: Task) {
    && t.objs.TargetOnly? && t.objs.target.key.kind == "Namespace" && t.objs.target.key.group == ""
    && t.objs.target.key.name == cfg.namespace
  }

  // The first such task is the one that is created.
  predicate IsCreatedFirst(cfg: Config, ts: seq<Task>, t: Task) {
    IsAppNamespace(cfg, t) &&
    exists i :: 0 <= i < |ts| && ts[i] == t && forall j :: 0 <= j < i ==> !IsAppNamespace(cfg, ts[j])
  }

  lemma {:induction false} FirstKept<T>(p: T -> bool, s: seq<T>, x: T)
    ensures Filter(p, s) != [] && Filter(p, s)[0] == x <==>
            p(x) && exists i :: 0 <= i < |s| && s[i] == x && forall j :: 0 <= j < i ==> !p(s[j])
  {
    if s != [] {
      FirstKept(p, s[1..], x);
      if !p(s[0]) {
        if i :| 0 <= i < |s[1..]| && s[1..][i] == x && forall j :: 0 <= j < i ==> !p(s[1..][j]) {
          assert s[i + 1] == x && forall j :: 0 <= j < i + 1 ==> !p(s[j]) by {
            assert forall j :: 0 < j < i + 1 ==> s[j] == s[1..][j - 1];
          }
        }
        if i :| p(x) && 0 <= i < |s| && s[i] == x && forall j :: 0 <= j < i ==> !p(s[j]) {
          assert i > 0 && s[1..][i - 1] == x && forall j :: 0 <= j < i - 1 ==> s[1..][j] == s[j + 1];
        }
      }
    }
  }

  lemma NamespaceExactly(cfg: Config, ts: seq<Task>, t: Task)
    ensures t in NamespaceTask(cfg, ts) <==> IsCreatedFirst(cfg, ts, t)
  {
    FirstKept(IsNamespaceTask(cfg), ts, t);
  }

  // The tasks of the dry run: not the namespace just created, nor what is to be skipped as unmodified
  predicate IsChecked(cfg: Config, ts: seq<Task>, env: Env, t: Task) {
    && t in ts && !IsCreatedFirst(cfg, ts, t)
    && !(cfg.applyOutOfSyncOnly && !t.IsHook() && t.objs.TargetAndLive? &&
         env.unmodified(t.objs.target.key.(namespace := t.objs.live.key.namespace)))
  }

  lemma CheckedExactly(cfg: Config, ts: seq<Task>, env: Env, t: Task)
    requires DistinctKeys(ts)
    ensures t in DryTasks(cfg, ts, env) <==> IsChecked(cfg, ts, env, t)
  {
    hide NamespaceTask;
    hide IsCreatedFirst;
    NamespaceExactly(cfg, ts, t);
    var ns := NamespaceTask(cfg, ts);
    if t in ts {
      assert IsNotIn(ns)(t) <==> t !in ns by {
        forall n | n in ns && n.RKey() == t.RKey() ensures n == t { DistinctSame(KeyOf(), ts, n, t); }
      }
    }
    assert t.objs.TargetAndLive? ==>
      t.LookupKey() == t.objs.target.key.(namespace := t.objs.live.key.namespace);
  }

  // ----- how it goes -----

  lemma BootstrapFails(cfg: Config, ts: seq<Task>, env: Env)
    ensures Bootstrap(cfg, ts, map[], env).state.RunFailed? <==>
            exists t :: t in ts && IsCreatedFirst(cfg, ts, t) && !(cfg.dryRun && t.skipDryRun) &&
              !env.bootstrap.apply(t.RKey())
  {
    hide RunTasks;
    hide IsCreatedFirst;
    forall t { NamespaceExactly(cfg, ts, t); }
    var ns := NamespaceTask(cfg, ts);
    hide NamespaceTask;
    if ns != [] {
      assert ns == [ns[0]] && ns[0] in ns;
      StateFromAnswers(cfg, ns, false, env.bootstrap, map[]);
      LoneNamespace(cfg, ns[0], env.bootstrap);
    }
  }

  lemma LoneNamespace(cfg: Config, t: Task, calls: Calls)
    requires t.objs.TargetOnly?
    ensures Fails(Stages(cfg, [t], cfg.dryRun, calls, map[])) <==>
            !(cfg.dryRun && t.skipDryRun) && !calls.apply(t.RKey())
  {
    var s := Stages(cfg, [t], cfg.dryRun, calls, map[]);
    assert t in s.ts && forall u :: u in s.ts ==> u == t;
    assert ReachesCreation(s);
  }

  // In a dry run only applications can be refused, and they are not asked for while a confirmation is missing.
  lemma DryRunFails(cfg: Config, ts: seq<Task>, calls: Calls, res: Results)
    requires DistinctKeys(ts)
    ensures RunTasks(cfg, ts, true, calls, res).state.RunFailed? <==>
            && (cfg.pruneConfirmed || forall t :: t in ts && t.objs.LiveOnly? ==>
                  PruneRequireConfirm !in t.objs.live.options)
            && exists t :: t in ts && !t.objs.LiveOnly? && !t.skipDryRun && !calls.apply(t.RKey())
  {
    hide RunTasks;
    StateFromAnswers(cfg, ts, true, calls, res);
    var s := Stages(cfg, ts, true, calls, res);
    assert forall t :: ApplyRefused(s, t) <==> !t.objs.LiveOnly? && !t.skipDryRun && !calls.apply(t.RKey());
    assert forall t :: NeedsConfirmation(s, t) <==>
      !cfg.pruneConfirmed && t.objs.LiveOnly? && PruneRequireConfirm in t.objs.live.options;
    hide NeedsConfirmation;
    hide ApplyRefused;
    assert ReachesCreation(s) <==> forall t :: t in ts ==> !NeedsConfirmation(s, t);
  }

  // The application namespace cannot be created.
  predicate NamespaceRefused(cfg: Config, ts: seq<Task>, env: Env) {
    exists t :: t in ts && IsCreatedFirst(cfg, ts, t) && !(cfg.dryRun && t.skipDryRun) &&
      !env.bootstrap.apply(t.RKey())
  }

  // Some task to be pruned has yet to be confirmed.
  predicate Unconfirmed(cfg: Config, ts: seq<Task>, env: Env) {
    !cfg.pruneConfirmed &&
    exists t :: t in ts && IsChecked(cfg, ts, env, t) && t.objs.LiveOnly? &&
      PruneRequireConfirm in t.objs.live.options
  }

  // The dry run over some task is refused.
  predicate CheckRefused(cfg: Config, ts: seq<Task>, env: Env) {
    exists t :: t in ts && IsChecked(cfg, ts, env, t) && !t.objs.LiveOnly? && !t.skipDryRun &&
      !env.preflight.apply(t.RKey())
  }

  // The namespace or a manifest is refused before anything is started.
  predicate IsRefused(cfg: Config, ts: seq<Task>, env: Env) {
    NamespaceRefused(cfg, ts, env) || (!Unconfirmed(cfg, ts, env) && CheckRefused(cfg, ts, env))
  }

  // The same of the tasks the dry run is given
  lemma ChecksExactly(cfg: Config, ts: seq<Task>, env: Env)
    requires DistinctKeys(ts)
    ensures var dry := DryTasks(cfg, ts, env);
            && DistinctKeys(dry)
            && (CheckRefused(cfg, ts, env) <==>
                  exists t :: t in dry && !t.objs.LiveOnly? && !t.skipDryRun && !env.preflight.apply(t.RKey()))
            && (Unconfirmed(cfg, ts, env) <==>
                  !cfg.pruneConfirmed &&
                  exists t :: t in dry && t.objs.LiveOnly? && PruneRequireConfirm in t.objs.live.options)
  {
    hide IsChecked;
    hide DryTasks;
    hide DistinctKeys;
    DryTasksIn(cfg, ts, env);
    DryTasksKeys(cfg, ts, env);
    forall t { CheckedExactly(cfg, ts, env, t); }
  }

  /**
   The first call ends at once exactly when the namespace is refused, or the dry run over any other task is; but as
   long as a prune awaits confirmation, the dry run checks nothing.
   */
  lemma PreflightExactly(cfg: Config, ts: seq<Task>, env: Env)
    requires DistinctKeys(ts)
    ensures Preflight(cfg, ts, map[], env).state.RunFailed? <==> IsRefused(cfg, ts, env)
  {
    hide RunTasks;
    hide Bootstrap;
    hide DryTasks;
    hide DistinctKeys;
    hide IsCreatedFirst;
    ChecksExactly(cfg, ts, env);
    hide Unconfirmed;
    hide CheckRefused;
    BootstrapFails(cfg, ts, env);
    DryRunFails(cfg, DryTasks(cfg, ts, env), env.preflight, Bootstrap(cfg, ts, map[], env).res);
  }

  lemma FirstCallEnds(cfg: Config, ts: seq<Task>, st: State, env: Env)
    requires DistinctKeys(ts) && env.valid && st.res == map[]
    ensures IsRefused(cfg, ts, env) ==>
              var step := SyncStep(cfg, ts, st, env); step.phase.Failed? && step.wave.None? && !step.ranSyncFail
  {
    hide Preflight;
    hide Advance;
    PreflightExactly(cfg, ts, env);
  }

  // As long as a prune awaits confirmation, and there is no namespace to create, the first call asks the cluster
  // nothing before it takes its decision.
  lemma UnconfirmedChecksNothing(cfg: Config, ts: seq<Task>, env: Env, q: Request)
    requires DistinctKeys(ts) && Unconfirmed(cfg, ts, env)
    requires forall t :: t in ts ==> !IsAppNamespace(cfg, t)
    ensures !Sends(Preflight(cfg, ts, map[], env).steps, q)
  {
    hide RunTasks;
    hide DryTasks;
    hide DistinctKeys;
    ChecksExactly(cfg, ts, env);
    NoNamespace(cfg, ts);
    var dry := DryTasks(cfg, ts, env);
    RequestsFromAnswers(cfg, dry, true, env.preflight, map[], q);
    var s := Stages(cfg, dry, true, env.preflight, map[]);
    assert !ReachesPruning(s) by {
      var t :| t in dry && t.objs.LiveOnly? && PruneRequireConfirm in t.objs.live.options;
      assert NeedsConfirmation(s, t);
    }
    assert Preflight(cfg, ts, map[], env).steps == RunTasks(cfg, dry, true, env.preflight, map[]).steps;
  }

  lemma NoNamespace(cfg: Config, ts: seq<Task>)
    requires forall t :: t in ts ==> !IsAppNamespace(cfg, t)
    ensures NamespaceTask(cfg, ts) == []
  {
    if NamespaceTask(cfg, ts) != [] { NamespaceExactly(cfg, ts, NamespaceTask(cfg, ts)[0]); }
  }
}
