/** The loops of Sync (pkg/sync/sync_context.go) that look at tasks one by one and record results for them. */
module SyncParts {
  import opened Kube
  import opened Lists
  import opened Tasks
  import opened TaskArrays
  import opened RunSpec
  import opened SyncSpec
  import opened HealthLaws
  import opened SyncState
  import opened TaskRunner
  import opened RunMethods

  // Every task object carries what is recorded for it, and no two share a record.
  ghost predicate Ready(sc: SyncContext, tasks: seq<SyncTask>)
    reads sc`syncRes, tasks
  {
    DistinctKeys(Infos(tasks)) && TracksAll(tasks, Strip(sc.syncRes)) && Numbered(sc.syncRes)
  }

  // The tasks that `q` selects
  ghost predicate Selected(part: seq<SyncTask>, tasks: seq<SyncTask>, q: Task -> bool)
    reads (set t | t in part)`phase, (set t | t in part)`waveOverride,
      (set t | t in tasks)`phase, (set t | t in tasks)`waveOverride
  {
    Infos(part) == Filter(q, Infos(tasks)) && Among(part, tasks)
  }

  lemma SelectedKeys(part: seq<SyncTask>, tasks: seq<SyncTask>, q: Task -> bool)
    requires Selected(part, tasks, q) && DistinctKeys(Infos(tasks))
    ensures DistinctKeys(Infos(part))
  {
    hide Infos;
    FilteredKeys(q, Infos(tasks));
  }

  method Choose(sc: SyncContext, tasks: seq<SyncTask>, p: (Task, Result) -> bool, ghost q: Task -> bool)
    returns (part: seq<SyncTask>)
    requires Ready(sc, tasks)
    requires forall t :: t in tasks ==> p(t.Info(), ResultOf(t.Info(), Strip(sc.syncRes))) == q(t.Info())
    ensures Selected(part, tasks, q)
  {
    hide Infos;
    hide Strip;
    hide Numbered;
    hide DistinctKeys;
    part := Select(tasks, p, q);
  }

  method Record(sc: SyncContext, t: SyncTask, r: Result, ghost tasks: seq<SyncTask>)
    requires Ready(sc, tasks) && t in tasks
    modifies sc`syncRes, t`syncStatus, t`operationState
    ensures Ready(sc, tasks) && Strip(sc.syncRes) == Strip(old(sc.syncRes))[t.Info().RKey() := r]
  {
    hide Infos;
    hide Numbered;
    hide DistinctKeys;
    hide Strip;
    KeysApart(tasks);
    sc.SetResourceResult(t, r.status, r.op);
  }

  // ----- recording a result for some of the tasks of a list -----

  ghost predicate Noted(sc: SyncContext, f: Task -> Option<Result>, infos: seq<Task>, i: nat, res: Results)
    reads sc`syncRes
  {
    i <= |infos| && Strip(sc.syncRes) == res + Updates(f, infos[..i])
  }

  lemma {:induction false} UpdatesSnoc(f: Task -> Option<Result>, a: seq<Task>, t: Task)
    requires DistinctKeys(a + [t])
    ensures Updates(f, a + [t]) == if f(t).Some? then Updates(f, a)[t.RKey() := f(t).value] else Updates(f, a)
    ensures t.RKey() !in Updates(f, a)
  {
    if a == [] {
      assert a + [t] == [t] && [t][1..] == [];
    } else {
      var all := a + [t];
      assert all[1..] == a[1..] + [t];
      assert [a[0]] + (a[1..] + [t]) == all;
      DistinctParts(KeyOf(), [a[0]], a[1..] + [t]);
      assert KeyOf()(all[0]) != KeyOf()(all[|a|]);
      UpdatesSnoc(f, a[1..], t);
    }
  }

  lemma NextKeys(infos: seq<Task>, i: nat)
    requires DistinctKeys(infos) && i < |infos|
    ensures infos[..i + 1] == infos[..i] + [infos[i]] && DistinctKeys(infos[..i] + [infos[i]])
  {
  }

  // Before its turn a task is recorded as it was at the start.
  lemma NotYetNoted(sc: SyncContext, f: Task -> Option<Result>, infos: seq<Task>, i: nat, res: Results)
    requires Noted(sc, f, infos, i, res) && DistinctKeys(infos) && i < |infos|
    ensures ResultOf(infos[i], Strip(sc.syncRes)) == ResultOf(infos[i], res)
  {
    NextKeys(infos, i);
    UpdatesSnoc(f, infos[..i], infos[i]);
  }

  method Note(sc: SyncContext, part: seq<SyncTask>, i: nat, w: Option<Result>, ghost f: Task -> Option<Result>,
              ghost res: Results, ghost tasks: seq<SyncTask>)
    requires Ready(sc, tasks) && Among(part, tasks) && DistinctKeys(Infos(part)) && i < |part|
    requires Noted(sc, f, Infos(part), i, res) && w == f(part[i].Info())
    modifies sc`syncRes, (set t | t in part)`syncStatus, (set t | t in part)`operationState
    ensures Ready(sc, tasks) && Noted(sc, f, Infos(part), i + 1, res)
  {
    hide Infos;
    hide DistinctKeys;
    hide Ready;
    hide Strip;
    hide Updates;
    ghost var infos := Infos(part);
    NextKeys(infos, i);
    UpdatesSnoc(f, infos[..i], infos[i]);
    assert part[i] in part;
    if w.Some? {
      Record(sc, part[i], w.value, tasks);
    }
  }

  // Running tasks take the state of their live objects.
  method RefreshTasks(sc: SyncContext, tasks: seq<SyncTask>)
    requires Ready(sc, tasks)
    modifies sc`syncRes, (set t | t in tasks)`syncStatus, (set t | t in tasks)`operationState
    ensures Ready(sc, tasks) && Strip(sc.syncRes) == Refresh(Infos(tasks), Strip(old(sc.syncRes)))
    ensures forall t :: t in tasks ==>
              RefreshedAs(t.Info(), old(Result(t.syncStatus, t.operationState)), Result(t.syncStatus, t.operationState))
  {
    hide RefreshedAs;
    hide Infos;
    hide DistinctKeys;
    hide Ready;
    hide Noted;
    hide Updates;
    hide Strip;
    ghost var infos, res := Infos(tasks), Strip(sc.syncRes);
    assert DistinctKeys(infos) by { ReadyKeys(sc, tasks); }
    ReadyTracks(sc, tasks);
    NotedNothing(sc, Refreshed(res), infos);
    for i := 0 to |tasks|
      invariant Ready(sc, tasks) && Infos(tasks) == infos && Noted(sc, Refreshed(res), infos, i, res)
    {
      var w := FromLive(sc, tasks, i, res);
      Note(sc, tasks, i, w, Refreshed(res), res, tasks);
    }
    NotedAll(sc, Refreshed(res), infos, res);
    assert Refresh(infos, res) == res + Updates(Refreshed(res), infos);
    ReadyTracks(sc, tasks);
    forall t | t in tasks
      ensures RefreshedAs(t.Info(), old(Result(t.syncStatus, t.operationState)), Result(t.syncStatus, t.operationState))
    {
      RefreshExactly(infos, res, t.Info());
    }
  }

  lemma ReadyTracks(sc: SyncContext, tasks: seq<SyncTask>)
    requires Ready(sc, tasks)
    ensures forall t :: t in tasks ==>
              && t.Info() in Infos(tasks)
              && Result(t.syncStatus, t.operationState) == ResultOf(t.Info(), Strip(sc.syncRes))
  {
    hide Strip;
    hide DistinctKeys;
    hide Numbered;
    forall t | t in tasks ensures Tracks(t, Strip(sc.syncRes)) && t.Info() in Infos(tasks) {
      var i :| 0 <= i < |tasks| && tasks[i] == t;
      assert Infos(tasks)[i] == t.Info();
    }
  }

  lemma ReadyKeys(sc: SyncContext, tasks: seq<SyncTask>)
    requires Ready(sc, tasks)
    ensures DistinctKeys(Infos(tasks))
  {
  }

  lemma NotedNothing(sc: SyncContext, f: Task -> Option<Result>, infos: seq<Task>)
    ensures Noted(sc, f, infos, 0, Strip(sc.syncRes))
  {
  }

  // What the i-th task learns from its live object, if anything
  method FromLive(sc: SyncContext, tasks: seq<SyncTask>, i: nat, ghost res: Results) returns (w: Option<Result>)
    requires Ready(sc, tasks) && i < |tasks| && Noted(sc, Refreshed(res), Infos(tasks), i, res)
    ensures w == Refreshed(res)(Infos(tasks)[i])
  {
    hide Infos;
    hide DistinctKeys;
    hide Updates;
    NotYetNoted(sc, Refreshed(res), Infos(tasks), i, res);
    var t := tasks[i];
    assert Tracks(t, Strip(sc.syncRes));
    w := None;
    if t.operationState.Running? && t.Info().Live().Some? {
      var health := t.Info().Live().value.health;
      if t.Info().IsHook() {
        w := Some(Result(NoCode, HookPhase(health)));
      } else if health.NoHealth? || health.Healthy? {
        w := Some(Result(t.syncStatus, Succeeded));
      } else if health.Degraded? {
        w := Some(Result(t.syncStatus, Failed));
      }
    }
  }

  // ----- calling the cluster for some of the tasks of a list -----

  ghost predicate Asked(sc: SyncContext, ask: Task -> Request, infos: seq<Task>, i: nat, before: seq<Request>)
    reads sc`sent
  {
    i <= |infos| && before <= sc.sent && multiset(sc.sent[|before|..]) == Asking(ask, infos[..i])
  }

  lemma {:induction false} AskingSnoc(ask: Task -> Request, a: seq<Task>, t: Task)
    ensures Asking(ask, a + [t]) == Asking(ask, a) + multiset{ask(t)}
  {
    if a == [] {
      assert a + [t] == [t] && [t][1..] == [];
    } else {
      assert (a + [t])[1..] == a[1..] + [t];
      AskingSnoc(ask, a[1..], t);
    }
  }

  ghost method AskNext(sc: SyncContext, ask: Task -> Request, infos: seq<Task>, i: nat, before: seq<Request>)
    requires i < |infos| && Asked(sc, ask, infos, i, before)
    modifies sc`sent
    ensures Asked(sc, ask, infos, i + 1, before)
  {
    hide Asking;
    assert infos[..i + 1] == infos[..i] + [infos[i]];
    AskingSnoc(ask, infos[..i], infos[i]);
    Send(sc, ask(infos[i]), |before|);
  }

  // What is recorded for a task when a call made for it fails
  function CallFailure(fails: Task -> bool, keep: bool, res: Results): Task -> Option<Result> {
    (t: Task) => if fails(t) then Some(Result(if keep then ResultOf(t, res).status else NoCode, Error)) else None
  }

  lemma TracksNoted(sc: SyncContext, f: Task -> Option<Result>, part: seq<SyncTask>, i: nat, res: Results,
                    tasks: seq<SyncTask>)
    requires Ready(sc, tasks) && Among(part, tasks) && DistinctKeys(Infos(part)) && i < |part|
    requires Noted(sc, f, Infos(part), i, res)
    ensures part[i] in tasks && Result(part[i].syncStatus, part[i].operationState) == ResultOf(Infos(part)[i], res)
  {
    hide Infos;
    hide DistinctKeys;
    hide Noted;
    hide Strip;
    NotYetNoted(sc, f, Infos(part), i, res);
    assert part[i] in part && Tracks(part[i], Strip(sc.syncRes));
  }

  method CallNext(sc: SyncContext, part: seq<SyncTask>, i: nat, fails: Task -> bool, keep: bool,
                  ghost ask: Task -> Request, ghost res: Results, ghost before: seq<Request>,
                  ghost tasks: seq<SyncTask>)
    requires Ready(sc, tasks) && Among(part, tasks) && DistinctKeys(Infos(part)) && i < |part|
    requires Noted(sc, CallFailure(fails, keep, res), Infos(part), i, res) && Asked(sc, ask, Infos(part), i, before)
    modifies sc`syncRes, sc`sent, (set t | t in part)`syncStatus, (set t | t in part)`operationState
    ensures Ready(sc, tasks) && Noted(sc, CallFailure(fails, keep, res), Infos(part), i + 1, res)
    ensures Asked(sc, ask, Infos(part), i + 1, before)
  {
    hide Infos;
    hide DistinctKeys;
    hide Noted;
    hide Asked;
    hide Ready;
    TracksNoted(sc, CallFailure(fails, keep, res), part, i, res, tasks);
    var t := part[i];
    var w := if fails(t.Info()) then Some(Result(if keep then t.syncStatus else NoCode, Error)) else None;
    AskNext(sc, ask, Infos(part), i, before);
    Note(sc, part, i, w, CallFailure(fails, keep, res), res, tasks);
  }

  // One call for each task, in order; the calls that fail are recorded.
  method CallEach(sc: SyncContext, part: seq<SyncTask>, fails: Task -> bool, keep: bool,
                  ghost ask: Task -> Request, ghost tasks: seq<SyncTask>)
    requires Ready(sc, tasks) && Among(part, tasks) && DistinctKeys(Infos(part))
    modifies sc`syncRes, sc`sent, (set t | t in part)`syncStatus, (set t | t in part)`operationState
    ensures Ready(sc, tasks) && Sent(old(sc.sent), sc.sent, [Asking(ask, Infos(part))])
    ensures var res := Strip(old(sc.syncRes));
            Strip(sc.syncRes) == res + Updates(CallFailure(fails, keep, res), Infos(part))
  {
    hide Infos;
    hide DistinctKeys;
    hide Noted;
    hide Asked;
    hide Ready;
    hide Strip;
    ghost var infos, res, before := Infos(part), Strip(sc.syncRes), sc.sent;
    ghost var f := CallFailure(fails, keep, res);
    NotedNothing(sc, f, infos);
    AskedNothing(sc, ask, infos);
    for i := 0 to |part|
      invariant Ready(sc, tasks) && Infos(part) == infos
      invariant Noted(sc, f, infos, i, res) && Asked(sc, ask, infos, i, before)
    {
      CallNext(sc, part, i, fails, keep, ask, res, before, tasks);
    }
    NotedAll(sc, f, infos, res);
    AskedAll(sc, ask, infos, before);
  }

  lemma AskedNothing(sc: SyncContext, ask: Task -> Request, infos: seq<Task>)
    ensures Asked(sc, ask, infos, 0, sc.sent)
  {
  }

  lemma NotedAll(sc: SyncContext, f: Task -> Option<Result>, infos: seq<Task>, res: Results)
    requires Noted(sc, f, infos, |infos|, res)
    ensures Strip(sc.syncRes) == res + Updates(f, infos)
  {
    assert infos[..|infos|] == infos;
  }

  lemma AskedAll(sc: SyncContext, ask: Task -> Request, infos: seq<Task>, before: seq<Request>)
    requires Asked(sc, ask, infos, |infos|, before)
    ensures Sent(before, sc.sent, [Asking(ask, infos)])
  {
    assert infos[..|infos|] == infos;
    SentOne(before, sc.sent, Asking(ask, infos));
  }
}
