/** The end of getSyncTasks (pkg/sync/sync_context.go): waves of prune tasks, the sort, and the recorded results. */
module TaskList {
  import opened Lists
  import opened Tasks
  import opened TaskOrder
  import opened TaskArrays
  import opened Dependencies
  import opened TaskSort
  import opened SortLaws
  import opened PruneWaves
  import opened PruneOrder
  import opened PlannedKeys
  import opened RunSpec
  import opened SyncSpec
  import opened SyncState
  import opened SyncParts
  import opened HealthLaws
  import opened FirstCall
  import SyncMethods

  lemma ScheduledSlots(s: seq<SyncTask>)
    requires SlotsInOrder(SlotsOf(s))
    ensures Scheduled(Infos(s))
  {
  }

  // Each task takes over what has been recorded for it.
  method Enrich(sc: SyncContext, a: array<SyncTask>)
    requires NoRepeats(a[..])
    requires forall t :: t in a[..] ==> t.syncStatus.NoCode? && t.operationState.NoPhase?
    modifies (set t | t in a[..])`syncStatus, (set t | t in a[..])`operationState
    ensures TracksAll(a[..], Strip(sc.syncRes))
  {
    hide Infos;
    ghost var tasks, res := a[..], Strip(sc.syncRes);
    for i := 0 to a.Length
      invariant forall j :: 0 <= j < i ==> Tracks(tasks[j], res)
      invariant forall j :: i <= j < a.Length ==> tasks[j].syncStatus.NoCode? && tasks[j].operationState.NoPhase?
    {
      var t := a[i];
      assert t == tasks[i];
      var key := t.Info().RKey();
      if key in sc.syncRes {
        t.syncStatus := sc.syncRes[key].result.status;
        t.operationState := sc.syncRes[key].result.op;
      }
    }
  }

  // The waves of prune tasks, then the sort
  method Arrange(cfg: Config, a: array<SyncTask>)
    requires NoRepeats(a[..]) && WavesFit(Arranged(cfg, Infos(a[..])))
    modifies a, (set t | t in a[..])`phase, (set t | t in a[..])`waveOverride
    ensures multiset(a[..]) == multiset(old(a[..])) && NoRepeats(a[..]) && Scheduled(Infos(a[..]))
    ensures DepsFirst(CRDS, ObjsOf(a[..])) && DepsFirst(NAMESPACES, ObjsOf(Filter(NotDep(CRDS), a[..])))
    ensures NeedsMet(ObjsOf(a[..])) && PlainInPlace(Infos(a[..]))
    ensures Infos(old(a[..])) == Planned(cfg, old(Infos(a[..])))
  {
    hide Infos;
    hide Arranged;
    hide Canon;
    hide SlotsInOrder;
    hide DepsFirst;
    hide NeedsMet;
    hide PlainInPlace;
    hide WavesFit;
    hide Scheduled;
    hide Filter;
    hide ObjsOf;
    hide SlotsOf;
    OrderPrunes(cfg, a[..]);
    ghost var _, _ := Sort(a);
    ScheduledSlots(a[..]);
  }

  // The keys of a list do not depend on its order.
  lemma KeysAnyOrder(s: seq<SyncTask>, was: seq<SyncTask>)
    requires multiset(s) == multiset(was)
    ensures DistinctKeys(Infos(s)) <==> DistinctKeys(Infos(was))
  {
    hide DistinctKeys;
    if DistinctKeys(Infos(was)) { PartKeys(s, was); }
    if DistinctKeys(Infos(s)) { PartKeys(was, s); }
  }

  /**
   The list a call of Sync works on, made from the tasks found for the resources and hooks. Its result keys
   are distinct exactly when PlannedKeys.KeysStayApart holds of what was found.
   */
  method GetSyncTasks(sc: SyncContext, a: array<SyncTask>)
    requires NoRepeats(a[..]) && WavesFit(Arranged(sc.cfg, Infos(a[..])))
    requires forall t :: t in a[..] ==> t.syncStatus.NoCode? && t.operationState.NoPhase?
    modifies a, (set t | t in a[..])
    ensures multiset(a[..]) == multiset(old(a[..])) && NoRepeats(a[..])
    ensures TracksAll(a[..], Strip(sc.syncRes)) && Scheduled(Infos(a[..]))
    ensures DistinctKeys(Infos(a[..])) <==> KeysStayApart(old(Infos(a[..])))
    ensures DepsFirst(CRDS, ObjsOf(a[..])) && DepsFirst(NAMESPACES, ObjsOf(Filter(NotDep(CRDS), a[..])))
    ensures NeedsMet(ObjsOf(a[..])) && PlainInPlace(Infos(a[..]))
    ensures Infos(old(a[..])) == Planned(sc.cfg, old(Infos(a[..])))
  {
    hide ObjsOf;
    hide NotDep;
    hide Arranged;
    hide Canon;
    hide Strip;
    hide NoRepeats;
    hide Infos;
    hide DistinctKeys;
    hide Planned;
    hide KeysStayApart;
    hide DepsFirst;
    hide NeedsMet;
    hide PlainInPlace;
    hide TracksAll;
    hide Scheduled;
    hide Filter;
    hide WavesFit;
    ghost var was := a[..];
    PlannedKeysExact(sc.cfg, Infos(was));
    Arrange(sc.cfg, a);
    SameMembers(a[..], was);
    KeysAnyOrder(a[..], was);
    Enrich(sc, a);
  }

  // One call, from the tasks found to its effect.
  method SyncOnce(sc: SyncContext, a: array<SyncTask>, env: Env)
    requires NoRepeats(a[..]) && Numbered(sc.syncRes)
    requires WavesFit(Arranged(sc.cfg, Infos(a[..]))) && KeysStayApart(Infos(a[..]))
    requires forall t :: t in a[..] ==> t.syncStatus.NoCode? && t.operationState.NoPhase?
    modifies sc`phase, sc`syncRes, sc`sent, a, (set t | t in a[..])
    ensures multiset(a[..]) == multiset(old(a[..])) && Ready(sc, a[..]) && Scheduled(Infos(a[..]))
    ensures Infos(old(a[..])) == Planned(sc.cfg, old(Infos(a[..])))
    ensures SyncMethods.Took(
              SyncStep(sc.cfg, Infos(a[..]), State(old(sc.phase), Strip(old(sc.syncRes))), env), sc, old(sc.sent))
    ensures var ts, st := Infos(a[..]), State(old(sc.phase), Strip(old(sc.syncRes)));
            env.valid && st.res != map[] && !st.phase.Succeeded? ==>
              PhaseFollows(sc.cfg, ts, st, env, sc.phase) && (IsHeldUp(ts, st.res) ==> sc.sent == old(sc.sent))
    ensures env.valid && Strip(old(sc.syncRes)) == map[] && IsRefused(sc.cfg, Infos(a[..]), env) ==> sc.phase.Failed?
  {
    hide IsRefused;
    hide PhaseFollows;
    hide IsHeldUp;
    hide Scheduled;
    hide DistinctKeys;
    hide Planned;
    hide KeysStayApart;
    hide Infos;
    hide TracksAll;
    hide Numbered;
    hide SyncStep;
    hide SyncMethods.Took;
    ghost var was := a[..];
    GetSyncTasks(sc, a);
    SameMembers(a[..], was);
    assert Ready(sc, a[..]);
    hide Ready;
    SyncMethods.Sync(sc, a[..], env);
  }
}
