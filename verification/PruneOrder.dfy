/** The loops of getSyncTasks that arrange the waves of prune tasks, on the task objects. */
module PruneOrder {
  import opened Kube
  import opened Lists
  import opened Tasks
  import opened RunSpec
  import opened TaskOrder
  import opened TaskArrays
  import opened PruneWaves

  // The prune tasks of a list by wave; `infos` says what the tasks were when they were grouped.
  ghost predicate Grouped(groups: map<int, seq<SyncTask>>, tasks: seq<SyncTask>, infos: seq<Task>)
    requires |tasks| == |infos|
  {
    && (forall w :: w in groups ==> groups[w] != [] && forall t :: t in groups[w] ==> t in tasks)
    && (forall k, w :: 0 <= k < |tasks| ==>
          ((w in groups && tasks[k] in groups[w]) <==> (infos[k].IsPrune() && infos[k].wave == w)))
  }

  method GroupPrunes(tasks: seq<SyncTask>) returns (groups: map<int, seq<SyncTask>>)
    requires NoRepeats(tasks)
    ensures Grouped(groups, tasks, Infos(tasks))
  {
    groups := map[];
    for i := 0 to |tasks|
      invariant Grouped(groups, tasks[..i], Infos(tasks[..i]))
    {
      var t := tasks[i];
      ghost var before := groups;
      if t.objs.LiveOnly? {
        var w := t.Wave();
        groups := groups[w := (if w in groups then groups[w] else []) + [t]];
      }
      GroupedNext(before, groups, tasks, i);
    }
    assert tasks[..|tasks|] == tasks;
  }

  lemma GroupedNext(before: map<int, seq<SyncTask>>, groups: map<int, seq<SyncTask>>, tasks: seq<SyncTask>, i: nat)
    requires NoRepeats(tasks) && i < |tasks| && Grouped(before, tasks[..i], Infos(tasks[..i]))
    requires var t, w := tasks[i], tasks[i].Wave();
             groups == if t.objs.LiveOnly? then before[w := (if w in before then before[w] else []) + [t]] else before
    ensures Grouped(groups, tasks[..i + 1], Infos(tasks[..i + 1]))
  {
  }

  method Override(tasks: seq<SyncTask>, wave: int)
    modifies (set t | t in tasks)`waveOverride
    ensures forall t :: t in tasks ==> t.Wave() == wave
  {
    for i := 0 to |tasks|
      invariant forall t :: t in tasks[..i] ==> t.Wave() == wave
    {
      tasks[i].waveOverride := Some(wave);
      assert tasks[..i + 1] == tasks[..i] + [tasks[i]];
    }
    assert tasks[..|tasks|] == tasks;
  }

  // The wave of a prune task when the i outermost pairs have been swapped
  function PartlyMirrored(ws: seq<int>, i: nat, w: int): int {
    if w in ws && (IndexOf(ws, w) < i || IndexOf(ws, w) >= |ws| - i) then Mirror(ws, w) else w
  }

  lemma FullyMirrored(ws: seq<int>, w: int)
    requires Increasing(ws)
    ensures PartlyMirrored(ws, |ws| / 2, w) == Mirror(ws, w)
  {
  }

  lemma NextPair(ws: seq<int>, i: nat, w: int)
    requires Increasing(ws) && i < |ws| / 2
    ensures PartlyMirrored(ws, i + 1, w) ==
            if w == ws[i] then ws[|ws| - 1 - i] else if w == ws[|ws| - 1 - i] then ws[i] else PartlyMirrored(ws, i, w)
  {
  }

  // Where the tasks stand when the i outermost pairs of waves have been swapped
  ghost predicate SwappedSoFar(tasks: seq<SyncTask>, infos: seq<Task>, ws: seq<int>, i: nat)
    reads tasks
  {
    && |infos| == |tasks|
    && forall k :: 0 <= k < |tasks| ==>
         tasks[k].Info() ==
         if infos[k].IsPrune() then infos[k].(wave := PartlyMirrored(ws, i, infos[k].wave)) else infos[k]
  }

  method SwapPair(tasks: seq<SyncTask>, groups: map<int, seq<SyncTask>>, ws: seq<int>, i: nat, ghost infos: seq<Task>)
    requires Increasing(ws) && i < |ws| / 2 && (forall w :: w in ws ==> w in groups)
    requires |tasks| == |infos| && Grouped(groups, tasks, infos)
    requires SwappedSoFar(tasks, infos, ws, i)
    modifies (set t | t in tasks)`waveOverride
    ensures SwappedSoFar(tasks, infos, ws, i + 1)
  {
    hide PartlyMirrored;
    var startWave, endWave := ws[i], ws[|ws| - 1 - i];
    assert startWave in ws && endWave in ws && startWave != endWave;
    Override(groups[startWave], endWave);
    Override(groups[endWave], startWave);
    forall k | 0 <= k < |tasks| && infos[k].IsPrune() {
      NextPair(ws, i, infos[k].wave);
    }
  }

  method SwapWaves(tasks: seq<SyncTask>)
    requires NoRepeats(tasks)
    modifies (set t | t in tasks)`waveOverride
    ensures Infos(tasks) == Reversed(old(Infos(tasks)))
  {
    hide PartlyMirrored;
    hide Grouped;
    ghost var infos := Infos(tasks);
    var groups := GroupPrunes(tasks);
    var ws := Ascending(groups.Keys);
    GroupedWaves(groups, tasks, infos);
    NothingMirrored(tasks, infos, ws);
    for i := 0 to |ws| / 2
      invariant SwappedSoFar(tasks, infos, ws, i)
    {
      SwapPair(tasks, groups, ws, i, infos);
    }
    forall k | 0 <= k < |tasks| ensures Infos(tasks)[k] == Reversed(infos)[k] {
      FullyMirrored(ws, infos[k].wave);
    }
  }

  lemma NothingMirrored(tasks: seq<SyncTask>, infos: seq<Task>, ws: seq<int>)
    requires infos == Infos(tasks)
    ensures SwappedSoFar(tasks, infos, ws, 0)
  {
  }

  lemma GroupedWaves(groups: map<int, seq<SyncTask>>, tasks: seq<SyncTask>, infos: seq<Task>)
    requires |tasks| == |infos| && Grouped(groups, tasks, infos)
    ensures groups.Keys == PruneWavesOf(infos)
  {
    forall w | w in groups ensures w in PruneWavesOf(infos) {
      var t := groups[w][0];
      assert t in groups[w];
      var k :| 0 <= k < |tasks| && tasks[k] == t;
      assert infos[k] in infos;
    }
    forall t | t in infos && t.IsPrune() ensures t.wave in groups {
      var k :| 0 <= k < |infos| && infos[k] == t;
      assert tasks[k] in groups[t.wave];
    }
  }

  // ----- prune-last -----

  method LastSyncWave(tasks: seq<SyncTask>) returns (last: int)
    ensures last == LastWave(Infos(tasks))
  {
    ghost var infos := Infos(tasks);
    last := 0;
    for i := 0 to |tasks|
      invariant IsHighestWave(infos[..i], last)
    {
      assert infos[i] == tasks[i].Info();
      if tasks[i].phase.Sync? {
        if tasks[i].Wave() > last {
          last := tasks[i].Wave();
        }
      }
      assert infos[..i + 1] == infos[..i] + [infos[i]];
    }
    assert infos[..|tasks|] == infos;
    HighestWaveIs(infos, last);
    last := Add64(last, 1);
  }

  // The greatest wave of the Sync phase, or zero
  predicate IsHighestWave(ts: seq<Task>, last: int) {
    && last >= 0
    && (forall t :: t in ts && t.phase.Sync? ==> t.wave <= last)
    && (last == 0 || exists t :: t in ts && t.phase.Sync? && t.wave == last)
  }

  lemma HighestWaveIs(ts: seq<Task>, last: int)
    requires IsHighestWave(ts, last)
    ensures HighestWave(ts) == last
  {
  }

  method Defer(cfg: Config, tasks: seq<SyncTask>, last: int)
    requires NoRepeats(tasks)
    modifies (set t | t in tasks)`waveOverride
    ensures forall k :: 0 <= k < |tasks| ==> Infos(tasks)[k] == DeferredTask(cfg, last, old(Infos(tasks))[k])
  {
    ghost var infos := Infos(tasks);
    for i := 0 to |tasks|
      invariant forall k :: 0 <= k < |tasks| ==>
          tasks[k].Info() == if k < i then DeferredTask(cfg, last, infos[k]) else infos[k]
    {
      if PrunedLast(cfg, tasks[i].objs) {
        tasks[i].waveOverride := Some(last);
      }
    }
  }

  lemma DeferredAll(cfg: Config, was: seq<Task>, infos: seq<Task>)
    requires |was| == |infos|
    requires forall k :: 0 <= k < |was| ==> infos[k] == DeferredTask(cfg, LastWave(Reversed(was)), Reversed(was)[k])
    ensures infos == Arranged(cfg, was)
  {
  }

  // All of it: afterwards every task has the wave Arranged gives it.
  method OrderPrunes(cfg: Config, tasks: seq<SyncTask>)
    requires NoRepeats(tasks)
    modifies (set t | t in tasks)`waveOverride
    ensures Infos(tasks) == Arranged(cfg, old(Infos(tasks)))
  {
    hide Infos;
    hide Reversed;
    hide Arranged;
    hide LastWave;
    hide DeferredTask;
    hide NoRepeats;
    ghost var was := Infos(tasks);
    SwapWaves(tasks);
    var last := LastSyncWave(tasks);
    Defer(cfg, tasks, last);
    DeferredAll(cfg, was, Infos(tasks));
  }
}
