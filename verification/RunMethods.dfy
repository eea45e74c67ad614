/** The parts of runTasks on task objects: a stage over some of the tasks, and the creation of the rest kind by kind. */
module RunMethods {
  import opened Kube
  import opened Lists
  import opened Tasks
  import opened TaskArrays
  import opened RunSpec
  import opened RunLaws
  import opened SyncState
  import opened TaskRunner

  // ----- the log of requests -----

  // A log that splits into the given steps, in order; within a step the requests come in any order.
  ghost predicate InSteps(log: seq<Request>, steps: seq<multiset<Request>>) {
    if steps == [] then log == []
    else
      |steps[0]| <= |log| && multiset(log[..|steps[0]|]) == steps[0] && InSteps(log[|steps[0]|..], steps[1..])
  }

  ghost predicate Sent(before: seq<Request>, after: seq<Request>, steps: seq<multiset<Request>>) {
    before <= after && InSteps(after[|before|..], steps)
  }

  lemma {:induction false} InStepsAppend(a: seq<Request>, b: seq<Request>, s: seq<multiset<Request>>,
                                         t: seq<multiset<Request>>)
    requires InSteps(a, s) && InSteps(b, t)
    ensures InSteps(a + b, s + t)
  {
    if s == [] {
      assert a + b == b && s + t == t;
    } else {
      var n := |s[0]|;
      InStepsAppend(a[n..], b, s[1..], t);
      assert (a + b)[..n] == a[..n] && (a + b)[n..] == a[n..] + b;
      assert (s + t)[1..] == s[1..] + t;
    }
  }

  lemma SentNothing(log: seq<Request>)
    ensures Sent(log, log, [])
  {
  }

  lemma SentOne(before: seq<Request>, after: seq<Request>, step: multiset<Request>)
    requires before <= after && multiset(after[|before|..]) == step
    ensures Sent(before, after, [step])
  {
    var log := after[|before|..];
    assert |multiset(log)| == |log|;
    assert log[..|step|] == log && log[|step|..] == [];
    assert [step][1..] == [];
  }

  lemma SentChain(a: seq<Request>, b: seq<Request>, c: seq<Request>, s: seq<multiset<Request>>,
                  t: seq<multiset<Request>>)
    requires Sent(a, b, s) && Sent(b, c, t)
    ensures Sent(a, c, s + t)
  {
    InStepsAppend(b[|a|..], c[|b|..], s, t);
    assert c[|a|..] == b[|a|..] + c[|b|..];
  }

  // ----- parts of a list -----

  predicate Among(part: seq<SyncTask>, tasks: seq<SyncTask>) {
    forall t :: t in part ==> t in tasks
  }

  // syncTasks.Filter. The predicate looks at a task and its status; `q` is what it says of tracked tasks.
  method Select(tasks: seq<SyncTask>, p: (Task, Result) -> bool, ghost q: Task -> bool) returns (r: seq<SyncTask>)
    requires forall t :: t in tasks ==> p(t.Info(), Result(t.syncStatus, t.operationState)) == q(t.Info())
    ensures Infos(r) == Filter(q, Infos(tasks)) && Among(r, tasks)
  {
    hide Filter;
    r := [];
    ghost var infos := Infos(tasks);
    FilterNone(q, infos[..0]);
    for i := 0 to |tasks|
      invariant Infos(r) == Filter(q, infos[..i]) && Among(r, tasks)
    {
      FilterNext(q, infos, i);
      InfosNext(r, tasks[i]);
      assert tasks[i] in tasks;
      if p(tasks[i].Info(), Result(tasks[i].syncStatus, tasks[i].operationState)) {
        r := r + [tasks[i]];
      }
    }
    assert infos[..|tasks|] == infos;
  }

  lemma FilterNext<T>(q: T -> bool, s: seq<T>, i: nat)
    requires i < |s|
    ensures Filter(q, s[..i + 1]) == if q(s[i]) then Filter(q, s[..i]) + [s[i]] else Filter(q, s[..i])
  {
    assert s[..i + 1] == s[..i] + [s[i]];
    FilterAppend(q, s[..i], [s[i]]);
    assert [s[i]][1..] == [];
  }

  // The state returned, the results recorded and the requests sent since `before` are those of `out`.
  ghost predicate Did(out: RunOut, state: RunState, sc: SyncContext, before: seq<Request>)
    reads sc`syncRes, sc`sent
  {
    state == out.state && Strip(sc.syncRes) == out.res && Sent(before, sc.sent, out.steps)
  }

  // A part of a list, run as one stage; the whole list keeps tracking.
  method RunPart(sc: SyncContext, run: StageRun, from: RunState, part: seq<SyncTask>, ghost tasks: seq<SyncTask>)
    returns (state: RunState)
    requires DistinctKeys(Infos(tasks)) && TracksAll(tasks, Strip(sc.syncRes)) && Numbered(sc.syncRes)
    requires Among(part, tasks) && DistinctKeys(Infos(part)) && run.FitsAll(Infos(part))
    modifies sc`syncRes, sc`sent, (set t | t in part)`syncStatus, (set t | t in part)`operationState
    ensures TracksAll(tasks, Strip(sc.syncRes)) && Numbered(sc.syncRes)
    ensures Did(run.Run(from, Infos(part), Strip(old(sc.syncRes))), state, sc, old(sc.sent))
  {
    hide Numbered;
    hide DistinctKeys;
    hide Fits;
    hide Sent;
    hide StageRun.State;
    hide StageRun.Requests;
    hide StageRun.Writes;
    ghost var res := Strip(sc.syncRes);
    state := RunStage(sc, run, from, part);
    SentOne(old(sc.sent), sc.sent, run.Requests(Infos(part), res));
    RestTracks(run, part, tasks, res);
  }

  lemma RestTracks(run: StageRun, part: seq<SyncTask>, tasks: seq<SyncTask>, res: Results)
    requires DistinctKeys(Infos(tasks)) && DistinctKeys(Infos(part)) && run.FitsAll(Infos(part)) && Among(part, tasks)
    requires TracksAll(part, res + run.Writes(Infos(part), res))
    requires forall t :: t in tasks && t !in part ==> Tracks(t, res)
    ensures TracksAll(tasks, res + run.Writes(Infos(part), res))
  {
    hide DistinctKeys;
    KeysApart(tasks);
    WritesAt(run, Infos(part), res);
    forall t | t in tasks && t !in part ensures t.Info().RKey() !in KeysOf(Infos(part)) {
      NotAmong(tasks, part, t);
    }
  }

  lemma NotAmong(tasks: seq<SyncTask>, part: seq<SyncTask>, t: SyncTask)
    requires Among(part, tasks) && t in tasks && t !in part
    requires forall u, v :: u in tasks && v in tasks && u != v ==> u.Info().RKey() != v.Info().RKey()
    ensures t.Info().RKey() !in KeysOf(Infos(part))
  {
  }

  // ----- creating by kind -----

  // processCreateTasks
  method ProcessCreateTasks(sc: SyncContext, run: StageRun, from: RunState, group: seq<SyncTask>,
                            ghost tasks: seq<SyncTask>)
    returns (state: RunState)
    requires DistinctKeys(Infos(tasks)) && TracksAll(tasks, Strip(sc.syncRes)) && Numbered(sc.syncRes)
    requires Among(group, tasks) && DistinctKeys(Infos(group)) && run.FitsAll(Infos(group))
    modifies sc`syncRes, sc`sent, (set t | t in group)`syncStatus, (set t | t in group)`operationState
    ensures TracksAll(tasks, Strip(sc.syncRes)) && Numbered(sc.syncRes)
    ensures run.FitsAll(Applied(Infos(group), run.dry))
    ensures Did(run.Run(from, Applied(Infos(group), run.dry), Strip(old(sc.syncRes))), state, sc, old(sc.sent))
  {
    hide Numbered;
    hide DistinctKeys;
    hide Fits;
    hide TracksAll;
    hide StageRun.Run;
    hide Did;
    hide Infos;
    var kept := Select(group, (t: Task, r: Result) => !(run.dry && t.skipDryRun), NotSkipped(run.dry));
    KeptParts(run, Infos(group));
    state := RunPart(sc, run, from, kept, tasks);
  }

  lemma KeptParts(run: StageRun, group: seq<Task>)
    requires run.FitsAll(group) && DistinctKeys(group)
    ensures Applied(group, run.dry) == Filter(NotSkipped(run.dry), group)
    ensures run.FitsAll(Applied(group, run.dry)) && DistinctKeys(Applied(group, run.dry))
  {
    hide Fits;
    FilterDistinct(NotSkipped(run.dry), KeyOf(), group);
  }

  // A stretch of tasks of one kind, followed by another kind or by nothing, is the first group.
  lemma {:induction false} LeadingStretch(group: seq<Task>, rest: seq<Task>)
    requires group != [] && forall t :: t in group ==> t.Kind() == group[0].Kind()
    requires rest != [] ==> rest[0].Kind() != group[0].Kind()
    ensures KindGroups(group + rest) == [group] + KindGroups(rest)
  {
    var all := group + rest;
    LeadingLength(group, rest);
    assert all[..|group|] == group && all[|group|..] == rest;
  }

  lemma {:induction false} LeadingLength(group: seq<Task>, rest: seq<Task>)
    requires group != [] && forall t :: t in group ==> t.Kind() == group[0].Kind()
    requires rest != [] ==> rest[0].Kind() != group[0].Kind()
    ensures LeadingKind(group + rest) == |group|
  {
    if |group| > 1 {
      assert (group + rest)[1..] == group[1..] + rest;
      assert group[1] in group;
      LeadingLength(group[1..], rest);
    }
  }

  // What is left to do, after some groups have been processed, is what creating the rest does.
  ghost predicate Remaining(run: StageRun, goal: RunOut, state: RunState, groups: seq<seq<Task>>, res: Results,
                            steps: seq<multiset<Request>>)
    requires run.stage.Create?
  {
    && (forall g :: g in groups ==> run.FitsAll(g))
    && goal == RunOut(CreateGroups(run, state, groups, res).state, CreateGroups(run, state, groups, res).res,
                      steps + CreateGroups(run, state, groups, res).steps)
  }

  lemma NextGroup(run: StageRun, goal: RunOut, state: RunState, group: seq<Task>, groups: seq<seq<Task>>,
                  res: Results, steps: seq<multiset<Request>>)
    requires run.stage.Create? && Remaining(run, goal, state, [group] + groups, res, steps)
    ensures run.FitsAll(group)
    ensures var first := run.Run(state, Applied(group, run.dry), res);
            Remaining(run, goal, first.state, groups, first.res, steps + first.steps)
  {
    var all := [group] + groups;
    assert all[0] == group && all[1..] == groups && group in all;
    forall g | g in groups ensures run.FitsAll(g) { assert g in all; }
    var first := run.Run(state, Applied(group, run.dry), res);
    var others := CreateGroups(run, first.state, groups, first.res);
    assert CreateGroups(run, state, all, res) == others.After(first);
    assert steps + (first.steps + others.steps) == (steps + first.steps) + others.steps;
  }

  // Partway through the create tasks: `todo` is still to be created, and `steps` have been sent since `before`.
  ghost predicate Midway(sc: SyncContext, run: StageRun, goal: RunOut, state: RunState, todo: seq<Task>,
                         steps: seq<multiset<Request>>, before: seq<Request>)
    requires run.stage.Create?
    reads sc`syncRes, sc`sent
  {
    Remaining(run, goal, state, KindGroups(todo), Strip(sc.syncRes), steps) && Sent(before, sc.sent, steps)
  }

  predicate OneKind(group: seq<Task>) {
    forall t :: t in group ==> t.Kind() == group[0].Kind()
  }

  method CreateGroup(sc: SyncContext, run: StageRun, from: RunState, group: seq<SyncTask>, ghost rest: seq<Task>,
                     ghost goal: RunOut, ghost steps: seq<multiset<Request>>, ghost before: seq<Request>,
                     ghost tasks: seq<SyncTask>)
    returns (state: RunState, ghost steps': seq<multiset<Request>>)
    requires run.stage.Create? && Midway(sc, run, goal, from, Infos(group) + rest, steps, before)
    requires group != [] && OneKind(Infos(group))
    requires rest != [] ==> rest[0].Kind() != Infos(group)[0].Kind()
    requires DistinctKeys(Infos(tasks)) && TracksAll(tasks, Strip(sc.syncRes)) && Numbered(sc.syncRes)
    requires Among(group, tasks) && DistinctKeys(Infos(group))
    modifies sc`syncRes, sc`sent, (set t | t in group)`syncStatus, (set t | t in group)`operationState
    ensures TracksAll(tasks, Strip(sc.syncRes)) && Numbered(sc.syncRes)
    ensures Midway(sc, run, goal, state, rest, steps', before)
  {
    hide Numbered;
    hide DistinctKeys;
    hide TracksAll;
    hide Infos;
    hide Remaining;
    hide Sent;
    hide StageRun.Run;
    hide StageRun.FitsAll;
    hide KindGroups;
    hide Strip;
    hide Applied;
    ghost var res := Strip(sc.syncRes);
    ghost var sent := sc.sent;
    LeadingStretch(Infos(group), rest);
    NextGroup(run, goal, from, Infos(group), KindGroups(rest), res, steps);
    state := ProcessCreateTasks(sc, run, from, group, tasks);
    ghost var first := run.Run(from, Applied(Infos(group), run.dry), res);
    steps' := steps + first.steps;
    SentChain(before, sent, sc.sent, steps, first.steps);
  }

  // `group` holds the last tasks before the i-th, all of one kind.
  ghost predicate Gathered(creates: seq<SyncTask>, infos: seq<Task>, group: seq<SyncTask>, i: nat) {
    && |group| <= i <= |creates| == |infos|
    && group == creates[i - |group|..i]
    && (i > 0 ==> group != [])
    && OneKind(infos[i - |group|..i])
  }

  lemma InfosSlice(s: seq<SyncTask>, lo: nat, hi: nat)
    requires lo <= hi <= |s|
    ensures Infos(s[lo..hi]) == Infos(s)[lo..hi]
  {
    hide Infos;
  }

  lemma SliceDistinct(s: seq<Task>, lo: nat, hi: nat)
    requires lo <= hi <= |s| && DistinctKeys(s)
    ensures DistinctKeys(s[lo..hi])
  {
  }

  lemma GatheredInfos(creates: seq<SyncTask>, group: seq<SyncTask>, i: nat)
    requires Gathered(creates, Infos(creates), group, i) && DistinctKeys(Infos(creates))
    ensures Infos(group) == Infos(creates)[i - |group|..i]
    ensures Infos(group) + Infos(creates)[i..] == Infos(creates)[i - |group|..]
    ensures Among(group, creates) && DistinctKeys(Infos(group)) && OneKind(Infos(group))
  {
    hide Infos;
    hide DistinctKeys;
    InfosSlice(creates, i - |group|, i);
    SliceDistinct(Infos(creates), i - |group|, i);
  }

  lemma GatherMore(creates: seq<SyncTask>, infos: seq<Task>, group: seq<SyncTask>, i: nat)
    requires i < |creates| && Gathered(creates, infos, group, i)
    ensures Gathered(creates, infos, [creates[i]], i + 1)
    ensures (group != [] ==> infos[i].Kind() == infos[i - |group|].Kind()) ==>
            Gathered(creates, infos, group + [creates[i]], i + 1)
  {
  }

  // Where the loop over the create tasks stands before the i-th
  ghost predicate Looping(sc: SyncContext, run: StageRun, goal: RunOut, state: RunState, creates: seq<SyncTask>,
                          group: seq<SyncTask>, i: nat, steps: seq<multiset<Request>>, before: seq<Request>)
    requires run.stage.Create?
    reads sc`syncRes, sc`sent, (set t | t in creates)`phase, (set t | t in creates)`waveOverride
  {
    && Gathered(creates, Infos(creates), group, i)
    && Midway(sc, run, goal, state, Infos(creates)[i - |group|..], steps, before)
  }

  method NextCreate(sc: SyncContext, run: StageRun, from: RunState, creates: seq<SyncTask>, group: seq<SyncTask>,
                    i: nat,
                    ghost goal: RunOut, ghost steps: seq<multiset<Request>>, ghost before: seq<Request>,
                    ghost tasks: seq<SyncTask>)
    returns (state: RunState, group': seq<SyncTask>, ghost steps': seq<multiset<Request>>)
    requires run.stage.Create? && Looping(sc, run, goal, from, creates, group, i, steps, before) && i < |creates|
    requires DistinctKeys(Infos(tasks)) && TracksAll(tasks, Strip(sc.syncRes)) && Numbered(sc.syncRes)
    requires Among(creates, tasks) && DistinctKeys(Infos(creates))
    modifies sc`syncRes, sc`sent, (set t | t in creates)`syncStatus, (set t | t in creates)`operationState
    ensures TracksAll(tasks, Strip(sc.syncRes)) && Numbered(sc.syncRes)
    ensures Looping(sc, run, goal, state, creates, group', i + 1, steps', before)
  {
    hide Numbered;
    hide DistinctKeys;
    hide TracksAll;
    hide Infos;
    hide Midway;
    hide Strip;
    ghost var infos := Infos(creates);
    var t := creates[i];
    GatheredInfos(creates, group, i);
    GatherMore(creates, infos, group, i);
    if |group| > 0 && group[0].Obj().key.kind != t.Obj().key.kind {
      assert infos[i..][0] == infos[i];
      state, steps' := CreateGroup(sc, run, from, group, infos[i..], goal, steps, before, tasks);
      group' := [t];
    } else {
      state, group', steps' := from, group + [t], steps;
    }
  }

  // The last stage of runTasks
  method CreateByKind(sc: SyncContext, run: StageRun, creates: seq<SyncTask>, ghost tasks: seq<SyncTask>)
    returns (state: RunState)
    requires run.stage.Create? && forall t :: t in Infos(creates) ==> !t.IsPrune()
    requires DistinctKeys(Infos(tasks)) && TracksAll(tasks, Strip(sc.syncRes)) && Numbered(sc.syncRes)
    requires Among(creates, tasks) && DistinctKeys(Infos(creates))
    modifies sc`syncRes, sc`sent, (set t | t in creates)`syncStatus, (set t | t in creates)`operationState
    ensures TracksAll(tasks, Strip(sc.syncRes)) && Numbered(sc.syncRes)
    ensures forall g :: g in KindGroups(Infos(creates)) ==> run.FitsAll(g)
    ensures Did(CreateGroups(run, RunSuccessful, KindGroups(Infos(creates)), Strip(old(sc.syncRes))),
                state, sc, old(sc.sent))
  {
    hide Numbered;
    hide DistinctKeys;
    hide TracksAll;
    hide Infos;
    hide Looping;
    hide Did;
    hide Strip;
    hide CreateGroups;
    ghost var infos, before, res := Infos(creates), sc.sent, Strip(sc.syncRes);
    CreatesFit(run, infos);
    ghost var goal := CreateGroups(run, RunSuccessful, KindGroups(infos), res);
    ghost var steps: seq<multiset<Request>> := [];
    var group: seq<SyncTask> := [];
    state := RunSuccessful;
    AtTheStart(sc, run, goal, creates);
    for i := 0 to |creates|
      invariant Infos(creates) == infos && DistinctKeys(Infos(tasks))
      invariant Looping(sc, run, goal, state, creates, group, i, steps, before)
      invariant TracksAll(tasks, Strip(sc.syncRes)) && Numbered(sc.syncRes)
    {
      state, group, steps := NextCreate(sc, run, state, creates, group, i, goal, steps, before, tasks);
    }
    state := LastGroup(sc, run, state, creates, group, goal, steps, before, tasks);
  }

  method LastGroup(sc: SyncContext, run: StageRun, from: RunState, creates: seq<SyncTask>, group: seq<SyncTask>,
                   ghost goal: RunOut, ghost steps: seq<multiset<Request>>, ghost before: seq<Request>,
                   ghost tasks: seq<SyncTask>)
    returns (state: RunState)
    requires run.stage.Create? && Looping(sc, run, goal, from, creates, group, |creates|, steps, before)
    requires DistinctKeys(Infos(tasks)) && TracksAll(tasks, Strip(sc.syncRes)) && Numbered(sc.syncRes)
    requires Among(creates, tasks) && DistinctKeys(Infos(creates))
    modifies sc`syncRes, sc`sent, (set t | t in creates)`syncStatus, (set t | t in creates)`operationState
    ensures TracksAll(tasks, Strip(sc.syncRes)) && Numbered(sc.syncRes)
    ensures Did(goal, state, sc, before)
  {
    hide Numbered;
    hide DistinctKeys;
    hide TracksAll;
    hide Infos;
    hide Midway;
    hide Strip;
    hide Did;
    GatheredInfos(creates, group, |creates|);
    ghost var steps' := steps;
    state := from;
    if |group| > 0 {
      state, steps' := CreateGroup(sc, run, state, group, [], goal, steps, before, tasks);
    }
    NothingLeft(sc, run, goal, state, steps', before);
  }

  lemma CreatesFit(run: StageRun, creates: seq<Task>)
    requires run.stage.Create? && forall t :: t in creates ==> !t.IsPrune()
    ensures forall g :: g in KindGroups(creates) ==> run.FitsAll(g)
  {
  }

  lemma AtTheStart(sc: SyncContext, run: StageRun, goal: RunOut, creates: seq<SyncTask>)
    requires run.stage.Create? && forall g :: g in KindGroups(Infos(creates)) ==> run.FitsAll(g)
    requires goal == CreateGroups(run, RunSuccessful, KindGroups(Infos(creates)), Strip(sc.syncRes))
    ensures Looping(sc, run, goal, RunSuccessful, creates, [], 0, [], sc.sent)
  {
    assert Infos(creates)[0..] == Infos(creates);
    assert [] + goal.steps == goal.steps;
  }

  lemma NothingLeft(sc: SyncContext, run: StageRun, goal: RunOut, state: RunState, steps: seq<multiset<Request>>,
                    before: seq<Request>)
    requires run.stage.Create? && Midway(sc, run, goal, state, [], steps, before)
    ensures Did(goal, state, sc, before)
  {
    assert steps + [] == steps;
  }

  // ----- the whole of runTasks -----

  lemma DidThen(first: RunOut, next: RunOut, sc: SyncContext, state: RunState, a: seq<Request>, b: seq<Request>)
    requires Sent(a, b, first.steps) && Did(next, state, sc, b)
    ensures Did(next.After(first), state, sc, a)
  {
    SentChain(a, b, sc.sent, first.steps, next.steps);
  }

  lemma FilteredKeys(q: Task -> bool, ts: seq<Task>)
    requires DistinctKeys(ts)
    ensures DistinctKeys(Filter(q, ts))
  {
    FilterDistinct(q, KeyOf(), ts);
  }

  // A part of the tasks, chosen by what they are and what is recorded of them, run as one stage.
  method RunSelected(sc: SyncContext, run: StageRun, from: RunState, all: seq<SyncTask>, p: (Task, Result) -> bool,
                     ghost q: Task -> bool, ghost tasks: seq<SyncTask>)
    returns (state: RunState)
    requires DistinctKeys(Infos(tasks)) && TracksAll(tasks, Strip(sc.syncRes)) && Numbered(sc.syncRes)
    requires Among(all, tasks) && DistinctKeys(Infos(all)) && run.FitsAll(Filter(q, Infos(all)))
    requires forall t :: t in all ==> p(t.Info(), ResultOf(t.Info(), Strip(sc.syncRes))) == q(t.Info())
    modifies sc`syncRes, sc`sent, (set t | t in all)`syncStatus, (set t | t in all)`operationState
    ensures TracksAll(tasks, Strip(sc.syncRes)) && Numbered(sc.syncRes)
    ensures Did(run.Run(from, Filter(q, Infos(all)), Strip(old(sc.syncRes))), state, sc, old(sc.sent))
  {
    hide Filter;
    hide WorkOf;
    hide Numbered;
    hide DistinctKeys;
    hide Infos;
    hide StageRun.Run;
    hide StageRun.FitsAll;
    hide Did;
    hide Strip;
    var part := Select(all, p, q);
    FilteredKeys(q, Infos(all));
    state := RunPart(sc, run, from, part, tasks);
  }

  method DeleteFirst(sc: SyncContext, run: StageRun, creates: seq<SyncTask>, ghost tasks: seq<SyncTask>)
    returns (state: RunState)
    requires run.stage.DeleteHooks?
    requires DistinctKeys(Infos(tasks)) && TracksAll(tasks, Strip(sc.syncRes)) && Numbered(sc.syncRes)
    requires Among(creates, tasks) && DistinctKeys(Infos(creates))
    modifies sc`syncRes, sc`sent, (set t | t in creates)`syncStatus, (set t | t in creates)`operationState
    ensures TracksAll(tasks, Strip(sc.syncRes)) && Numbered(sc.syncRes)
    ensures var res := Strip(old(sc.syncRes));
            Did(run.Run(RunSuccessful, HooksToDelete(Infos(creates), res), res), state, sc, old(sc.sent))
  {
    hide Numbered;
    hide DistinctKeys;
    hide Infos;
    hide StageRun.Run;
    hide Did;
    hide Strip;
    ghost var res := Strip(sc.syncRes);
    assert run.FitsAll(HooksToDelete(Infos(creates), res));
    state := RunSelected(sc, run, RunSuccessful, creates,
      (t: Task, r: Result) => r.op.NoPhase? && t.LiveWithPolicy(BeforeHookCreation), IsDeletedFirst(res), tasks);
  }

  method DeleteAndCreate(sc: SyncContext, creates: seq<SyncTask>, dry: bool, calls: Calls, ghost tasks: seq<SyncTask>)
    returns (state: RunState)
    requires DistinctKeys(Infos(tasks)) && TracksAll(tasks, Strip(sc.syncRes)) && Numbered(sc.syncRes)
    requires Among(creates, tasks) && DistinctKeys(Infos(creates)) && forall t :: t in Infos(creates) ==> !t.IsPrune()
    modifies sc`syncRes, sc`sent, (set t | t in creates)`syncStatus, (set t | t in creates)`operationState
    ensures TracksAll(tasks, Strip(sc.syncRes)) && Numbered(sc.syncRes)
    ensures Did(RunSpec.DeleteAndCreate(sc.cfg, Infos(creates), dry, calls, Strip(old(sc.syncRes))),
                state, sc, old(sc.sent))
  {
    hide Numbered;
    hide DistinctKeys;
    hide Infos;
    hide StageRun.Run;
    hide CreateGroups;
    hide KindGroups;
    hide HooksToDelete;
    hide Sent;
    ghost var before := sc.sent;
    ghost var res := Strip(sc.syncRes);
    ghost var deleted :=
      StageRun(DeleteHooks, sc.cfg, dry, calls).Run(RunSuccessful, HooksToDelete(Infos(creates), res), res);
    state := DeleteFirst(sc, StageRun(DeleteHooks, sc.cfg, dry, calls), creates, tasks);
    if !state.RunSuccessful? {
      return;
    }
    ghost var between := sc.sent;
    state := CreateByKind(sc, StageRun(Create, sc.cfg, dry, calls), creates, tasks);
    ghost var made :=
      CreateGroups(StageRun(Create, sc.cfg, dry, calls), RunSuccessful, KindGroups(Infos(creates)), deleted.res);
    DidThen(deleted, made, sc, state, before, between);
  }
}
