/**
 The goroutines of one stage of runTasks (pkg/sync/sync_context.go). A goroutine sends its request and later
 records its result; which goroutine moves next is left open at every step, so what is proved here holds
 of every interleaving.
 */
module TaskRunner {
  import opened Lists
  import opened Tasks
  import opened TaskArrays
  import opened RunSpec
  import opened RunLaws
  import opened SyncState

  // ----- stateSync -----

  // What a goroutine reports: its own state if it changed the one it was given
  function Reported(given: RunState, own: RunState): RunState {
    if own.RunSuccessful? then given else own
  }

  // The loop body of stateSync.Wait
  function Absorb(res: RunState, result: RunState): RunState {
    match res
    case RunFailed => RunFailed
    case RunPending => if result.RunFailed? then RunFailed else RunPending
    case RunSuccessful => result
  }

  lemma {:induction false} AbsorbNext(run: StageRun, from: RunState, a: seq<Task>, t: Task, res: Results)
    requires run.FitsAll(a) && Fits(run.stage, t)
    ensures run.FitsAll(a + [t])
    ensures run.State(from, a + [t], res) == Absorb(run.State(from, a, res), Reported(from, run.Of(t, res).state))
  {
    assert run.FitsAll([t]);
    assert forall u :: u in a + [t] <==> u in a || u == t;
    StateIs(run, from, a, res);
    StateIs(run, from, a + [t], res);
  }

  // The order in which a stage's goroutines finish makes no difference.
  lemma AnyOrder(run: StageRun, from: RunState, a: seq<Task>, b: seq<Task>, res: Results)
    requires run.FitsAll(a) && DistinctKeys(a) && DistinctKeys(b) && forall t :: t in a <==> t in b
    ensures run.FitsAll(b)
    ensures run.State(from, a, res) == run.State(from, b, res)
    ensures run.Writes(a, res) == run.Writes(b, res)
    ensures run.Requests(a, res) == run.Requests(b, res)
  {
    assert run.FitsAll(b);
    StateIs(run, from, a, res);
    StateIs(run, from, b, res);
    SameWrites(run, a, b, res);
    forall q ensures run.Requests(a, res)[q] == run.Requests(b, res)[q] {
      RequestsFrom(run, a, res, q);
      RequestsFrom(run, b, res, q);
      RequestsOnce(run, a, res, q);
      RequestsOnce(run, b, res, q);
    }
  }

  lemma SameWrites(run: StageRun, a: seq<Task>, b: seq<Task>, res: Results)
    requires run.FitsAll(a) && run.FitsAll(b) && DistinctKeys(a) && DistinctKeys(b) && forall t :: t in a <==> t in b
    ensures run.Writes(a, res) == run.Writes(b, res)
  {
    WritesAt(run, a, res);
    WritesAt(run, b, res);
    assert run.Writes(a, res).Keys == run.Writes(b, res).Keys;
  }

  // ----- the goroutines of one stage -----

  // `rest` are the tasks of a list that are not yet in `part`; together they are the whole list.
  predicate Parts(tasks: seq<SyncTask>, rest: seq<SyncTask>, part: seq<SyncTask>) {
    multiset(rest) + multiset(part) == multiset(tasks)
  }

  lemma TakeOut(tasks: seq<SyncTask>, rest: seq<SyncTask>, part: seq<SyncTask>, i: nat)
    requires i < |rest| && Parts(tasks, rest, part)
    ensures Parts(tasks, rest[..i] + rest[i + 1..], part + [rest[i]])
    ensures rest[i] in tasks
  {
    assert rest == rest[..i] + [rest[i]] + rest[i + 1..];
    assert rest[i] in multiset(tasks);
  }

  lemma PartInfos(tasks: seq<SyncTask>, rest: seq<SyncTask>, part: seq<SyncTask>)
    requires Parts(tasks, rest, part) && DistinctKeys(Infos(tasks))
    ensures DistinctKeys(Infos(part)) && forall t :: t in Infos(part) ==> t in Infos(tasks)
    ensures rest == [] ==> forall t :: t in Infos(tasks) ==> t in Infos(part)
  {
    PartKeys(part, tasks);
    forall x | 0 <= x < |part| ensures Infos(part)[x] in Infos(tasks) {
      assert part[x] in multiset(tasks);
      InfoAmong(tasks, part[x]);
    }
    if rest == [] {
      forall x | 0 <= x < |tasks| ensures Infos(tasks)[x] in Infos(part) {
        assert tasks[x] in multiset(part);
        InfoAmong(part, tasks[x]);
      }
    }
  }

  lemma InfoAmong(s: seq<SyncTask>, t: SyncTask)
    requires t in s
    ensures t.Info() in Infos(s)
  {
  }

  /** Where the goroutines of a stage stand: those waiting to start, those in flight, and those done. */
  datatype Flight = Flight(
    tasks: seq<SyncTask>,
    waiting: seq<SyncTask>,
    flying: seq<SyncTask>,
    launched: seq<SyncTask>,       // in the order of their requests
    done: seq<SyncTask>)           // in the order of their results
  {
    predicate Consistent() {
      Parts(tasks, waiting, launched) && Parts(tasks, waiting + flying, done)
    }

    function Launch(i: nat): Flight
      requires i < |waiting|
    {
      this.(waiting := waiting[..i] + waiting[i + 1..], flying := flying + [waiting[i]],
            launched := launched + [waiting[i]])
    }

    function Land(i: nat): Flight
      requires i < |flying|
    {
      this.(flying := flying[..i] + flying[i + 1..], done := done + [flying[i]])
    }
  }

  lemma LaunchConsistent(f: Flight, i: nat)
    requires f.Consistent() && i < |f.waiting|
    ensures f.Launch(i).Consistent() && f.waiting[i] in f.tasks
    ensures forall t :: t in f.Launch(i).waiting + f.Launch(i).flying ==> t in f.waiting + f.flying
  {
    TakeOut(f.tasks, f.waiting, f.launched, i);
    var g := f.Launch(i);
    assert f.waiting == f.waiting[..i] + [f.waiting[i]] + f.waiting[i + 1..];
    assert multiset(g.waiting + g.flying) == multiset(f.waiting + f.flying);
    assert forall t :: t in g.waiting + g.flying <==> t in multiset(g.waiting + g.flying);
    assert forall t :: t in f.waiting + f.flying <==> t in multiset(f.waiting + f.flying);
  }

  lemma LandConsistent(f: Flight, i: nat)
    requires f.Consistent() && i < |f.flying|
    ensures f.Land(i).Consistent() && f.flying[i] in f.tasks
    ensures forall t :: t in f.Land(i).waiting + f.Land(i).flying ==> t in f.waiting + f.flying
  {
    var all, k := f.waiting + f.flying, |f.waiting| + i;
    TakeOut(f.tasks, all, f.done, k);
    assert all[..k] + all[k + 1..] == f.Land(i).waiting + f.Land(i).flying;
  }

  // A goroutine in flight is not done, nor is it in flight twice.
  lemma ApartFromDone(f: Flight, i: nat)
    requires f.Consistent() && NoRepeats(f.tasks) && i < |f.flying|
    ensures f.flying[i] !in f.done
    ensures f.flying[i] !in f.waiting + f.flying[..i] + f.flying[i + 1..]
  {
    var t := f.flying[i];
    DistinctOnce(f.tasks, t);
    assert f.waiting + f.flying == f.waiting + f.flying[..i] + [t] + f.flying[i + 1..];
    assert multiset(f.waiting + f.flying)[t] >= 1;
    assert multiset(f.waiting + f.flying)[t] + multiset(f.done)[t] <= 1;
    assert t !in multiset(f.waiting + f.flying[..i] + f.flying[i + 1..]);
  }

  // The requests sent since the stage began are those of the goroutines launched.
  ghost predicate LogMatches(sc: SyncContext, run: StageRun, launched: seq<SyncTask>, res0: Results, log0: seq<Request>)
    reads sc`sent, (set t | t in launched)`phase, (set t | t in launched)`waveOverride
  {
    && run.FitsAll(Infos(launched))
    && log0 <= sc.sent
    && multiset(sc.sent[|log0|..]) == run.Requests(Infos(launched), res0)
  }

  // The results recorded, and the state reported, are those of the goroutines done.
  ghost predicate ResultsMatch(sc: SyncContext, run: StageRun, from: RunState, done: seq<SyncTask>, res0: Results,
                               state: RunState)
    reads sc`syncRes, done
  {
    && run.FitsAll(Infos(done))
    && Strip(sc.syncRes) == res0 + run.Writes(Infos(done), res0)
    && state == run.State(from, Infos(done), res0)
    && TracksAll(done, Strip(sc.syncRes))
  }

  ghost predicate Underway(sc: SyncContext, run: StageRun, from: RunState, f: Flight, res0: Results,
                           log0: seq<Request>, state: RunState)
    reads sc, f.tasks, f.waiting, f.flying, f.launched, f.done
  {
    && f.Consistent() && DistinctKeys(Infos(f.tasks)) && run.FitsAll(Infos(f.tasks))
    && TracksAll(f.waiting + f.flying, res0)
    && LogMatches(sc, run, f.launched, res0, log0)
    && ResultsMatch(sc, run, from, f.done, res0, state)
    && Numbered(sc.syncRes)
  }

  // What a goroutine does follows from its own task alone.
  function WorkFor(run: StageRun, t: SyncTask): Work
    requires Fits(run.stage, t.Info())
    reads t
  {
    WorkOf(run.stage, run.cfg, run.dry, run.calls, t.Info(), Result(t.syncStatus, t.operationState))
  }

  lemma {:induction false} RequestsNext(run: StageRun, a: seq<Task>, t: Task, res: Results)
    requires run.FitsAll(a) && Fits(run.stage, t)
    ensures run.FitsAll(a + [t])
    ensures run.Requests(a + [t], res)
         == run.Requests(a, res)
            + if run.Of(t, res).request.Some? then multiset{run.Of(t, res).request.value} else multiset{}
  {
    assert run.FitsAll([t]);
    RequestsAppend(run, a, [t], res);
    assert [t][1..] == [];
  }

  lemma InfosNext(s: seq<SyncTask>, t: SyncTask)
    ensures Infos(s + [t]) == Infos(s) + [t.Info()]
  {
  }

  // A goroutine starts: its request goes out.
  method Launch(sc: SyncContext, run: StageRun, t: SyncTask, ghost launched: seq<SyncTask>, ghost res0: Results,
                ghost log0: seq<Request>)
    requires Fits(run.stage, t.Info()) && Tracks(t, res0)
    requires LogMatches(sc, run, launched, res0, log0)
    modifies sc`sent
    ensures LogMatches(sc, run, launched + [t], res0, log0)
  {
    hide WorkOf;
    hide StageRun.Requests;
    var w := WorkFor(run, t);
    assert w == run.Of(t.Info(), res0);
    RequestsNext(run, Infos(launched), t.Info(), res0);
    InfosNext(launched, t);
    if w.request.Some? {
      Send(sc, w.request.value, |log0|);
    }
  }

  ghost method Send(sc: SyncContext, q: Request, from: nat)
    requires from <= |sc.sent|
    modifies sc`sent
    ensures sc.sent == old(sc.sent) + [q] && old(sc.sent)[..from] == sc.sent[..from]
    ensures multiset(sc.sent[from..]) == multiset(old(sc.sent)[from..]) + multiset{q}
  {
    var before := sc.sent[from..];
    sc.sent := sc.sent + [q];
    assert sc.sent[from..] == before + [q];
  }

  lemma WritesNext(run: StageRun, a: seq<Task>, t: Task, res: Results)
    requires run.FitsAll(a) && Fits(run.stage, t) && DistinctKeys(a + [t])
    ensures run.FitsAll(a + [t])
    ensures run.Writes(a + [t], res)
         == if run.Of(t, res).write.Some? then run.Writes(a, res)[t.RKey() := run.Of(t, res).write.value]
            else run.Writes(a, res)
  {
    assert run.FitsAll([t]);
    WritesAppend(run, a, [t], res);
    assert [t][1..] == [];
  }

  // Tracking carries over to the results with one more entry, of a task apart from the others.
  lemma TracksOn(done: seq<SyncTask>, t: SyncTask, res: Results, r: Result)
    requires TracksAll(done, res) && t !in done && DistinctKeys(Infos(done + [t]))
    ensures TracksAll(done, res[t.Info().RKey() := r])
  {
    KeysApart(done + [t]);
    forall u | u in done ensures Tracks(u, res[t.Info().RKey() := r]) {
      assert u in done + [t] && t in done + [t];
    }
  }

  lemma NotYetWritten(run: StageRun, a: seq<Task>, t: Task, res: Results)
    requires run.FitsAll(a) && DistinctKeys(a + [t])
    ensures t.RKey() !in run.Writes(a, res)
  {
    DistinctParts(KeyOf(), a, [t]);
    WritesAt(run, a, res);
    assert t in [t];
  }

  method RecordFor(sc: SyncContext, t: SyncTask, r: Result, ghost done: seq<SyncTask>)
    requires TracksAll(done, Strip(sc.syncRes)) && t !in done && DistinctKeys(Infos(done + [t]))
    requires Numbered(sc.syncRes)
    modifies sc`syncRes, t`syncStatus, t`operationState
    ensures Strip(sc.syncRes) == Strip(old(sc.syncRes))[t.Info().RKey() := r]
    ensures TracksAll(done + [t], Strip(sc.syncRes)) && Numbered(sc.syncRes)
  {
    hide Numbered;
    ghost var res := Strip(sc.syncRes);
    TracksOn(done, t, res, r);
    sc.SetResourceResult(t, r.status, r.op);
    assert TracksAll(done, Strip(sc.syncRes));
  }

  // A goroutine ends: its result is recorded and its state absorbed.
  method Land(sc: SyncContext, run: StageRun, from: RunState, t: SyncTask, state: RunState,
              ghost done: seq<SyncTask>, ghost res0: Results)
    returns (state': RunState)
    requires Fits(run.stage, t.Info()) && Tracks(t, res0) && t !in done
    requires DistinctKeys(Infos(done + [t])) && Numbered(sc.syncRes)
    requires ResultsMatch(sc, run, from, done, res0, state)
    modifies sc`syncRes, t`syncStatus, t`operationState
    ensures ResultsMatch(sc, run, from, done + [t], res0, state') && Numbered(sc.syncRes)
  {
    hide WorkOf;
    hide StageRun.Writes;
    hide StageRun.State;
    hide Numbered;
    hide TracksAll;
    hide DistinctKeys;
    var w := WorkFor(run, t);
    assert w == run.Of(t.Info(), res0);
    InfosNext(done, t);
    AbsorbNext(run, from, Infos(done), t.Info(), res0);
    WritesNext(run, Infos(done), t.Info(), res0);
    state' := Absorb(state, Reported(from, w.state));
    if w.write.Some? {
      RecordFor(sc, t, w.write.value, done);
    } else {
      TracksIdle(run, done, t, res0, Strip(sc.syncRes));
    }
  }

  lemma TracksIdle(run: StageRun, done: seq<SyncTask>, t: SyncTask, res0: Results, res: Results)
    requires run.FitsAll(Infos(done)) && Fits(run.stage, t.Info()) && Tracks(t, res0) && TracksAll(done, res)
    requires DistinctKeys(Infos(done + [t])) && res == res0 + run.Writes(Infos(done), res0)
    ensures TracksAll(done + [t], res)
  {
    InfosNext(done, t);
    NotYetWritten(run, Infos(done), t.Info(), res0);
  }

  lemma FitsOne(run: StageRun, tasks: seq<SyncTask>, t: SyncTask)
    requires run.FitsAll(Infos(tasks)) && t in tasks
    ensures Fits(run.stage, t.Info())
  {
  }

  method LaunchNext(sc: SyncContext, run: StageRun, from: RunState, f: Flight, i: nat, state: RunState,
                    ghost res0: Results, ghost log0: seq<Request>)
    requires i < |f.waiting| && Underway(sc, run, from, f, res0, log0, state)
    modifies sc`sent
    ensures Underway(sc, run, from, f.Launch(i), res0, log0, state)
  {
    hide Infos;
    hide WorkOf;
    hide LogMatches;
    hide ResultsMatch;
    hide Numbered;
    hide DistinctKeys;
    LaunchConsistent(f, i);
    FitsOne(run, f.tasks, f.waiting[i]);
    assert f.waiting[i] in f.waiting + f.flying;
    Launch(sc, run, f.waiting[i], f.launched, res0, log0);
  }

  // What is needed to let a goroutine in flight land
  lemma CanLand(run: StageRun, f: Flight, i: nat)
    requires f.Consistent() && DistinctKeys(Infos(f.tasks)) && run.FitsAll(Infos(f.tasks)) && i < |f.flying|
    ensures var t, g := f.flying[i], f.Land(i);
            && t in f.tasks && t in f.waiting + f.flying && t !in f.done && t !in g.waiting + g.flying
            && Fits(run.stage, t.Info()) && DistinctKeys(Infos(f.done + [t])) && g.Consistent()
            && forall u :: u in g.waiting + g.flying ==> u in f.waiting + f.flying
  {
    hide DistinctKeys;
    hide Parts;
    var g := f.Land(i);
    LandConsistent(f, i);
    KeysApart(f.tasks);
    ApartFromDone(f, i);
    FitsOne(run, f.tasks, f.flying[i]);
    LandedKeys(f, i);
    assert forall u :: u in g.waiting + g.flying ==> u in f.waiting + f.flying[..i] + f.flying[i + 1..];
  }

  lemma LandedKeys(f: Flight, i: nat)
    requires i < |f.flying| && f.Land(i).Consistent() && DistinctKeys(Infos(f.tasks))
    ensures DistinctKeys(Infos(f.done + [f.flying[i]]))
  {
    hide DistinctKeys;
    var g := f.Land(i);
    PartInfos(f.tasks, g.waiting + g.flying, g.done);
  }

  method LandNext(sc: SyncContext, run: StageRun, from: RunState, f: Flight, i: nat, state: RunState,
                  ghost res0: Results, ghost log0: seq<Request>)
    returns (state': RunState)
    requires i < |f.flying| && Underway(sc, run, from, f, res0, log0, state)
    modifies sc`syncRes, (set t | t in f.tasks)`syncStatus, (set t | t in f.tasks)`operationState
    ensures Underway(sc, run, from, f.Land(i), res0, log0, state')
  {
    hide LogMatches;
    hide ResultsMatch;
    hide Numbered;
    hide DistinctKeys;
    hide Flight.Consistent;
    CanLand(run, f, i);
    state' := Land(sc, run, from, f.flying[i], state, f.done, res0);
  }

  // One stage, its goroutines moving in any order.
  method RunStage(sc: SyncContext, run: StageRun, from: RunState, tasks: seq<SyncTask>) returns (state: RunState)
    requires DistinctKeys(Infos(tasks)) && run.FitsAll(Infos(tasks))
    requires TracksAll(tasks, Strip(sc.syncRes)) && Numbered(sc.syncRes)
    modifies sc`syncRes, sc`sent, (set t | t in tasks)`syncStatus, (set t | t in tasks)`operationState
    ensures TracksAll(tasks, Strip(sc.syncRes)) && Numbered(sc.syncRes)
    ensures var out := run.Run(from, Infos(tasks), Strip(old(sc.syncRes)));
            state == out.state && Strip(sc.syncRes) == out.res
    ensures old(sc.sent) <= sc.sent
    ensures multiset(sc.sent[|old(sc.sent)|..]) == run.Requests(Infos(tasks), Strip(old(sc.syncRes)))
  {
    hide LogMatches;
    hide ResultsMatch;
    hide Numbered;
    hide DistinctKeys;
    hide TracksAll;
    ghost var res0, log0 := Strip(sc.syncRes), sc.sent;
    var f := Flight(tasks, tasks, [], [], []);
    state := from;
    Takeoff(sc, run, from, tasks, res0, log0);
    while |f.waiting| + |f.flying| > 0
      invariant f.tasks == tasks && Underway(sc, run, from, f, res0, log0, state)
      decreases 2 * |f.waiting| + |f.flying|
    {
      if
      case |f.waiting| > 0 =>
        var i: nat :| i < |f.waiting|;
        LaunchNext(sc, run, from, f, i, state, res0, log0);
        f := f.Launch(i);
      case |f.flying| > 0 =>
        var i: nat :| i < |f.flying|;
        state := LandNext(sc, run, from, f, i, state, res0, log0);
        f := f.Land(i);
    }
    AllLanded(sc, run, from, f, res0, log0, state);
  }

  lemma Takeoff(sc: SyncContext, run: StageRun, from: RunState, tasks: seq<SyncTask>, res0: Results, log0: seq<Request>)
    requires DistinctKeys(Infos(tasks)) && run.FitsAll(Infos(tasks))
    requires TracksAll(tasks, res0) && Numbered(sc.syncRes) && res0 == Strip(sc.syncRes) && log0 == sc.sent
    ensures Underway(sc, run, from, Flight(tasks, tasks, [], [], []), res0, log0, from)
  {
    assert tasks + [] == tasks;
    assert sc.sent[|log0|..] == [];
    assert res0 + map[] == res0;
  }

  lemma AllLanded(sc: SyncContext, run: StageRun, from: RunState, f: Flight, res0: Results, log0: seq<Request>,
                  state: RunState)
    requires Underway(sc, run, from, f, res0, log0, state) && f.waiting == f.flying == []
    ensures TracksAll(f.tasks, Strip(sc.syncRes))
    ensures var out := run.Run(from, Infos(f.tasks), res0); state == out.state && Strip(sc.syncRes) == out.res
    ensures log0 <= sc.sent && multiset(sc.sent[|log0|..]) == run.Requests(Infos(f.tasks), res0)
  {
    assert f.waiting + f.flying == [];
    PartInfos(f.tasks, [], f.done);
    PartInfos(f.tasks, [], f.launched);
    AnyOrder(run, from, Infos(f.tasks), Infos(f.done), res0);
    AnyOrder(run, from, Infos(f.tasks), Infos(f.launched), res0);
    SameMembers(f.done, f.tasks);
  }
}
