/**
 Whole sync operations: Sync called again and again until the operation phase is completed
 (pkg/engine/engine.go). Between two calls anything may happen in the cluster.
 */
module SyncRuns {
  import opened Lists
  import opened Tasks
  import opened RunSpec
  import opened RunLaws
  import opened SyncSpec
  import opened SyncLaws
  import opened SyncOutcome
  import opened AtMostOnce

  datatype Call = Call(ts: seq<Task>, env: Env)

  // The state before each call, and after the last
  function StateAt(cfg: Config, calls: seq<Call>, st: State, i: nat): State
    requires i <= |calls|
    decreases i
  {
    if i == 0 then st
    else SyncStep(cfg, calls[i - 1].ts, StateAt(cfg, calls, st, i - 1), calls[i - 1].env).Next()
  }

  function StepAt(cfg: Config, calls: seq<Call>, st: State, i: nat): StepOut
    requires i < |calls|
  {
    SyncStep(cfg, calls[i].ts, StateAt(cfg, calls, st, i), calls[i].env)
  }

  function AllSteps(cfg: Config, calls: seq<Call>, st: State, n: nat): seq<multiset<Request>>
    requires n <= |calls|
  {
    if n == 0 then [] else AllSteps(cfg, calls, st, n - 1) + StepAt(cfg, calls, st, n - 1).steps
  }

  // ----- at most once -----

  lemma {:induction false} RunAccounted(cfg: Config, calls: seq<Call>, st: State, n: nat, k: ResultKey)
    requires n <= |calls| && !k.phase.SyncFail?
    requires forall c :: c in calls ==> DistinctKeys(c.ts)
    ensures Accounted(AllSteps(cfg, calls, st, n), st.res, StateAt(cfg, calls, st, n).res, k)
  {
    hide SyncStep;
    if n > 0 {
      RunAccounted(cfg, calls, st, n - 1, k);
      var before := StateAt(cfg, calls, st, n - 1);
      assert calls[n - 1] in calls;
      SyncAccounted(cfg, calls[n - 1].ts, before, calls[n - 1].env, k);
      var step := StepAt(cfg, calls, st, n - 1);
      AccountedChain(AllSteps(cfg, calls, st, n - 1), step.steps, st.res, before.res, step.res, k);
    }
  }

  /**
   Over a whole operation, whatever the calls learn and whichever lists they work on, a regular task is
   applied or pruned at most once, and not at all when it was recorded to begin with.
   */
  lemma AtMostOnceOverRuns(cfg: Config, calls: seq<Call>, st: State, k: ResultKey)
    requires !k.phase.SyncFail?
    requires forall c :: c in calls ==> DistinctKeys(c.ts)
    ensures Touches(AllSteps(cfg, calls, st, |calls|), k) + Recorded(st.res, k) <= 1
  {
    RunAccounted(cfg, calls, st, |calls|, k);
  }

  // ----- one fixed set of tasks -----

  /** The tasks of an operation: result keys and waves. Live objects may differ from call to call. */
  type Catalogue = map<ResultKey, int>

  predicate Enumerates(base: Catalogue, ts: seq<Task>) {
    && DistinctKeys(ts) && Scheduled(ts)
    && KeysOf(ts) == base.Keys
    && forall t :: t in ts ==> base[t.RKey()] == t.wave
  }

  ghost predicate AllEnumerate(base: Catalogue, calls: seq<Call>) {
    forall c :: c in calls ==> Enumerates(base, c.ts)
  }

  // What was recorded at one time is recorded at every later time.
  lemma {:induction false} RunGrows(cfg: Config, base: Catalogue, calls: seq<Call>, st: State, i: nat, j: nat)
    requires AllEnumerate(base, calls) && i <= j <= |calls|
    ensures Grows(StateAt(cfg, calls, st, i).res, StateAt(cfg, calls, st, j).res, base.Keys)
    decreases j
  {
    if i < j {
      RunGrows(cfg, base, calls, st, i, j - 1);
      assert calls[j - 1] in calls;
      SyncGrows(cfg, calls[j - 1].ts, StateAt(cfg, calls, st, j - 1), calls[j - 1].env);
      GrowsTransitive(StateAt(cfg, calls, st, i).res, StateAt(cfg, calls, st, j - 1).res,
                      StateAt(cfg, calls, st, j).res, base.Keys);
    }
  }

  // Every regular task of a slot before the given one has been started.
  predicate Behind(base: Catalogue, res: Results, slot: Slot) {
    forall k :: k in base && !k.phase.SyncFail? && SlotLess(At(k.phase, base[k]), slot) ==>
      k in res && !res[k].op.NoPhase?
  }

  lemma NothingSkipped(cfg: Config, ts: seq<Task>, env: Env, res: Results)
    requires !cfg.applyOutOfSyncOnly
    ensures forall t :: t in ts ==> !Skipped(cfg, env, t, res)
  {
  }

  lemma WaveLeavesBehind(cfg: Config, base: Catalogue, ts: seq<Task>, st: State, env: Env)
    requires Enumerates(base, ts) && NoTerminating(st.res) && !cfg.applyOutOfSyncOnly
    requires SyncStep(cfg, ts, st, env).wave.Some?
    ensures Behind(base, SyncStep(cfg, ts, st, env).res, SyncStep(cfg, ts, st, env).wave.value.slot)
  {
    var step, res := SyncStep(cfg, ts, st, env), DecisionResults(cfg, ts, st, env);
    hide SyncStep;
    hide DecisionResults;
    hide AfterBatch;
    hide DistinctKeys;
    hide Scheduled;
    WaveSafety(cfg, ts, st, env);
    WaveLegs(cfg, ts, st, env);
    NothingSkipped(cfg, ts, env, res);
    hide Skipped;
    forall k | k in base && !k.phase.SyncFail? && SlotLess(At(k.phase, base[k]), step.wave.value.slot)
      ensures k in step.res && !step.res[k].op.NoPhase?
    {
      var t :| t in ts && t.RKey() == k;
      assert t.Slot() == At(k.phase, base[k]);
      assert Op(t, res).Succeeded?;
    }
  }

  lemma SlotTotal(a: Slot, b: Slot)
    ensures SlotLeq(a, b) || SlotLess(b, a)
  {
  }

  // After a successful batch nothing regular of its slot is pending.
  lemma WaveCompletes(cfg: Config, base: Catalogue, ts: seq<Task>, st: State, env: Env, k: ResultKey)
    requires Enumerates(base, ts) && NoTerminating(st.res) && !cfg.applyOutOfSyncOnly && !cfg.dryRun
    requires SyncStep(cfg, ts, st, env).wave.Some? && SyncStep(cfg, ts, st, env).wave.value.state.RunSuccessful?
    requires k in base && !k.phase.SyncFail? && At(k.phase, base[k]) == SyncStep(cfg, ts, st, env).wave.value.slot
    ensures k in SyncStep(cfg, ts, st, env).res && !SyncStep(cfg, ts, st, env).res[k].op.NoPhase?
  {
    var t :| t in ts && t.RKey() == k;
    assert DistinctKeys(ts) && Scheduled(ts) && t.Slot() == At(k.phase, base[k]);
    hide *;
    WaveSafety(cfg, ts, st, env);
    WaveLegs(cfg, ts, st, env);
    WaveCarriedOut(cfg, ts, st, env);
    var res, after := DecisionResults(cfg, ts, st, env), AfterBatch(cfg, ts, st, env).res;
    NothingSkipped(cfg, ts, env, res);
    assert Pending(t, res) ==> CarriedOut(cfg, t, after) by { assert t.phase == k.phase by { KeyPhase(t); } }
    StartedStays(cfg, t, res, after, KeysOf(ts));
    StartedStays(cfg, t, after, SyncStep(cfg, ts, st, env).res, KeysOf(ts));
  }

  lemma KeyPhase(t: Task)
    ensures t.RKey().phase == t.phase
  {
  }

  lemma StartedStays(cfg: Config, t: Task, res: Results, res': Results, ks: set<ResultKey>)
    requires Grows(res, res', ks)
    requires !Pending(t, res) || CarriedOut(cfg, t, res')
    ensures t.RKey() in res' && !res'[t.RKey()].op.NoPhase? && !Pending(t, res')
  {
  }

  lemma WaveCarriedOut(cfg: Config, ts: seq<Task>, st: State, env: Env)
    requires DistinctKeys(ts) && !cfg.dryRun
    requires SyncStep(cfg, ts, st, env).wave.Some? && SyncStep(cfg, ts, st, env).wave.value.state.RunSuccessful?
    ensures forall t :: t in SyncStep(cfg, ts, st, env).wave.value.tasks ==>
              CarriedOut(cfg, t, AfterBatch(cfg, ts, st, env).res)
  {
    hide RunTasks;
    hide SyncStep;
    hide DecisionResults;
    var wave, res := SyncStep(cfg, ts, st, env).wave.value, DecisionResults(cfg, ts, st, env);
    WaveLegs(cfg, ts, st, env);
    RunTasksSuccess(cfg, wave.tasks, false, env.wave, res);
  }

  // A later wave runs nothing of a slot that has been left behind.
  lemma WaveNotBehind(cfg: Config, base: Catalogue, ts: seq<Task>, st: State, env: Env) returns (k: ResultKey)
    requires Enumerates(base, ts) && SyncStep(cfg, ts, st, env).wave.Some?
    ensures k in base && !k.phase.SyncFail? && At(k.phase, base[k]) == SyncStep(cfg, ts, st, env).wave.value.slot
    ensures k in st.res ==> st.res[k].op.NoPhase?
  {
    hide SyncStep;
    hide DecisionResults;
    hide AfterBatch;
    var wave := SyncStep(cfg, ts, st, env).wave.value;
    WaveLegs(cfg, ts, st, env);
    WaveResult(cfg, ts, st, env);
    var t := wave.tasks[0];
    assert t in wave.tasks;
    k := t.RKey();
  }

  // What a wave has started is still started when a later call begins.
  lemma StillStarted(cfg: Config, base: Catalogue, calls: seq<Call>, st: State, i: nat, j: nat, k: ResultKey)
    requires AllEnumerate(base, calls) && i < j <= |calls|
    requires k in StepAt(cfg, calls, st, i).res && !StepAt(cfg, calls, st, i).res[k].op.NoPhase?
    ensures k in StateAt(cfg, calls, st, j).res && !StateAt(cfg, calls, st, j).res[k].op.NoPhase?
  {
    hide SyncStep;
    RunGrows(cfg, base, calls, st, i + 1, j);
    assert StateAt(cfg, calls, st, i + 1).res == StepAt(cfg, calls, st, i).res;
  }

  // With a fixed set of tasks the batches never go backwards.
  lemma WavesInOrder(cfg: Config, base: Catalogue, calls: seq<Call>, st: State, i: nat, j: nat)
    requires AllEnumerate(base, calls) && NoTerminating(st.res) && !cfg.applyOutOfSyncOnly && i < j < |calls|
    requires StepAt(cfg, calls, st, i).wave.Some? && StepAt(cfg, calls, st, j).wave.Some?
    ensures SlotLeq(StepAt(cfg, calls, st, i).wave.value.slot, StepAt(cfg, calls, st, j).wave.value.slot)
  {
    hide SyncStep;
    var before := StateAt(cfg, calls, st, i);
    assert calls[i] in calls && calls[j] in calls;
    RunGrows(cfg, base, calls, st, 0, i);
    GrowsKeepsNoTerminating(st.res, before.res, base.Keys);
    WaveLeavesBehind(cfg, base, calls[i].ts, before, calls[i].env);
    var k := WaveNotBehind(cfg, base, calls[j].ts, StateAt(cfg, calls, st, j), calls[j].env);
    SlotTotal(StepAt(cfg, calls, st, i).wave.value.slot, StepAt(cfg, calls, st, j).wave.value.slot);
    if SlotLess(At(k.phase, base[k]), StepAt(cfg, calls, st, i).wave.value.slot) {
      StillStarted(cfg, base, calls, st, i, j, k);
    }
  }

  // Unless the sync is a dry run, a batch that succeeded is followed only by batches of later slots.
  lemma WavesAdvance(cfg: Config, base: Catalogue, calls: seq<Call>, st: State, i: nat, j: nat)
    requires AllEnumerate(base, calls) && NoTerminating(st.res) && !cfg.applyOutOfSyncOnly && i < j < |calls|
    requires StepAt(cfg, calls, st, i).wave.Some? && StepAt(cfg, calls, st, j).wave.Some?
    requires !cfg.dryRun && StepAt(cfg, calls, st, i).wave.value.state.RunSuccessful?
    ensures SlotLess(StepAt(cfg, calls, st, i).wave.value.slot, StepAt(cfg, calls, st, j).wave.value.slot)
  {
    hide SyncStep;
    var before := StateAt(cfg, calls, st, i);
    assert calls[i] in calls && calls[j] in calls;
    WavesInOrder(cfg, base, calls, st, i, j);
    RunGrows(cfg, base, calls, st, 0, i);
    GrowsKeepsNoTerminating(st.res, before.res, base.Keys);
    var k := WaveNotBehind(cfg, base, calls[j].ts, StateAt(cfg, calls, st, j), calls[j].env);
    if At(k.phase, base[k]) == StepAt(cfg, calls, st, i).wave.value.slot {
      WaveCompletes(cfg, base, calls[i].ts, before, calls[i].env, k);
      StillStarted(cfg, base, calls, st, i, j, k);
    }
  }

  // ----- fail-stop over runs -----

  // The run has not ended: every call but the last left the operation running.
  predicate Ongoing(cfg: Config, calls: seq<Call>, st: State, n: nat)
    requires n <= |calls|
  {
    forall i :: 0 <= i <= n ==> !StateAt(cfg, calls, st, i).phase.Completed()
  }

  lemma SameFailure(ts: seq<Task>, ts': seq<Task>, res: Results)
    requires KeysOf(ts) == KeysOf(ts') && SomeRegularUnsuccessful(ts, res)
    ensures SomeRegularUnsuccessful(ts', res)
  {
  }

  /**
   Once a regular task is recorded as failed, no call up to the end of the operation runs another wave,
   and the operation does not end as Succeeded.
   */
  lemma {:induction false} FailStopOverRuns(cfg: Config, base: Catalogue, calls: seq<Call>, st: State, i: nat, j: nat)
    requires AllEnumerate(base, calls) && i <= j < |calls| && Ongoing(cfg, calls, st, j)
    requires SomeRegularUnsuccessful(calls[i].ts, StateAt(cfg, calls, st, i).res)
    ensures SomeRegularUnsuccessful(calls[j].ts, StateAt(cfg, calls, st, j).res)
    ensures StepAt(cfg, calls, st, j).wave.None? && !StepAt(cfg, calls, st, j).phase.Succeeded?
  {
    hide SyncStep;
    hide DistinctKeys;
    hide Scheduled;
    hide SomeRegularUnsuccessful;
    if i < j {
      FailStopOverRuns(cfg, base, calls, st, i, j - 1);
      assert calls[j - 1] in calls && calls[j] in calls;
      FailStop(cfg, calls[j - 1].ts, StateAt(cfg, calls, st, j - 1), calls[j - 1].env);
      SameFailure(calls[j - 1].ts, calls[j].ts, StateAt(cfg, calls, st, j).res);
    }
    assert calls[j] in calls;
    FailStop(cfg, calls[j].ts, StateAt(cfg, calls, st, j), calls[j].env);
  }

  lemma FailedWaveState(cfg: Config, base: Catalogue, calls: seq<Call>, st: State, i: nat)
    requires AllEnumerate(base, calls) && i + 1 < |calls|
    requires StepAt(cfg, calls, st, i).wave.Some? && StepAt(cfg, calls, st, i).wave.value.state.RunFailed?
    ensures SomeRegularUnsuccessful(calls[i + 1].ts, StateAt(cfg, calls, st, i + 1).res)
  {
    hide SyncStep;
    hide DistinctKeys;
    hide Scheduled;
    hide SomeRegularUnsuccessful;
    assert calls[i] in calls && calls[i + 1] in calls;
    WaveFailureRecorded(cfg, calls[i].ts, StateAt(cfg, calls, st, i), calls[i].env);
    SameFailure(calls[i].ts, calls[i + 1].ts, StateAt(cfg, calls, st, i + 1).res);
  }

  // ----- progress over runs -----

  predicate EndedWave(step: StepOut) {
    step.wave.Some? && !step.wave.value.state.RunPending?
  }

  function EndedWaves(cfg: Config, calls: seq<Call>, st: State, n: nat): nat
    requires n <= |calls|
  {
    if n == 0 then 0
    else EndedWaves(cfg, calls, st, n - 1) + if EndedWave(StepAt(cfg, calls, st, n - 1)) then 1 else 0
  }

  // An operation that is not a dry run ends at most as many waves as it has regular tasks left to start.
  lemma {:induction false} WavesBounded(cfg: Config, base: Catalogue, calls: seq<Call>, st: State, n: nat)
    requires AllEnumerate(base, calls) && n <= |calls| && !cfg.dryRun
    ensures EndedWaves(cfg, calls, st, n) + |Unstarted(base.Keys, StateAt(cfg, calls, st, n).res)|
            <= |Unstarted(base.Keys, st.res)|
  {
    hide SyncStep;
    hide DistinctKeys;
    hide Scheduled;
    hide Grows;
    hide Unstarted;
    if n > 0 {
      WavesBounded(cfg, base, calls, st, n - 1);
      var before, after := StateAt(cfg, calls, st, n - 1), StateAt(cfg, calls, st, n);
      var call := calls[n - 1];
      assert call in calls;
      SyncGrows(cfg, call.ts, before, call.env);
      UnstartedShrinks(base.Keys, before.res, after.res, base.Keys);
      var was, now := Unstarted(base.Keys, before.res), Unstarted(base.Keys, after.res);
      if EndedWave(StepAt(cfg, calls, st, n - 1)) {
        WaveProgress(cfg, call.ts, before, call.env);
      }
      if now != was { ProperSubsetSmaller(now, was); }
    }
  }
}
