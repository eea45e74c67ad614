/** The order of the waves, and the stop after a failure, as statements about the requests of a whole operation. */
module RequestRuns {
  import opened Tasks
  import opened RunSpec
  import opened SyncSpec
  import opened SyncLaws
  import opened AtMostOnce
  import opened SyncRuns
  import opened SyncRequests
  import opened HealthLaws

  // Call number i really applies or prunes the task of a key.
  predicate TouchedAt(cfg: Config, calls: seq<Call>, st: State, i: nat, k: ResultKey)
    requires i < |calls|
  {
    Touches(StepAt(cfg, calls, st, i).steps, k) > 0
  }

  // Call number i is the first of its operation and creates the application namespace, which is the task of the key.
  predicate BootstrappedAt(cfg: Config, calls: seq<Call>, st: State, i: nat, k: ResultKey)
    requires i < |calls|
  {
    Bootstrapped(cfg, calls[i].ts, StateAt(cfg, calls, st, i), calls[i].env, k)
  }

  // A regular task touched other than by the bootstrap belongs to the wave, and so to its slot.
  lemma TouchedInWave(cfg: Config, base: Catalogue, calls: seq<Call>, st: State, i: nat, k: ResultKey)
    requires AllEnumerate(base, calls) && i < |calls| && !k.phase.SyncFail?
    requires TouchedAt(cfg, calls, st, i, k) && !BootstrappedAt(cfg, calls, st, i, k)
    ensures k in base && StepAt(cfg, calls, st, i).wave.Some?
    ensures StepAt(cfg, calls, st, i).wave.value.slot == At(k.phase, base[k])
  {
    hide SyncStep;
    hide Touches;
    hide Bootstrapped;
    hide DecisionResults;
    hide Candidates;
    hide AfterBatch;
    var before := StateAt(cfg, calls, st, i);
    assert calls[i] in calls;
    RegularTouches(cfg, calls[i].ts, before, calls[i].env, k);
    WaveLegs(cfg, calls[i].ts, before, calls[i].env);
    WaveResult(cfg, calls[i].ts, before, calls[i].env);
    var t :| t in StepAt(cfg, calls, st, i).wave.value.tasks && t.RKey() == k;
  }

  // What a call has touched it has recorded, so that the next is not the first any more.
  lemma TouchedRecorded(cfg: Config, base: Catalogue, calls: seq<Call>, st: State, i: nat, j: nat, k: ResultKey)
    requires AllEnumerate(base, calls) && i < j <= |calls| && !k.phase.SyncFail? && TouchedAt(cfg, calls, st, i, k)
    ensures k in StateAt(cfg, calls, st, j).res && !StateAt(cfg, calls, st, j).res[k].op.NoPhase?
  {
    hide SyncStep;
    hide Touches;
    assert calls[i] in calls;
    SyncAccounted(cfg, calls[i].ts, StateAt(cfg, calls, st, i), calls[i].env, k);
    StillStarted(cfg, base, calls, st, i, j, k);
  }

  /**
   With a fixed set of tasks, and apart from the creation of the application namespace, regular tasks are really
   applied and pruned in the order of their slots: nothing of an earlier slot after, or with, one of a later slot.
   */
  lemma RequestsInOrder(cfg: Config, base: Catalogue, calls: seq<Call>, st: State, i: nat, j: nat,
                        k: ResultKey, k': ResultKey)
    requires AllEnumerate(base, calls) && NoTerminating(st.res) && !cfg.applyOutOfSyncOnly && i <= j < |calls|
    requires !k.phase.SyncFail? && TouchedAt(cfg, calls, st, i, k) && !BootstrappedAt(cfg, calls, st, i, k)
    requires !k'.phase.SyncFail? && TouchedAt(cfg, calls, st, j, k')
    requires i == j ==> !BootstrappedAt(cfg, calls, st, j, k')
    ensures k in base && k' in base && SlotLeq(At(k.phase, base[k]), At(k'.phase, base[k']))
  {
    hide SyncStep;
    hide Touches;
    hide AllEnumerate;
    hide SlotLeq;
    TouchedInWave(cfg, base, calls, st, i, k);
    if i < j {
      TouchedRecorded(cfg, base, calls, st, i, j, k);
      TouchedInWave(cfg, base, calls, st, j, k');
      WavesInOrder(cfg, base, calls, st, i, j);
    } else {
      TouchedInWave(cfg, base, calls, st, j, k');
      assert SlotLeq(At(k.phase, base[k]), At(k'.phase, base[k'])) by { SlotReflexive(At(k.phase, base[k])); }
    }
  }

  lemma SlotReflexive(a: Slot)
    ensures SlotLeq(a, a)
  {
  }

  // After a wave that went well, in an operation that is no dry run, only later slots follow.
  lemma RequestsAdvance(cfg: Config, base: Catalogue, calls: seq<Call>, st: State, i: nat, j: nat,
                        k: ResultKey, k': ResultKey)
    requires AllEnumerate(base, calls) && NoTerminating(st.res) && !cfg.applyOutOfSyncOnly && i < j < |calls|
    requires !k.phase.SyncFail? && TouchedAt(cfg, calls, st, i, k) && !BootstrappedAt(cfg, calls, st, i, k)
    requires !k'.phase.SyncFail? && TouchedAt(cfg, calls, st, j, k') && !cfg.dryRun
    requires StepAt(cfg, calls, st, i).wave.Some? && StepAt(cfg, calls, st, i).wave.value.state.RunSuccessful?
    ensures k in base && k' in base && SlotLess(At(k.phase, base[k]), At(k'.phase, base[k']))
  {
    hide SyncStep;
    hide Touches;
    hide AllEnumerate;
    hide SlotLess;
    TouchedInWave(cfg, base, calls, st, i, k);
    TouchedRecorded(cfg, base, calls, st, i, j, k);
    TouchedInWave(cfg, base, calls, st, j, k');
    WavesAdvance(cfg, base, calls, st, i, j);
  }

  // ----- fail-stop -----

  /** Once a regular task is recorded as failed, no call of the operation applies or prunes a regular task. */
  lemma NoRequestAfterFailure(cfg: Config, base: Catalogue, calls: seq<Call>, st: State, i: nat, j: nat, k: ResultKey)
    requires AllEnumerate(base, calls) && i <= j < |calls| && Ongoing(cfg, calls, st, j) && !k.phase.SyncFail?
    requires SomeRegularUnsuccessful(calls[i].ts, StateAt(cfg, calls, st, i).res)
    ensures !TouchedAt(cfg, calls, st, j, k) && !StepAt(cfg, calls, st, j).phase.Succeeded?
  {
    hide SyncStep;
    hide Touches;
    FailStopOverRuns(cfg, base, calls, st, i, j);
    assert calls[j] in calls;
    var res := StateAt(cfg, calls, st, j).res;
    var t :| t in calls[j].ts && !t.phase.SyncFail? && Op(t, res).Unsuccessful();
    assert t.RKey() in res;
    RegularTouches(cfg, calls[j].ts, StateAt(cfg, calls, st, j), calls[j].env, k);
  }

  // In particular, after a wave that failed.
  lemma NoRequestAfterFailedWave(cfg: Config, base: Catalogue, calls: seq<Call>, st: State, i: nat, j: nat,
                                 k: ResultKey)
    requires AllEnumerate(base, calls) && i < j < |calls| && Ongoing(cfg, calls, st, j) && !k.phase.SyncFail?
    requires StepAt(cfg, calls, st, i).wave.Some? && StepAt(cfg, calls, st, i).wave.value.state.RunFailed?
    ensures !TouchedAt(cfg, calls, st, j, k) && !StepAt(cfg, calls, st, j).phase.Succeeded?
  {
    hide SyncStep;
    hide AllEnumerate;
    hide SomeRegularUnsuccessful;
    FailedWaveState(cfg, base, calls, st, i);
    NoRequestAfterFailure(cfg, base, calls, st, i + 1, j, k);
  }

  lemma BadHealthAt(cfg: Config, calls: seq<Call>, st: State, i: nat, t: Task, k: ResultKey)
    requires i < |calls| && DistinctKeys(calls[i].ts) && !StateAt(cfg, calls, st, i).phase.Succeeded?
    requires calls[i].env.valid && t in calls[i].ts && !t.phase.SyncFail? && !k.phase.SyncFail?
    requires var res := StateAt(cfg, calls, st, i).res; t.RKey() in res && EndedBadly(t, res[t.RKey()])
    ensures !TouchedAt(cfg, calls, st, i, k) && !StepAt(cfg, calls, st, i).phase.Succeeded?
    ensures SomeRegularUnsuccessful(calls[i].ts, StepAt(cfg, calls, st, i).res)
  {
    hide SyncStep;
    hide Touches;
    hide EndedBadly;
    hide DistinctKeys;
    hide StateAt;
    FailedTaskStops(cfg, calls[i].ts, StateAt(cfg, calls, st, i), calls[i].env, t, k);
    assert Op(t, StepAt(cfg, calls, st, i).res).Unsuccessful();
  }

  /**
   In particular, from the first call on that begins with a regular task found to have failed, say because its live
   object is degraded.
   */
  lemma NoRequestAfterBadHealth(cfg: Config, base: Catalogue, calls: seq<Call>, st: State, i: nat, j: nat, t: Task,
                                k: ResultKey)
    requires AllEnumerate(base, calls) && i <= j < |calls| && Ongoing(cfg, calls, st, j) && !k.phase.SyncFail?
    requires calls[i].env.valid && t in calls[i].ts && !t.phase.SyncFail?
    requires var res := StateAt(cfg, calls, st, i).res; t.RKey() in res && EndedBadly(t, res[t.RKey()])
    ensures !TouchedAt(cfg, calls, st, j, k) && !StepAt(cfg, calls, st, j).phase.Succeeded?
  {
    hide *;
    CallFacts(cfg, base, calls, st, i, j);
    BadHealthAt(cfg, calls, st, i, t, k);
    if i < j {
      SameFailure(calls[i].ts, calls[i + 1].ts, StateAt(cfg, calls, st, i + 1).res);
      NoRequestAfterFailure(cfg, base, calls, st, i + 1, j, k);
    }
  }

  lemma CallFacts(cfg: Config, base: Catalogue, calls: seq<Call>, st: State, i: nat, j: nat)
    requires AllEnumerate(base, calls) && i <= j < |calls| && Ongoing(cfg, calls, st, j)
    ensures DistinctKeys(calls[i].ts) && !StateAt(cfg, calls, st, i).phase.Succeeded?
    ensures i < j ==>
              KeysOf(calls[i].ts) == KeysOf(calls[i + 1].ts) &&
              StateAt(cfg, calls, st, i + 1).res == StepAt(cfg, calls, st, i).res
  {
    hide SyncStep;
    hide DistinctKeys;
    hide Scheduled;
    hide KeysOf;
    assert calls[i] in calls && !StateAt(cfg, calls, st, i).phase.Completed();
    if i < j { assert calls[i + 1] in calls; }
  }
}
