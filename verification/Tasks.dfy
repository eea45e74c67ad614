/** A sync task and the states it goes through (pkg/sync/sync_task.go, pkg/sync/common/types.go). */
module Tasks {
  import opened Kube
  import opened Lists

  datatype Phase = PreSync | Sync | PostSync | SyncFail
  {
    function Rank(): int {
      match this
      case PreSync => -1
      case Sync => 0
      case PostSync => 1
      case SyncFail => 2
    }
  }

  // NoPhase is the empty string: nothing has been recorded yet.
  datatype OpPhase = NoPhase | Running | Terminating | Failed | Error | Succeeded
  {
    predicate Completed() { Failed? || Error? || Succeeded? }
    predicate Unsuccessful() { Failed? || Error? }
  }

  datatype ResultCode = NoCode | Synced | SyncFailed | Pruned | PruneSkipped

  datatype Result = Result(status: ResultCode, op: OpPhase)

  datatype ResultKey = ResultKey(key: ResourceKey, phase: Phase)

  type Results = map<ResultKey, Result>

  // At least one of the two objects exists.
  datatype Objs = TargetOnly(target: Obj) | LiveOnly(live: Obj) | TargetAndLive(target: Obj, live: Obj)

  /** The place of a task in the schedule; batches run in this order. */
  datatype Slot = At(phase: Phase, wave: int)

  predicate SlotLeq(a: Slot, b: Slot) {
    a.phase.Rank() < b.phase.Rank() || (a.phase == b.phase && a.wave <= b.wave)
  }

  predicate SlotLess(a: Slot, b: Slot) {
    SlotLeq(a, b) && a != b
  }

  /** What a task is; what has happened to it is looked up in the recorded results. */
  datatype Task = Task(phase: Phase, wave: int, objs: Objs, skipDryRun: bool)
  {
    function Slot(): Slot { At(phase, wave) }

    function Obj(): Obj { if objs.LiveOnly? then objs.live else objs.target }

    function Live(): Option<Obj> { if objs.TargetOnly? then None else Some(objs.live) }

    predicate IsPrune() { objs.LiveOnly? }

    predicate IsHook() { Obj().isHook }

    function Kind(): string { Obj().key.kind }

    function RKey(): ResultKey { ResultKey(Obj().key, phase) }

    // the namespace of the live object wins, as a cluster-scoped target may carry one
    function LookupKey(): ResourceKey {
      if Live().Some? then Obj().key.(namespace := Live().value.key.namespace) else Obj().key
    }

    // a policy means nothing on an object that is not a hook
    predicate HasPolicy(p: DeletePolicy) { IsHook() && p in Obj().policies }

    predicate LiveWithPolicy(p: DeletePolicy) { Live().Some? && HasPolicy(p) }
  }

  function KeyOf(): Task -> ResultKey { (t: Task) => t.RKey() }

  predicate DistinctKeys(ts: seq<Task>) { Distinct(KeyOf(), ts) }

  function KeysOf(ts: seq<Task>): (ks: set<ResultKey>)
    ensures forall t :: t in ts ==> t.RKey() in ks
    ensures forall k :: k in ks ==> exists t :: t in ts && t.RKey() == k
  {
    set t | t in ts :: t.RKey()
  }

  // What getSyncTasks copies into a task from the recorded results.
  function ResultOf(t: Task, res: Results): Result {
    if t.RKey() in res then res[t.RKey()] else Result(NoCode, NoPhase)
  }

  function Op(t: Task, res: Results): OpPhase { ResultOf(t, res).op }

  predicate Pending(t: Task, res: Results) { Op(t, res).NoPhase? }

  predicate DeleteBeforeCreation(t: Task, res: Results) {
    Pending(t, res) && t.LiveWithPolicy(BeforeHookCreation)
  }

  predicate BySlot(a: Task, b: Task) { SlotLeq(a.Slot(), b.Slot()) }

  // Tasks in the order getSyncTasks returns them, up to ties.
  predicate Scheduled(ts: seq<Task>) { Ordered(BySlot, ts) }

  // syncTasks.multiStep, on the list it is called on
  predicate MultiStep(ts: seq<Task>) {
    ts != [] && ts[0].Slot() != ts[|ts| - 1].Slot()
  }

  // On a scheduled list, comparing the two ends decides whether there are two different slots at all.
  lemma MultiStepExact(ts: seq<Task>)
    requires Scheduled(ts)
    ensures MultiStep(ts) <==> exists i, j :: 0 <= i < j < |ts| && ts[i].Slot() != ts[j].Slot()
  {
  }
}
