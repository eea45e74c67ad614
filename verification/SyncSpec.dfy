/**
 One call of Sync (pkg/sync/sync_context.go), as a function of the task list getSyncTasks returned, the
 results recorded so far and the answers of the cluster. SyncMethods.dfy proves that the method
 computes it.
 */
module SyncSpec {
  import opened Kube
  import opened Lists
  import opened Tasks
  import opened RunSpec

  /** Everything one call of Sync learns from outside. */
  datatype Env = Env(
    valid: bool,                               // getSyncTasks's verdict
    bootstrap: Calls,                          // creating the application namespace
    preflight: Calls,                          // the dry run over all tasks
    wave: Calls,                               // the wave run
    syncFail: Calls,                           // the SyncFail hooks
    cleanFinalizer: ResultKey -> bool,         // removing the finalizer of a completed hook
    cleanHook: ResultKey -> CallResult,        // deleting a hook by its delete policy
    waveHookOk: bool,
    unmodified: ResourceKey -> bool)           // modificationResult has the key and says false

  datatype State = State(phase: OpPhase, res: Results)

  /** The batch a call ran, and how it went. */
  datatype WaveRun = WaveRun(slot: Slot, tasks: seq<Task>, state: RunState)

  /**
   The effect of one call. `decided` are the results at the moment the operation phase was decided,
   before hooks were deleted; `steps` are the requests sent, barrier by barrier.
   */
  datatype StepOut = StepOut(
    phase: OpPhase,
    res: Results,
    decided: Results,
    wave: Option<WaveRun>,
    ranSyncFail: bool,
    steps: seq<multiset<Request>>)
  {
    function After(earlier: seq<multiset<Request>>): StepOut { this.(steps := earlier + steps) }

    function Next(): State { State(phase, res) }
  }

  function Quiet(phase: OpPhase, res: Results): StepOut {
    StepOut(phase, res, res, None, false, [])
  }

  // ----- recording results outside runTasks -----

  function Updates(f: Task -> Option<Result>, ts: seq<Task>): Results {
    if ts == [] then map[] else
    var rest := Updates(f, ts[1..]);
    match f(ts[0])
    case None => rest
    case Some(r) => rest[ts[0].RKey() := r]
  }

  // getOperationPhase
  function HookPhase(h: Health): OpPhase {
    match h
    case HealthError => Error
    case Unknown => Failed
    case Degraded => Failed
    case Progressing => Running
    case Suspended => Running
    case _ => Succeeded
  }

  // What a running task's live object says about it, when it says anything
  function Refreshed(res: Results): Task -> Option<Result> {
    (t: Task) =>
      if !Op(t, res).Running? || t.Live().None? then None
      else if t.IsHook() then Some(Result(NoCode, HookPhase(t.Live().value.health)))
      else
        match t.Live().value.health
        case NoHealth => Some(Result(ResultOf(t, res).status, Succeeded))
        case Healthy => Some(Result(ResultOf(t, res).status, Succeeded))
        case Degraded => Some(Result(ResultOf(t, res).status, Failed))
        case _ => None
  }

  function Refresh(ts: seq<Task>, res: Results): Results {
    res + Updates(Refreshed(res), ts)
  }

  predicate NeedsCleaning(t: Task, res: Results) {
    t.IsHook() && Op(t, res).Completed() && t.Live().Some? && t.Live().value.hookFinalizer
  }

  function CleanFailure(env: Env, res: Results): Task -> Option<Result> {
    (t: Task) =>
      if NeedsCleaning(t, res) && !env.cleanFinalizer(t.RKey()) then Some(Result(ResultOf(t, res).status, Error))
      else None
  }

  function CleanFinalizers(ts: seq<Task>, res: Results, env: Env): Results {
    res + Updates(CleanFailure(env, res), ts)
  }

  function IsCleaned(res: Results): Task -> bool { (t: Task) => NeedsCleaning(t, res) }

  function AsksUpdate(): Task -> Request { (t: Task) => UpdateFinalizer(t.RKey()) }

  function AsksDelete(): Task -> Request { (t: Task) => DeleteHook(t.RKey()) }

  // One request for each task
  function Asking(ask: Task -> Request, ts: seq<Task>): multiset<Request> {
    if ts == [] then multiset{} else multiset{ask(ts[0])} + Asking(ask, ts[1..])
  }

  // Hooks whose delete policy applies at the end of the phase
  function HasExpired(policy: DeletePolicy, res: Results): Task -> bool {
    (t: Task) => !Op(t, res).Running? && t.LiveWithPolicy(policy)
  }

  function DeleteFailure(env: Env): Task -> Option<Result> {
    (t: Task) => if env.cleanHook(t.RKey()).Err? then Some(Result(NoCode, Error)) else None
  }

  function DeleteExpired(hooks: seq<Task>, res: Results, env: Env): Results {
    res + Updates(DeleteFailure(env), hooks)
  }

  // ----- before the first result -----

  predicate CreatesNamespace(cfg: Config, t: Task) {
    t.objs.TargetOnly? && IsNamespaceKind(t.objs.target) && t.objs.target.key.name == cfg.namespace
  }

  function IsNamespaceTask(cfg: Config): Task -> bool { (t: Task) => CreatesNamespace(cfg, t) }

  // getNamespaceCreationTask, as a list of at most one task
  function NamespaceTask(cfg: Config, ts: seq<Task>): (r: seq<Task>)
    ensures |r| <= 1
    ensures forall t :: t in r ==> t in ts && CreatesNamespace(cfg, t)
  {
    var all := Filter(IsNamespaceTask(cfg), ts);
    if all == [] then [] else assert all[0] in all; [all[0]]
  }

  function IsOutOfSync(env: Env): Task -> bool {
    (t: Task) => t.IsHook() || !(t.objs.TargetAndLive? && env.unmodified(t.LookupKey()))
  }

  function OutOfSync(cfg: Config, env: Env, ts: seq<Task>): (r: seq<Task>)
    ensures forall t :: t in r ==> t in ts
  {
    if cfg.applyOutOfSyncOnly then Filter(IsOutOfSync(env), ts) else ts
  }

  function IsNotIn(ns: seq<Task>): Task -> bool {
    (t: Task) => forall n :: n in ns ==> t.RKey() != n.RKey()
  }

  // The tasks of the dry run
  function DryTasks(cfg: Config, ts: seq<Task>, env: Env): seq<Task> {
    OutOfSync(cfg, env, Filter(IsNotIn(NamespaceTask(cfg, ts)), ts))
  }

  function Bootstrap(cfg: Config, ts: seq<Task>, res: Results, env: Env): RunOut {
    if NamespaceTask(cfg, ts) == [] then RunOut(RunSuccessful, res, [])
    else RunTasks(cfg, NamespaceTask(cfg, ts), false, env.bootstrap, res)
  }

  function Preflight(cfg: Config, ts: seq<Task>, res: Results, env: Env): RunOut {
    var boot := Bootstrap(cfg, ts, res, env);
    if boot.state.RunFailed? then boot
    else RunTasks(cfg, DryTasks(cfg, ts, env), true, env.preflight, boot.res).After(boot)
  }

  // ----- the decision -----

  function IsSyncFail(): Task -> bool { (t: Task) => t.phase.SyncFail? }
  function IsRegular(): Task -> bool { (t: Task) => !t.phase.SyncFail? }
  function IsPending(res: Results): Task -> bool { (t: Task) => Pending(t, res) }
  function IsAt(slot: Slot): Task -> bool { (t: Task) => t.Slot() == slot }
  function IsBeyond(slot: Slot): Task -> bool { (t: Task) => t.Slot() != slot || t.IsHook() }

  // Something that is running has to finish first.
  predicate MustWait(ts: seq<Task>, res: Results) {
    exists t :: t in ts && Op(t, res).Running? && (MultiStep(ts) || t.IsHook())
  }

  predicate AwaitsDeletion(ts: seq<Task>, res: Results) {
    exists t :: t in ts && ResultOf(t, res).status.Pruned? && t.Live().Some? && t.Live().value.deleting
  }

  function SetOperationFailed(cfg: Config, syncFail: seq<Task>, phase: OpPhase, res: Results, env: Env): StepOut {
    if forall t :: t in syncFail ==> Op(t, res).Completed() then Quiet(Failed, res)
    else
      var out := RunTasks(cfg, syncFail, false, env.syncFail, res);
      StepOut(if out.state.RunFailed? then Failed else phase, out.res, res, None, true, out.steps)
  }

  // The pending regular tasks the call chooses its batch from
  function Candidates(cfg: Config, ts: seq<Task>, res: Results, env: Env): seq<Task> {
    OutOfSync(cfg, env, Filter(IsPending(res), Filter(IsRegular(), ts)))
  }

  function Fail(cfg: Config, ts: seq<Task>, expired: seq<Task>, phase: OpPhase, res: Results, env: Env): StepOut {
    SetOperationFailed(cfg, Filter(IsSyncFail(), ts), phase, DeleteExpired(expired, res, env), env)
      .After([Asking(AsksDelete(), expired)]).(decided := res)
  }

  function Succeed(ts: seq<Task>, res0: Results, res: Results, env: Env): StepOut {
    var expired := Filter(HasExpired(HookSucceeded, res0), ts);
    StepOut(Succeeded, DeleteExpired(expired, res, env), res, None, false, [Asking(AsksDelete(), expired)])
  }

  // The candidates of the first slot
  function Batch(todo: seq<Task>): seq<Task>
    requires todo != []
  {
    Filter(IsAt(todo[0].Slot()), todo)
  }

  // What a call does once its wave has been run
  function AfterWave(cfg: Config, ts: seq<Task>, todo: seq<Task>, res: Results, out: RunOut, env: Env): StepOut
    requires todo != []
  {
    var expired := Filter(HasExpired(HookFailed, res), ts);
    if cfg.syncWaveHook && !out.state.RunFailed? && !env.waveHookOk then
      StepOut(Failed, DeleteExpired(expired, out.res, env), out.res, None, false, [Asking(AsksDelete(), expired)])
    else
      match out.state
      case RunFailed => Fail(cfg, ts, expired, Running, out.res, env)
      case RunSuccessful =>
        if Filter(IsBeyond(todo[0].Slot()), todo) == [] then Succeed(ts, res, out.res, env)
        else Quiet(Running, out.res)
      case RunPending => Quiet(Running, out.res)
  }

  function RunWave(cfg: Config, ts: seq<Task>, todo: seq<Task>, res: Results, env: Env): StepOut
    requires todo != []
  {
    var out := RunTasks(cfg, Batch(todo), false, env.wave, res);
    AfterWave(cfg, ts, todo, res, out, env)
      .(wave := Some(WaveRun(todo[0].Slot(), Batch(todo), out.state)))
      .After(out.steps)
  }

  function Decide(cfg: Config, ts: seq<Task>, phase: OpPhase, res: Results, env: Env): StepOut {
    var expired := Filter(HasExpired(HookFailed, res), ts);
    var todo := Candidates(cfg, ts, res, env);
    if exists t :: t in ts && !t.phase.SyncFail? && Op(t, res).Unsuccessful() then
      Fail(cfg, ts, expired, phase, res, env)
    else if todo == [] then Succeed(ts, res, res, env)
    else RunWave(cfg, ts, todo, res, env)
  }

  function Advance(cfg: Config, ts: seq<Task>, phase: OpPhase, res: Results, env: Env): StepOut {
    var now := Refresh(ts, res);
    if MustWait(ts, now) || AwaitsDeletion(ts, now) then Quiet(Running, now)
    else
      Decide(cfg, ts, phase, CleanFinalizers(ts, now, env), env)
        .After([Asking(AsksUpdate(), Filter(IsCleaned(now), ts))])
  }

  // The results a call starts to advance from
  function Started(cfg: Config, ts: seq<Task>, st: State, env: Env): Results {
    if st.res != map[] then st.res else Preflight(cfg, ts, st.res, env).res
  }

  // The results its decision is taken on
  function DecisionResults(cfg: Config, ts: seq<Task>, st: State, env: Env): Results {
    CleanFinalizers(ts, Refresh(ts, Started(cfg, ts, st, env)), env)
  }

  function SyncStep(cfg: Config, ts: seq<Task>, st: State, env: Env): StepOut {
    if !env.valid then Quiet(Failed, st.res)
    else if st.res != map[] then Advance(cfg, ts, st.phase, st.res, env)
    else
      var pre := Preflight(cfg, ts, st.res, env);
      if pre.state.RunFailed? then Quiet(Failed, pre.res).After(pre.steps)
      else Advance(cfg, ts, st.phase, pre.res, env).After(pre.steps)
  }
}
