/**
 What running a list of tasks does: remove finalizers, prune, delete, then create by kind, each stage
 starting only when the one before it ended well (runTasks and processCreateTasks of
 pkg/sync/sync_context.go). Here a stage is a function of its task list; TaskRunner.dfy proves that the
 goroutines that carry it out compute this function under every interleaving, and StagedRun.dfy that
 the whole does.
 */
module RunSpec {
  import opened Kube
  import opened Lists
  import opened Tasks

  datatype Config = Config(
    namespace: string,
    dryRun: bool,
    prune: bool,
    pruneConfirmed: bool,
    pruneLast: bool,
    applyOutOfSyncOnly: bool,
    syncWaveHook: bool)

  datatype RunState = RunSuccessful | RunPending | RunFailed

  // The more serious of two states: successful < pending < failed.
  function Join(a: RunState, b: RunState): RunState {
    if a.RunFailed? || b.RunFailed? then RunFailed
    else if a.RunPending? || b.RunPending? then RunPending
    else RunSuccessful
  }

  datatype CallResult = Ok | NotFound | Err

  /** The answers of the cluster to the calls of one runTasks. */
  datatype Calls = Calls(
    removeFinalizer: ResultKey -> bool,
    deletePruned: ResultKey -> bool,
    deleteHook: ResultKey -> CallResult,
    apply: ResultKey -> bool)

  datatype Request =
    | UpdateFinalizer(k: ResultKey)
    | DeletePruned(k: ResultKey)
    | DeleteHook(k: ResultKey)
    | Apply(k: ResultKey, clientDryRun: bool)

  predicate Mutating(r: Request) {
    !(r.Apply? && r.clientDryRun)
  }

  datatype Stage = Finalizers | Prune | DeleteHooks | Create

  // The objects a stage's goroutine dereferences are there.
  predicate Fits(stage: Stage, t: Task) {
    match stage
    case Finalizers => t.Live().Some?
    case Prune => t.IsPrune()
    case DeleteHooks => t.Live().Some?
    case Create => !t.IsPrune()
  }

  /** What one goroutine does: the request it sends, the result it records, the state it reports. */
  datatype Work = Work(request: Option<Request>, write: Option<Result>, state: RunState)

  const IDLE := Work(None, None, RunSuccessful)

  function OperationPhase(code: ResultCode): OpPhase {
    match code
    case Synced => Running
    case SyncFailed => Failed
    case Pruned => Succeeded
    case PruneSkipped => Succeeded
    case NoCode => NoPhase
  }

  function FinalizerWork(dry: bool, calls: Calls, t: Task, r: Result): Work
    requires t.Live().Some?
  {
    if dry || !t.Live().value.hookFinalizer then IDLE
    else if calls.removeFinalizer(t.RKey()) then Work(Some(UpdateFinalizer(t.RKey())), None, RunSuccessful)
    else Work(Some(UpdateFinalizer(t.RKey())), Some(Result(r.status, Error)), RunFailed)
  }

  function PruneWork(cfg: Config, dry: bool, calls: Calls, t: Task): Work
    requires t.IsPrune()
  {
    var sends := cfg.prune && DisablePrune !in t.objs.live.options && !dry && !t.objs.live.deleting;
    var code :=
      if !cfg.prune || DisablePrune in t.objs.live.options then PruneSkipped
      else if sends && !calls.deletePruned(t.RKey()) then SyncFailed
      else Pruned;
    Work(
      if sends then Some(DeletePruned(t.RKey())) else None,
      if !dry || cfg.dryRun || code.SyncFailed? then Some(Result(code, OperationPhase(code))) else None,
      if code.SyncFailed? then RunFailed else RunSuccessful)
  }

  function DeleteWork(dry: bool, calls: Calls, t: Task, r: Result): Work {
    if dry then IDLE
    else
      match calls.deleteHook(t.RKey())
      case Ok => Work(Some(DeleteHook(t.RKey())), None, RunPending)
      case NotFound => Work(Some(DeleteHook(t.RKey())), None, RunSuccessful)
      case Err => Work(Some(DeleteHook(t.RKey())), Some(Result(r.status, Error)), RunFailed)
  }

  function CreateWork(cfg: Config, dry: bool, calls: Calls, t: Task): Work {
    var code := if calls.apply(t.RKey()) then Synced else SyncFailed;
    var op := if cfg.dryRun && code.Synced? then Succeeded else OperationPhase(code);
    Work(
      Some(Apply(t.RKey(), dry)),
      if !dry || cfg.dryRun || code.SyncFailed? then Some(Result(code, op)) else None,
      if code.SyncFailed? then RunFailed else RunSuccessful)
  }

  function WorkOf(stage: Stage, cfg: Config, dry: bool, calls: Calls, t: Task, r: Result): Work
    requires Fits(stage, t)
  {
    match stage
    case Finalizers => FinalizerWork(dry, calls, t, r)
    case Prune => PruneWork(cfg, dry, calls, t)
    case DeleteHooks => DeleteWork(dry, calls, t, r)
    case Create => CreateWork(cfg, dry, calls, t)
  }

  /** The parameters every goroutine of one stage shares. */
  datatype StageRun = StageRun(stage: Stage, cfg: Config, dry: bool, calls: Calls)
  {
    predicate FitsAll(ts: seq<Task>) { forall t :: t in ts ==> Fits(stage, t) }

    function Of(t: Task, res: Results): Work
      requires Fits(stage, t)
    {
      WorkOf(stage, cfg, dry, calls, t, ResultOf(t, res))
    }

    function Writes(ts: seq<Task>, res: Results): Results
      requires FitsAll(ts)
    {
      if ts == [] then map[] else
      var w := Of(ts[0], res);
      var rest := Writes(ts[1..], res);
      if w.write.Some? then rest[ts[0].RKey() := w.write.value] else rest
    }

    function Requests(ts: seq<Task>, res: Results): multiset<Request>
      requires FitsAll(ts)
    {
      if ts == [] then multiset{} else
      var w := Of(ts[0], res);
      var rest := Requests(ts[1..], res);
      if w.request.Some? then rest + multiset{w.request.value} else rest
    }

    function State(from: RunState, ts: seq<Task>, res: Results): RunState
      requires FitsAll(ts)
    {
      if ts == [] then from else Join(Of(ts[0], res).state, State(from, ts[1..], res))
    }

    function Run(from: RunState, ts: seq<Task>, res: Results): RunOut
      requires FitsAll(ts)
    {
      RunOut(State(from, ts, res), res + Writes(ts, res), [Requests(ts, res)])
    }
  }

  /** The outcome of a run: its state, the results afterwards, and the requests of each barrier-separated step. */
  datatype RunOut = RunOut(state: RunState, res: Results, steps: seq<multiset<Request>>)
  {
    function After(first: RunOut): RunOut { RunOut(state, res, first.steps + steps) }
  }

  // Hooks left over from an earlier sync
  function IsExistingHook(res: Results): Task -> bool {
    (t: Task) => t.IsHook() && Pending(t, res) && t.Live().Some?
  }

  function IsPrune(): Task -> bool { (t: Task) => t.IsPrune() }

  function IsCreate(): Task -> bool { (t: Task) => !t.IsPrune() }

  function IsDeletedFirst(res: Results): Task -> bool { (t: Task) => DeleteBeforeCreation(t, res) }

  function ExistingHooks(ts: seq<Task>, res: Results): (r: seq<Task>)
    ensures forall t :: t in r ==> t in ts && t.Live().Some?
  {
    Filter(IsExistingHook(res), ts)
  }

  function Prunes(ts: seq<Task>): (r: seq<Task>)
    ensures forall t :: t in r ==> t in ts && t.IsPrune()
  {
    Filter(IsPrune(), ts)
  }

  function Creates(ts: seq<Task>): (r: seq<Task>)
    ensures forall t :: t in r ==> t in ts && !t.IsPrune()
  {
    Filter(IsCreate(), ts)
  }

  function HooksToDelete(ts: seq<Task>, res: Results): (r: seq<Task>)
    ensures forall t :: t in r ==> t in ts && t.Live().Some?
  {
    Filter(IsDeletedFirst(res), ts)
  }

  predicate AwaitsConfirmation(cfg: Config, prunes: seq<Task>) {
    !cfg.pruneConfirmed && exists t :: t in prunes && t.IsPrune() && PruneRequireConfirm in t.objs.live.options
  }

  // The length of the leading stretch of tasks of one kind
  function LeadingKind(ts: seq<Task>): (n: nat)
    ensures n <= |ts| && (ts != [] ==> n > 0)
    ensures forall i :: 0 <= i < n ==> ts[i].Kind() == ts[0].Kind()
    ensures n < |ts| ==> ts[n].Kind() != ts[0].Kind()
  {
    if |ts| <= 1 then |ts|
    else if ts[1].Kind() != ts[0].Kind() then 1
    else 1 + LeadingKind(ts[1..])
  }

  function KindGroups(ts: seq<Task>): seq<seq<Task>> {
    if ts == [] then [] else [ts[..LeadingKind(ts)]] + KindGroups(ts[LeadingKind(ts)..])
  }

  // In a dry run a task may ask to be left out.
  function NotSkipped(dry: bool): Task -> bool {
    (t: Task) => !(dry && t.skipDryRun)
  }

  function Applied(group: seq<Task>, dry: bool): (r: seq<Task>)
    ensures forall t :: t in r ==> t in group
  {
    Filter(NotSkipped(dry), group)
  }

  function CreateGroups(run: StageRun, from: RunState, groups: seq<seq<Task>>, res: Results): RunOut
    requires run.stage.Create?
    requires forall g :: g in groups ==> run.FitsAll(g)
    decreases |groups|
  {
    if groups == [] then RunOut(from, res, []) else
    assert run.FitsAll(groups[0]);
    var first := run.Run(from, Applied(groups[0], run.dry), res);
    CreateGroups(run, first.state, groups[1..], first.res).After(first)
  }

  lemma {:induction false} KindGroupsConcat(ts: seq<Task>)
    ensures Concat(KindGroups(ts)) == ts
  {
    hide LeadingKind;
    if ts != [] {
      var n := LeadingKind(ts);
      KindGroupsConcat(ts[n..]);
      assert KindGroups(ts)[1..] == KindGroups(ts[n..]);
      assert ts == ts[..n] + ts[n..];
    }
  }

  predicate OfOneKind(ts: seq<Task>, g: seq<Task>) {
    g != [] && forall t :: t in g ==> t in ts && t.Kind() == g[0].Kind()
  }

  lemma {:induction false} KindGroupsOfOneKind(ts: seq<Task>)
    ensures forall g :: g in KindGroups(ts) ==> OfOneKind(ts, g)
  {
    hide LeadingKind;
    if ts != [] {
      var n := LeadingKind(ts);
      KindGroupsOfOneKind(ts[n..]);
      forall g | g in KindGroups(ts) ensures OfOneKind(ts, g) {
        if g != ts[..n] { assert g in KindGroups(ts[n..]) && OfOneKind(ts[n..], g); }
      }
    }
  }

  predicate DifferInKind(g: seq<Task>, h: seq<Task>) {
    g != [] && h != [] && g[0].Kind() != h[0].Kind()
  }

  // Groups next to each other differ in kind.
  lemma {:induction false} KindGroupsApart(ts: seq<Task>, i: nat)
    requires i + 1 < |KindGroups(ts)|
    ensures DifferInKind(KindGroups(ts)[i], KindGroups(ts)[i + 1])
  {
    hide LeadingKind;
    var n := LeadingKind(ts);
    var rest := ts[n..];
    assert KindGroups(ts)[1..] == KindGroups(rest) && KindGroups(ts)[0] == ts[..n];
    if i == 0 {
      assert KindGroups(rest)[0] == rest[..LeadingKind(rest)];
    } else {
      KindGroupsApart(rest, i - 1);
    }
  }

  lemma KindGroupsPartition(ts: seq<Task>)
    ensures Concat(KindGroups(ts)) == ts
    ensures forall g :: g in KindGroups(ts) ==> g != [] && forall t :: t in g ==> t in ts && t.Kind() == g[0].Kind()
    ensures var gs := KindGroups(ts);
            forall i, j :: 0 <= i && j == i + 1 < |gs| ==> DifferInKind(gs[i], gs[j])
  {
    hide KindGroups;
    KindGroupsConcat(ts);
    KindGroupsOfOneKind(ts);
    forall i, j | 0 <= i && j == i + 1 < |KindGroups(ts)|
      ensures DifferInKind(KindGroups(ts)[i], KindGroups(ts)[j])
    {
      KindGroupsApart(ts, i);
    }
  }

  function Concat(groups: seq<seq<Task>>): seq<Task> {
    if groups == [] then [] else groups[0] + Concat(groups[1..])
  }

  function RunTasks(cfg: Config, ts: seq<Task>, dryRun: bool, calls: Calls, res: Results): RunOut {
    var dry := dryRun || cfg.dryRun;
    var finalized := StageRun(Finalizers, cfg, dry, calls).Run(RunSuccessful, ExistingHooks(ts, res), res);
    if !finalized.state.RunSuccessful? then finalized
    else PruneAndCreate(cfg, ts, dry, calls, finalized.res).After(finalized)
  }

  function PruneAndCreate(cfg: Config, ts: seq<Task>, dry: bool, calls: Calls, res: Results): RunOut {
    if AwaitsConfirmation(cfg, Prunes(ts)) then RunOut(RunPending, res, [])
    else
      var pruned := StageRun(Prune, cfg, dry, calls).Run(RunSuccessful, Prunes(ts), res);
      if !pruned.state.RunSuccessful? then pruned
      else DeleteAndCreate(cfg, Creates(ts), dry, calls, pruned.res).After(pruned)
  }

  function DeleteAndCreate(cfg: Config, creates: seq<Task>, dry: bool, calls: Calls, res: Results): RunOut
    requires forall t :: t in creates ==> !t.IsPrune()
  {
    var deleted := StageRun(DeleteHooks, cfg, dry, calls).Run(RunSuccessful, HooksToDelete(creates, res), res);
    if !deleted.state.RunSuccessful? then deleted
    else
      KindGroupsPartition(creates);
      CreateGroups(StageRun(Create, cfg, dry, calls), RunSuccessful, KindGroups(creates), deleted.res).After(deleted)
  }
}
