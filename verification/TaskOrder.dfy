/** The order of tasks: Less, and what dependencies do to it (pkg/sync/sync_tasks.go), on values. */
module TaskOrder {
  import opened Kube
  import opened KeyStrings
  import opened Tasks

  const KINDS := [
    "Namespace", "NetworkPolicy", "ResourceQuota", "LimitRange", "PodSecurityPolicy", "PodDisruptionBudget",
    "ServiceAccount", "Secret", "SecretList", "ConfigMap", "StorageClass", "PersistentVolume",
    "PersistentVolumeClaim", "CustomResourceDefinition", "ClusterRole", "ClusterRoleList", "ClusterRoleBinding",
    "ClusterRoleBindingList", "Role", "RoleList", "RoleBinding", "RoleBindingList", "Service", "DaemonSet", "Pod",
    "ReplicationController", "ReplicaSet", "Deployment", "HorizontalPodAutoscaler", "StatefulSet", "Job", "CronJob",
    "IngressClass", "Ingress", "APIService"]

  function IndexIn(kind: string, kinds: seq<string>): nat {
    if kinds == [] || kinds[0] == kind then 0 else 1 + IndexIn(kind, kinds[1..])
  }

  // Kinds not in the table rank last, with zero.
  function KindOrder(kind: string): int {
    if kind in KINDS then IndexIn(kind, KINDS) - |KINDS| else 0
  }

  // ----- waves are 64-bit integers, and Less subtracts them -----

  const MIN_INT: int := -0x8000_0000_0000_0000
  const MAX_INT: int := 0x7fff_ffff_ffff_ffff

  predicate IsInt(x: int) { MIN_INT <= x <= MAX_INT }

  function Sub64(x: int, y: int): (d: int)
    ensures IsInt(d)
  {
    (x - y - MIN_INT) % 0x1_0000_0000_0000_0000 + MIN_INT
  }

  function Add64(x: int, y: int): (r: int)
    ensures IsInt(r) && (IsInt(x + y) ==> r == x + y)
  {
    (x + y - MIN_INT) % 0x1_0000_0000_0000_0000 + MIN_INT
  }

  // Two waves compare as they should exactly when their difference is itself a 64-bit integer.
  lemma SubtractionExact(x: int, y: int)
    requires IsInt(x) && IsInt(y)
    ensures ((Sub64(x, y) < 0 <==> x < y) && (Sub64(x, y) == 0 <==> x == y)) <==> IsInt(x - y)
  {
  }

  // `rank` is the kindOrder table; all but the tie-break between kinds is independent of it.
  predicate Less(rank: string -> int, a: Task, b: Task) {
    var phases := a.phase.Rank() - b.phase.Rank();
    var waves := Sub64(a.wave, b.wave);
    var kinds := rank(a.Kind()) - rank(b.Kind());
    if phases != 0 then phases < 0
    else if waves != 0 then waves < 0
    else if kinds != 0 then kinds < 0
    else StringLess(a.Obj().key.name, b.Obj().key.name)
  }

  // Less subtracts waves within a phase only.
  predicate Comparable(a: Task, b: Task) { a.phase == b.phase ==> IsInt(a.wave - b.wave) }

  predicate WavesFit(ts: seq<Task>) {
    forall a, b :: a in ts && b in ts ==> Comparable(a, b)
  }

  lemma SubtractionFits(a: Task, b: Task)
    requires Comparable(a, b)
    ensures a.phase.Rank() == b.phase.Rank() ==> a.phase == b.phase && Sub64(a.wave, b.wave) == a.wave - b.wave
  {
  }

  lemma LessBySlot(rank: string -> int, a: Task, b: Task)
    requires Comparable(a, b) && Comparable(b, a)
    ensures !Less(rank, b, a) ==> BySlot(a, b)
    ensures Less(rank, a, b) ==> BySlot(a, b) && !Less(rank, b, a)
  {
    hide Sub64;
    SubtractionFits(a, b);
    SubtractionFits(b, a);
    StringLessTotal(a.Obj().key.name, b.Obj().key.name);
  }

  /** In a sorted list `a` may stand before `b`: by phase and wave, then by rank of kind, then by name. */
  predicate Precedes(rank: string -> int, a: Task, b: Task) {
    && SlotLeq(a.Slot(), b.Slot())
    && (a.Slot() == b.Slot() ==> rank(a.Kind()) <= rank(b.Kind()))
    && (a.Slot() == b.Slot() && rank(a.Kind()) == rank(b.Kind()) ==> !StringLess(b.Obj().key.name, a.Obj().key.name))
  }

  // "b is not less than a" means no more and no less, where waves fit.
  lemma NotLessPrecedes(rank: string -> int, a: Task, b: Task)
    requires Comparable(a, b) && Comparable(b, a)
    ensures !Less(rank, b, a) <==> Precedes(rank, a, b)
  {
    hide Sub64;
    hide IsInt;
    SubtractionFits(a, b);
    SubtractionFits(b, a);
  }

  // One way or the other a string is at most another, and at most is transitive.
  lemma NameOrder(x: string, y: string, z: string)
    requires !StringLess(y, x) && !StringLess(z, y)
    ensures !StringLess(z, x)
  {
  }

  lemma NotLessTransitive(rank: string -> int, a: Task, b: Task, c: Task)
    requires WavesFit([a, b, c])
    requires !Less(rank, b, a) && !Less(rank, c, b)
    ensures !Less(rank, c, a)
  {
    hide Sub64;
    assert a in [a, b, c] && b in [a, b, c] && c in [a, b, c];
    hide Comparable;
    hide IsInt;
    SubtractionFits(b, a);
    SubtractionFits(c, b);
    SubtractionFits(c, a);
    var x, y, z := a.Obj().key.name, b.Obj().key.name, c.Obj().key.name;
    if !StringLess(y, x) && !StringLess(z, y) { NameOrder(x, y, z); }
  }

  // Beyond that range the order is not one: three waves can each be less than the next, in a circle.
  lemma LessCanCycle(rank: string -> int, o: Obj)
    ensures var t := (w: int) => Task(Sync, w, TargetOnly(o), false);
            Less(rank, t(MIN_INT), t(0)) && Less(rank, t(0), t(MAX_INT)) && Less(rank, t(MAX_INT), t(MIN_INT))
  {
  }

  // ----- dependencies -----

  /** What makes an object a dependency, and which dependency another object refers to. */
  datatype Dependency = Dependency(isDep: Obj -> Option<string>, refersTo: Obj -> Option<string>)
  {
    // Prune tasks have no target and take no part.
    function Dep(o: Objs): Option<string> {
      if o.LiveOnly? then None else isDep(o.target)
    }

    function Ref(o: Objs): Option<string> {
      if o.LiveOnly? || isDep(o.target).Some? then None else refersTo(o.target)
    }
  }

  const NAMESPACES := Dependency(
    (o: Obj) => if IsNamespaceKind(o) then Some(o.key.name) else None,
    (o: Obj) => if o.key.namespace != "" then Some(o.key.namespace) else None)

  const CRDS := Dependency(
    (o: Obj) => if IsCRD(o) && o.crdNames.Some? then Some(o.crdNames.value.0 + "/" + o.crdNames.value.1) else None,
    (o: Obj) => Some(o.key.group + "/" + o.key.kind))

  // No dependency comes after a task that refers to it.
  predicate DepsFirst(d: Dependency, p: seq<Objs>) {
    forall x, y :: 0 <= x < y < |p| && d.Ref(p[x]).Some? ==> d.Dep(p[y]) != d.Ref(p[x])
  }

  function SlotMin(a: Slot, b: Slot): Slot { if SlotLeq(a, b) then a else b }

  // The least slot among `from` and the tasks that refer to a key
  function LeastRef(d: Dependency, ts: seq<Task>, key: string, from: Slot): Slot {
    if ts == [] then from
    else if d.Ref(ts[0].objs) == Some(key) then SlotMin(ts[0].Slot(), LeastRef(d, ts[1..], key, from))
    else LeastRef(d, ts[1..], key, from)
  }

  // A dependency runs no later than what needs it; nothing else moves.
  function LoweredSlot(d: Dependency, ts: seq<Task>, t: Task): Slot {
    match d.Dep(t.objs)
    case None => t.Slot()
    case Some(key) => LeastRef(d, ts, key, t.Slot())
  }

  function Lowered(d: Dependency, ts: seq<Task>, t: Task): Task {
    var slot := LoweredSlot(d, ts, t);
    t.(phase := slot.phase, wave := slot.wave)
  }

  function Lower(d: Dependency, ts: seq<Task>): (r: seq<Task>)
    ensures |r| == |ts|
  {
    seq(|ts|, i requires 0 <= i < |ts| => Lowered(d, ts, ts[i]))
  }

  // The least slot, told by what it is rather than how it is found
  predicate IsLeastRef(d: Dependency, ts: seq<Task>, key: string, from: Slot, s: Slot) {
    && SlotLeq(s, from)
    && (s == from || exists t :: t in ts && d.Ref(t.objs) == Some(key) && t.Slot() == s)
    && forall t :: t in ts && d.Ref(t.objs) == Some(key) ==> SlotLeq(s, t.Slot())
  }

  lemma {:induction false} LeastRefIs(d: Dependency, ts: seq<Task>, key: string, from: Slot)
    ensures IsLeastRef(d, ts, key, from, LeastRef(d, ts, key, from))
  {
    if ts != [] {
      LeastRefIs(d, ts[1..], key, from);
      assert forall t :: t in ts <==> t == ts[0] || t in ts[1..];
      if d.Ref(ts[0].objs) == Some(key) { assert ts[0] in ts; }
    }
  }

  lemma LeastRefUnique(d: Dependency, ts: seq<Task>, key: string, from: Slot, a: Slot, b: Slot)
    requires IsLeastRef(d, ts, key, from, a) && IsLeastRef(d, ts, key, from, b)
    ensures a == b
  {
  }

  // Where a task ends up does not depend on the order the list is in.
  lemma LoweredAnyOrder(d: Dependency, ts: seq<Task>, us: seq<Task>, t: Task)
    requires forall u :: u in ts <==> u in us
    ensures Lowered(d, ts, t) == Lowered(d, us, t)
  {
    if d.Dep(t.objs).Some? {
      var key := d.Dep(t.objs).value;
      LeastRefIs(d, ts, key, t.Slot());
      LeastRefIs(d, us, key, t.Slot());
      LeastRefUnique(d, ts, key, t.Slot(), LeastRef(d, ts, key, t.Slot()), LeastRef(d, us, key, t.Slot()));
    }
  }

  // After lowering, no dependency is scheduled later than what refers to it.
  lemma LowerOrdersDependencies(d: Dependency, ts: seq<Task>, i: nat, j: nat)
    requires i < |ts| && j < |ts|
    requires d.Dep(ts[i].objs).Some? && d.Dep(ts[i].objs) == d.Ref(ts[j].objs)
    ensures SlotLeq(Lower(d, ts)[i].Slot(), Lower(d, ts)[j].Slot())
  {
    LeastRefIs(d, ts, d.Dep(ts[i].objs).value, ts[i].Slot());
    assert ts[j] in ts && d.Dep(ts[j].objs).None?;
  }

  /** Every task of a list at the slot Sort gives it, in the list's own order. */
  function Canon(ts: seq<Task>): seq<Task> {
    Lower(CRDS, Lower(NAMESPACES, ts))
  }
}
