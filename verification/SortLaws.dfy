/** What the sorted list says of the manifests themselves: dependencies first, and the rest in its place. */
module SortLaws {
  import opened Kube
  import opened Lists
  import opened Tasks
  import opened TaskOrder
  import opened KindTable
  import opened TaskArrays
  import opened Placement
  import opened Dependencies

  // ----- dependencies -----

  predicate IsNamespaceObj(o: Obj) { o.key.kind == "Namespace" && o.key.group == "" }

  // A CRD that says which group and kind it defines
  predicate IsDefinition(o: Obj) {
    o.key.kind == "CustomResourceDefinition" && o.key.group == "apiextensions.k8s.io" && o.crdNames.Some?
  }

  // Neither a Namespace nor a CRD that is to be created
  predicate IsPlain(o: Objs) { o.LiveOnly? || (!IsNamespaceObj(o.target) && !IsDefinition(o.target)) }

  // Both are to be created, and the second is the Namespace the first is in; CRDs are left out.
  predicate InNamespaceOf(o: Objs, n: Objs) {
    && !o.LiveOnly? && !n.LiveOnly? && IsNamespaceObj(n.target) && IsPlain(o)
    && o.target.key.namespace != "" && o.target.key.namespace == n.target.key.name
  }

  // Both are to be created, and the second is a CRD that defines the kind of the first.
  predicate OfKindDefinedBy(o: Objs, c: Objs) {
    && !o.LiveOnly? && !c.LiveOnly? && IsDefinition(c.target) && !IsDefinition(o.target)
    && c.target.crdNames == Some((o.target.key.group, o.target.key.kind))
  }

  /** No task stands before the CRD of its kind, nor before the Namespace it is in. */
  predicate NeedsMet(p: seq<Objs>) {
    forall x, y :: 0 <= x < y < |p| ==> !OfKindDefinedBy(p[x], p[y]) && !InNamespaceOf(p[x], p[y])
  }

  // What a filtered list has in order the whole list has too.
  lemma {:induction false} FilteredPair<T>(p: T -> bool, leq: (T, T) -> bool, s: seq<T>, x: nat, y: nat)
    requires Ordered(leq, Filter(p, s)) && x < y < |s| && p(s[x]) && p(s[y])
    ensures leq(s[x], s[y])
  {
    var all, rest := Filter(p, s), Filter(p, s[1..]);
    FilterHead(p, s);
    hide Filter;
    if x == 0 {
      assert s[1..][y - 1] == s[y];
      assert s[y] in rest;
      var j :| 0 <= j < |rest| && rest[j] == s[y];
      assert all[0] == s[x] && all[j + 1] == s[y];
    } else {
      assert Ordered(leq, rest) by { TailOrdered(leq, all, rest); }
      FilteredPair(p, leq, s[1..], x - 1, y - 1);
    }
  }

  lemma TailOrdered<T>(leq: (T, T) -> bool, all: seq<T>, rest: seq<T>)
    requires Ordered(leq, all) && (all == rest || (all != [] && rest == all[1..]))
    ensures Ordered(leq, rest)
  {
  }

  lemma FilterHead<T>(p: T -> bool, s: seq<T>)
    requires s != []
    ensures Filter(p, s) == if p(s[0]) then [s[0]] + Filter(p, s[1..]) else Filter(p, s[1..])
  {
  }

  lemma NamespaceRef(o: Objs, n: Objs)
    requires InNamespaceOf(o, n)
    ensures NAMESPACES.Ref(o).Some? && NAMESPACES.Dep(n) == NAMESPACES.Ref(o)
    ensures CRDS.Dep(o).None? && CRDS.Dep(n).None?
  {
    KindsApart(n);
  }

  lemma DefinitionRef(o: Objs, c: Objs)
    requires OfKindDefinedBy(o, c)
    ensures CRDS.Ref(o).Some? && CRDS.Dep(c) == CRDS.Ref(o)
  {
  }

  // Of two tasks the first does not refer to the second.
  function NoneBefore<T>(d: Dependency, objs: T -> Objs): (T, T) -> bool {
    (t: T, u: T) => d.Ref(objs(t)).Some? ==> d.Dep(objs(u)) != d.Ref(objs(t))
  }

  lemma OrderedObjs(d: Dependency, s: seq<SyncTask>)
    requires DepsFirst(d, ObjsOf(s))
    ensures Ordered(NoneBefore(d, ObjectsOf()), s)
  {
    assert forall i :: 0 <= i < |s| ==> ObjsOf(s)[i] == s[i].objs;
  }

  lemma PairMet(s: seq<SyncTask>, x: nat, y: nat)
    requires Ordered(NoneBefore(CRDS, ObjectsOf()), s)
    requires Ordered(NoneBefore(NAMESPACES, ObjectsOf()), Filter(NotDep(CRDS), s))
    requires x < y < |s|
    ensures !OfKindDefinedBy(s[x].objs, s[y].objs) && !InNamespaceOf(s[x].objs, s[y].objs)
  {
    hide Filter;
    hide InNamespaceOf;
    hide OfKindDefinedBy;
    hide Dependency.Dep;
    hide Dependency.Ref;
    if OfKindDefinedBy(s[x].objs, s[y].objs) { DefinitionRef(s[x].objs, s[y].objs); }
    if InNamespaceOf(s[x].objs, s[y].objs) {
      NamespaceRef(s[x].objs, s[y].objs);
      FilteredPair(NotDep(CRDS), NoneBefore(NAMESPACES, ObjectsOf()), s, x, y);
    }
  }

  lemma DepsFirstMeetNeeds(s: seq<SyncTask>)
    requires DepsFirst(CRDS, ObjsOf(s)) && DepsFirst(NAMESPACES, ObjsOf(Filter(NotDep(CRDS), s)))
    ensures NeedsMet(ObjsOf(s))
  {
    hide *;
    OrderedObjs(CRDS, s);
    OrderedObjs(NAMESPACES, Filter(NotDep(CRDS), s));
    forall x, y | 0 <= x < y < |s|
      ensures !OfKindDefinedBy(s[x].objs, s[y].objs) && !InNamespaceOf(s[x].objs, s[y].objs)
    {
      PairMet(s, x, y);
    }
    MetByPairs(s);
  }

  lemma MetByPairs(s: seq<SyncTask>)
    requires forall x, y :: 0 <= x < y < |s| ==>
               !OfKindDefinedBy(s[x].objs, s[y].objs) && !InNamespaceOf(s[x].objs, s[y].objs)
    ensures NeedsMet(ObjsOf(s))
  {
    hide OfKindDefinedBy;
    hide InNamespaceOf;
  }

  // ----- the rest -----

  lemma PlainTasks(o: Objs)
    requires IsPlain(o)
    ensures NAMESPACES.Dep(o).None? && CRDS.Dep(o).None?
  {
  }

  /** Tasks that are neither stand in the order of phase, wave, kind and name. */
  predicate PlainInPlace(infos: seq<Task>) {
    forall x, y :: 0 <= x < y < |infos| && IsPlain(infos[x].objs) && IsPlain(infos[y].objs) ==>
      InPlace(infos[x], infos[y])
  }

  lemma PlainBefore(s: seq<SyncTask>, t: SyncTask, u: SyncTask)
    requires NoRepeats(s) && t in s && u in s && IsPlain(t.objs) && IsPlain(u.objs)
    ensures Before(AfterBoth(ObjectsOf(), s), t, u) <==> Before(s, t, u)
  {
    hide Adjusted;
    hide IsPlain;
    var mid := AfterNamespaces(ObjectsOf(), s);
    PlainTasks(t.objs);
    PlainTasks(u.objs);
    OthersKeepOrder(NAMESPACES, ObjectsOf(), s, t, u);
    AdjustedNoRepeats(NAMESPACES, ObjectsOf(), s);
    SameElements(s, mid, t);
    SameElements(s, mid, u);
    OthersKeepOrder(CRDS, ObjectsOf(), mid, t, u);
  }

  predicate AllInPlace(infos: seq<Task>) {
    forall i, j :: 0 <= i < j < |infos| ==> InPlace(infos[i], infos[j])
  }

  lemma CanonObjs(raw: seq<Task>, k: nat)
    requires k < |raw|
    ensures Canon(raw)[k].objs == raw[k].objs
  {
    hide LoweredSlot;
  }

  // Lowering moves dependencies only.
  lemma PlainKeepsSlot(raw: seq<Task>, k: nat)
    requires k < |raw| && IsPlain(raw[k].objs)
    ensures Canon(raw)[k] == raw[k]
  {
    hide LeastRef;
    PlainTasks(raw[k].objs);
  }

  // What the tasks of `s` were, `infos`, they still are as far as they are plain.
  predicate PlainAsWas(s: seq<SyncTask>, infos: seq<Task>)
    requires |s| == |infos|
    reads (set t | t in s)`phase, (set t | t in s)`waveOverride
  {
    forall i :: 0 <= i < |s| && IsPlain(s[i].objs) ==> s[i].Info() == infos[i]
  }

  lemma PlainOrder(s: seq<SyncTask>, infos: seq<Task>, after: seq<SyncTask>)
    requires NoRepeats(s) && |s| == |infos| && NoRepeats(after) && after == AfterBoth(ObjectsOf(), s)
    requires PlainAsWas(s, infos) && AllInPlace(infos)
    ensures PlainInPlace(Infos(after))
  {
    hide InPlace;
    hide IsPlain;
    hide AfterBoth;
    forall x, y | 0 <= x < y < |after| && IsPlain(after[x].objs) && IsPlain(after[y].objs)
      ensures InPlace(Infos(after)[x], Infos(after)[y])
    {
      AfterBothSame(s, after[x]);
      AfterBothSame(s, after[y]);
      PlainBefore(s, after[x], after[y]);
      IndexAt(after, x);
      IndexAt(after, y);
    }
  }

  lemma AfterBothSame(s: seq<SyncTask>, t: SyncTask)
    ensures t in s <==> t in AfterBoth(ObjectsOf(), s)
  {
    var mid := AfterNamespaces(ObjectsOf(), s);
    SameElements(s, mid, t);
    SameElements(mid, AfterBoth(ObjectsOf(), s), t);
  }
}
