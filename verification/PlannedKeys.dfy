/**
 The result keys of the list a call of Sync works on. A result key holds the phase, and adjustDeps of
 pkg/sync/sync_tasks.go may change the phase of a dependency: tasks found under different keys can end up
 under the same one.
 */
module PlannedKeys {
  import opened Kube
  import opened Tasks
  import opened TaskOrder
  import opened PruneWaves
  import opened RunSpec
  import opened Placement

  // The tasks as they will stand in the list, whatever order they came in
  function Planned(cfg: Config, raw: seq<Task>): seq<Task> {
    Canon(Arranged(cfg, raw))
  }

  predicate InPhaseBy(t: Task, p: Phase) { t.phase.Rank() <= p.Rank() }

  predicate Needs(d: Dependency, u: Task, t: Task) {
    d.Dep(t.objs).Some? && d.Ref(u.objs) == d.Dep(t.objs)
  }

  // A task in phase p or an earlier one is in a Namespace being created.
  predicate NamespaceNeeded(raw: seq<Task>, t: Task, p: Phase) {
    exists u :: u in raw && Needs(NAMESPACES, u, t) && InPhaseBy(u, p)
  }

  // A task of the kind a CRD defines stands in phase p or an earlier one, on its own account or as a Namespace.
  predicate CrdNeeded(raw: seq<Task>, t: Task, p: Phase) {
    exists u :: u in raw && Needs(CRDS, u, t) && (InPhaseBy(u, p) || NamespaceNeeded(raw, u, p))
  }

  predicate Needed(raw: seq<Task>, t: Task, p: Phase) {
    NamespaceNeeded(raw, t, p) || CrdNeeded(raw, t, p)
  }

  // By phase p the task will run: it is found for that phase or an earlier one, or needed there.
  predicate EndsBy(raw: seq<Task>, t: Task, p: Phase) {
    InPhaseBy(t, p) || Needed(raw, t, p)
  }

  /** Any two tasks of one object are told apart by some phase. */
  predicate KeysStayApart(raw: seq<Task>) {
    forall i, j :: 0 <= i < j < |raw| && raw[i].Obj().key == raw[j].Obj().key ==>
      exists p :: EndsBy(raw, raw[i], p) != EndsBy(raw, raw[j], p)
  }

  lemma LoweredBy(d: Dependency, ts: seq<Task>, i: nat, p: Phase)
    requires i < |ts|
    ensures InPhaseBy(Lower(d, ts)[i], p) <==>
            InPhaseBy(ts[i], p) || exists u :: u in ts && Needs(d, u, ts[i]) && InPhaseBy(u, p)
  {
    var t := ts[i];
    if d.Dep(t.objs).Some? {
      var key := d.Dep(t.objs).value;
      var slot := LeastRef(d, ts, key, t.Slot());
      LeastRefIs(d, ts, key, t.Slot());
      if InPhaseBy(Lower(d, ts)[i], p) && slot != t.Slot() {
        var u :| u in ts && d.Ref(u.objs) == Some(key) && u.Slot() == slot;
        assert Needs(d, u, t) && InPhaseBy(u, p);
      }
      if u :| u in ts && Needs(d, u, t) && InPhaseBy(u, p) {
        assert SlotLeq(slot, u.Slot());
      }
    }
  }

  // In which phase a planned task runs
  lemma PlannedBy(cfg: Config, raw: seq<Task>, i: nat, p: Phase)
    requires i < |raw|
    ensures Planned(cfg, raw)[i].objs == raw[i].objs
    ensures InPhaseBy(Planned(cfg, raw)[i], p) <==> EndsBy(raw, raw[i], p)
  {
    hide LoweredSlot;
    var arranged := Arranged(cfg, raw);
    var first := Lower(NAMESPACES, arranged);
    LoweredBy(CRDS, first, i, p);
    forall k | 0 <= k < |raw|
      ensures arranged[k].objs == first[k].objs == raw[k].objs && arranged[k].phase == raw[k].phase
      ensures InPhaseBy(first[k], p) <==> InPhaseBy(raw[k], p) || NamespaceNeeded(raw, raw[k], p)
    {
      LoweredBy(NAMESPACES, arranged, k, p);
      SameNeed(NAMESPACES, arranged, raw, arranged[k], raw[k], p);
    }
    SameCrdNeed(raw, first, i, p);
  }

  lemma SameNeed(d: Dependency, a: seq<Task>, b: seq<Task>, t: Task, u: Task, p: Phase)
    requires |a| == |b| && forall k :: 0 <= k < |a| ==> a[k].objs == b[k].objs && a[k].phase == b[k].phase
    requires t.objs == u.objs
    ensures (exists v :: v in a && Needs(d, v, t) && InPhaseBy(v, p)) <==>
            (exists v :: v in b && Needs(d, v, u) && InPhaseBy(v, p))
  {
    if v :| v in a && Needs(d, v, t) && InPhaseBy(v, p) {
      var k :| 0 <= k < |a| && a[k] == v;
      assert b[k] in b && Needs(d, b[k], u) && InPhaseBy(b[k], p);
    }
    if v :| v in b && Needs(d, v, u) && InPhaseBy(v, p) {
      var k :| 0 <= k < |b| && b[k] == v;
      assert a[k] in a && Needs(d, a[k], t) && InPhaseBy(a[k], p);
    }
  }

  lemma SameCrdNeed(raw: seq<Task>, first: seq<Task>, i: nat, p: Phase)
    requires i < |raw| == |first| && forall k :: 0 <= k < |raw| ==> first[k].objs == raw[k].objs
    requires forall k :: 0 <= k < |raw| ==>
               (InPhaseBy(first[k], p) <==> InPhaseBy(raw[k], p) || NamespaceNeeded(raw, raw[k], p))
    ensures (exists u :: u in first && Needs(CRDS, u, first[i]) && InPhaseBy(u, p)) <==> CrdNeeded(raw, raw[i], p)
  {
    if u :| u in first && Needs(CRDS, u, first[i]) && InPhaseBy(u, p) {
      var k :| 0 <= k < |first| && first[k] == u;
      assert raw[k] in raw && Needs(CRDS, raw[k], raw[i]);
    }
    if u :| u in raw && Needs(CRDS, u, raw[i]) && (InPhaseBy(u, p) || NamespaceNeeded(raw, u, p)) {
      var k :| 0 <= k < |raw| && raw[k] == u;
      assert first[k] in first && Needs(CRDS, first[k], first[i]) && InPhaseBy(first[k], p);
    }
  }

  lemma SamePhase(t: Task, u: Task)
    ensures t.phase == u.phase <==> forall p :: InPhaseBy(t, p) <==> InPhaseBy(u, p)
  {
    if forall p :: InPhaseBy(t, p) <==> InPhaseBy(u, p) {
      assert InPhaseBy(t, t.phase) && InPhaseBy(u, u.phase);
    }
  }

  /** The planned list has distinct result keys exactly when some phase tells any two tasks of one object apart. */
  lemma PlannedKeysExact(cfg: Config, raw: seq<Task>)
    ensures DistinctKeys(Planned(cfg, raw)) <==> KeysStayApart(raw)
  {
    hide Planned;
    hide EndsBy;
    var planned := Planned(cfg, raw);
    assert |planned| == |raw| by { PlannedLength(cfg, raw); }
    forall i, j | 0 <= i < j < |raw|
      ensures planned[i].RKey() != planned[j].RKey() <==>
              (raw[i].Obj().key == raw[j].Obj().key ==> exists p :: EndsBy(raw, raw[i], p) != EndsBy(raw, raw[j], p))
    {
      PlannedApart(cfg, raw, i, j);
    }
  }

  lemma PlannedLength(cfg: Config, raw: seq<Task>)
    ensures |Planned(cfg, raw)| == |raw|
  {
  }

  lemma PlannedApart(cfg: Config, raw: seq<Task>, i: nat, j: nat)
    requires i < |raw| && j < |raw|
    ensures |Planned(cfg, raw)| == |raw|
    ensures Planned(cfg, raw)[i].RKey() != Planned(cfg, raw)[j].RKey() <==>
            (raw[i].Obj().key == raw[j].Obj().key ==> exists p :: EndsBy(raw, raw[i], p) != EndsBy(raw, raw[j], p))
  {
    PlannedLength(cfg, raw);
    hide Planned;
    hide EndsBy;
    var t, u := Planned(cfg, raw)[i], Planned(cfg, raw)[j];
    forall p ensures (InPhaseBy(t, p) <==> EndsBy(raw, raw[i], p)) && (InPhaseBy(u, p) <==> EndsBy(raw, raw[j], p)) {
      PlannedBy(cfg, raw, i, p);
      PlannedBy(cfg, raw, j, p);
    }
    PlannedBy(cfg, raw, i, Sync);
    PlannedBy(cfg, raw, j, Sync);
    SamePhase(t, u);
  }

  // ----- one target for each object -----

  // Tasks of one object are made from one manifest, so that they are the same dependency, if any.
  predicate OneTarget(raw: seq<Task>) {
    forall t, u :: t in raw && u in raw && t.Obj().key == u.Obj().key ==>
      NAMESPACES.Dep(t.objs) == NAMESPACES.Dep(u.objs) && CRDS.Dep(t.objs) == CRDS.Dep(u.objs)
  }

  lemma NeededAlike(raw: seq<Task>, t: Task, u: Task, p: Phase)
    requires NAMESPACES.Dep(t.objs) == NAMESPACES.Dep(u.objs) && CRDS.Dep(t.objs) == CRDS.Dep(u.objs)
    ensures Needed(raw, t, p) <==> Needed(raw, u, p)
  {
    assert forall v :: Needs(NAMESPACES, v, t) <==> Needs(NAMESPACES, v, u);
    assert forall v :: Needs(CRDS, v, t) <==> Needs(CRDS, v, u);
  }

  // A task with the same object and a later phase, and something that needs the object by the earlier phase already
  predicate DrawnTogether(raw: seq<Task>, t: Task, u: Task) {
    t.Obj().key == u.Obj().key && t.phase.Rank() < u.phase.Rank() && Needed(raw, t, t.phase)
  }

  /** With one manifest to an object, tasks end under one key exactly when a phase of the object needs it too early. */
  lemma OneTargetApart(raw: seq<Task>)
    requires DistinctKeys(raw) && OneTarget(raw)
    ensures KeysStayApart(raw) <==> forall t, u :: t in raw && u in raw ==> !DrawnTogether(raw, t, u)
  {
    hide Needed;
    forall i, j | 0 <= i < j < |raw| && raw[i].Obj().key == raw[j].Obj().key
      ensures (exists p :: EndsBy(raw, raw[i], p) != EndsBy(raw, raw[j], p)) <==>
              !DrawnTogether(raw, raw[i], raw[j]) && !DrawnTogether(raw, raw[j], raw[i])
    {
      assert KeyOf()(raw[i]) != KeyOf()(raw[j]);
      if raw[i].phase.Rank() < raw[j].phase.Rank() {
        PairApart(raw, raw[i], raw[j]);
      } else {
        PairApart(raw, raw[j], raw[i]);
      }
    }
  }

  lemma NeededLater(raw: seq<Task>, t: Task, p: Phase, q: Phase)
    requires Needed(raw, t, p) && p.Rank() <= q.Rank()
    ensures Needed(raw, t, q)
  {
  }

  lemma PairApart(raw: seq<Task>, t: Task, u: Task)
    requires t in raw && u in raw && t.Obj().key == u.Obj().key && OneTarget(raw) && t.phase.Rank() < u.phase.Rank()
    ensures (exists p :: EndsBy(raw, t, p) != EndsBy(raw, u, p)) <==> !Needed(raw, t, t.phase)
  {
    hide Needed;
    forall p ensures Needed(raw, t, p) <==> Needed(raw, u, p) { NeededAlike(raw, t, u, p); }
    if Needed(raw, t, t.phase) {
      forall p | InPhaseBy(t, p) ensures Needed(raw, t, p) { NeededLater(raw, t, t.phase, p); }
    } else {
      assert EndsBy(raw, t, t.phase) != EndsBy(raw, u, t.phase);
    }
  }

  // ----- an input -----

  // A CRD hook for two phases, and a PreSync hook of the kind it defines
  lemma TwoPhaseCrd(cfg: Config, raw: seq<Task>)
    requires |raw| == 3 && raw[0].phase.PreSync? && raw[1].phase.Sync? && raw[2] == raw[1].(phase := PostSync)
    requires Needs(CRDS, raw[0], raw[1])
    ensures !KeysStayApart(raw) && !DistinctKeys(Planned(cfg, raw))
    ensures Planned(cfg, raw)[1].RKey() == Planned(cfg, raw)[2].RKey() && Planned(cfg, raw)[1].phase.PreSync?
  {
    forall p ensures EndsBy(raw, raw[1], p) && EndsBy(raw, raw[2], p) {
      assert raw[0] in raw && Needs(CRDS, raw[0], raw[2]) && InPhaseBy(raw[0], p);
    }
    PlannedKeysExact(cfg, raw);
    PlannedApart(cfg, raw, 1, 2);
    PlannedBy(cfg, raw, 1, PreSync);
  }

  function AsHook(t: Task, phase: Phase): Task
    requires t.objs.TargetOnly?
  {
    t.(phase := phase, objs := TargetOnly(t.objs.target.(isHook := true)))
  }

  lemma TwoPhaseCrdInput(cfg: Config)
    ensures var raw := [AsHook(EarlyResource(), PreSync), AsHook(ItsCrd(), Sync), AsHook(ItsCrd(), PostSync)];
            DistinctKeys(raw) && !KeysStayApart(raw) && !DistinctKeys(Planned(cfg, raw))
  {
    hide Planned;
    var r, crd := AsHook(EarlyResource(), PreSync), AsHook(ItsCrd(), Sync);
    assert |CRD_GROUP| > 0 && |CRD_KIND| > |"K"|;
    assert CRDS.Dep(crd.objs) == Some("g" + "/" + "K") && CRDS.Ref(r.objs) == Some("g" + "/" + "K");
    assert AsHook(ItsCrd(), PostSync) == crd.(phase := PostSync);
    TwoPhaseCrd(cfg, [r, crd, crd.(phase := PostSync)]);
  }
}
