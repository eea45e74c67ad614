/** Sort of pkg/sync/sync_tasks.go as a whole. */
module TaskSort {
  import opened Kube
  import opened Lists
  import opened Tasks
  import opened TaskOrder
  import opened TaskArrays
  import opened Placement
  import opened Dependencies
  import opened KindTable
  import opened SortLaws

  lemma NotAfterItsReferrer(d: Dependency, s: seq<SyncTask>, was: seq<SyncTask>, infos: seq<Task>, k: nat, q: nat)
    requires Originals(was, infos) && multiset(s) == multiset(was) && k < |was| && q < |was|
    requires DepsFirst(d, ObjsOf(s)) && SlotsInOrder(SlotsOf(s))
    requires SlotsSoFar(d, infos, SlotsOf(was), |was|)
    requires d.Dep(infos[k].objs).Some? && d.Ref(infos[q].objs) == d.Dep(infos[k].objs)
    ensures SlotLeq(was[k].Slot(), infos[q].Slot())
  {
    SameMembers(s, was);
    assert SlotsOf(was)[q] == infos[q].Slot();
    assert was[k] in s && was[q] in s;
    var y :| 0 <= y < |s| && s[y] == was[k];
    var x :| 0 <= x < |s| && s[x] == was[q];
    assert ObjsOf(s)[x] == infos[q].objs && ObjsOf(s)[y] == infos[k].objs;
    assert SlotLeq(SlotsOf(s)[y], SlotsOf(s)[x]);
  }

  // Where every dependency ends up is the least slot among its own and those of the tasks that need it.
  lemma FinalSlots(d: Dependency, s: seq<SyncTask>, was: seq<SyncTask>, infos: seq<Task>, k: nat)
    requires Originals(was, infos) && multiset(s) == multiset(was) && k < |was|
    requires DepsFirst(d, ObjsOf(s)) && SlotsInOrder(SlotsOf(s))
    requires SlotsSoFar(d, infos, SlotsOf(was), |was|)
    ensures was[k].Slot() == LoweredSlot(d, infos, infos[k])
  {
    hide LeastRef;
    hide DepsFirst;
    if d.Dep(infos[k].objs).Some? {
      var key := d.Dep(infos[k].objs).value;
      var slot := was[k].Slot();
      assert slot == SlotsOf(was)[k];
      forall q | 0 <= q < |infos| && d.Ref(infos[q].objs) == Some(key) ensures SlotLeq(slot, infos[q].Slot()) {
        NotAfterItsReferrer(d, s, was, infos, k, q);
      }
      LeastRefIs(d, infos, key, infos[k].Slot());
      LeastRefUnique(d, infos, key, infos[k].Slot(), slot, LeastRef(d, infos, key, infos[k].Slot()));
    }
  }

  /**
   Dependencies move ahead of the first task that refers to them, in place. Every task ends up where Adjusted
   puts it (Placement.Placed says where that is); no dependency follows a task that needs it and everything
   else keeps its order; slots still do not decrease, and every task stands at the slot that lowering the
   list as a whole gives it.
   */
  method AdjustDeps(d: Dependency, a: array<SyncTask>)
    requires NoRepeats(a[..]) && SlotsInOrder(SlotsOf(a[..]))
    modifies a, (set t | t in a[..])`phase, (set t | t in a[..])`waveOverride
    ensures multiset(a[..]) == multiset(old(a[..])) && NoRepeats(a[..])
    ensures DepsFirst(d, ObjsOf(a[..]))
    ensures a[..] == Adjusted(d, ObjectsOf(), old(a[..]))
    ensures Filter(NotDep(d), a[..]) == Filter(NotDep(d), old(a[..]))
    ensures SlotsInOrder(SlotsOf(a[..]))
    ensures Infos(old(a[..])) == Lower(d, old(Infos(a[..])))
  {
    hide Booked;
    hide PlacedSoFar;
    hide OthersKept;
    hide SlotsInOrder;
    hide SlotsSoFar;
    hide LoweredSlot;
    ghost var was, infos := a[..], Infos(a[..]);
    var first := map[];
    var i := 0;
    VisitNothing(d, was, infos);
    while i < a.Length
      invariant 0 <= i <= a.Length == |was|
      invariant Visited(d, a[..], was, infos, first, i)
    {
      assert a[i] == a[i..][0] && was[i] == was[i..][0];
      first := Visit(d, a, a[i], first, i, was, infos);
      i := i + 1;
    }
    VisitedAll(d, a[..], was, infos, first);
  }

  lemma VisitNothing(d: Dependency, was: seq<SyncTask>, infos: seq<Task>)
    requires NoRepeats(was) && infos == Infos(was) && SlotsInOrder(SlotsOf(was))
    ensures Originals(was, infos) && Visited(d, was, was, infos, map[], 0)
  {
  }

  lemma VisitedAll(d: Dependency, s: seq<SyncTask>, was: seq<SyncTask>, infos: seq<Task>, first: map<string, nat>)
    requires Originals(was, infos) && |s| == |was| && Visited(d, s, was, infos, first, |was|)
    ensures multiset(s) == multiset(was) && NoRepeats(s) && DepsFirst(d, ObjsOf(s))
    ensures s == Adjusted(d, ObjectsOf(), was)
    ensures Filter(NotDep(d), s) == Filter(NotDep(d), was) && SlotsInOrder(SlotsOf(s))
    ensures Infos(was) == Lower(d, infos)
  {
    hide SlotsInOrder;
    hide SlotsSoFar;
    hide LoweredSlot;
    hide Adjusted;
    hide Filter;
    hide FirstRefs;
    hide DepsFirst;
    hide Infos;
    assert s[..|was|] == s && was[..|was|] == was;
    forall k | 0 <= k < |was| ensures Infos(was)[k] == Lower(d, infos)[k] {
      FinalSlots(d, s, was, infos, k);
    }
  }

  // ----- Sort -----

  lemma SortedSlots(rank: string -> int, s: seq<SyncTask>, was: seq<SyncTask>)
    requires multiset(s) == multiset(was) && WavesFit(Infos(was)) && InOrder(rank, Infos(s), |s|)
    ensures SlotsInOrder(SlotsOf(s))
  {
    SameMembers(s, was);
    forall x, y | 0 <= x < y < |s| ensures SlotLeq(SlotsOf(s)[x], SlotsOf(s)[y]) {
      MemberInfo(s, was, x);
      MemberInfo(s, was, y);
      LessBySlot(rank, Infos(s)[x], Infos(s)[y]);
    }
  }

  lemma SortedInPlace(s: seq<SyncTask>, was: seq<SyncTask>)
    requires multiset(s) == multiset(was) && WavesFit(Infos(was)) && InOrder(KindOrder, Infos(s), |s|)
    ensures AllInPlace(Infos(s))
  {
    hide Less;
    hide InPlace;
    hide KindOrder;
    SameMembers(s, was);
    forall x, y | 0 <= x < y < |s| ensures InPlace(Infos(s)[x], Infos(s)[y]) {
      MemberInfo(s, was, x);
      MemberInfo(s, was, y);
      InPlaceExact(Infos(s)[x], Infos(s)[y]);
    }
  }

  lemma MemberInfo(s: seq<SyncTask>, was: seq<SyncTask>, x: nat)
    requires x < |s| && forall t :: t in s <==> t in was
    ensures Infos(s)[x] in Infos(was)
  {
    assert s[x] in was;
    var k :| 0 <= k < |was| && was[k] == s[x];
    assert Infos(was)[k] == s[x].Info();
  }

  // Two lists of the same objects, and what those objects were at some earlier time
  predicate Parallel(s: seq<SyncTask>, was: seq<SyncTask>, infoS: seq<Task>, infoWas: seq<Task>) {
    && |infoS| == |s| && |infoWas| == |was|
    && forall i, k :: 0 <= i < |s| && 0 <= k < |was| && s[i] == was[k] ==> infoS[i] == infoWas[k]
  }

  lemma ParallelMember(s: seq<SyncTask>, was: seq<SyncTask>, infoS: seq<Task>, infoWas: seq<Task>, u: Task)
    requires (forall t :: t in s ==> t in was) && Parallel(s, was, infoS, infoWas) && u in infoS
    ensures u in infoWas
  {
    var i :| 0 <= i < |s| && infoS[i] == u;
    assert s[i] in was;
    var k :| 0 <= k < |was| && was[k] == s[i];
    assert infoWas[k] == u;
  }

  lemma LowerAnyOrder(d: Dependency, s: seq<SyncTask>, was: seq<SyncTask>, infoS: seq<Task>, infoWas: seq<Task>)
    requires multiset(s) == multiset(was) && Parallel(s, was, infoS, infoWas)
    requires Infos(s) == Lower(d, infoS)
    ensures Infos(was) == Lower(d, infoWas)
  {
    hide LoweredSlot;
    SameMembers(s, was);
    forall u | u in infoS ensures u in infoWas { ParallelMember(s, was, infoS, infoWas, u); }
    forall u | u in infoWas ensures u in infoS { ParallelMember(was, s, infoWas, infoS, u); }
    forall k | 0 <= k < |was| ensures Infos(was)[k] == Lower(d, infoWas)[k] {
      assert was[k] in s;
      var i :| 0 <= i < |s| && s[i] == was[k];
      assert Infos(s)[i] == Lower(d, infoS)[i];
      LoweredAnyOrder(d, infoS, infoWas, infoWas[k]);
    }
  }

  // In a filtered list dependencies still come first.
  lemma FilteredDepsFirst(d: Dependency, p: SyncTask -> bool, s: seq<SyncTask>)
    requires DepsFirst(d, ObjsOf(s))
    ensures DepsFirst(d, ObjsOf(Filter(p, s)))
  {
    var before := (x: SyncTask, y: SyncTask) => d.Ref(x.objs).Some? ==> d.Dep(y.objs) != d.Ref(x.objs);
    assert Ordered(before, s) by {
      assert forall i :: 0 <= i < |s| ==> ObjsOf(s)[i] == s[i].objs;
    }
    FilterOrdered(p, before, s);
    var r := Filter(p, s);
    assert forall i, j :: 0 <= i < j < |r| ==> before(r[i], r[j]);
  }

  // sort.Sort: nothing is out of order, and slots do not decrease
  method SortSlots(a: array<SyncTask>)
    requires NoRepeats(a[..]) && WavesFit(Infos(a[..]))
    modifies a
    ensures multiset(a[..]) == multiset(old(a[..])) && NoRepeats(a[..]) && SlotsInOrder(SlotsOf(a[..]))
    ensures AllInPlace(Infos(a[..]))
    ensures Parallel(a[..], old(a[..]), Infos(a[..]), old(Infos(a[..])))
  {
    hide KindOrder;
    hide Precedes;
    hide InPlace;
    ghost var was, raw := a[..], Infos(a[..]);
    SortByLess(KindOrder, a);
    assert Infos(was) == raw;
    SortedSlots(KindOrder, a[..], was);
    SortedInPlace(a[..], was);
    PartDistinct(a[..], was);
  }

  // adjustDeps, with the outcome told in the order of an earlier list
  method AdjustFrom(d: Dependency, a: array<SyncTask>, ghost was: seq<SyncTask>, ghost raw: seq<Task>)
    requires NoRepeats(a[..]) && SlotsInOrder(SlotsOf(a[..]))
    requires multiset(a[..]) == multiset(was) && Parallel(a[..], was, Infos(a[..]), raw)
    modifies a, (set t | t in a[..])`phase, (set t | t in a[..])`waveOverride
    ensures multiset(a[..]) == multiset(was) && NoRepeats(a[..]) && SlotsInOrder(SlotsOf(a[..]))
    ensures DepsFirst(d, ObjsOf(a[..])) && Filter(NotDep(d), a[..]) == Filter(NotDep(d), old(a[..]))
    ensures a[..] == Adjusted(d, ObjectsOf(), old(a[..]))
    ensures Infos(was) == Lower(d, raw) && Parallel(a[..], was, Infos(a[..]), Lower(d, raw))
  {
    hide Lower;
    hide SlotsInOrder;
    hide DepsFirst;
    ghost var s, infos := a[..], Infos(a[..]);
    AdjustDeps(d, a);
    LowerAnyOrder(d, s, was, infos, raw);
  }

  // Both passes over a sorted list, with the outcome told in the order of an earlier one
  method AdjustBoth(a: array<SyncTask>, ghost was: seq<SyncTask>, ghost raw: seq<Task>)
    requires NoRepeats(a[..]) && SlotsInOrder(SlotsOf(a[..]))
    requires multiset(a[..]) == multiset(was) && Parallel(a[..], was, Infos(a[..]), raw)
    modifies a, (set t | t in a[..])`phase, (set t | t in a[..])`waveOverride
    ensures multiset(a[..]) == multiset(was) && NoRepeats(a[..]) && SlotsInOrder(SlotsOf(a[..]))
    ensures a[..] == AfterBoth(ObjectsOf(), old(a[..]))
    ensures DepsFirst(CRDS, ObjsOf(a[..])) && DepsFirst(NAMESPACES, ObjsOf(Filter(NotDep(CRDS), a[..])))
    ensures Infos(was) == Canon(raw)
  {
    hide Lower;
    hide SlotsInOrder;
    hide DepsFirst;
    hide Parallel;
    hide Adjusted;
    hide Infos;
    SameMembers(a[..], was);
    AdjustFrom(NAMESPACES, a, was, raw);
    SameMembers(a[..], was);
    FilteredDepsFirst(NAMESPACES, NotDep(CRDS), a[..]);
    AdjustFrom(CRDS, a, was, Lower(NAMESPACES, raw));
  }

  // A plain task is still what it was.
  lemma StillAsWas(sorted: seq<SyncTask>, was: seq<SyncTask>, infos: seq<Task>, raw: seq<Task>)
    requires multiset(sorted) == multiset(was) && Parallel(sorted, was, infos, raw) && Infos(was) == Canon(raw)
    ensures PlainAsWas(sorted, infos)
  {
    hide IsPlain;
    hide Canon;
    SameMembers(sorted, was);
    forall i | 0 <= i < |sorted| && IsPlain(sorted[i].objs) ensures sorted[i].Info() == infos[i] {
      assert sorted[i] in was;
      var k :| 0 <= k < |was| && was[k] == sorted[i];
      assert Infos(was)[k].objs == sorted[i].objs;
      CanonObjs(raw, k);
      PlainKeepsSlot(raw, k);
    }
  }

  /**
   Sort, in place. `sorted` is the list in the order of phase, wave, kind and name, `infos` what its tasks were
   then. Every task ends up where the two passes over `sorted` put it, so Placement.CrdAheadOfNamespace and
   CrdAheadExactly apply. Slots do not decrease; every CRD comes before all tasks of its group and kind, and every
   Namespace before all tasks in it that are no CRDs; what is neither stands in place among its like; and each task
   stands at the slot the order-free Canon gives it.
   */
  method Sort(a: array<SyncTask>) returns (ghost sorted: seq<SyncTask>, ghost infos: seq<Task>)
    requires NoRepeats(a[..]) && WavesFit(Infos(a[..]))
    modifies a, (set t | t in a[..])`phase, (set t | t in a[..])`waveOverride
    ensures multiset(sorted) == multiset(old(a[..])) && NoRepeats(sorted)
    ensures Parallel(sorted, old(a[..]), infos, old(Infos(a[..]))) && AllInPlace(infos)
    ensures a[..] == AfterBoth(ObjectsOf(), sorted)
    ensures multiset(a[..]) == multiset(old(a[..])) && NoRepeats(a[..])
    ensures SlotsInOrder(SlotsOf(a[..]))
    ensures NeedsMet(ObjsOf(a[..])) && PlainInPlace(Infos(a[..]))
    ensures DepsFirst(CRDS, ObjsOf(a[..])) && DepsFirst(NAMESPACES, ObjsOf(Filter(NotDep(CRDS), a[..])))
    ensures Infos(old(a[..])) == Canon(old(Infos(a[..])))
  {
    hide Canon;
    hide SlotsInOrder;
    hide DepsFirst;
    hide Parallel;
    hide AfterBoth;
    hide AllInPlace;
    hide PlainAsWas;
    hide PlainInPlace;
    hide NeedsMet;
    hide Infos;
    hide WavesFit;
    ghost var was, raw := a[..], Infos(a[..]);
    SortSlots(a);
    sorted, infos := a[..], Infos(a[..]);
    SameMembers(a[..], was);
    assert |infos| == |sorted|;
    AdjustBoth(a, was, raw);
    DepsFirstMeetNeeds(a[..]);
    StillAsWas(sorted, was, infos, raw);
    PlainOrder(sorted, infos, a[..]);
  }
}
