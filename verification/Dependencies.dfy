/** adjustDeps of pkg/sync/sync_tasks.go: moving dependencies ahead of what refers to them, in place. */
module Dependencies {
  import opened Kube
  import opened Lists
  import opened Tasks
  import opened TaskOrder
  import opened TaskArrays
  import opened Placement

  function ObjsOf(s: seq<SyncTask>): (r: seq<Objs>)
    ensures |r| == |s| && forall i :: 0 <= i < |s| ==> r[i] == s[i].objs
  {
    seq(|s|, i requires 0 <= i < |s| => s[i].objs)
  }

  // ----- the bookkeeping of first references -----

  // `first` holds, for every key referred to so far, the index of the first task that does.
  predicate FirstRefs(d: Dependency, p: seq<Objs>, first: map<string, nat>) {
    && (forall k :: k in first ==> first[k] < |p| && d.Ref(p[first[k]]) == Some(k))
    && (forall j :: 0 <= j < |p| && d.Ref(p[j]).Some? ==>
          d.Ref(p[j]).value in first && first[d.Ref(p[j]).value] <= j)
  }

  function Noted(d: Dependency, first: map<string, nat>, i: nat, o: Objs): map<string, nat> {
    var ref := d.Ref(o);
    if ref.Some? && ref.value !in first then first[ref.value := i] else first
  }

  function Bumped(first: map<string, nat>, index: nat): map<string, nat> {
    map k | k in first :: if first[k] >= index then first[k] + 1 else first[k]
  }

  // The element at i goes to index; those in between move up by one.
  function Rotated<T>(s: seq<T>, index: nat, i: nat): (r: seq<T>)
    requires index <= i < |s|
    ensures |r| == |s|
    ensures forall x :: 0 <= x < |s| ==> r[x] == s[Origin(index, i, x)]
  {
    s[..index] + [s[i]] + s[index..i] + s[i + 1..]
  }

  // Where the element that ends up at x comes from
  function Origin(index: nat, i: nat, x: nat): nat
    requires index <= i
  {
    if x < index || x > i then x else if x == index then i else x - 1
  }

  lemma RotatedPrefix<T>(s: seq<T>, index: nat, i: nat)
    requires index <= i < |s|
    ensures Rotated(s, index, i)[..i + 1] == Inserted(s[..i], index, s[i])
    ensures Rotated(s, index, i)[i + 1..] == s[i + 1..]
    ensures multiset(Rotated(s, index, i)) == multiset(s)
  {
    assert s == s[..index] + s[index..i] + [s[i]] + s[i + 1..];
  }

  // A task that is no dependency, and a dependency nothing has referred to yet, stay where they are.
  lemma StayKeeps(d: Dependency, p: seq<Objs>, first: map<string, nat>, o: Objs)
    requires FirstRefs(d, p, first) && DepsFirst(d, p)
    requires d.Dep(o).Some? ==> d.Dep(o).value !in first
    ensures FirstRefs(d, p + [o], Noted(d, first, |p|, o)) && DepsFirst(d, p + [o])
  {
  }

  // A dependency moved to the first reference keeps the bookkeeping right.
  lemma MoveKeeps(d: Dependency, p: seq<Objs>, first: map<string, nat>, o: Objs)
    requires FirstRefs(d, p, first) && DepsFirst(d, p)
    requires d.Dep(o).Some? && d.Dep(o).value in first
    ensures var index := first[d.Dep(o).value];
            FirstRefs(d, Inserted(p, index, o), Bumped(first, index)) && DepsFirst(d, Inserted(p, index, o))
  {
    hide Inserted;
    var index := first[d.Dep(o).value];
    var q := Inserted(p, index, o);
    forall x, y | 0 <= x < y < |q| && d.Ref(q[x]).Some? ensures d.Dep(q[y]) != d.Ref(q[x]) {
      var x' := if x < index then x else x - 1;
      assert x != index && q[x] == p[x'];
      if y != index {
        var y' := if y < index then y else y - 1;
        assert q[y] == p[y'];
      }
    }
    forall j | 0 <= j < |q| && d.Ref(q[j]).Some?
      ensures d.Ref(q[j]).value in first && Bumped(first, index)[d.Ref(q[j]).value] <= j
    {
      var j' := if j < index then j else j - 1;
      assert j != index && q[j] == p[j'];
    }
  }

  function NotDep(d: Dependency): SyncTask -> bool {
    (t: SyncTask) => d.Dep(t.objs).None?
  }

  // Moving a dependency leaves the other tasks in the order they had.
  lemma MoveKeepsOthers(d: Dependency, p: seq<SyncTask>, index: nat, t: SyncTask)
    requires index <= |p| && d.Dep(t.objs).Some?
    ensures Filter(NotDep(d), Inserted(p, index, t)) == Filter(NotDep(d), p)
  {
    hide Filter;
    var f, left, right := NotDep(d), p[..index], p[index..];
    assert p == left + right;
    FilterAppend(f, left, right);
    FilterAppend(f, left + [t], right);
    FilterAppend(f, left, [t]);
    FilterNone(f, [t]);
    assert Filter(f, left) + [] == Filter(f, left);
  }

  // ----- the moves themselves -----

  // s[i] goes to index, and everything from index on moves up by one.
  method ShiftIn(a: array<SyncTask>, index: nat, i: nat)
    requires index <= i < a.Length
    modifies a
    ensures a[..] == Rotated(old(a[..]), index, i)
  {
    var t := a[i];
    var j := i;
    while j > index
      invariant index <= j <= i
      invariant forall k :: 0 <= k < j ==> a[k] == old(a[k])
      invariant forall k :: j < k <= i ==> a[k] == old(a[k - 1])
      invariant forall k :: i < k < a.Length ==> a[k] == old(a[k])
    {
      a[j] := a[j - 1];
      j := j - 1;
    }
    a[index] := t;
  }

  // Whatever order the map is walked in.
  method BumpIndexes(first: map<string, nat>, index: nat) returns (bumped: map<string, nat>)
    ensures bumped == Bumped(first, index)
  {
    bumped := first;
    var todo := first.Keys;
    while todo != {}
      invariant todo <= first.Keys && bumped.Keys == first.Keys
      invariant forall k :: k in first ==> bumped[k] == if k in todo then first[k] else Bumped(first, index)[k]
    {
      var ns :| ns in todo;
      if bumped[ns] >= index {
        bumped := bumped[ns := bumped[ns] + 1];
      }
      todo := todo - {ns};
    }
  }

  // ----- adjustDeps -----

  function SlotsOf(s: seq<SyncTask>): (r: seq<Slot>)
    reads s
    ensures |r| == |s| && forall i :: 0 <= i < |s| ==> r[i] == s[i].Slot()
    decreases |s|
  {
    if s == [] then [] else [s[0].Slot()] + SlotsOf(s[1..])
  }

  predicate SlotsInOrder(s: seq<Slot>) {
    forall x, y :: 0 <= x < y < |s| ==> SlotLeq(s[x], s[y])
  }

  // Some task that refers to the key has the slot.
  predicate RefersAt(d: Dependency, infos: seq<Task>, key: Option<string>, slot: Slot) {
    exists r :: r in infos && d.Ref(r.objs) == key && r.Slot() == slot
  }

  // Where the tasks stand when the first i have been visited, told in the order of the original list.
  predicate SlotsSoFar(d: Dependency, infos: seq<Task>, now: seq<Slot>, i: nat) {
    && |infos| == |now|
    && (forall k :: 0 <= k < |now| && (d.Dep(infos[k].objs).None? || k >= i) ==> now[k] == infos[k].Slot())
    && (forall k :: 0 <= k < |now| && d.Dep(infos[k].objs).Some? ==>
          SlotLeq(now[k], infos[k].Slot()) &&
          (now[k] == infos[k].Slot() || RefersAt(d, infos, d.Dep(infos[k].objs), now[k])))
  }

  lemma OverrideKeeps(d: Dependency, infos: seq<Task>, now: seq<Slot>, i: nat, slot: Slot)
    requires SlotsSoFar(d, infos, now, i) && i < |infos| && d.Dep(infos[i].objs).Some?
    requires SlotLeq(slot, infos[i].Slot()) && RefersAt(d, infos, d.Dep(infos[i].objs), slot)
    ensures SlotsSoFar(d, infos, now[i := slot], i + 1)
  {
  }

  lemma InsertInOrder(s: seq<Slot>, index: nat, i: nat)
    requires index < i < |s| && SlotsInOrder(s)
    ensures SlotsInOrder(Rotated(s[i := s[index]], index, i))
  {
  }

  // The objects of a list, and the tasks they were to begin with
  predicate Originals(was: seq<SyncTask>, infos: seq<Task>) {
    && NoRepeats(was) && |infos| == |was|
    && forall k :: 0 <= k < |was| ==> infos[k].objs == was[k].objs && infos[k].skipDryRun == was[k].skipDryRun
  }

  method ShiftKeepingSlots(a: array<SyncTask>, index: nat, i: nat, ghost was: seq<SyncTask>)
    requires index <= i < a.Length
    modifies a
    ensures a[..] == Rotated(old(a[..]), index, i)
    ensures SlotsOf(a[..]) == Rotated(old(SlotsOf(a[..])), index, i)
    ensures SlotsOf(was) == old(SlotsOf(was))
  {
    hide Rotated;
    ghost var s, slots, now := a[..], SlotsOf(a[..]), SlotsOf(was);
    ShiftIn(a, index, i);
    assert SlotsOf(s) == slots && SlotsOf(was) == now;
    SlotsOfRotated(s, index, i);
  }

  // The dependency takes over the slot of the task that needs it, and with it its place in either list.
  method TakeSlot(t: SyncTask, needs: SyncTask, ghost s: seq<SyncTask>, ghost was: seq<SyncTask>, ghost i: nat)
    requires NoRepeats(s) && NoRepeats(was) && i < |s| == |was| && s[i] == was[i] == t != needs
    modifies t`phase, t`waveOverride
    ensures SlotsOf(s) == old(SlotsOf(s))[i := old(needs.Slot())]
    ensures SlotsOf(was) == old(SlotsOf(was))[i := old(needs.Slot())]
  {
    var wave := needs.Wave();
    t.waveOverride := Some(wave);
    t.phase := needs.phase;
  }

  lemma SlotsOfRotated(s: seq<SyncTask>, index: nat, i: nat)
    requires index <= i < |s|
    ensures SlotsOf(Rotated(s, index, i)) == Rotated(SlotsOf(s), index, i)
  {
    hide SlotsOf;
    hide Rotated;
  }

  /** One dependency that something has referred to: it takes over the slot and the place of the first reference. */
  method Move(d: Dependency, a: array<SyncTask>, t: SyncTask, index: nat, i: nat,
              ghost was: seq<SyncTask>, ghost infos: seq<Task>)
    requires Originals(was, infos) && NoRepeats(a[..])
    requires index < i < a.Length == |was| && t == a[i] == was[i] && a[index] in was
    requires d.Dep(t.objs).Some? && d.Ref(a[index].objs) == d.Dep(t.objs)
    requires SlotsSoFar(d, infos, SlotsOf(was), i) && SlotsInOrder(SlotsOf(a[..]))
    modifies a, t`phase, t`waveOverride
    ensures a[..] == Rotated(old(a[..]), index, i)
    ensures SlotsSoFar(d, infos, SlotsOf(was), i + 1) && SlotsInOrder(SlotsOf(a[..]))
  {
    hide Rotated;
    hide SlotsInOrder;
    hide SlotsSoFar;
    hide Originals;
    MovedSlots(d, was, infos, a[..], index, i);
    Relocate(a, t, index, i, was);
  }

  // The dependency takes over slot and place of the task at index.
  method Relocate(a: array<SyncTask>, t: SyncTask, index: nat, i: nat, ghost was: seq<SyncTask>)
    requires index < i < a.Length == |was| && t == a[i] == was[i] != a[index] && NoRepeats(a[..]) && NoRepeats(was)
    modifies a, t`phase, t`waveOverride
    ensures a[..] == Rotated(old(a[..]), index, i)
    ensures SlotsOf(a[..]) == Rotated(old(SlotsOf(a[..]))[i := old(a[index].Slot())], index, i)
    ensures SlotsOf(was) == old(SlotsOf(was))[i := old(a[index].Slot())]
  {
    hide Rotated;
    hide NoRepeats;
    TakeSlot(t, a[index], a[..], was, i);
    ShiftKeepingSlots(a, index, i, was);
  }

  lemma MovedSlots(d: Dependency, was: seq<SyncTask>, infos: seq<Task>, s: seq<SyncTask>, index: nat, i: nat)
    requires Originals(was, infos) && NoRepeats(s)
    requires index < i < |s| == |was| && s[i] == was[i] && s[index] in was
    requires d.Dep(s[i].objs).Some? && d.Ref(s[index].objs) == d.Dep(s[i].objs)
    requires SlotsSoFar(d, infos, SlotsOf(was), i) && SlotsInOrder(SlotsOf(s))
    ensures NoRepeats(was) && s[index] != s[i]
    ensures SlotsSoFar(d, infos, SlotsOf(was)[i := s[index].Slot()], i + 1)
    ensures SlotsInOrder(Rotated(SlotsOf(s)[i := s[index].Slot()], index, i))
  {
    hide Rotated;
    hide SlotsInOrder;
    hide RefersAt;
    SlotBefore(s, index, i);
    ReferenceSlot(d, was, infos, SlotsOf(was), i, s[index]);
    OverrideKeeps(d, infos, SlotsOf(was), i, s[index].Slot());
    InsertInOrder(SlotsOf(s), index, i);
  }

  lemma SlotBefore(s: seq<SyncTask>, index: nat, i: nat)
    requires index < i < |s| && SlotsInOrder(SlotsOf(s))
    ensures SlotLeq(s[index].Slot(), s[i].Slot())
  {
  }

  lemma ReferenceSlot(d: Dependency, was: seq<SyncTask>, infos: seq<Task>, now: seq<Slot>, i: nat, ref: SyncTask)
    requires Originals(was, infos) && now == SlotsOf(was) && SlotsSoFar(d, infos, now, i)
    requires ref in was && d.Ref(ref.objs).Some?
    ensures RefersAt(d, infos, d.Ref(ref.objs), ref.Slot())
  {
  }

  // What holds of the list once its first i tasks have been visited: it is a rearrangement of those ...
  predicate Rearranged(s: seq<SyncTask>, was: seq<SyncTask>, i: nat)
    requires i <= |s| == |was|
  {
    NoRepeats(s) && multiset(s[..i]) == multiset(was[..i]) && s[i..] == was[i..]
  }

  // ... in which dependencies come first, as the map of first references says ...
  predicate Booked(d: Dependency, s: seq<SyncTask>, first: map<string, nat>, i: nat)
    requires i <= |s|
  {
    FirstRefs(d, ObjsOf(s[..i]), first) && DepsFirst(d, ObjsOf(s[..i]))
  }

  // ... and the tasks that are no dependencies keep their order.
  predicate OthersKept(d: Dependency, s: seq<SyncTask>, was: seq<SyncTask>, i: nat)
    requires i <= |s| == |was|
  {
    Filter(NotDep(d), s[..i]) == Filter(NotDep(d), was[..i])
  }

  function ObjectsOf(): SyncTask -> Objs { (t: SyncTask) => t.objs }

  // The tasks visited stand where Adjusted puts them.
  predicate PlacedSoFar(d: Dependency, s: seq<SyncTask>, was: seq<SyncTask>, i: nat)
    requires i <= |s| == |was|
  {
    s[..i] == Adjusted(d, ObjectsOf(), was[..i])
  }

  // The map of first references holds the place of the next task, if it is a dependency something refers to.
  lemma FirstReferrerBooked(d: Dependency, s: seq<SyncTask>, first: map<string, nat>, i: nat, t: SyncTask)
    requires i <= |s| && Booked(d, s, first, i)
    ensures var dep := d.Dep(t.objs);
            FirstReferrer(d, ObjectsOf(), s[..i], t) == if dep.Some? && dep.value in first then first[dep.value] else i
  {
    var p, dep := s[..i], d.Dep(t.objs);
    var k := FirstReferrer(d, ObjectsOf(), p, t);
    assert forall j :: 0 <= j < i ==> ObjsOf(p)[j] == p[j].objs;
    if dep.Some? && dep.value in first {
      assert Refers(d, ObjectsOf(), p[first[dep.value]], t);
    }
  }

  lemma NextPlaced(d: Dependency, s: seq<SyncTask>, was: seq<SyncTask>, i: nat)
    requires i < |s| == |was| && PlacedSoFar(d, s, was, i)
    ensures Adjusted(d, ObjectsOf(), was[..i + 1])
         == Inserted(s[..i], FirstReferrer(d, ObjectsOf(), s[..i], was[i]), was[i])
  {
    hide Inserted;
    assert was[..i + 1][..i] == was[..i];
  }

  lemma StayPlaces(d: Dependency, s: seq<SyncTask>, was: seq<SyncTask>, first: map<string, nat>, i: nat)
    requires i < |s| == |was| && s[i] == was[i] && PlacedSoFar(d, s, was, i) && Booked(d, s, first, i)
    requires d.Dep(s[i].objs).Some? ==> d.Dep(s[i].objs).value !in first
    ensures PlacedSoFar(d, s, was, i + 1)
  {
    hide Booked;
    hide Adjusted;
    FirstReferrerBooked(d, s, first, i, s[i]);
    NextPlaced(d, s, was, i);
    InsertedLast(s[..i], s[i]);
    assert s[..i + 1] == s[..i] + [s[i]];
  }

  lemma InsertedLast<T>(p: seq<T>, x: T)
    ensures Inserted(p, |p|, x) == p + [x]
  {
  }

  lemma MovePlaces(d: Dependency, s: seq<SyncTask>, was: seq<SyncTask>, first: map<string, nat>, i: nat)
    requires i < |s| == |was| && s[i] == was[i] && PlacedSoFar(d, s, was, i) && Booked(d, s, first, i)
    requires d.Dep(s[i].objs).Some? && d.Dep(s[i].objs).value in first && first[d.Dep(s[i].objs).value] <= i
    ensures PlacedSoFar(d, Rotated(s, first[d.Dep(s[i].objs).value], i), was, i + 1)
  {
    hide Booked;
    FirstReferrerBooked(d, s, first, i, s[i]);
    NextPlaced(d, s, was, i);
    RotatedPrefix(s, first[d.Dep(s[i].objs).value], i);
  }

  lemma StayRearranges(s: seq<SyncTask>, was: seq<SyncTask>, i: nat)
    requires i < |s| == |was| && Rearranged(s, was, i)
    ensures s[i] == was[i] && Rearranged(s, was, i + 1)
  {
    hide NoRepeats;
    assert s[i] == s[i..][0] && was[i] == was[i..][0];
    assert s[..i + 1] == s[..i] + [s[i]] && was[..i + 1] == was[..i] + [s[i]];
    assert s[i + 1..] == s[i..][1..] && was[i + 1..] == was[i..][1..];
  }

  lemma StayKeepsOrder(d: Dependency, s: seq<SyncTask>, was: seq<SyncTask>, i: nat)
    requires i < |s| == |was| && s[i] == was[i] && OthersKept(d, s, was, i)
    ensures OthersKept(d, s, was, i + 1)
  {
    assert s[..i + 1] == s[..i] + [s[i]] && was[..i + 1] == was[..i] + [s[i]];
    FilterAppend(NotDep(d), s[..i], [s[i]]);
    FilterAppend(NotDep(d), was[..i], [s[i]]);
  }

  lemma StayBooks(d: Dependency, s: seq<SyncTask>, first: map<string, nat>, i: nat)
    requires i < |s| && Booked(d, s, first, i)
    requires d.Dep(s[i].objs).Some? ==> d.Dep(s[i].objs).value !in first
    ensures Booked(d, s, Noted(d, first, i, s[i].objs), i + 1)
  {
    hide FirstRefs;
    hide DepsFirst;
    StayKeeps(d, ObjsOf(s[..i]), first, s[i].objs);
    assert ObjsOf(s[..i + 1]) == ObjsOf(s[..i]) + [s[i].objs];
  }

  lemma MoveRearranges(s: seq<SyncTask>, was: seq<SyncTask>, index: nat, i: nat)
    requires index < i < |s| == |was| && Rearranged(s, was, i)
    ensures s[index] in was && s[i] == was[i] && NoRepeats(s) && Rearranged(Rotated(s, index, i), was, i + 1)
  {
    hide NoRepeats;
    hide Rotated;
    RotatedPrefix(s, index, i);
    RotatedDistinct(s, index, i);
    assert s[..i][index] in multiset(s[..i]);
    assert s[i] == s[i..][0] && was[i] == was[i..][0];
    assert s[i + 1..] == s[i..][1..] && was[i + 1..] == was[i..][1..];
    InsertedMultiset(s[..i], index, s[i]);
    assert was[..i + 1] == was[..i] + [s[i]];
  }

  lemma InsertedMultiset<T>(p: seq<T>, index: nat, x: T)
    requires index <= |p|
    ensures multiset(Inserted(p, index, x)) == multiset(p) + multiset{x}
  {
    assert p == p[..index] + p[index..];
  }

  lemma MoveKeepsOrder(d: Dependency, s: seq<SyncTask>, was: seq<SyncTask>, index: nat, i: nat)
    requires index < i < |s| == |was| && s[i] == was[i] && d.Dep(s[i].objs).Some? && OthersKept(d, s, was, i)
    ensures OthersKept(d, Rotated(s, index, i), was, i + 1)
  {
    hide Rotated;
    hide Inserted;
    RotatedPrefix(s, index, i);
    MoveKeepsOthers(d, s[..i], index, s[i]);
    assert was[..i + 1] == was[..i] + [s[i]];
    FilterAppend(NotDep(d), was[..i], [s[i]]);
    FilterNone(NotDep(d), [s[i]]);
    assert Filter(NotDep(d), was[..i]) + [] == Filter(NotDep(d), was[..i]);
  }

  lemma MoveBooks(d: Dependency, s: seq<SyncTask>, first: map<string, nat>, i: nat)
    requires i < |s| && Booked(d, s, first, i)
    requires d.Dep(s[i].objs).Some? && d.Dep(s[i].objs).value in first
    ensures var index := first[d.Dep(s[i].objs).value];
            index < i && d.Ref(s[index].objs) == d.Dep(s[i].objs) &&
            Booked(d, Rotated(s, index, i), Bumped(first, index), i + 1)
  {
    hide DepsFirst;
    hide Inserted;
    hide Rotated;
    var index := first[d.Dep(s[i].objs).value];
    assert ObjsOf(s[..i])[index] == s[index].objs;
    MoveKeeps(d, ObjsOf(s[..i]), first, s[i].objs);
    RotatedPrefix(s, index, i);
    ObjsOfInserted(s[..i], index, s[i]);
  }

  lemma ObjsOfInserted(p: seq<SyncTask>, index: nat, t: SyncTask)
    requires index <= |p|
    ensures ObjsOf(Inserted(p, index, t)) == Inserted(ObjsOf(p), index, t.objs)
  {
  }

  lemma RotatedDistinct(s: seq<SyncTask>, index: nat, i: nat)
    requires index <= i < |s| && NoRepeats(s)
    ensures NoRepeats(Rotated(s, index, i))
  {
  }

  // Everything that holds once the first i tasks have been visited
  ghost predicate Visited(d: Dependency, s: seq<SyncTask>, was: seq<SyncTask>, infos: seq<Task>,
                          first: map<string, nat>, i: nat)
    requires i <= |s| == |was|
    reads s, was
  {
    && Rearranged(s, was, i) && Booked(d, s, first, i) && OthersKept(d, s, was, i) && PlacedSoFar(d, s, was, i)
    && SlotsSoFar(d, infos, SlotsOf(was), i) && SlotsInOrder(SlotsOf(s))
  }

  // One round of the loop, for a dependency something has referred to
  method VisitMove(d: Dependency, a: array<SyncTask>, t: SyncTask, first: map<string, nat>, i: nat,
                   ghost was: seq<SyncTask>, ghost infos: seq<Task>)
    returns (first': map<string, nat>)
    requires Originals(was, infos) && i < a.Length == |was| && t == a[i]
    requires d.Dep(t.objs).Some? && d.Dep(t.objs).value in first
    requires Visited(d, a[..], was, infos, first, i)
    modifies a, t`phase, t`waveOverride
    ensures Visited(d, a[..], was, infos, first', i + 1)
  {
    hide Rotated;
    hide Booked;
    hide OthersKept;
    hide PlacedSoFar;
    hide SlotsInOrder;
    hide SlotsSoFar;
    hide Originals;
    hide Rearranged;
    hide NoRepeats;
    var index := first[d.Dep(t.objs).value];
    MoveBooks(d, a[..], first, i);
    MoveRearranges(a[..], was, index, i);
    MoveKeepsOrder(d, a[..], was, index, i);
    MovePlaces(d, a[..], was, first, i);
    Move(d, a, t, index, i, was, infos);
    first' := BumpIndexes(first, index);
  }

  // One round of the loop
  method Visit(d: Dependency, a: array<SyncTask>, t: SyncTask, first: map<string, nat>, i: nat,
               ghost was: seq<SyncTask>, ghost infos: seq<Task>)
    returns (first': map<string, nat>)
    requires Originals(was, infos) && i < a.Length == |was| && t == a[i]
    requires Visited(d, a[..], was, infos, first, i)
    modifies a, t`phase, t`waveOverride
    ensures Visited(d, a[..], was, infos, first', i + 1)
  {
    hide Booked;
    hide OthersKept;
    hide PlacedSoFar;
    hide SlotsInOrder;
    hide SlotsSoFar;
    hide Rearranged;
    first' := first;
    var dep := d.Dep(t.objs);
    if dep.Some? && dep.value in first {
      first' := VisitMove(d, a, t, first, i, was, infos);
    } else {
      StayRearranges(a[..], was, i);
      StayKeepsOrder(d, a[..], was, i);
      StayBooks(d, a[..], first, i);
      StayPlaces(d, a[..], was, first, i);
      StaySlots(d, infos, SlotsOf(was), i);
      var ref := d.Ref(t.objs);
      if ref.Some? && ref.value !in first {
        first' := first[ref.value := i];
      }
    }
  }

  lemma StaySlots(d: Dependency, infos: seq<Task>, now: seq<Slot>, i: nat)
    requires SlotsSoFar(d, infos, now, i) && i < |infos|
    ensures SlotsSoFar(d, infos, now, i + 1)
  {
  }
}
