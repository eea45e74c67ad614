/** Where adjustDeps of pkg/sync/sync_tasks.go puts each dependency, as a function of the list alone. */
module Placement {
  import opened Kube
  import opened Lists
  import opened Tasks
  import opened TaskOrder

  predicate Before<T(==)>(s: seq<T>, x: T, y: T) {
    x in s && y in s && IndexOf(s, x) < IndexOf(s, y)
  }

  function Inserted<T>(p: seq<T>, index: nat, x: T): (r: seq<T>)
    requires index <= |p|
    ensures |r| == |p| + 1 && r[index] == x
    ensures forall j :: 0 <= j < index ==> r[j] == p[j]
    ensures forall j :: index <= j < |p| ==> r[j + 1] == p[j]
  {
    p[..index] + [x] + p[index..]
  }

  predicate Refers<T>(d: Dependency, objs: T -> Objs, r: T, t: T) {
    d.Dep(objs(t)).Some? && d.Ref(objs(r)) == d.Dep(objs(t))
  }

  // The index of the first task that refers to t, or the length if none does
  function FirstReferrer<T>(d: Dependency, objs: T -> Objs, p: seq<T>, t: T): (i: nat)
    ensures i <= |p| && (i < |p| ==> Refers(d, objs, p[i], t))
    ensures forall j :: 0 <= j < i ==> !Refers(d, objs, p[j], t)
  {
    if p == [] || Refers(d, objs, p[0], t) then 0 else 1 + FirstReferrer(d, objs, p[1..], t)
  }

  /** A dependency goes in front of the first task visited so far that refers to it; anything else goes last. */
  function Adjusted<T>(d: Dependency, objs: T -> Objs, s: seq<T>): (r: seq<T>)
    ensures |r| == |s| && multiset(r) == multiset(s)
  {
    if s == [] then []
    else
      var p, t := Adjusted(d, objs, s[..|s| - 1]), s[|s| - 1];
      assert s == s[..|s| - 1] + [t];
      var i := FirstReferrer(d, objs, p, t);
      assert p == p[..i] + p[i..];
      Inserted(p, i, t)
  }

  lemma SameElements<T>(a: seq<T>, b: seq<T>, x: T)
    requires multiset(a) == multiset(b)
    ensures x in a <==> x in b
  {
    assert x in a <==> x in multiset(a);
    assert x in b <==> x in multiset(b);
  }

  lemma {:induction false} OnceEach<T>(s: seq<T>)
    ensures NoRepeats(s) <==> forall x :: x in s ==> multiset(s)[x] == 1
  {
    if s != [] {
      assert s == [s[0]] + s[1..];
      OnceEach(s[1..]);
      if NoRepeats(s) {
        forall x | x in s ensures multiset(s)[x] == 1 {
          assert multiset(s)[x] == multiset([s[0]])[x] + multiset(s[1..])[x];
        }
      }
      if forall x :: x in s ==> multiset(s)[x] == 1 {
        assert s[0] !in s[1..] by { assert multiset(s)[s[0]] == 1 + multiset(s[1..])[s[0]]; }
        forall x | x in s[1..] ensures multiset(s[1..])[x] == 1 {
          assert x in s && multiset(s)[x] == multiset([s[0]])[x] + multiset(s[1..])[x];
        }
      }
    }
  }

  lemma AdjustedNoRepeats<T>(d: Dependency, objs: T -> Objs, s: seq<T>)
    requires NoRepeats(s)
    ensures NoRepeats(Adjusted(d, objs, s))
  {
    OnceEach(s);
    OnceEach(Adjusted(d, objs, s));
  }

  lemma IndexAt<T>(s: seq<T>, i: nat)
    requires i < |s| && NoRepeats(s)
    ensures IndexOf(s, s[i]) == i
  {
  }

  lemma InsertedNoRepeats<T>(p: seq<T>, index: nat, t: T)
    requires index <= |p| && NoRepeats(p) && t !in p
    ensures NoRepeats(Inserted(p, index, t))
  {
    var r := Inserted(p, index, t);
    forall i, j | 0 <= i < j < |r| ensures r[i] != r[j] {
      var i', j' := if i <= index then i else i - 1, if j <= index then j else j - 1;
      assert j != index ==> r[j] == p[j'] && r[j] in p;
      assert i != index ==> r[i] == p[i'] && r[i] in p;
    }
  }

  lemma InsertedIndex<T>(p: seq<T>, index: nat, t: T, x: T)
    requires index <= |p| && NoRepeats(p) && t !in p && x in p
    ensures var r := Inserted(p, index, t);
            x in r && t in r && IndexOf(r, t) == index &&
            IndexOf(r, x) == if IndexOf(p, x) < index then IndexOf(p, x) else IndexOf(p, x) + 1
  {
    hide Inserted;
    hide IndexOf;
    hide NoRepeats;
    var r, i := Inserted(p, index, t), IndexOf(p, x);
    var k := if i < index then i else i + 1;
    assert r[k] == x && r[index] == t;
    InsertedNoRepeats(p, index, t);
    IndexAt(r, index);
    IndexAt(r, k);
  }

  // One more element, at a given index: the others keep their order, and it precedes what stood at the index or after.
  lemma InsertedBefore<T>(p: seq<T>, index: nat, t: T, x: T, y: T)
    requires index <= |p| && NoRepeats(p) && t !in p && x in p && y in p
    ensures Before(Inserted(p, index, t), x, y) <==> Before(p, x, y)
    ensures Before(Inserted(p, index, t), t, y) <==> index <= IndexOf(p, y)
    ensures Before(Inserted(p, index, t), y, t) <==> IndexOf(p, y) < index
  {
    hide Inserted;
    InsertedIndex(p, index, t, x);
    InsertedIndex(p, index, t, y);
  }

  // ----- where everything ends up -----

  // The last element of a list, and the list without it
  lemma LastApart<T>(s: seq<T>, x: T, y: T)
    requires s != [] && NoRepeats(s) && x in s && y in s
    ensures var p, t := s[..|s| - 1], s[|s| - 1];
            && NoRepeats(p) && t !in p && (x in p <==> x != t)
            && (Before(s, x, y) <==> x != y && (y == t || (x != t && Before(p, x, y))))
  {
    var n := |s| - 1;
    IndexAt(s, n);
    IndexAt(s, IndexOf(s, x));
    IndexAt(s, IndexOf(s, y));
    if x != s[n] { assert s[..n][IndexOf(s, x)] == x; IndexAt(s[..n], IndexOf(s, x)); }
    if y != s[n] { assert s[..n][IndexOf(s, y)] == y; IndexAt(s[..n], IndexOf(s, y)); }
  }

  // Tasks that are no dependencies keep their order.
  lemma {:induction false} OthersKeepOrder<T>(d: Dependency, objs: T -> Objs, s: seq<T>, x: T, y: T)
    requires NoRepeats(s) && x in s && y in s && d.Dep(objs(x)).None? && d.Dep(objs(y)).None?
    ensures Before(Adjusted(d, objs, s), x, y) <==> Before(s, x, y)
  {
    var p, t := s[..|s| - 1], s[|s| - 1];
    var q := Adjusted(d, objs, p);
    var i := FirstReferrer(d, objs, q, t);
    LastApart(s, x, y);
    LastApart(s, y, x);
    AdjustedNoRepeats(d, objs, p);
    SameElements(p, q, t);
    SameElements(p, q, x);
    SameElements(p, q, y);
    if x != t && y != t {
      OthersKeepOrder(d, objs, p, x, y);
      InsertedBefore(q, i, t, x, y);
    } else if x != y {
      var other := if x == t then y else x;
      assert i == |q|;
      InsertedBefore(q, i, t, other, other);
    }
  }

  // A task that refers to t stands at or before u.
  predicate NeededBy<T(==)>(d: Dependency, objs: T -> Objs, s: seq<T>, t: T, u: T) {
    exists r :: r in s && Refers(d, objs, r, t) && (r == u || Before(s, r, u))
  }

  lemma FirstReferrerNeeded<T>(d: Dependency, objs: T -> Objs, s: seq<T>, t: T, u: T)
    requires NoRepeats(s) && u in s
    ensures FirstReferrer(d, objs, s, t) <= IndexOf(s, u) <==> NeededBy(d, objs, s, t, u)
  {
    var i, k := FirstReferrer(d, objs, s, t), IndexOf(s, u);
    if i <= k {
      IndexAt(s, i);
      assert s[i] in s && (s[i] == u || Before(s, s[i], u));
    }
  }

  // Tasks that refer to something are no dependencies, so they keep their order among the others.
  lemma NeededBySame<T>(d: Dependency, objs: T -> Objs, p: seq<T>, t: T, u: T)
    requires NoRepeats(p) && u in p && d.Dep(objs(u)).None?
    ensures NeededBy(d, objs, Adjusted(d, objs, p), t, u) <==> NeededBy(d, objs, p, t, u)
  {
    hide Adjusted;
    hide Before;
    var q := Adjusted(d, objs, p);
    if NeededBy(d, objs, q, t, u) {
      var r :| r in q && Refers(d, objs, r, t) && (r == u || Before(q, r, u));
      SameElements(p, q, r);
      SameElements(p, q, u);
      OthersKeepOrder(d, objs, p, r, u);
    }
    if NeededBy(d, objs, p, t, u) {
      var r :| r in p && Refers(d, objs, r, t) && (r == u || Before(p, r, u));
      SameElements(p, q, r);
      OthersKeepOrder(d, objs, p, r, u);
    }
  }

  lemma NeededByEarlier<T>(d: Dependency, objs: T -> Objs, s: seq<T>, t: T, u: T)
    requires s != [] && NoRepeats(s) && u in s[..|s| - 1]
    ensures NeededBy(d, objs, s, t, u) <==> NeededBy(d, objs, s[..|s| - 1], t, u)
  {
    var p := s[..|s| - 1];
    forall r ensures r in s && (r == u || Before(s, r, u)) <==> r in p && (r == u || Before(p, r, u)) {
      assert r in p ==> r in s;
      if r in s { LastApart(s, r, u); }
    }
  }

  /**
   Where a dependency ends up among the tasks that are none: before exactly those it preceded already, and those
   at or after a task that refers to it.
   */
  lemma {:induction false} Placed<T>(d: Dependency, objs: T -> Objs, s: seq<T>, t: T, u: T)
    requires NoRepeats(s) && t in s && u in s && d.Dep(objs(t)).Some? && d.Dep(objs(u)).None?
    ensures Before(Adjusted(d, objs, s), t, u) <==> Before(s, t, u) || NeededBy(d, objs, s, t, u)
  {
    var p, x := s[..|s| - 1], s[|s| - 1];
    var q := Adjusted(d, objs, p);
    var i := FirstReferrer(d, objs, q, x);
    LastApart(s, t, u);
    AdjustedNoRepeats(d, objs, p);
    SameElements(p, q, x);
    SameElements(p, q, t);
    SameElements(p, q, u);
    if x == u {
      InsertedBefore(q, i, x, t, t);
      assert i == |q|;
    } else {
      NeededByEarlier(d, objs, s, t, u);
      if x == t {
        InsertedBefore(q, i, x, u, u);
        FirstReferrerNeeded(d, objs, q, x, u);
        NeededBySame(d, objs, p, t, u);
      } else {
        Placed(d, objs, p, t, u);
        InsertedBefore(q, i, x, t, u);
      }
    }
  }

  // ----- both passes -----

  function AfterNamespaces<T>(objs: T -> Objs, s: seq<T>): seq<T> { Adjusted(NAMESPACES, objs, s) }

  function AfterBoth<T>(objs: T -> Objs, s: seq<T>): seq<T> { Adjusted(CRDS, objs, AfterNamespaces(objs, s)) }

  // A CRD and the Namespace it is in
  predicate IsCrdIn<T>(objs: T -> Objs, c: T, n: T) {
    CRDS.Dep(objs(c)).Some? && Refers(NAMESPACES, objs, c, n)
  }

  lemma KindsApart(o: Objs)
    ensures CRDS.Dep(o).None? || NAMESPACES.Dep(o).None?
  {
    assert |CRD_GROUP| > 0;
  }

  /**
   A CRD ends ahead of its own Namespace exactly when, after the pass for Namespaces, a resource of the kind it
   defines stands at or before that Namespace.
   */
  lemma CrdAheadOfNamespace<T>(objs: T -> Objs, s: seq<T>, c: T, n: T)
    requires NoRepeats(s) && c in s && n in s && IsCrdIn(objs, c, n)
    ensures Before(AfterBoth(objs, s), c, n) <==> NeededBy(CRDS, objs, AfterNamespaces(objs, s), c, n)
  {
    var mid := AfterNamespaces(objs, s);
    KindsApart(objs(c));
    KindsApart(objs(n));
    NamespaceFirst(objs, s, c, n);
    AdjustedNoRepeats(NAMESPACES, objs, s);
    SameElements(s, mid, c);
    SameElements(s, mid, n);
    hide Adjusted;
    Placed(CRDS, objs, mid, c, n);
  }

  lemma NamespaceFirst<T>(objs: T -> Objs, s: seq<T>, c: T, n: T)
    requires NoRepeats(s) && c in s && n in s && Refers(NAMESPACES, objs, c, n)
    ensures Before(AfterNamespaces(objs, s), n, c) && !Before(AfterNamespaces(objs, s), c, n)
  {
    hide Adjusted;
    Placed(NAMESPACES, objs, s, n, c);
  }

  /**
   Told of the sorted list, before either pass: a resource of the CRD's kind precedes the Namespace, and nothing
   that is in the Namespace stands at or before that resource.
   */
  lemma CrdAheadExactly<T>(objs: T -> Objs, s: seq<T>, c: T, n: T)
    requires NoRepeats(s) && c in s && n in s && IsCrdIn(objs, c, n)
    requires forall r :: r in s && Refers(CRDS, objs, r, c) ==> NAMESPACES.Dep(objs(r)).None?
    ensures Before(AfterBoth(objs, s), c, n) <==>
            exists r :: r in s && Refers(CRDS, objs, r, c) && Before(s, r, n) && !NeededBy(NAMESPACES, objs, s, n, r)
  {
    hide Adjusted;
    var mid := AfterNamespaces(objs, s);
    CrdAheadOfNamespace(objs, s, c, n);
    AdjustedNoRepeats(NAMESPACES, objs, s);
    forall r | r in s && Refers(CRDS, objs, r, c) ensures r in mid && r != n
      ensures Before(mid, r, n) <==> Before(s, r, n) && !NeededBy(NAMESPACES, objs, s, n, r)
    {
      SameElements(s, mid, r);
      SameElements(s, mid, n);
      Placed(NAMESPACES, objs, s, n, r);
    }
    forall r | r in mid ensures r in s { SameElements(s, mid, r); }
  }

  // ----- an input -----

  function Manifest(key: ResourceKey, wave: int, crdNames: Option<(string, string)>): Task {
    Task(Sync, wave, TargetOnly(Obj(key, "", wave, false, false, {}, {}, crdNames, false, false, NoHealth)), false)
  }

  function ObjsOfTask(): Task -> Objs { (t: Task) => t.objs }

  // A custom resource in an early wave and another namespace, a Namespace, and in it the CRD of that resource
  function EarlyResource(): Task { Manifest(ResourceKey("g", "K", "other", "x"), -1, None) }
  function ItsNamespace(): Task { Manifest(ResourceKey("", NAMESPACE_KIND, "", "app"), 0, None) }
  function ItsCrd(): Task { Manifest(ResourceKey(CRD_GROUP, CRD_KIND, "app", "ks.g"), 1, Some(("g", "K"))) }

  lemma ResourceNamespaceCrd<T>(objs: T -> Objs, r: T, n: T, c: T)
    requires r != n && n != c && r != c && IsCrdIn(objs, c, n) && Refers(CRDS, objs, r, c)
    requires NAMESPACES.Dep(objs(r)).None? && !Refers(NAMESPACES, objs, r, n) && !Refers(CRDS, objs, n, c)
    ensures Before(AfterBoth(objs, [r, n, c]), c, n)
  {
    hide AfterBoth;
    var s := [r, n, c];
    IndexAt(s, 0);
    IndexAt(s, 1);
    CrdAheadExactly(objs, s, c, n);
    assert s[0] == r && s[1] == n && s[2] == c;
    assert r in s && Before(s, r, n) && !NeededBy(NAMESPACES, objs, s, n, r);
  }

  // The list is sorted; the CRD comes before the Namespace it is in all the same.
  lemma CrdAheadInput()
    ensures var s, c, n := [EarlyResource(), ItsNamespace(), ItsCrd()], ItsCrd(), ItsNamespace();
            Scheduled(s) && IsCrdIn(ObjsOfTask(), c, n) && Before(AfterBoth(ObjsOfTask(), s), c, n)
  {
    hide AfterBoth;
    var objs, r, n, c := ObjsOfTask(), EarlyResource(), ItsNamespace(), ItsCrd();
    assert |"K"| == 1 && |NAMESPACE_KIND| > 1 && |CRD_KIND| > |NAMESPACE_KIND| && |CRD_GROUP| > 0;
    assert |"other"| == 5 && |"app"| == 3;
    assert NAMESPACES.Ref(objs(r)) == Some("other") && NAMESPACES.Dep(objs(n)) == Some("app");
    assert CRDS.Dep(objs(c)) == Some("g" + "/" + "K") && CRDS.Ref(objs(r)) == Some("g" + "/" + "K");
    assert CRDS.Ref(objs(n)) == Some("" + "/" + NAMESPACE_KIND);
    assert |"" + "/" + NAMESPACE_KIND| > |"g" + "/" + "K"|;
    ResourceNamespaceCrd(objs, r, n, c);
  }
}
