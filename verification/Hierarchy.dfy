/**
 The walk down the ownership graph (IterateHierarchyV2 of pkg/cache/cluster.go, iterateChildrenV2 of
 pkg/cache/resource.go): depth first, with three colours, cut off wherever the caller's action says no.
 */
module Hierarchy {
  import opened Kube
  import opened OwnerGraph

  type Accept = ResourceKey -> bool

  function ChildrenOf(graph: Graph, k: ResourceKey): set<ResourceKey> {
    if k in graph then set u | u in graph[k] :: graph[k][u] else {}
  }

  // A path down the graph whose nodes, the last excepted, are all accepted
  ghost predicate IsPath(graph: Graph, accept: Accept, path: seq<ResourceKey>) {
    path != [] && forall i :: 0 <= i < |path| - 1 ==> accept(path[i]) && path[i + 1] in ChildrenOf(graph, path[i])
  }

  ghost predicate Reached(graph: Graph, accept: Accept, roots: set<ResourceKey>, k: ResourceKey) {
    exists path :: IsPath(graph, accept, path) && path[0] in roots && path[|path| - 1] == k
  }

  lemma ReachedRoot(graph: Graph, accept: Accept, roots: set<ResourceKey>, k: ResourceKey)
    requires k in roots
    ensures Reached(graph, accept, roots, k)
  {
    assert IsPath(graph, accept, [k]);
  }

  lemma ReachedChild(graph: Graph, accept: Accept, roots: set<ResourceKey>, p: ResourceKey, c: ResourceKey)
    requires Reached(graph, accept, roots, p) && accept(p) && c in ChildrenOf(graph, p)
    ensures Reached(graph, accept, roots, c)
  {
    var path :| IsPath(graph, accept, path) && path[0] in roots && path[|path| - 1] == p;
    var longer := path + [c];
    assert IsPath(graph, accept, longer) && longer[0] in roots && longer[|longer| - 1] == c;
  }

  // A set with the roots, and with the children of its accepted members, has everything that is reached.
  lemma {:induction false} ClosedHasPath(graph: Graph, accept: Accept, s: set<ResourceKey>, path: seq<ResourceKey>)
    requires IsPath(graph, accept, path) && path[0] in s
    requires forall p, c :: p in s && accept(p) && c in ChildrenOf(graph, p) ==> c in s
    ensures path[|path| - 1] in s
  {
    if |path| > 1 {
      assert path[1] in ChildrenOf(graph, path[0]);
      var rest := path[1..];
      forall i | 0 <= i < |rest| - 1 ensures accept(rest[i]) && rest[i + 1] in ChildrenOf(graph, rest[i]) {
        assert rest[i] == path[i + 1] && rest[i + 1] == path[i + 1 + 1];
      }
      ClosedHasPath(graph, accept, s, rest);
    }
  }

  lemma ClosedHasReached(graph: Graph, accept: Accept, roots: set<ResourceKey>, s: set<ResourceKey>, k: ResourceKey)
    requires roots <= s && Reached(graph, accept, roots, k)
    requires forall p, c :: p in s && accept(p) && c in ChildrenOf(graph, p) ==> c in s
    ensures k in s
  {
    var path :| IsPath(graph, accept, path) && path[0] in roots && path[|path| - 1] == k;
    ClosedHasPath(graph, accept, s, path);
  }

  // ----- the walk -----

  function Colour(visited: map<ResourceKey, int>, k: ResourceKey): int {
    if k in visited then visited[k] else 0
  }

  // Where a walk stands: the colours, and the resources acted on so far
  datatype Trace = Trace(visited: map<ResourceKey, int>, acted: seq<ResourceKey>)

  /**
   What holds throughout. Accepted resources that have been acted on are the coloured ones and those in `open`,
   which are about to be coloured; each has been acted on once; a finished one has had all its children acted on.
   */
  ghost predicate Sound(graph: Graph, accept: Accept, roots: set<ResourceKey>, open: set<ResourceKey>, t: Trace) {
    && (forall k :: Colour(t.visited, k) in {0, 1, 2})
    && (forall k :: k in t.acted ==> Reached(graph, accept, roots, k))
    && (forall k :: (Colour(t.visited, k) != 0 || k in open) <==> (k in t.acted && accept(k)))
    && (forall k :: k in t.acted && accept(k) ==> multiset(t.acted)[k] == 1)
    && (forall k, c :: Colour(t.visited, k) == 2 && c in ChildrenOf(graph, k) ==> c in t.acted)
  }

  // A part of the walk acts on more, and what it colours it also finishes.
  ghost predicate Extends(before: Trace, after: Trace) {
    && before.acted <= after.acted
    && (forall k :: Colour(before.visited, k) != 0 ==> Colour(after.visited, k) == Colour(before.visited, k))
    && (forall k :: Colour(before.visited, k) == 0 ==> Colour(after.visited, k) in {0, 2})
  }

  lemma ExtendsTransitive(a: Trace, b: Trace, c: Trace)
    requires Extends(a, b) && Extends(b, c)
    ensures Extends(a, c)
  {
  }

  lemma SoundAct(graph: Graph, accept: Accept, roots: set<ResourceKey>, t: Trace, k: ResourceKey)
    requires Sound(graph, accept, roots, {}, t) && Reached(graph, accept, roots, k) && Colour(t.visited, k) == 0
    ensures Sound(graph, accept, roots, if accept(k) then {k} else {}, t.(acted := t.acted + [k]))
    ensures Extends(t, t.(acted := t.acted + [k]))
  {
  }

  lemma SoundOpen(graph: Graph, accept: Accept, roots: set<ResourceKey>, t: Trace, k: ResourceKey)
    requires Sound(graph, accept, roots, {k}, t) && Colour(t.visited, k) == 0
    ensures Sound(graph, accept, roots, {}, t.(visited := t.visited[k := 1]))
  {
    var next := t.(visited := t.visited[k := 1]);
    assert forall c :: Colour(next.visited, c) == if c == k then 1 else Colour(t.visited, c);
  }

  lemma SoundFinish(graph: Graph, accept: Accept, roots: set<ResourceKey>, t: Trace, k: ResourceKey)
    requires Sound(graph, accept, roots, {}, t) && Colour(t.visited, k) == 1
    requires forall c :: c in ChildrenOf(graph, k) ==> c in t.acted
    ensures Sound(graph, accept, roots, {}, t.(visited := t.visited[k := 2]))
  {
    var next := t.(visited := t.visited[k := 2]);
    assert forall c :: Colour(next.visited, c) == if c == k then 2 else Colour(t.visited, c);
  }

  lemma ExtendsAround(before: Trace, start: Trace, end: Trace, k: ResourceKey)
    requires Colour(before.visited, k) == 0 && start == before.(visited := before.visited[k := 1])
    requires Extends(start, end)
    ensures Extends(before, end.(visited := end.visited[k := 2]))
  {
    var after := end.(visited := end.visited[k := 2]);
    assert forall c :: Colour(after.visited, c) == if c == k then 2 else Colour(end.visited, c);
    assert forall c :: Colour(start.visited, c) == if c == k then 1 else Colour(before.visited, c);
  }

  class Walk {
    const graph: Graph
    const accept: Accept
    ghost const roots: set<ResourceKey>
    ghost const universe: set<ResourceKey>
    var visited: map<ResourceKey, int>
    var acted: seq<ResourceKey>

    constructor (graph: Graph, accept: Accept, ghost roots: set<ResourceKey>, ghost universe: set<ResourceKey>)
      ensures this.graph == graph && this.accept == accept && this.roots == roots && this.universe == universe
      ensures visited == map[] && acted == []
    {
      this.graph, this.accept := graph, accept;
      this.roots, this.universe := roots, universe;
      visited, acted := map[], [];
    }

    ghost function Now(): Trace
      reads this
    {
      Trace(visited, acted)
    }

    ghost predicate IsSound(open: set<ResourceKey>)
      reads this
    {
      Sound(graph, accept, roots, open, Now())
    }

    ghost function Uncoloured(): set<ResourceKey>
      reads this
    {
      set k | k in universe && Colour(visited, k) == 0
    }

    ghost predicate Closed() {
      forall k :: k in universe ==> ChildrenOf(graph, k) <= universe
    }

    // The caller's action: it is told of the resource, and answers whether to go on below it.
    method Act(k: ResourceKey) returns (ok: bool)
      requires IsSound({}) && Reached(graph, accept, roots, k) && Colour(visited, k) == 0
      modifies this`acted
      ensures acted == old(acted) + [k] && ok == accept(k)
      ensures IsSound(if ok then {k} else {}) && Extends(old(Now()), Now())
    {
      SoundAct(graph, accept, roots, Now(), k);
      acted := acted + [k];
      ok := accept(k);
    }

    // iterateChildrenV2
    method IterateChildren(key: ResourceKey)
      requires Closed() && key in universe && Reached(graph, accept, roots, key) && accept(key)
      requires Colour(visited, key) == 0 && IsSound({key})
      modifies this
      ensures IsSound({}) && Colour(visited, key) == 2 && Extends(old(Now()), Now())
      decreases Uncoloured(), 0
    {
      hide Sound;
      hide Extends;
      ghost var before := Now();
      SoundOpen(graph, accept, roots, before, key);
      visited := visited[key := 1];
      ghost var start := Now();
      assert key in old(Uncoloured()) && key !in Uncoloured();
      VisitChildren(key);
      SoundFinish(graph, accept, roots, Now(), key);
      ExtendsAround(before, start, Now(), key);
      visited := visited[key := 2];
    }

    // The loop over the children of a resource, in whatever order the map yields them
    method VisitChildren(key: ResourceKey)
      requires Closed() && key in universe && Reached(graph, accept, roots, key) && accept(key)
      requires Colour(visited, key) == 1 && IsSound({})
      modifies this
      ensures IsSound({}) && Extends(old(Now()), Now())
      ensures Colour(visited, key) == 1 && forall c :: c in ChildrenOf(graph, key) ==> c in acted
      decreases Uncoloured(), 2
    {
      if key in graph {
        var todo := graph[key].Keys;
        while todo != {}
          invariant todo <= graph[key].Keys && IsSound({}) && Extends(old(Now()), Now())
          invariant forall u :: u in graph[key] && u !in todo ==> graph[key][u] in acted
          decreases |todo|
        {
          var u :| u in todo;
          assert Uncoloured() <= old(Uncoloured());
          VisitChild(key, graph[key][u]);
          todo := todo - {u};
        }
      }
    }

    method VisitChild(key: ResourceKey, c: ResourceKey)
      requires Closed() && key in universe && Reached(graph, accept, roots, key) && accept(key)
      requires c in ChildrenOf(graph, key) && IsSound({})
      modifies this
      ensures IsSound({}) && Extends(old(Now()), Now()) && c in acted
      decreases Uncoloured(), 1
    {
      // a child being visited closes a cycle, and is left alone like one already finished
      if c !in visited || visited[c] == 0 {
        ReachedChild(graph, accept, roots, key, c);
        ghost var before := Now();
        var ok := Act(c);
        ghost var between := Now();
        if ok {
          IterateChildren(c);
          ExtendsTransitive(before, between, Now());
        }
      }
    }

    /**
     The walk from the given keys: it acts on exactly what is reached, and on what it accepts exactly once.
     What follows an accepted key is what iterateChildrenV2 does.
     */
    method WalkFrom(keys: seq<ResourceKey>)
      requires Closed() && roots <= universe && (forall k :: k in keys <==> k in roots)
      requires visited == map[] && acted == []
      modifies this
      ensures forall k :: k in acted <==> Reached(graph, accept, roots, k)
      ensures forall k :: k in acted && accept(k) ==> multiset(acted)[k] == 1
    {
      hide Sound;
      hide Extends;
      visited := map k | k in keys :: 0;
      NothingActed(graph, accept, roots, Now());
      for i := 0 to |keys|
        invariant IsSound({}) && Idle(Now())
        invariant forall j :: 0 <= j < i ==> keys[j] in acted
      {
        WalkOne(keys[i]);
      }
      AllActed(graph, accept, roots, Now());
    }

    method WalkOne(key: ResourceKey)
      requires Closed() && key in universe && key in roots && IsSound({}) && Idle(Now())
      modifies this
      ensures IsSound({}) && Idle(Now()) && old(acted) <= acted && key in acted
    {
      if Colour(visited, key) == 2 {
        return;
      }
      ReachedRoot(graph, accept, roots, key);
      var ok := Act(key);
      if ok {
        IterateChildren(key);
      }
    }
  }

  // Nothing is being visited.
  ghost predicate Idle(t: Trace) {
    forall k :: Colour(t.visited, k) != 1
  }

  lemma NothingActed(graph: Graph, accept: Accept, roots: set<ResourceKey>, t: Trace)
    requires t.acted == [] && forall k :: Colour(t.visited, k) == 0
    ensures Sound(graph, accept, roots, {}, t) && Idle(t)
  {
  }

  lemma AllActed(graph: Graph, accept: Accept, roots: set<ResourceKey>, t: Trace)
    requires Sound(graph, accept, roots, {}, t) && Idle(t) && forall k :: k in roots ==> k in t.acted
    ensures forall k :: k in t.acted <==> Reached(graph, accept, roots, k)
    ensures forall k :: k in t.acted && accept(k) ==> multiset(t.acted)[k] == 1
  {
    var s := set k | k in t.acted;
    forall p, c | p in s && accept(p) && c in ChildrenOf(graph, p) ensures c in s {
      assert Colour(t.visited, p) == 2;
    }
    forall k | Reached(graph, accept, roots, k) ensures k in t.acted {
      ClosedHasReached(graph, accept, roots, s, k);
    }
  }
}
