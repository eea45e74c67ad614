/** IterateHierarchyV2 of pkg/cache/cluster.go, namespace by namespace. */
module IterateHierarchy {
  import opened Kube
  import opened CacheSpec
  import opened NamespaceIndex
  import opened OwnerRefs
  import opened ClusterCache
  import opened OwnerGraph
  import opened BuildGraph
  import opened Backfill
  import opened Hierarchy

  // The keys of one namespace that are cached, in the order given
  function KeysIn(resources: set<ResourceKey>, keys: seq<ResourceKey>, ns: string): (r: seq<ResourceKey>)
    ensures forall k :: k in r <==> k in keys && k in resources && k.namespace == ns
  {
    if keys == [] then []
    else
      var init, k := KeysIn(resources, keys[..|keys| - 1], ns), keys[|keys| - 1];
      if k in resources && k.namespace == ns then init + [k] else init
  }

  method GroupKeys(resources: map<ResourceKey, Resource>, keys: seq<ResourceKey>)
    returns (groups: map<string, seq<ResourceKey>>)
    ensures forall ns :: ns in groups <==> KeysIn(resources.Keys, keys, ns) != []
    ensures forall ns :: ns in groups ==> groups[ns] == KeysIn(resources.Keys, keys, ns)
  {
    groups := map[];
    for i := 0 to |keys|
      invariant forall ns :: ns in groups <==> KeysIn(resources.Keys, keys[..i], ns) != []
      invariant forall ns :: ns in groups ==> groups[ns] == KeysIn(resources.Keys, keys[..i], ns)
    {
      var key := keys[i];
      assert keys[..i + 1][..i] == keys[..i];
      if key in resources {
        groups := groups[key.namespace := (if key.namespace in groups then groups[key.namespace] else []) + [key]];
      }
    }
    assert keys[..|keys|] == keys;
  }

  lemma GraphClosed(nodes: Nodes, edges: set<(ResourceKey, ResourceKey)>, graph: Graph)
    requires IsGraph(nodes, edges, graph)
    ensures forall k :: ChildrenOf(graph, k) <= nodes.Keys
  {
  }

  function Roots(keys: seq<ResourceKey>): set<ResourceKey> {
    set k | k in keys
  }

  // What the walk of a namespace did: it acted on what the given keys reach in a graph of the namespace as it was.
  ghost predicate Walked(ns: map<ResourceKey, Resource>, refs: Refs, keys: seq<ResourceKey>, accept: Accept,
                         graph: Graph, acted: seq<ResourceKey>) {
    && IsGraph(NodesIn(ns), Edges(NodesIn(ns), refs), graph)
    && (forall k :: k in acted <==> Reached(graph, accept, Roots(keys), k))
    && (forall k :: k in acted && accept(k) ==> multiset(acted)[k] == 1)
  }

  // One namespace: its graph, and what the walk acts on
  method IterateNamespace(ns: map<ResourceKey, Resource>, keys: seq<ResourceKey>, accept: Accept)
    returns (acted: seq<ResourceKey>, ghost graph: Graph)
    requires (forall k :: k in ns ==> ns[k].node.key == k) && forall k :: k in keys ==> k in ns
    modifies (set k | k in ns :: ns[k])`ownerRefs
    ensures Walked(ns, old(RefsIn(ns)), keys, accept, graph, acted)
    ensures Filled(ns, NodesIn(ns), old(RefsIn(ns)), ns.Keys)
  {
    hide Filled;
    hide IsGraph;
    hide Edges;
    hide Reached;
    ghost var edges := Edges(NodesIn(ns), RefsIn(ns));
    var g := BuildGraph.BuildGraph(ns);
    GraphClosed(NodesIn(ns), edges, g);
    var walk := new Walk(g, accept, Roots(keys), NodesIn(ns).Keys);
    walk.WalkFrom(keys);
    acted, graph := walk.acted, g;
  }

  // The namespaces of cached keys have buckets.
  lemma Buckets(c: Cluster)
    requires c.Valid()
    ensures forall k :: k in c.resources ==>
              k.namespace in c.nsIndex && c.nsIndex[k.namespace] == InNamespace(c.resources, k.namespace)
  {
  }

  // Where the outer loop stands: the references of the namespaces built so far are backfilled.
  ghost predicate Between(resources: map<ResourceKey, Resource>, refs: Refs, built: set<string>)
    reads (set k | k in resources :: resources[k])`ownerRefs
  {
    refs.Keys == resources.Keys && RefsIn(resources) == BackfillIn(NodesIn(resources), refs, built)
  }

  lemma NodesInNamespace(resources: map<ResourceKey, Resource>, ns: string)
    ensures NodesIn(InNamespace(resources, ns)) == NodesOfNamespace(NodesIn(resources), ns)
  {
  }

  lemma BetweenNone(resources: map<ResourceKey, Resource>)
    ensures Between(resources, RefsIn(resources), {})
  {
  }

  // One more namespace
  lemma BetweenNext(resources: map<ResourceKey, Resource>, refs: Refs, was: Refs, built: set<string>, ns: string)
    requires refs.Keys == resources.Keys && was == BackfillIn(NodesIn(resources), refs, built) && ns !in built
    requires forall k :: k in resources && k.namespace != ns ==> resources[k].ownerRefs == was[k]
    requires Filled(InNamespace(resources, ns), NodesIn(InNamespace(resources, ns)), RefsOf(refs, ns),
                    InNamespace(resources, ns).Keys)
    ensures Between(resources, refs, built + {ns})
  {
    NodesInNamespace(resources, ns);
    hide BackfilledAll;
    forall k | k in resources ensures resources[k].ownerRefs == BackfillIn(NodesIn(resources), refs, built + {ns})[k] {
      if k.namespace == ns { assert k in InNamespace(resources, ns); }
    }
  }

  function RefsOf(refs: Refs, ns: string): Refs {
    map k | k in refs && k.namespace == ns :: refs[k]
  }

  lemma UntouchedRefs(resources: map<ResourceKey, Resource>, refs: Refs, built: set<string>, ns: string)
    requires Between(resources, refs, built) && ns !in built
    ensures RefsIn(InNamespace(resources, ns)) == RefsOf(refs, ns)
  {
  }

  // One round of the outer loop
  method IterateOne(c: Cluster, ns: string, keys: seq<ResourceKey>, accept: Accept, ghost refs: Refs,
                    ghost built: set<string>)
    returns (acted: seq<ResourceKey>, ghost graph: Graph)
    requires (forall k :: k in c.resources ==> c.resources[k].node.key == k)
    requires ns in c.nsIndex && c.nsIndex[ns] == InNamespace(c.resources, ns)
    requires forall k :: k in keys ==> k in c.resources && k.namespace == ns
    requires Between(c.resources, refs, built) && ns !in built
    modifies c.Objects()`ownerRefs
    ensures Walked(InNamespace(c.resources, ns), RefsOf(refs, ns), keys, accept, graph, acted)
    ensures Between(c.resources, refs, built + {ns})
  {
    hide Walked;
    hide RefsOf;
    hide Filled;
    hide BackfillIn;
    ghost var was := RefsIn(c.resources);
    UntouchedRefs(c.resources, refs, built, ns);
    acted, graph := IterateNamespace(c.nsIndex[ns], keys, accept);
    BetweenNext(c.resources, refs, was, built, ns);
  }

  // What the walks of some namespaces did
  ghost predicate WalkedAll(resources: map<ResourceKey, Resource>, refs: Refs, groups: map<string, seq<ResourceKey>>,
                            accept: Accept, graphs: map<string, Graph>, acted: map<string, seq<ResourceKey>>) {
    && acted.Keys == graphs.Keys <= groups.Keys
    && forall ns :: ns in acted ==>
         Walked(InNamespace(resources, ns), RefsOf(refs, ns), groups[ns], accept, graphs[ns], acted[ns])
  }

  lemma WalkedNext(resources: map<ResourceKey, Resource>, refs: Refs, groups: map<string, seq<ResourceKey>>,
                   accept: Accept, graphs: map<string, Graph>, acted: map<string, seq<ResourceKey>>, ns: string,
                   graph: Graph, did: seq<ResourceKey>)
    requires WalkedAll(resources, refs, groups, accept, graphs, acted) && ns in groups
    requires Walked(InNamespace(resources, ns), RefsOf(refs, ns), groups[ns], accept, graph, did)
    ensures WalkedAll(resources, refs, groups, accept, graphs[ns := graph], acted[ns := did])
    ensures acted[ns := did].Keys == acted.Keys + {ns}
  {
    hide Walked;
  }

  lemma WalkedNone(resources: map<ResourceKey, Resource>, refs: Refs, groups: map<string, seq<ResourceKey>>,
                   accept: Accept)
    ensures WalkedAll(resources, refs, groups, accept, map[], map[])
  {
  }

  // The groups are of cached keys, by namespace, and the namespaces have buckets.
  ghost predicate InBuckets(c: Cluster, groups: map<string, seq<ResourceKey>>)
    reads c
  {
    && (forall k :: k in c.resources ==> c.resources[k].node.key == k)
    && (forall ns :: ns in groups ==> ns in c.nsIndex && c.nsIndex[ns] == InNamespace(c.resources, ns))
    && forall ns, k :: ns in groups && k in groups[ns] ==> k in c.resources && k.namespace == ns
  }

  method IterateNext(c: Cluster, groups: map<string, seq<ResourceKey>>, accept: Accept, ns: string,
                     acted: map<string, seq<ResourceKey>>, ghost graphs: map<string, Graph>, ghost refs: Refs,
                     ghost built: set<string>)
    returns (acted': map<string, seq<ResourceKey>>, ghost graphs': map<string, Graph>)
    requires InBuckets(c, groups) && ns in groups && ns !in built
    requires Between(c.resources, refs, built) && WalkedAll(c.resources, refs, groups, accept, graphs, acted)
    modifies c.Objects()`ownerRefs
    ensures Between(c.resources, refs, built + {ns}) && WalkedAll(c.resources, refs, groups, accept, graphs', acted')
    ensures acted'.Keys == acted.Keys + {ns}
  {
    hide Walked;
    hide Between;
    hide WalkedAll;
    hide InNamespace;
    hide RefsOf;
    var did, graph := IterateOne(c, ns, groups[ns], accept, refs, built);
    WalkedNext(c.resources, refs, groups, accept, graphs, acted, ns, graph, did);
    acted', graphs' := acted[ns := did], graphs[ns := graph];
  }

  // The outer loop, over the namespaces in any order
  method IterateGroups(c: Cluster, groups: map<string, seq<ResourceKey>>, accept: Accept)
    returns (acted: map<string, seq<ResourceKey>>, ghost graphs: map<string, Graph>)
    requires InBuckets(c, groups)
    modifies c.Objects()`ownerRefs
    ensures acted.Keys == groups.Keys && WalkedAll(c.resources, old(RefsIn(c.resources)), groups, accept, graphs, acted)
    ensures Between(c.resources, old(RefsIn(c.resources)), groups.Keys)
  {
    hide *;
    ghost var refs := RefsIn(c.resources);
    BetweenNone(c.resources);
    WalkedNone(c.resources, refs, groups, accept);
    acted, graphs := map[], map[];
    var todo := groups.Keys;
    ghost var built := {};
    while todo != {}
      invariant todo <= groups.Keys && acted.Keys == built == groups.Keys - todo
      invariant Between(c.resources, refs, built) && WalkedAll(c.resources, refs, groups, accept, graphs, acted)
      decreases |todo|
    {
      var ns :| ns in todo;
      acted, graphs := IterateNext(c, groups, accept, ns, acted, graphs, refs, built);
      todo, built := todo - {ns}, built + {ns};
    }
    assert built == groups.Keys;
  }

  // The walks, with what they leave of the references
  method IterateCached(c: Cluster, keys: seq<ResourceKey>, accept: Accept)
    returns (acted: map<string, seq<ResourceKey>>, ghost graphs: map<string, Graph>)
    requires c.Valid()
    modifies c.Objects()`ownerRefs
    ensures acted.Keys == graphs.Keys
    ensures forall ns :: ns in acted <==> KeysIn(c.resources.Keys, keys, ns) != []
    ensures var refs := old(RefsIn(c.resources));
            forall ns :: ns in acted ==>
              Walked(InNamespace(c.resources, ns), RefsOf(refs, ns), KeysIn(c.resources.Keys, keys, ns), accept,
                     graphs[ns], acted[ns])
    ensures c.Valid() && Between(c.resources, old(RefsIn(c.resources)), acted.Keys)
  {
    hide Walked;
    hide Partition;
    hide InNamespace;
    hide RefsOf;
    hide KeysIn;
    hide Between;
    hide RefsIn;
    var groups := GroupKeys(c.resources, keys);
    assert forall ns :: ns in groups ==> groups[ns][0] in groups[ns];
    Buckets(c);
    acted, graphs := IterateGroups(c, groups, accept);
  }

  // Only the claims' owners matter to the invariant.
  lemma InferredOnClaims(a: Cache, b: Cache)
    requires a.Keys == b.Keys
    requires forall k :: k in a ==> a[k].node == b[k].node && (a[k].node.IsClaim() ==> a[k].owners == b[k].owners)
    ensures Inferred(a) <==> Inferred(b)
  {
    assert NodesOf(a) == NodesOf(b);
  }

  // No claim has a reference without UID.
  predicate ClaimsFull(resources: map<ResourceKey, Resource>)
    reads (set k | k in resources :: resources[k])`ownerRefs
  {
    forall k :: k in resources && resources[k].node.IsClaim() ==> "" !in Uids(resources[k].ownerRefs)
  }

  // What the walk may ask of the cache before, as a statement about the references
  lemma BeforeWalk(c: Cluster)
    ensures c.Contents() == CacheOf(NodesIn(c.resources), RefsIn(c.resources))
    ensures c.AllTidy() <==> TidyRefs(NodesIn(c.resources), RefsIn(c.resources))
    ensures ClaimsFull(c.resources) <==> FullRefs(NodesIn(c.resources), RefsIn(c.resources))
  {
    hide Uids;
    hide UidsDistinct;
  }

  predicate FullRefs(nodes: Nodes, refs: Refs)
    requires refs.Keys == nodes.Keys
  {
    forall k :: k in nodes && nodes[k].IsClaim() ==> "" !in Uids(refs[k])
  }

  lemma StillInferred(nodes: Nodes, refs: Refs, built: set<string>)
    requires refs.Keys == nodes.Keys && FullRefs(nodes, refs)
    ensures TidyRefs(nodes, BackfillIn(nodes, refs, built)) <==> TidyRefs(nodes, refs)
    ensures Inferred(CacheOf(nodes, BackfillIn(nodes, refs, built))) <==> Inferred(CacheOf(nodes, refs))
  {
    hide Uids;
    hide UidsDistinct;
    hide Inferred;
    hide BackfilledAll;
    forall k | k in nodes && nodes[k].IsClaim() ensures BackfillIn(nodes, refs, built)[k] == refs[k] {
      FullBackfilled(NodesOfNamespace(nodes, k.namespace), k.namespace, refs[k]);
    }
    InferredOnClaims(CacheOf(nodes, refs), CacheOf(nodes, BackfillIn(nodes, refs, built)));
  }

  predicate ParentsHaveUids(nodes: Nodes) {
    forall k :: k in nodes && nodes[k].IsParent() ==> nodes[k].uid != ""
  }

  /**
   In every namespace that has one of the given keys the action is called on exactly what those keys reach, and
   on each resource it accepts once; the graph is that of the owner references as they were. The references of those
   namespaces come out backfilled and no others change. The cache stays valid; it stays as inferred as it was where no
   claim has a reference without UID, and in general exactly when no parent that denies a claim is filled in for it.
   */
  method IterateHierarchyV2(c: Cluster, keys: seq<ResourceKey>, accept: Accept)
    returns (acted: map<string, seq<ResourceKey>>, ghost graphs: map<string, Graph>)
    requires c.Valid()
    modifies c.Objects()`ownerRefs
    ensures acted.Keys == graphs.Keys
    ensures forall ns :: ns in acted <==> KeysIn(c.resources.Keys, keys, ns) != []
    ensures var refs := old(RefsIn(c.resources));
            forall ns :: ns in acted ==>
              Walked(InNamespace(c.resources, ns), RefsOf(refs, ns), KeysIn(c.resources.Keys, keys, ns), accept,
                     graphs[ns], acted[ns])
    ensures c.Valid() && Between(c.resources, old(RefsIn(c.resources)), acted.Keys)
    ensures old(ClaimsFull(c.resources)) ==>
              (c.AllTidy() <==> old(c.AllTidy())) && (Inferred(c.Contents()) <==> old(Inferred(c.Contents())))
    ensures old(Inferred(c.Contents())) && ParentsHaveUids(NodesIn(c.resources)) ==>
              (Inferred(c.Contents()) <==>
               forall s, v :: !FillsWrongly(NodesIn(c.resources), old(RefsIn(c.resources)), acted.Keys, s, v))
  {
    hide *;
    ghost var nodes, refs := NodesIn(c.resources), RefsIn(c.resources);
    BeforeWalk(c);
    acted, graphs := IterateCached(c, keys, accept);
    BeforeWalk(c);
    BetweenIs(c.resources, refs, acted.Keys);
    if FullRefs(nodes, refs) { StillInferred(nodes, refs, acted.Keys); }
    if Inferred(CacheOf(nodes, refs)) && ParentsHaveUids(nodes) {
      HaveUids(nodes);
      BackfillKeepsInferred(nodes, refs, acted.Keys);
    }
  }

  lemma BetweenIs(resources: map<ResourceKey, Resource>, refs: Refs, built: set<string>)
    requires Between(resources, refs, built)
    ensures refs.Keys == resources.Keys && RefsIn(resources) == BackfillIn(NodesIn(resources), refs, built)
  {
  }

  lemma HaveUids(nodes: Nodes)
    requires ParentsHaveUids(nodes)
    ensures forall s :: s in nodes && nodes[s].IsParent() ==> nodes[s].uid != ""
  {
  }
}
