/** buildGraph of pkg/cache/cluster.go: the loops, and the proof that they build the graph. */
module BuildGraph {
  import opened Kube
  import opened CacheSpec
  import opened OwnerRefs
  import opened OwnerGraph

  function BackfilledAll(nodes: Nodes, ns: string, refs: seq<OwnerRef>): (r: seq<OwnerRef>)
    ensures |r| == |refs|
  {
    seq(|refs|, i requires 0 <= i < |refs| => Backfilled(nodes, ns, refs[i]))
  }

  // A rebuilt graph is the same graph: backfilling moves no edge.
  lemma BackfillKeepsEdges(nodes: Nodes, refs: Refs)
    ensures Edges(nodes, map c | c in refs :: BackfilledAll(nodes, c.namespace, refs[c])) == Edges(nodes, refs)
  {
    var filled := map c | c in refs :: BackfilledAll(nodes, c.namespace, refs[c]);
    forall p, c ensures IsEdge(nodes, filled, p, c) <==> IsEdge(nodes, refs, p, c) {
      if c in refs {
        forall i, u | 0 <= i < |refs[c]|
          ensures StandsFor(nodes, c.namespace, filled[c][i], u) <==> StandsFor(nodes, c.namespace, refs[c][i], u)
        {
          BackfillStable(nodes, c.namespace, refs[c][i]);
          OwnerUidIs(nodes, c.namespace, filled[c][i], u);
          OwnerUidIs(nodes, c.namespace, refs[c][i], u);
        }
      }
    }
  }

  type UidIndex = map<string, seq<ResourceKey>>

  ghost predicate IndexedByUid(nodes: Nodes, keys: set<ResourceKey>, byUid: UidIndex) {
    forall u, k :: (u in byUid && k in byUid[u]) <==> (k in keys && k in nodes && nodes[k].uid == u)
  }

  method IndexByUid(ns: map<ResourceKey, Resource>) returns (byUid: UidIndex)
    ensures IndexedByUid(NodesIn(ns), ns.Keys, byUid)
  {
    byUid := map[];
    var todo := ns.Keys;
    while todo != {}
      invariant todo <= ns.Keys && IndexedByUid(NodesIn(ns), ns.Keys - todo, byUid)
      decreases |todo|
    {
      var k :| k in todo;
      var uid := ns[k].node.uid;
      byUid := byUid[uid := (if uid in byUid then byUid[uid] else []) + [k]];
      todo := todo - {k};
    }
    assert ns.Keys - {} == ns.Keys;
  }

  function PairsTo(owners: seq<ResourceKey>, c: ResourceKey): set<(ResourceKey, ResourceKey)> {
    set p | p in owners :: (p, c)
  }

  lemma PairsNext(edges: set<(ResourceKey, ResourceKey)>, owners: seq<ResourceKey>, c: ResourceKey, j: nat)
    requires j < |owners|
    ensures edges + PairsTo(owners[..j + 1], c) == edges + PairsTo(owners[..j], c) + {(owners[j], c)}
  {
  }

  // One reference of the child resolved: its owners get the child.
  method AddEdges(nodes: Nodes, owners: seq<ResourceKey>, c: ResourceKey, graph0: Graph,
                  ghost edges: set<(ResourceKey, ResourceKey)>)
    returns (graph: Graph)
    requires c in nodes && IsGraph(nodes, edges, graph0)
    ensures IsGraph(nodes, edges + PairsTo(owners, c), graph)
  {
    hide IsGraph;
    hide AddEdge;
    graph := graph0;
    assert edges + PairsTo(owners[..0], c) == edges;
    for j := 0 to |owners|
      invariant IsGraph(nodes, edges + PairsTo(owners[..j], c), graph)
    {
      AddEdgeGraph(nodes, edges + PairsTo(owners[..j], c), graph, owners[j], c);
      PairsNext(edges, owners, c, j);
      graph := AddEdge(nodes, graph, owners[j], c);
    }
    assert owners[..|owners|] == owners;
  }

  // The pairs that the first i references of a child make
  function EdgesUpTo(nodes: Nodes, c: ResourceKey, refs: seq<OwnerRef>, i: nat): set<(ResourceKey, ResourceKey)>
    requires i <= |refs|
  {
    set p | p in nodes && (exists j :: 0 <= j < i && OwnerUid(nodes, c.namespace, refs[j]) == Some(nodes[p].uid))
      :: (p, c)
  }

  lemma EdgesNext(nodes: Nodes, byUid: UidIndex, c: ResourceKey, refs: seq<OwnerRef>, i: nat)
    requires i < |refs| && IndexedByUid(nodes, nodes.Keys, byUid)
    ensures var uid := OwnerUid(nodes, c.namespace, refs[i]);
            var owners := if uid.Some? && uid.value in byUid then byUid[uid.value] else [];
            EdgesUpTo(nodes, c, refs, i + 1) == EdgesUpTo(nodes, c, refs, i) + PairsTo(owners, c)
  {
  }

  // The loop over the references of one child
  method LinkChild(nodes: Nodes, byUid: UidIndex, child: Resource, graph0: Graph,
                   ghost edges: set<(ResourceKey, ResourceKey)>)
    returns (graph: Graph)
    requires child.node.key in nodes && IndexedByUid(nodes, nodes.Keys, byUid) && IsGraph(nodes, edges, graph0)
    modifies child`ownerRefs
    ensures var c, refs := child.node.key, old(child.ownerRefs);
            child.ownerRefs == BackfilledAll(nodes, c.namespace, refs)
            && IsGraph(nodes, edges + EdgesUpTo(nodes, c, refs, |refs|), graph)
  {
    hide IsGraph;
    hide IndexedByUid;
    hide NamedOwner;
    hide EdgesUpTo;
    var c := child.node.key;
    ghost var refs := child.ownerRefs;
    graph := graph0;
    assert edges + EdgesUpTo(nodes, c, refs, 0) == edges by { NoEdges(nodes, c, refs); }
    for i := 0 to |child.ownerRefs|
      invariant |child.ownerRefs| == |refs|
      invariant forall j :: 0 <= j < |refs| ==>
                  child.ownerRefs[j] == if j < i then Backfilled(nodes, c.namespace, refs[j]) else refs[j]
      invariant IsGraph(nodes, edges + EdgesUpTo(nodes, c, refs, i), graph)
    {
      EdgesNext(nodes, byUid, c, refs, i);
      ghost var now := edges + EdgesUpTo(nodes, c, refs, i);
      var ref := child.ownerRefs[i];
      var found := true;
      if ref.uid == "" {
        var owner := NamedOwner(nodes, c.namespace, ref);
        if owner.None? {
          found := false;
        } else {
          ref := ref.(uid := nodes[owner.value].uid);
          child.ownerRefs := child.ownerRefs[i := ref];
        }
      }
      if found && ref.uid in byUid {
        graph := AddEdges(nodes, byUid[ref.uid], c, graph, now);
        assert now + PairsTo(byUid[ref.uid], c) == edges + EdgesUpTo(nodes, c, refs, i + 1);
      } else {
        assert now == edges + EdgesUpTo(nodes, c, refs, i + 1);
      }
    }
  }

  lemma NoEdges(nodes: Nodes, c: ResourceKey, refs: seq<OwnerRef>)
    ensures EdgesUpTo(nodes, c, refs, 0) == {}
  {
  }

  // The pairs of the children that have been looped over
  ghost function EdgesTo(nodes: Nodes, refs: Refs, done: set<ResourceKey>): set<(ResourceKey, ResourceKey)> {
    set p, c | p in nodes && c in done && IsEdge(nodes, refs, p, c) :: (p, c)
  }

  lemma ChildDone(nodes: Nodes, refs: Refs, done: set<ResourceKey>, c: ResourceKey)
    requires c in refs && c in nodes
    ensures EdgesTo(nodes, refs, done + {c}) == EdgesTo(nodes, refs, done) + EdgesUpTo(nodes, c, refs[c], |refs[c]|)
  {
    hide StandsFor;
    hide OwnerUid;
    forall i, u | 0 <= i < |refs[c]| { OwnerUidIs(nodes, c.namespace, refs[c][i], u); }
  }

  lemma AllChildrenDone(nodes: Nodes, refs: Refs)
    ensures EdgesTo(nodes, refs, nodes.Keys) == Edges(nodes, refs)
    ensures EdgesTo(nodes, refs, {}) == {}
  {
  }

  ghost predicate Filled(ns: map<ResourceKey, Resource>, nodes: Nodes, refs: Refs, done: set<ResourceKey>)
    requires refs.Keys == ns.Keys
    reads (set k | k in ns :: ns[k])`ownerRefs
  {
    forall k :: k in ns ==>
      ns[k].ownerRefs == if k in done then BackfilledAll(nodes, k.namespace, refs[k]) else refs[k]
  }

  lemma FilledNone(ns: map<ResourceKey, Resource>, nodes: Nodes)
    ensures Filled(ns, nodes, RefsIn(ns), {})
  {
  }

  method LinkOne(ns: map<ResourceKey, Resource>, nodes: Nodes, byUid: UidIndex, c: ResourceKey, graph0: Graph,
                 ghost refs: Refs, ghost done: set<ResourceKey>)
    returns (graph: Graph)
    requires (forall k :: k in ns ==> ns[k].node.key == k) && nodes == NodesIn(ns) && refs.Keys == ns.Keys
    requires c in ns && c !in done && IndexedByUid(nodes, ns.Keys, byUid)
    requires Filled(ns, nodes, refs, done) && IsGraph(nodes, EdgesTo(nodes, refs, done), graph0)
    modifies (set k | k in ns :: ns[k])`ownerRefs
    ensures Filled(ns, nodes, refs, done + {c}) && IsGraph(nodes, EdgesTo(nodes, refs, done + {c}), graph)
  {
    hide IsGraph;
    hide IndexedByUid;
    hide EdgesTo;
    hide EdgesUpTo;
    hide BackfilledAll;
    assert nodes.Keys == ns.Keys;
    ChildDone(nodes, refs, done, c);
    graph := LinkChild(nodes, byUid, ns[c], graph0, EdgesTo(nodes, refs, done));
  }

  // c has the UID u, and a reference that stands for p.
  ghost predicate IsChildOf(nodes: Nodes, refs: Refs, p: ResourceKey, u: string, c: ResourceKey) {
    IsEdge(nodes, refs, p, c) && nodes[c].uid == u
  }

  // The graph has an entry for an owner and a UID exactly where there is such a child, and the entry is one.
  ghost predicate EntriesAre(nodes: Nodes, refs: Refs, graph: Graph) {
    && (forall p, u :: (p in graph && u in graph[p]) <==> exists c :: IsChildOf(nodes, refs, p, u, c))
    && (forall p, u :: p in graph && u in graph[p] ==> IsChildOf(nodes, refs, p, u, graph[p][u]))
  }

  lemma GraphEntries(nodes: Nodes, refs: Refs, graph: Graph)
    requires IsGraph(nodes, Edges(nodes, refs), graph)
    ensures EntriesAre(nodes, refs, graph)
  {
    var edges := Edges(nodes, refs);
    assert forall p, u, c :: Candidate(nodes, edges, p, u, c) <==> IsChildOf(nodes, refs, p, u, c) by {
      hide StandsFor;
    }
    hide IsChildOf;
    hide Candidate;
    forall p, u | p in graph && u in graph[p] ensures IsChildOf(nodes, refs, p, u, graph[p][u]) {
      assert Candidate(nodes, edges, p, u, graph[p][u]);
    }
    forall p, u, c | IsChildOf(nodes, refs, p, u, c) ensures p in graph && u in graph[p] {
      assert Candidate(nodes, edges, p, u, c);
    }
  }

  /** The graph comes out as specified from the references as they were; they come out backfilled. */
  method BuildGraph(ns: map<ResourceKey, Resource>) returns (graph: Graph)
    requires forall k :: k in ns ==> ns[k].node.key == k
    modifies (set k | k in ns :: ns[k])`ownerRefs
    ensures IsGraph(NodesIn(ns), Edges(NodesIn(ns), old(RefsIn(ns))), graph)
    ensures EntriesAre(NodesIn(ns), old(RefsIn(ns)), graph)
    ensures Filled(ns, NodesIn(ns), old(RefsIn(ns)), ns.Keys)
  {
    hide IsGraph;
    hide IndexedByUid;
    hide EdgesTo;
    hide EdgesUpTo;
    hide BackfilledAll;
    hide Filled;
    hide EntriesAre;
    var nodes := NodesIn(ns);
    ghost var refs := RefsIn(ns);
    var byUid := IndexByUid(ns);
    graph := map[];
    AllChildrenDone(nodes, refs);
    NoGraph(nodes);
    assert Filled(ns, nodes, refs, {}) by { FilledNone(ns, nodes); }
    var todo := ns.Keys;
    assert ns.Keys - todo == {};
    while todo != {}
      invariant todo <= ns.Keys && Filled(ns, nodes, refs, ns.Keys - todo)
      invariant IsGraph(nodes, EdgesTo(nodes, refs, ns.Keys - todo), graph)
      decreases |todo|
    {
      var c :| c in todo;
      graph := LinkOne(ns, nodes, byUid, c, graph, refs, ns.Keys - todo);
      assert (ns.Keys - todo) + {c} == ns.Keys - (todo - {c});
      todo := todo - {c};
    }
    assert ns.Keys - {} == ns.Keys == nodes.Keys;
    GraphEntries(nodes, refs, graph);
  }

  lemma NoGraph(nodes: Nodes)
    ensures IsGraph(nodes, {}, map[])
  {
  }
}
