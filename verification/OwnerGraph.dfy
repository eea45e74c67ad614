/**
 The ownership graph of one namespace (buildGraph of pkg/cache/cluster.go). The nodes come out of a map in any
 order, and several of them may share a UID; the graph must not depend on either.
 */
module OwnerGraph {
  import opened Kube
  import opened KeyStrings
  import opened CacheSpec
  import opened OwnerRefs

  // For each owner, its children by UID; a key stands for the resource cached under it.
  type Graph = map<ResourceKey, map<string, ResourceKey>>

  // schema.ParseGroupVersion: the group of "group/version" or "version"; more than one slash is an error.
  function GroupOf(apiVersion: string): Option<string> {
    if '/' !in apiVersion then Some("")
    else if apiVersion == "/" then Some("")
    else
      var i := FirstSlash(apiVersion);
      if '/' in apiVersion[i + 1..] then None else Some(apiVersion[..i])
  }

  function FirstSlash(s: string): (i: nat)
    requires '/' in s
    ensures i < |s| && s[i] == '/' && '/' !in s[..i]
  {
    if s[0] == '/' then 0 else 1 + FirstSlash(s[1..])
  }

  // The API versions of a group: "group/version", or a bare version for the core group
  ghost predicate OfGroup(apiVersion: string, group: string) {
    || (group == "" && '/' !in apiVersion)
    || ('/' !in group && exists version :: '/' !in version && apiVersion == group + "/" + version)
  }

  lemma OneSlash(group: string, version: string)
    requires '/' !in group && '/' !in version
    ensures var s := group + "/" + version;
            '/' in s && FirstSlash(s) == |group| && s[..|group|] == group && s[|group| + 1..] == version
  {
    var s := group + "/" + version;
    assert s[|group|] == '/';
    assert forall j :: 0 <= j < |group| ==> s[j] == group[j];
  }

  // Parsing finds the group an API version belongs to, and there is at most one.
  lemma GroupOfExact(apiVersion: string, group: string)
    ensures GroupOf(apiVersion) == Some(group) <==> OfGroup(apiVersion, group)
  {
    if OfGroup(apiVersion, group) && !(group == "" && '/' !in apiVersion) {
      var version :| '/' !in version && apiVersion == group + "/" + version;
      OneSlash(group, version);
    }
    if GroupOf(apiVersion) == Some(group) && '/' in apiVersion {
      var i := FirstSlash(apiVersion);
      var version := apiVersion[i + 1..];
      assert apiVersion == apiVersion[..i] + "/" + version;
      if apiVersion == "/" { assert version == "" && apiVersion[..i] == ""; }
    }
  }

  // Two slashes make an API version invalid, and nothing else does.
  lemma GroupOfInvalid(apiVersion: string)
    ensures GroupOf(apiVersion) == None <==>
            exists i, j :: 0 <= i < j < |apiVersion| && apiVersion[i] == '/' && apiVersion[j] == '/'
  {
    if '/' in apiVersion {
      var i := FirstSlash(apiVersion);
      if '/' in apiVersion[i + 1..] {
        var j :| 0 <= j < |apiVersion[i + 1..]| && apiVersion[i + 1..][j] == '/';
        assert apiVersion[i + 1 + j] == '/';
      }
      if x, y :| 0 <= x < y < |apiVersion| && apiVersion[x] == '/' && apiVersion[y] == '/' {
        assert forall k :: 0 <= k < i ==> apiVersion[..i][k] == apiVersion[k];
        assert apiVersion[i + 1..][y - i - 1] == '/';
      }
    }
  }

  // The node a reference without UID names
  function NamedOwner(nodes: Nodes, ns: string, ref: OwnerRef): (r: Option<ResourceKey>)
    ensures r.Some? ==> r.value in nodes
  {
    var group := GroupOf(ref.apiVersion);
    if group.Some? && ResourceKey(group.value, ref.kind, ns, ref.name) in nodes
    then Some(ResourceKey(group.value, ref.kind, ns, ref.name)) else None
  }

  // A reference to a cached resource finds it by name, if the resource's API version is one of its group.
  lemma OwnerFoundByName(nodes: Nodes, n: Node)
    requires n.key in nodes && OfGroup(n.apiVersion, n.key.group)
    ensures NamedOwner(nodes, n.key.namespace, RefTo(n).(uid := "")) == Some(n.key)
  {
    GroupOfExact(n.apiVersion, n.key.group);
  }

  // The UID a reference stands for, if it stands for any
  function OwnerUid(nodes: Nodes, ns: string, ref: OwnerRef): Option<string> {
    if ref.uid != "" then Some(ref.uid)
    else
      var owner := NamedOwner(nodes, ns, ref);
      if owner.Some? then Some(nodes[owner.value].uid) else None
  }

  /** A reference stands for the UID it gives, or else for that of the resource of its namespace it names. */
  ghost predicate StandsFor(nodes: Nodes, ns: string, ref: OwnerRef, u: string) {
    if ref.uid != "" then u == ref.uid
    else exists group ::
           OfGroup(ref.apiVersion, group) && ResourceKey(group, ref.kind, ns, ref.name) in nodes
           && nodes[ResourceKey(group, ref.kind, ns, ref.name)].uid == u
  }

  lemma OwnerUidIs(nodes: Nodes, ns: string, ref: OwnerRef, u: string)
    ensures OwnerUid(nodes, ns, ref) == Some(u) <==> StandsFor(nodes, ns, ref, u)
  {
    hide OfGroup;
    hide GroupOf;
    if ref.uid == "" {
      if OwnerUid(nodes, ns, ref) == Some(u) {
        GroupOfExact(ref.apiVersion, GroupOf(ref.apiVersion).value);
      }
      if group :| OfGroup(ref.apiVersion, group) && ResourceKey(group, ref.kind, ns, ref.name) in nodes
                  && nodes[ResourceKey(group, ref.kind, ns, ref.name)].uid == u {
        GroupOfExact(ref.apiVersion, group);
      }
    }
  }

  function Backfilled(nodes: Nodes, ns: string, ref: OwnerRef): (r: OwnerRef)
    ensures r == ref || StandsFor(nodes, ns, ref, r.uid)
    ensures forall u :: StandsFor(nodes, ns, ref, u) ==> r == ref.(uid := u)
  {
    var uid := OwnerUid(nodes, ns, ref);
    assert forall u :: StandsFor(nodes, ns, ref, u) <==> uid == Some(u) by {
      forall u { OwnerUidIs(nodes, ns, ref, u); }
    }
    if uid.Some? then ref.(uid := uid.value) else ref
  }

  // Filling in UIDs changes nothing about what the references stand for, and doing it again changes nothing at all.
  lemma BackfillStable(nodes: Nodes, ns: string, ref: OwnerRef)
    ensures OwnerUid(nodes, ns, Backfilled(nodes, ns, ref)) == OwnerUid(nodes, ns, ref)
    ensures Backfilled(nodes, ns, Backfilled(nodes, ns, ref)) == Backfilled(nodes, ns, ref)
  {
  }

  // One of the child's references stands for the UID of p.
  ghost predicate IsEdge(nodes: Nodes, refs: Refs, p: ResourceKey, c: ResourceKey) {
    p in nodes && c in nodes && c in refs
    && exists i :: 0 <= i < |refs[c]| && StandsFor(nodes, c.namespace, refs[c][i], nodes[p].uid)
  }

  // The owner-child pairs
  ghost function Edges(nodes: Nodes, refs: Refs): set<(ResourceKey, ResourceKey)> {
    set p, c | p in nodes && c in nodes && IsEdge(nodes, refs, p, c) :: (p, c)
  }

  // A child of p with UID u
  predicate Candidate(nodes: Nodes, edges: set<(ResourceKey, ResourceKey)>, p: ResourceKey, u: string, c: ResourceKey) {
    (p, c) in edges && c in nodes && nodes[c].uid == u
  }

  /**
   The graph of the given pairs: wherever there is a candidate there is an entry, and it is a candidate of least
   key string.
   */
  ghost predicate IsGraph(nodes: Nodes, edges: set<(ResourceKey, ResourceKey)>, graph: Graph) {
    && (forall p :: p in graph <==> exists u, c :: Candidate(nodes, edges, p, u, c))
    && (forall p, u :: p in graph ==> (u in graph[p] <==> exists c :: Candidate(nodes, edges, p, u, c)))
    && (forall p, u :: p in graph && u in graph[p] ==>
         Candidate(nodes, edges, p, u, graph[p][u]) &&
         forall c :: Candidate(nodes, edges, p, u, c) ==> !StringLess(c.ToString(), graph[p][u].ToString()))
  }

  /** On well-formed keys there is only one such graph. */
  lemma GraphUnique(nodes: Nodes, edges: set<(ResourceKey, ResourceKey)>, a: Graph, b: Graph)
    requires IsGraph(nodes, edges, a) && IsGraph(nodes, edges, b)
    requires forall k :: k in nodes ==> k.WellFormed()
    ensures a == b
  {
    assert a.Keys == b.Keys;
    forall p | p in a ensures a[p] == b[p] {
      assert a[p].Keys == b[p].Keys;
      forall u | u in a[p] ensures a[p][u] == b[p][u] {
        StringLessTotal(a[p][u].ToString(), b[p][u].ToString());
        ToStringInjective(a[p][u], b[p][u]);
      }
    }
  }

  // The innermost loop body of buildGraph
  function AddEdge(nodes: Nodes, graph: Graph, p: ResourceKey, c: ResourceKey): Graph
    requires c in nodes
  {
    var children := if p in graph then graph[p] else map[];
    var u := nodes[c].uid;
    if u !in children || StringLess(c.ToString(), children[u].ToString()) then graph[p := children[u := c]]
    else graph
  }

  lemma AddEdgeGraph(nodes: Nodes, edges: set<(ResourceKey, ResourceKey)>, graph: Graph, p: ResourceKey, c: ResourceKey)
    requires IsGraph(nodes, edges, graph) && c in nodes
    ensures IsGraph(nodes, edges + {(p, c)}, AddEdge(nodes, graph, p, c))
  {
    var next, more, u := AddEdge(nodes, graph, p, c), edges + {(p, c)}, nodes[c].uid;
    forall q, w, d
      ensures Candidate(nodes, more, q, w, d) <==>
              Candidate(nodes, edges, q, w, d) || (q == p && w == u && d == c)
    {
    }
    AddEdgeKeys(nodes, edges, graph, p, c);
    forall q, w | q in next && w in next[q]
      ensures Candidate(nodes, more, q, w, next[q][w])
      ensures forall d :: Candidate(nodes, more, q, w, d) ==> !StringLess(d.ToString(), next[q][w].ToString())
    {
      AddEdgeLeast(nodes, edges, graph, p, c, q, w);
    }
  }

  lemma AddEdgeKeys(nodes: Nodes, edges: set<(ResourceKey, ResourceKey)>, graph: Graph, p: ResourceKey, c: ResourceKey)
    requires IsGraph(nodes, edges, graph) && c in nodes
    ensures var next, more := AddEdge(nodes, graph, p, c), edges + {(p, c)};
            && (forall q :: q in next <==> exists w, d :: Candidate(nodes, more, q, w, d))
            && (forall q, w :: q in next ==> (w in next[q] <==> exists d :: Candidate(nodes, more, q, w, d)))
  {
    var next, more, u := AddEdge(nodes, graph, p, c), edges + {(p, c)}, nodes[c].uid;
    assert Candidate(nodes, more, p, u, c);
    forall q, w, d | Candidate(nodes, edges, q, w, d) ensures Candidate(nodes, more, q, w, d) {
    }
    forall q ensures q in next <==> exists w, d :: Candidate(nodes, more, q, w, d) {
      if w, d :| Candidate(nodes, more, q, w, d) && q != p {
        assert Candidate(nodes, edges, q, w, d);
      }
    }
    forall q, w | q in next ensures w in next[q] <==> exists d :: Candidate(nodes, more, q, w, d) {
      if d :| Candidate(nodes, more, q, w, d) && (q != p || d != c) {
        assert Candidate(nodes, edges, q, w, d);
      }
    }
  }

  lemma AddEdgeLeast(nodes: Nodes, edges: set<(ResourceKey, ResourceKey)>, graph: Graph, p: ResourceKey, c: ResourceKey,
                     q: ResourceKey, w: string)
    requires IsGraph(nodes, edges, graph) && c in nodes
    requires var next := AddEdge(nodes, graph, p, c); q in next && w in next[q]
    ensures var next, more := AddEdge(nodes, graph, p, c), edges + {(p, c)};
            Candidate(nodes, more, q, w, next[q][w]) &&
            forall d :: Candidate(nodes, more, q, w, d) ==> !StringLess(d.ToString(), next[q][w].ToString())
  {
    var next, more, u := AddEdge(nodes, graph, p, c), edges + {(p, c)}, nodes[c].uid;
    assert Candidate(nodes, more, p, u, c);
    var best: ResourceKey := next[q][w];
    StringLessTotal(c.ToString(), c.ToString());
    forall d | Candidate(nodes, more, q, w, d) ensures !StringLess(d.ToString(), best.ToString()) {
      if q == p && w == u {
        if d != c { assert Candidate(nodes, edges, q, w, d); }
        if p in graph && u in graph[p] {
          var was := graph[p][u];
          if StringLess(c.ToString(), was.ToString()) && StringLess(d.ToString(), c.ToString()) {
            StringLessTransitive(d.ToString(), c.ToString(), was.ToString());
          }
        }
      } else {
        assert Candidate(nodes, edges, q, w, d);
      }
    }
  }
}
