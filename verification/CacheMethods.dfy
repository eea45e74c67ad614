/** What the cluster cache does on events, lists and queries (pkg/cache/cluster.go). */
module CacheMethods {
  import opened Kube
  import opened CacheSpec
  import opened NamespaceIndex
  import opened OwnerRefs
  import opened ClusterCache

  // ----- queries -----

  predicate AllHold(predicates: seq<(Node, seq<OwnerRef>) -> bool>, r: Resource)
    reads r`ownerRefs
  {
    forall i :: 0 <= i < |predicates| ==> predicates[i](r.node, r.ownerRefs)
  }

  method Matches(predicates: seq<(Node, seq<OwnerRef>) -> bool>, r: Resource) returns (matches: bool)
    ensures matches == AllHold(predicates, r)
  {
    matches := true;
    for i := 0 to |predicates|
      invariant matches <==> forall j :: 0 <= j < i ==> predicates[j](r.node, r.ownerRefs)
    {
      if !predicates[i](r.node, r.ownerRefs) {
        matches := false;
      }
    }
  }

  // The resources of one namespace, or of all when it is empty
  function InScope(resources: map<ResourceKey, Resource>, namespace: string): map<ResourceKey, Resource> {
    map k | k in resources && (namespace == "" || k.namespace == namespace) :: resources[k]
  }

  lemma ScopeOf(resources: map<ResourceKey, Resource>, index: map<string, map<ResourceKey, Resource>>,
                namespace: string)
    requires index == Partition(resources)
    ensures InScope(resources, "") == resources
    ensures namespace != "" ==> Bucket(index, namespace) == InScope(resources, namespace)
  {
  }

  // Reading one bucket of the index is the same as filtering everything by namespace.
  method FindResources(c: Cluster, namespace: string, predicates: seq<(Node, seq<OwnerRef>) -> bool>)
    returns (result: map<ResourceKey, Resource>)
    requires c.Valid()
    ensures forall k :: k in result <==>
              k in c.resources && (namespace == "" || k.namespace == namespace) && AllHold(predicates, c.resources[k])
    ensures forall k :: k in result ==> result[k] == c.resources[k]
  {
    hide AllHold;
    hide Partition;
    var resources: map<ResourceKey, Resource> := map[];
    ScopeOf(c.resources, c.nsIndex, namespace);
    if namespace != "" {
      if namespace in c.nsIndex {
        resources := c.nsIndex[namespace];
      }
    } else {
      resources := c.resources;
    }
    assert resources == InScope(c.resources, namespace);
    result := KeepMatching(resources, predicates);
  }

  method KeepMatching(resources: map<ResourceKey, Resource>, predicates: seq<(Node, seq<OwnerRef>) -> bool>)
    returns (result: map<ResourceKey, Resource>)
    ensures forall k :: k in result <==> k in resources && AllHold(predicates, resources[k])
    ensures forall k :: k in result ==> result[k] == resources[k]
  {
    hide AllHold;
    result := map[];
    var todo := resources.Keys;
    while todo != {}
      invariant todo <= resources.Keys
      invariant forall k :: k in result <==> k in resources && k !in todo && AllHold(predicates, resources[k])
      invariant forall k :: k in result ==> result[k] == resources[k]
      decreases |todo|
    {
      var k :| k in todo;
      var matches := Matches(predicates, resources[k]);
      if matches {
        result := result[k := resources[k]];
      }
      todo := todo - {k};
    }
  }

  // ----- events -----

  // processEvent: `n` is what newResource makes of the event's object.
  method ProcessEvent(c: Cluster, key: ResourceKey, deleted: bool, n: Resource)
    requires c.Valid() && n !in c.Objects() && Arrived(n)
    modifies c, n`ownerRefs, c.Objects()`ownerRefs
    ensures c.Valid()
    ensures old(c.AllTidy() && Tidy(n)) ==>
              c.AllTidy() && Steps(old(c.Contents()), if deleted then Remove(key) else Set(n.node), c.Contents())
    ensures c.resources == if deleted then old(c.resources) - {key} else old(c.resources)[n.node.key := n]
    ensures var refs := old(RefsIn(c.resources));
            if !deleted then
              AskedInSomeOrder(n.node, NodesIn(c.resources), refs[n.node.key := old(n.ownerRefs)], RefsIn(c.resources))
            else if key !in refs then RefsIn(c.resources) == refs
            else RefsIn(c.resources) == DisownedIn(NodesIn(c.resources), old(c.resources)[key].node, refs - {key})
  {
    hide AskedInSomeOrder;
    hide DisownedIn;
    hide Puts;
    hide Drop;
    hide ContentsOf;
    hide Tidy;
    hide Partition;
    if deleted {
      c.OnNodeRemoved(key);
    } else {
      c.SetNode(n);
    }
  }

  // ----- replacing what is cached of one kind -----

  predicate Covers(group: string, kind: string, ns: string, k: ResourceKey) {
    k.kind == kind && k.group == group && (ns == "" || k.namespace == ns)
  }

  lemma CoversExactly(group: string, kind: string, ns: string, k: ResourceKey)
    ensures Covers(group, kind, ns, k) <==> k.group == group && k.kind == kind && (ns == "" || k.namespace == ns)
  {
  }

  function NodesListed(list: seq<Resource>): (ns: seq<Node>)
    ensures |ns| == |list| && forall i :: 0 <= i < |list| ==> ns[i] == list[i].node
  {
    seq(|list|, i requires 0 <= i < |list| => list[i].node)
  }

  // The version the list gives for a key, if it lists it; later entries win.
  function ListedVersion(ns: seq<Node>, k: ResourceKey): Option<string> {
    if ns == [] then None
    else if ns[|ns| - 1].key == k then Some(ns[|ns| - 1].version)
    else ListedVersion(ns[..|ns| - 1], k)
  }

  lemma {:induction false} ListedKeys(ns: seq<Node>, k: ResourceKey)
    ensures ListedVersion(ns, k).Some? <==> exists i :: 0 <= i < |ns| && ns[i].key == k
  {
    if ns != [] {
      var n := |ns| - 1;
      ListedKeys(ns[..n], k);
      if i :| 0 <= i < |ns| && ns[i].key == k && ns[n].key != k {
        assert ns[..n][i] == ns[i];
      }
      if i :| 0 <= i < n && ns[..n][i].key == k {
        assert ns[i].key == k;
      }
    }
  }

  // Listed keys are stored at the version listed; other keys are as they were.
  ghost predicate Updated(before: map<ResourceKey, Resource>, list: seq<Resource>, i: nat,
                          now: map<ResourceKey, Resource>) {
    i <= |list| && forall k ::
      match ListedVersion(NodesListed(list)[..i], k)
      case None => (k in now <==> k in before) && (k in now ==> now[k] == before[k])
      case Some(v) =>
        k in now && now[k].node.version == v && (now[k] in list[..i] || (k in before && now[k] == before[k]))
  }

  function KeysListed(list: seq<Resource>): set<ResourceKey> {
    set r | r in list :: r.node.key
  }

  // A resource is stored anew only for another version than the one cached, and then it is.
  ghost predicate Refreshed(before: map<ResourceKey, Resource>, list: seq<Resource>, i: nat,
                            now: map<ResourceKey, Resource>)
  {
    i <= |list|
    && (forall k :: k in before && ListedOnlyAt(list[..i], k, before[k].node.version) ==>
          k in now && now[k] == before[k])
    && (forall j :: 0 <= j < i && ListedOnce(list[..i], j) && NewVersion(before, list[j]) ==>
          list[j].node.key in now && now[list[j].node.key] == list[j])
  }

  predicate ListedOnlyAt(list: seq<Resource>, k: ResourceKey, version: string) {
    forall r :: r in list && r.node.key == k ==> r.node.version == version
  }

  predicate ListedOnce(list: seq<Resource>, j: nat)
    requires j < |list|
  {
    forall x :: 0 <= x < |list| && x != j ==> list[x].node.key != list[j].node.key
  }

  predicate NewVersion(before: map<ResourceKey, Resource>, r: Resource) {
    r.node.key !in before || before[r.node.key].node.version != r.node.version
  }

  lemma RefreshedNext(before: map<ResourceKey, Resource>, list: seq<Resource>, i: nat, now: map<ResourceKey, Resource>,
                      next: map<ResourceKey, Resource>)
    requires i < |list| && Updated(before, list, i, now) && Refreshed(before, list, i, now)
    requires var n := list[i];
             next == if n.node.key !in now || now[n.node.key].node.version != n.node.version
                     then now[n.node.key := n] else now
    ensures Refreshed(before, list, i + 1, next)
  {
    var n := list[i];
    assert list[..i + 1] == list[..i] + [n];
    forall k | k in before && ListedOnlyAt(list[..i + 1], k, before[k].node.version)
      ensures k in next && next[k] == before[k]
    {
      assert ListedOnlyAt(list[..i], k, before[k].node.version);
      assert n in list[..i + 1];
    }
    forall j | 0 <= j < i + 1 && ListedOnce(list[..i + 1], j) && NewVersion(before, list[j])
      ensures list[j].node.key in next && next[list[j].node.key] == list[j]
    {
      if j < i {
        assert list[..i + 1][i] == n && list[..i + 1][j] == list[j];
        assert ListedOnce(list[..i], j) by {
          forall x | 0 <= x < i && x != j ensures list[..i][x].node.key != list[..i][j].node.key {
            assert list[..i + 1][x] == list[x] && list[..i + 1][x].node.key != list[..i + 1][j].node.key;
          }
        }
      } else {
        NotListed(list, i);
      }
    }
  }

  // A key listed for the first time has not been given a version so far.
  lemma NotListed(list: seq<Resource>, i: nat)
    requires i < |list| && ListedOnce(list[..i + 1], i)
    ensures ListedVersion(NodesListed(list)[..i], list[i].node.key) == None
  {
    var ns, k := NodesListed(list)[..i], list[i].node.key;
    ListedKeys(ns, k);
    forall x | 0 <= x < |ns| ensures ns[x].key != k {
      assert list[..i + 1][x] == list[x] && list[..i + 1][i] == list[i];
    }
  }

  lemma UpdatedNext(before: map<ResourceKey, Resource>, list: seq<Resource>, i: nat, now: map<ResourceKey, Resource>,
                    next: map<ResourceKey, Resource>)
    requires i < |list| && Updated(before, list, i, now)
    requires var n := list[i];
             next == if n.node.key !in now || now[n.node.key].node.version != n.node.version
                     then now[n.node.key := n] else now
    ensures Updated(before, list, i + 1, next)
  {
    var ns := NodesListed(list);
    var n := list[i];
    assert ns[..i + 1][..i] == ns[..i] && ns[..i + 1][i] == n.node;
    assert list[..i + 1] == list[..i] + [n];
    forall k ensures
      match ListedVersion(ns[..i + 1], k)
      case None => (k in next <==> k in before) && (k in next ==> next[k] == before[k])
      case Some(v) =>
        k in next && next[k].node.version == v && (next[k] in list[..i + 1] || (k in before && next[k] == before[k]))
    {
      var was := ListedVersion(ns[..i], k);
      if k == n.node.key {
        assert ListedVersion(ns[..i + 1], k) == Some(n.node.version);
        assert was.Some? ==> k in now && (now[k] in list[..i] || (k in before && now[k] == before[k]));
      } else {
        assert ListedVersion(ns[..i + 1], k) == was;
      }
    }
  }

  // Among all the nodes ever seen, different parents have different UIDs.
  ghost predicate ApartOver(all: set<Node>) {
    forall a, b ::
      (a in all && b in all && a.IsParent() && b.IsParent() && a.key.namespace == b.key.namespace && a.key != b.key)
      ==> a.uid != b.uid
  }

  ghost predicate SeenAll(resources: map<ResourceKey, Resource>, all: set<Node>) {
    forall k :: k in resources ==> resources[k].node in all && resources[k].node.key == k
  }

  lemma SeenApart(resources: map<ResourceKey, Resource>, c: Cache, all: set<Node>)
    requires SeenAll(resources, all) && ApartOver(all) && c.Keys == resources.Keys
    requires forall k :: k in c ==> c[k].node == resources[k].node
    ensures Apart(NodesOf(c)) && Agree(NodesOf(c))
  {
  }

  // The first loop of replaceResourceCache
  method UpdateListed(c: Cluster, list: seq<Resource>, ghost all: set<Node>)
    requires c.Valid() && forall i, j :: 0 <= i < j < |list| ==> list[i] != list[j]
    requires forall r :: r in list ==> r !in c.Objects() && Arrived(r) && r.node in all
    requires SeenAll(c.resources, all)
    modifies c, (set r | r in list)`ownerRefs, c.Objects()`ownerRefs
    ensures c.Valid() && Updated(old(c.resources), list, |list|, c.resources)
    ensures Refreshed(old(c.resources), list, |list|, c.resources)
    ensures SeenAll(c.resources, all) && c.Objects() <= old(c.Objects()) + set r | r in list
    ensures ApartOver(all) && old(c.InStep() && forall r :: r in list ==> Tidy(r)) ==> c.InStep()
  {
    hide Partition;
    hide Tidy;
    hide Uids;
    hide Updated;
    hide Refreshed;
    hide ApartOver;
    hide Cluster.InStep;
    ghost var before := c.resources;
    ghost var inStep := ApartOver(all) && c.InStep() && forall r :: r in list ==> Tidy(r);
    UpdatedNone(before, list);
    for i := 0 to |list|
      invariant c.Valid() && Updated(before, list, i, c.resources) && SeenAll(c.resources, all)
      invariant Refreshed(before, list, i, c.resources)
      invariant c.Objects() <= old(c.Objects()) + set r | r in list[..i]
      invariant forall j :: i <= j < |list| ==> list[j] !in c.Objects() && Arrived(list[j])
      invariant inStep ==> c.InStep() && forall j :: i <= j < |list| ==> Tidy(list[j])
    {
      UpdateOne(c, list, i, list[i], before, all);
    }
  }

  lemma UpdatedNone(before: map<ResourceKey, Resource>, list: seq<Resource>)
    ensures Updated(before, list, 0, before) && Refreshed(before, list, 0, before)
  {
  }

  method UpdateOne(c: Cluster, list: seq<Resource>, i: nat, n: Resource, ghost before: map<ResourceKey, Resource>,
                   ghost all: set<Node>)
    requires c.Valid() && i < |list| && n == list[i] && n !in c.Objects() && Arrived(n) && n.node in all
    requires Updated(before, list, i, c.resources) && SeenAll(c.resources, all)
    requires Refreshed(before, list, i, c.resources)
    modifies c, n`ownerRefs, c.Objects()`ownerRefs
    ensures c.Valid() && Updated(before, list, i + 1, c.resources) && SeenAll(c.resources, all)
    ensures Refreshed(before, list, i + 1, c.resources)
    ensures c.Objects() <= old(c.Objects()) + {n}
    ensures ApartOver(all) && old(c.InStep() && Tidy(n)) ==> c.InStep()
  {
    hide Partition;
    hide Tidy;
    hide Uids;
    hide Updated;
    hide Refreshed;
    hide ApartOver;
    hide Cluster.InStep;
    ghost var now := c.resources;
    if n.node.key !in c.resources || c.resources[n.node.key].node.version != n.node.version {
      SetSeen(c, n, all);
    }
    UpdatedNext(before, list, i, now, c.resources);
    RefreshedNext(before, list, i, now, c.resources);
  }

  lemma ContentsNodes(c: Cluster)
    ensures forall k :: k in c.Contents() ==> c.Contents()[k].node == c.resources[k].node
  {
  }

  method SetSeen(c: Cluster, n: Resource, ghost all: set<Node>)
    requires c.Valid() && n !in c.Objects() && Arrived(n) && n.node in all && SeenAll(c.resources, all)
    modifies c, n`ownerRefs, c.Objects()`ownerRefs
    ensures c.Valid() && SeenAll(c.resources, all) && c.resources == old(c.resources)[n.node.key := n]
    ensures ApartOver(all) && old(c.InStep() && Tidy(n)) ==> c.InStep()
  {
    hide Partition;
    hide ApartOver;
    hide Inferred;
    hide Puts;
    hide AskedInSomeOrder;
    hide ContentsOf;
    hide Tidy;
    hide TidyRefs;
    ghost var contents := c.Contents();
    c.SetNode(n);
    if ApartOver(all) && old(c.InStep() && Tidy(n)) {
      ContentsNodes(c);
      SeenApart(c.resources, c.Contents(), all);
      PutKeepsInferred(contents, n.node, c.Contents());
    }
  }

  // What is left when the keys outside `todo` have been visited
  function Kept(before: map<ResourceKey, Resource>, stale: set<ResourceKey>, todo: set<ResourceKey>)
    : map<ResourceKey, Resource>
  {
    map k | k in before && (k in todo || k !in stale) :: before[k]
  }

  lemma KeptNext(before: map<ResourceKey, Resource>, stale: set<ResourceKey>, todo: set<ResourceKey>, k: ResourceKey)
    requires k in todo && todo <= before.Keys
    ensures k in Kept(before, stale, todo)
    ensures Kept(before, stale, todo - {k}) ==
            if k in stale then Kept(before, stale, todo) - {k} else Kept(before, stale, todo)
  {
  }

  // The second loop of replaceResourceCache
  method RemoveStale(c: Cluster, group: string, kind: string, ns: string, listed: set<ResourceKey>,
                     ghost all: set<Node>)
    requires c.Valid() && SeenAll(c.resources, all)
    modifies c, c.Objects()`ownerRefs
    ensures c.Valid()
    ensures c.resources ==
            map k | k in old(c.resources) && (k in listed || !Covers(group, kind, ns, k)) :: old(c.resources)[k]
    ensures ApartOver(all) && old(c.InStep()) ==> c.InStep()
  {
    hide ContentsOf;
    hide Partition;
    hide ApartOver;
    hide Covers;
    hide SeenAll;
    hide Kept;
    hide Cluster.Valid;
    hide Cluster.InStep;
    ghost var before := c.resources;
    ghost var stale := set k | k in before && Covers(group, kind, ns, k) && k !in listed;
    var todo := c.resources.Keys;
    KeptAll(before, stale);
    while todo != {}
      invariant c.Valid() && SeenAll(c.resources, all) && c.Objects() <= old(c.Objects())
      invariant todo <= before.Keys && c.resources == Kept(before, stale, todo)
      invariant ApartOver(all) && old(c.InStep()) ==> c.InStep()
      decreases |todo|
    {
      var k :| k in todo;
      VisitKey(c, k, Covers(group, kind, ns, k) && k !in listed, before, stale, todo, all);
      todo := todo - {k};
    }
    KeptAll(before, stale);
  }

  method VisitKey(c: Cluster, k: ResourceKey, remove: bool, ghost before: map<ResourceKey, Resource>,
                  ghost stale: set<ResourceKey>, ghost todo: set<ResourceKey>, ghost all: set<Node>)
    requires c.Valid() && SeenAll(c.resources, all) && k in todo && todo <= before.Keys
    requires remove == (k in stale) && c.resources == Kept(before, stale, todo)
    modifies c, c.Objects()`ownerRefs
    ensures c.Valid() && SeenAll(c.resources, all) && c.Objects() <= old(c.Objects())
    ensures c.resources == Kept(before, stale, todo - {k})
    ensures ApartOver(all) && old(c.InStep()) ==> c.InStep()
  {
    hide Cluster.Valid;
    hide Cluster.InStep;
    hide ApartOver;
    hide SeenAll;
    hide Kept;
    KeptNext(before, stale, todo, k);
    if remove {
      RemoveOne(c, k, all);
    }
  }

  lemma KeptAll(before: map<ResourceKey, Resource>, stale: set<ResourceKey>)
    ensures Kept(before, stale, before.Keys) == before
    ensures Kept(before, stale, {}) == map k | k in before && k !in stale :: before[k]
  {
  }

  method RemoveOne(c: Cluster, key: ResourceKey, ghost all: set<Node>)
    requires c.Valid() && SeenAll(c.resources, all) && key in c.resources
    modifies c, c.Objects()`ownerRefs
    ensures c.Valid() && SeenAll(c.resources, all) && c.resources == old(c.resources) - {key}
    ensures c.Objects() <= old(c.Objects())
    ensures ApartOver(all) && old(c.InStep()) ==> c.InStep()
  {
    hide Partition;
    hide Tidy;
    hide Uids;
    hide ApartOver;
    hide Inferred;
    hide Drop;
    ghost var contents := c.Contents();
    if ApartOver(all) && c.InStep() {
      SeenApart(c.resources, contents, all);
      DropApart(contents, key);
    }
    c.OnNodeRemoved(key);
  }

  /**
   Replacing the resources of one kind, in one namespace or in all. Afterwards the keys of that kind are exactly
   the listed ones, each at the version listed, and every other key is as before; the index still agrees,
   and with distinct UIDs so do the inferred owners.
   */
  method ReplaceResourceCache(c: Cluster, group: string, kind: string, list: seq<Resource>, ns: string,
                              ghost all: set<Node>)
    requires c.Valid() && forall i, j :: 0 <= i < j < |list| ==> list[i] != list[j]
    requires forall r :: r in list ==> r !in c.Objects() && Arrived(r) && r.node in all
    requires SeenAll(c.resources, all)
    modifies c, (set r | r in list)`ownerRefs, c.Objects()`ownerRefs
    ensures c.Valid()
    ensures var was, listed := old(c.resources), NodesListed(list);
            forall k ::
              match ListedVersion(listed, k)
              case Some(v) => k in c.resources && c.resources[k].node.version == v
                && (c.resources[k] in list || (k in was && c.resources[k] == was[k]))
              case None =>
                (k in c.resources <==>
                   k in was && !(k.group == group && k.kind == kind && (ns == "" || k.namespace == ns)))
                && (k in c.resources ==> c.resources[k] == was[k])
    ensures var was := old(c.resources);
            forall k :: k in was && k in c.resources && ListedOnlyAt(list, k, was[k].node.version) ==>
              c.resources[k] == was[k]
    ensures forall j :: 0 <= j < |list| && ListedOnce(list, j) && NewVersion(old(c.resources), list[j]) ==>
              list[j].node.key in c.resources && c.resources[list[j].node.key] == list[j]
    ensures ApartOver(all) && old(c.InStep() && forall r :: r in list ==> Tidy(r)) ==> c.InStep()
  {
    hide Refreshed;
    hide ListedOnlyAt;
    hide ListedOnce;
    hide NewVersion;
    hide ContentsOf;
    hide Updated;
    hide Partition;
    hide Tidy;
    hide Uids;
    hide ApartOver;
    hide Cluster.InStep;
    hide Covers;
    hide SeenAll;
    hide ListedVersion;
    ghost var before := c.resources;
    var objByKey := KeysListed(list);
    UpdateListed(c, list, all);
    ghost var between := c.resources;
    RemoveStale(c, group, kind, ns, objByKey, all);
    ReplaceDone(before, list, between);
    RefreshedDone(before, list, between);
    forall k { CoversExactly(group, kind, ns, k); }
  }

  lemma ReplaceDone(before: map<ResourceKey, Resource>, list: seq<Resource>, now: map<ResourceKey, Resource>)
    requires Updated(before, list, |list|, now)
    ensures forall k :: ListedVersion(NodesListed(list), k).Some? <==> k in KeysListed(list)
    ensures forall k ::
      match ListedVersion(NodesListed(list), k)
      case None => (k in now <==> k in before) && (k in now ==> now[k] == before[k])
      case Some(v) => k in now && now[k].node.version == v && (now[k] in list || (k in before && now[k] == before[k]))
  {
    var ns := NodesListed(list);
    assert ns[..|list|] == ns && list[..|list|] == list;
    forall k ensures ListedVersion(ns, k).Some? <==> k in KeysListed(list) {
      ListedKeys(ns, k);
      if i :| 0 <= i < |ns| && ns[i].key == k { assert list[i] in list; }
      if r :| r in list && r.node.key == k {
        var i :| 0 <= i < |list| && list[i] == r;
        assert ns[i].key == k;
      }
    }
  }

  lemma RefreshedDone(before: map<ResourceKey, Resource>, list: seq<Resource>, now: map<ResourceKey, Resource>)
    requires Refreshed(before, list, |list|, now)
    ensures forall j :: 0 <= j < |list| ==> list[j].node.key in KeysListed(list)
    ensures forall k :: k in before && ListedOnlyAt(list, k, before[k].node.version) ==> k in now && now[k] == before[k]
    ensures forall j :: 0 <= j < |list| && ListedOnce(list, j) && NewVersion(before, list[j]) ==>
              list[j].node.key in now && now[list[j].node.key] == list[j]
  {
    assert list[..|list|] == list;
    forall j | 0 <= j < |list| ensures list[j].node.key in KeysListed(list) {
      assert list[j] in list;
    }
  }

  // ----- loading -----

  // A resource for each key, and the claims among them as the parents infer them in the end
  ghost predicate LoadedAs(c: Cluster, ns: seq<Node>)
    reads c, c.Objects()`ownerRefs
  {
    c.AllTidy() && c.Contents() == Settled(Catalogue(ns))
  }

  // The lists of a first sync, one resource after another, however the lists of different kinds interleave
  method Load(list: seq<Resource>) returns (c: Cluster)
    requires forall r :: r in list ==> Arrived(r)
    requires forall i, j :: 0 <= i < j < |list| ==> list[i].node.key != list[j].node.key
    modifies (set r | r in list)`ownerRefs
    ensures fresh(c) && c.Valid() && c.Objects() == set r | r in list
    ensures Agree(Catalogue(NodesListed(list))) && old(forall r :: r in list ==> Tidy(r)) ==>
              LoadedAs(c, NodesListed(list))
  {
    hide Partition;
    hide Tidy;
    hide Uids;
    hide Agree;
    hide LoadedAs;
    hide ContentsOf;
    hide TidyRefs;
    hide NodesListed;
    c := new Cluster();
    ghost var ns := NodesListed(list);
    assert LoadedAs(c, ns[..0]) by { NothingLoaded(ns, c); }
    for i := 0 to |list|
      invariant c.Valid() && fresh(c) && c.Objects() == set r | r in list[..i]
      invariant forall j :: i <= j < |list| ==> Arrived(list[j])
      invariant Agree(Catalogue(ns)) && old(forall r :: r in list ==> Tidy(r)) ==>
                  LoadedAs(c, ns[..i]) && forall j :: i <= j < |list| ==> Tidy(list[j])
    {
      LoadOne(c, list, i, list[i]);
      assert list[..i + 1] == list[..i] + [list[i]];
    }
    assert ns[..|list|] == ns && list[..|list|] == list;
  }

  method LoadOne(c: Cluster, list: seq<Resource>, i: nat, n: Resource)
    requires i < |list| && n == list[i] && c.Valid() && Arrived(n) && c.Objects() == set r | r in list[..i]
    requires forall i, j :: 0 <= i < j < |list| ==> list[i].node.key != list[j].node.key
    modifies c, n`ownerRefs, c.Objects()`ownerRefs
    ensures c.Valid() && c.Objects() == old(c.Objects()) + {n}
    ensures Agree(Catalogue(NodesListed(list))) && old(Tidy(n) && LoadedAs(c, NodesListed(list)[..i])) ==>
              LoadedAs(c, NodesListed(list)[..i + 1])
  {
    hide Partition;
    hide Tidy;
    hide Puts;
    hide Agree;
    hide Settled;
    hide Catalogue;
    hide AskedInSomeOrder;
    hide ContentsOf;
    hide TidyRefs;
    ghost var contents := c.Contents();
    NotYetLoaded(c, list, i);
    ghost var was := c.resources;
    c.SetNode(n);
    OneMoreObject(was, n.node.key, n, c.resources);
    if Agree(Catalogue(NodesListed(list))) && old(Tidy(n) && LoadedAs(c, NodesListed(list)[..i])) {
      LoadedNext(NodesListed(list), i, contents, c.Contents());
    }
  }

  lemma OneMoreObject(was: map<ResourceKey, Resource>, key: ResourceKey, n: Resource, now: map<ResourceKey, Resource>)
    requires key !in was && now == was[key := n]
    ensures (set k | k in now :: now[k]) == (set k | k in was :: was[k]) + {n}
  {
    assert now[key] == n;
    forall k | k in was ensures was[k] in (set l | l in now :: now[l]) { assert now[k] == was[k]; }
  }

  lemma NotYetLoaded(c: Cluster, list: seq<Resource>, i: nat)
    requires i < |list| && c.Valid() && c.Objects() == set r | r in list[..i]
    requires forall i, j :: 0 <= i < j < |list| ==> list[i].node.key != list[j].node.key
    ensures list[i] !in c.Objects() && list[i].node.key !in c.resources
  {
    forall k | k in c.resources ensures k != list[i].node.key {
      assert c.resources[k] in c.Objects();
    }
  }

  lemma NothingLoaded(ns: seq<Node>, c: Cluster)
    requires c.resources == map[]
    ensures LoadedAs(c, ns[..0])
  {
  }

  lemma LoadedNext(ns: seq<Node>, i: nat, c: Cache, next: Cache)
    requires i < |ns| && (forall j, k :: 0 <= j < k < |ns| ==> ns[j].key != ns[k].key) && Agree(Catalogue(ns))
    requires c == Settled(Catalogue(ns[..i])) && Puts(c, ns[i], next)
    ensures next == Settled(Catalogue(ns[..i + 1]))
  {
    hide Settled;
    hide Agree;
    hide Puts;
    hide Catalogue;
    CatalogueNext(ns, i);
    PutSettled(Catalogue(ns[..i]), ns[i], next);
  }

  lemma CatalogueNext(ns: seq<Node>, i: nat)
    requires i < |ns| && (forall j, k :: 0 <= j < k < |ns| ==> ns[j].key != ns[k].key) && Agree(Catalogue(ns))
    ensures Catalogue(ns[..i + 1]) == Catalogue(ns[..i])[ns[i].key := ns[i]]
    ensures ns[i].key !in Catalogue(ns[..i]) && Agree(Catalogue(ns[..i + 1]))
  {
    hide Agree;
    hide Catalogue;
    CataloguePart(ns, i + 1);
    AgreePart(Catalogue(ns), Catalogue(ns[..i + 1]));
    CatalogueSnoc(ns[..i], ns[i]);
    assert ns[..i + 1] == ns[..i] + [ns[i]];
    NotYetListed(ns, i);
  }

  lemma CatalogueSnoc(ns: seq<Node>, n: Node)
    ensures Catalogue(ns + [n]) == Catalogue(ns)[n.key := n]
  {
  }

  lemma NotYetListed(ns: seq<Node>, i: nat)
    requires i < |ns| && forall j, k :: 0 <= j < k < |ns| ==> ns[j].key != ns[k].key
    ensures ns[i].key !in Catalogue(ns[..i])
  {
    hide Catalogue;
    CatalogueKeys(ns[..i]);
  }

  lemma {:induction false} CataloguePart(ns: seq<Node>, i: nat)
    requires i <= |ns| && forall j, k :: 0 <= j < k < |ns| ==> ns[j].key != ns[k].key
    ensures forall k :: k in Catalogue(ns[..i]) ==> k in Catalogue(ns) && Catalogue(ns)[k] == Catalogue(ns[..i])[k]
    decreases |ns|
  {
    if i < |ns| {
      var n := |ns| - 1;
      CataloguePart(ns[..n], i);
      assert ns[..n][..i] == ns[..i];
      CatalogueKeys(ns[..n]);
    } else {
      assert ns[..i] == ns;
    }
  }
}
