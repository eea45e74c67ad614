/** The cluster cache (pkg/cache/cluster.go): two maps over one set of resource objects, kept in step. */
module ClusterCache {
  import opened Kube
  import opened Lists
  import opened CacheSpec
  import opened NamespaceIndex
  import opened OwnerRefs

  function ContentsOf(resources: map<ResourceKey, Resource>): (c: Cache)
    reads (set k | k in resources :: resources[k])`ownerRefs
    ensures c.Keys == resources.Keys
  {
    CacheOf(NodesIn(resources), RefsIn(resources))
  }

  // A claim that lists no UID twice
  predicate Tidy(r: Resource)
    reads r`ownerRefs
  {
    r.node.IsClaim() ==> UidsDistinct(r.ownerRefs)
  }

  // A resource as newResource makes it
  predicate Arrived(r: Resource)
    reads r`ownerRefs
  {
    r.node.listed == Uids(r.ownerRefs)
  }

  // The references of `v` once `s` has been asked about it
  function Told(v: Node, s: Node, refs: seq<OwnerRef>): seq<OwnerRef> {
    if s.IsParent() && v.IsClaim() then WithOwner(refs, RefTo(s), s.Infers(v.key)) else refs
  }

  // The loop body of setNode, for one resource of the namespace
  method Relate(n: Resource, v: Resource)
    modifies n`ownerRefs, v`ownerRefs
    ensures v != n ==>
              && v.ownerRefs == Told(v.node, n.node, old(v.ownerRefs))
              && n.ownerRefs == Told(n.node, v.node, old(n.ownerRefs))
    ensures v == n ==> n.ownerRefs == Told(n.node, n.node, Told(n.node, n.node, old(n.ownerRefs)))
  {
    if n.node.infers.Some? && v.node.IsClaim() {
      v.SetOwnerRef(n.ToOwnerRef(), n.node.Infers(v.node.key));
    }
    if n.node.IsClaim() && v.node.infers.Some? {
      n.SetOwnerRef(v.ToOwnerRef(), v.node.Infers(n.node.key));
    }
  }

  // ----- the loop of setNode, on lists of references -----

  // One round: the resource of the key and the new node are asked about each other.
  function AskedOne(nodes: Nodes, n: Node, k: ResourceKey, refs: Refs): (r: Refs)
    requires k in nodes && n.key in nodes && refs.Keys == nodes.Keys
    ensures r.Keys == refs.Keys
  {
    if k == n.key then refs[k := Told(n, n, Told(n, n, refs[k]))]
    else refs[k := Told(nodes[k], n, refs[k])][n.key := Told(n, nodes[k], refs[n.key])]
  }

  function AskedAll(nodes: Nodes, n: Node, order: seq<ResourceKey>, refs: Refs): (r: Refs)
    requires n.key in nodes && refs.Keys == nodes.Keys && forall k :: k in order ==> k in nodes
    ensures r.Keys == refs.Keys
  {
    if order == [] then refs
    else AskedOne(nodes, n, order[|order| - 1], AskedAll(nodes, n, order[..|order| - 1], refs))
  }

  ghost predicate Visits(order: seq<ResourceKey>, keys: set<ResourceKey>) {
    NoRepeats(order) && forall k :: k in order <==> k in keys
  }

  lemma VisitsNone()
    ensures Visits([], {})
  {
  }

  lemma VisitsMore(order: seq<ResourceKey>, keys: set<ResourceKey>, k: ResourceKey)
    requires Visits(order, keys) && k !in keys
    ensures Visits(order + [k], keys + {k})
  {
  }

  // The order is one of the keys of the namespace, each once.
  ghost predicate OrderOf(order: seq<ResourceKey>, nodes: Nodes, ns: string) {
    Visits(order, set k | k in nodes && k.namespace == ns)
  }

  // Whatever the order, every other claim is told once of the new node, and other resources keep their references.
  lemma {:induction false} AskedOthers(nodes: Nodes, n: Node, order: seq<ResourceKey>, refs: Refs, v: ResourceKey)
    requires n.key in nodes && refs.Keys == nodes.Keys && (forall k :: k in order ==> k in nodes) && NoRepeats(order)
    requires v in nodes && v != n.key
    ensures AskedAll(nodes, n, order, refs)[v] == if v in order then Told(nodes[v], n, refs[v]) else refs[v]
  {
    if order != [] {
      var init, k := order[..|order| - 1], order[|order| - 1];
      assert order == init + [k];
      AskedOthers(nodes, n, init, refs, v);
    }
  }

  // ----- what it comes to where claims list no UID twice -----

  lemma ToldUids(v: Node, s: Node, refs: seq<OwnerRef>)
    requires v.IsClaim() ==> UidsDistinct(refs)
    ensures v.IsClaim() ==> UidsDistinct(Told(v, s, refs))
    ensures Uids(Told(v, s, refs)) == Answered(v, s, Uids(refs))
  {
    if s.IsParent() && v.IsClaim() { WithOwnerUids(refs, RefTo(s), s.Infers(v.key)); }
  }

  // The owners of `v` once `s` has been asked about it
  function Answered(v: Node, s: Node, owners: set<string>): set<string> {
    if s.IsParent() && v.IsClaim() then Adjust(owners, s.uid, s.Infers(v.key)) else owners
  }

  lemma AskedOneTidy(nodes: Nodes, n: Node, k: ResourceKey, refs: Refs)
    requires k in nodes && n.key in nodes && nodes[n.key] == n && refs.Keys == nodes.Keys && TidyRefs(nodes, refs)
    ensures var next := AskedOne(nodes, n, k, refs);
            && TidyRefs(nodes, next)
            && (forall v :: v in nodes && v != k && v != n.key ==> next[v] == refs[v])
            && (k != n.key ==> Uids(next[k]) == Answered(nodes[k], n, Uids(refs[k])))
            && Uids(next[n.key]) == Answered(n, nodes[k], Uids(refs[n.key]))
  {
    hide UidsDistinct;
    hide Uids;
    hide Told;
    if k == n.key {
      ToldUids(n, n, refs[k]);
      ToldUids(n, n, Told(n, n, refs[k]));
    } else {
      ToldUids(nodes[k], n, refs[k]);
      ToldUids(n, nodes[k], refs[n.key]);
    }
  }

  lemma MidwayStep(start: Cache, nodes: Nodes, n: Node, asked: set<ResourceKey>, refs: Refs, k: ResourceKey)
    requires n.key in nodes && nodes[n.key] == n && refs.Keys == nodes.Keys && TidyRefs(nodes, refs)
    requires k in nodes && nodes[k].key == k && k.namespace == n.key.namespace && k !in asked
    requires Midway(start, n, asked, CacheOf(nodes, refs))
    ensures var next := AskedOne(nodes, n, k, refs);
            TidyRefs(nodes, next) && Midway(start, n, asked + {k}, CacheOf(nodes, next))
  {
    AskedOneTidy(nodes, n, k, refs);
    hide TidyRefs;
    hide Uids;
    hide Midway;
    hide AskedOne;
    hide Answered;
    MidwayNext(start, n, asked, CacheOf(nodes, refs), CacheOf(nodes, AskedOne(nodes, n, k, refs)), k);
  }

  lemma {:induction false} AskedMidway(nodes: Nodes, n: Node, order: seq<ResourceKey>, refs: Refs)
    requires n.key in nodes && nodes[n.key] == n && refs.Keys == nodes.Keys && NoRepeats(order)
    requires forall k :: k in nodes ==> nodes[k].key == k
    requires forall k :: k in order ==> k in nodes && k.namespace == n.key.namespace
    requires TidyRefs(nodes, refs) && Uids(refs[n.key]) == n.listed
    ensures var next := AskedAll(nodes, n, order, refs);
            TidyRefs(nodes, next) && Midway(CacheOf(nodes, refs), n, (set k | k in order), CacheOf(nodes, next))
  {
    hide TidyRefs;
    hide Uids;
    hide Midway;
    hide AskedOne;
    var start := CacheOf(nodes, refs);
    if order == [] {
      AskedNobody(start, n);
      assert (set k | k in order) == {};
    } else {
      var init, k := order[..|order| - 1], order[|order| - 1];
      assert order == init + [k];
      AskedMidway(nodes, n, init, refs);
      assert (set l | l in order) == (set l | l in init) + {k};
      MidwayStep(start, nodes, n, (set l | l in init), AskedAll(nodes, n, init, refs), k);
    }
  }

  /** Where claims list no UID twice, asking in any order is what Puts says. */
  lemma AskedPuts(before: Cache, nodes: Nodes, n: Node, order: seq<ResourceKey>, refs: Refs)
    requires n.key in nodes && nodes[n.key] == n && refs.Keys == nodes.Keys && OrderOf(order, nodes, n.key.namespace)
    requires forall k :: k in nodes ==> nodes[k].key == k
    requires TidyRefs(nodes, refs) && Uids(refs[n.key]) == n.listed
    requires CacheOf(nodes, refs) == before[n.key := Entry(n, n.listed)]
    ensures var next := AskedAll(nodes, n, order, refs);
            TidyRefs(nodes, next) && Puts(before, n, CacheOf(nodes, next))
  {
    hide TidyRefs;
    hide Uids;
    hide Midway;
    hide Puts;
    AskedMidway(nodes, n, order, refs);
    var start := before[n.key := Entry(n, n.listed)];
    assert (set k | k in order) == (set k | k in start && k.namespace == n.key.namespace);
    PutDone(before, n, CacheOf(nodes, AskedAll(nodes, n, order, refs)));
  }

  // Where the loop of setNode stands when the keys in `asked` have been visited
  ghost predicate Midway(start: Cache, n: Node, asked: set<ResourceKey>, c: Cache) {
    && c.Keys == start.Keys && NodesOf(c) == NodesOf(start) && n.key in c
    && (forall v :: v in c && v != n.key ==>
         c[v].owners == if v in asked && Related(NodesOf(c), n.key, v)
                        then Adjust(start[v].owners, n.uid, n.Infers(v)) else start[v].owners)
    && (if n.IsClaim() then Resolved(NodesOf(c), asked, n.key, n.listed, c[n.key].owners)
        else c[n.key].owners == n.listed)
  }

  class Cluster {
    var resources: map<ResourceKey, Resource>
    var nsIndex: map<string, map<ResourceKey, Resource>>

    ghost function Objects(): set<Resource>
      reads this`resources
    {
      set k | k in resources :: resources[k]
    }

    ghost function Contents(): (c: Cache)
      reads this`resources, Objects()`ownerRefs
      ensures c.Keys == resources.Keys
    {
      ContentsOf(resources)
    }

    // Both maps hold the same resources, each under its own key.
    ghost predicate Valid()
      reads this
    {
      (forall k :: k in resources ==> resources[k].node.key == k) && nsIndex == Partition(resources)
    }

    ghost predicate AllTidy()
      reads this`resources, Objects()`ownerRefs
    {
      TidyRefs(NodesIn(resources), RefsIn(resources))
    }

    // The claims' references are as the parents infer them.
    ghost predicate InStep()
      reads this`resources, Objects()`ownerRefs
    {
      AllTidy() && Inferred(Contents())
    }

    constructor ()
      ensures Valid() && resources == map[]
    {
      resources, nsIndex := map[], map[];
    }

    /**
     Both maps get the node. In some order of its namespace every claim is told of the new parent and a new claim of
     every parent; where claims list no UID twice the order makes no difference that CacheSpec.Puts does not allow.
     */
    method SetNode(n: Resource)
      requires Valid() && n !in Objects() && Arrived(n)
      modifies this, n`ownerRefs, Objects()`ownerRefs
      ensures Valid() && resources == old(resources)[n.node.key := n]
      ensures AskedInSomeOrder(n.node, NodesIn(resources), old(RefsIn(resources)[n.node.key := n.ownerRefs]),
                               RefsIn(resources))
      ensures old(AllTidy() && Tidy(n)) ==> AllTidy() && Puts(old(Contents()), n.node, Contents())
    {
      hide AskedAll;
      hide Puts;
      hide Uids;
      hide TidyRefs;
      hide OrderOf;
      hide Partition;
      ghost var nodes, refs, own := NodesIn(resources), RefsIn(resources), n.ownerRefs;
      Store(n);
      assert NodesIn(resources) == nodes[n.node.key := n.node] && RefsIn(resources) == refs[n.node.key := own];
      ghost var order := Inform(n);
      Asked(nodes, n.node, order, refs, own);
    }

    // The first half of setNode: the node goes into both maps.
    method Store(n: Resource)
      requires Valid()
      modifies this
      ensures Valid() && resources == old(resources)[n.node.key := n]
    {
      hide Partition;
      var key := n.node.key;
      PartitionPut(resources, key, n);
      resources := resources[key := n];
      var ns: map<ResourceKey, Resource> := if key.namespace in nsIndex then nsIndex[key.namespace] else map[];
      ns := ns[key := n];
      nsIndex := nsIndex[key.namespace := ns];
    }

    // The second half: the resources of its namespace are asked, if there is anything to ask about.
    method Inform(n: Resource) returns (ghost order: seq<ResourceKey>)
      requires Valid() && n.node.key in resources && resources[n.node.key] == n
      modifies Objects()`ownerRefs
      ensures Valid() && OrderOf(order, NodesIn(resources), n.node.key.namespace)
      ensures RefsIn(resources) == AskedAll(NodesIn(resources), n.node, order, old(RefsIn(resources)))
    {
      hide AskedAll;
      BucketIs(resources, nsIndex, n.node.key.namespace, n.node.key);
      hide Partition;
      if n.node.infers.Some? || n.node.IsClaim() {
        order := UpdateOwners(n, nsIndex[n.node.key.namespace]);
      } else {
        order := SomeOrder(NodesIn(resources), n.node.key.namespace);
        NothingToAsk(NodesIn(resources), n.node, order, RefsIn(resources));
      }
    }

    method UpdateOwners(n: Resource, ns: map<ResourceKey, Resource>) returns (ghost order: seq<ResourceKey>)
      requires Valid() && n.node.key in resources && resources[n.node.key] == n
      requires ns == InNamespace(resources, n.node.key.namespace)
      modifies Objects()`ownerRefs
      ensures Valid() && OrderOf(order, NodesIn(resources), n.node.key.namespace)
      ensures RefsIn(resources) == AskedAll(NodesIn(resources), n.node, order, old(RefsIn(resources)))
    {
      hide Partition;
      hide AskedAll;
      hide OrderOf;
      hide Visits;
      ghost var start, nodes := RefsIn(resources), NodesIn(resources);
      order := [];
      AskedNone(nodes, n.node, start);
      VisitsNone();
      var todo := ns.Keys;
      ghost var visited := {};
      while todo != {}
        invariant todo <= ns.Keys && visited == ns.Keys - todo && Valid() && Visits(order, visited)
        invariant forall k :: k in order ==> k in resources
        invariant RefsIn(resources) == AskedAll(nodes, n.node, order, start)
        decreases |todo|
      {
        var k :| k in todo;
        AskNext(n, k, order, start);
        VisitsMore(order, visited, k);
        order, visited := order + [k], visited + {k};
        todo := todo - {k};
      }
      assert visited == ns.Keys;
      AllAsked(resources, ns, order, n.node.key.namespace);
    }

    method AskNext(n: Resource, k: ResourceKey, ghost order: seq<ResourceKey>, ghost start: Refs)
      requires Valid() && n.node.key in resources && resources[n.node.key] == n && k in resources
      requires start.Keys == resources.Keys && forall l :: l in order ==> l in resources
      requires RefsIn(resources) == AskedAll(NodesIn(resources), n.node, order, start)
      modifies Objects()`ownerRefs
      ensures Valid() && RefsIn(resources) == AskedAll(NodesIn(resources), n.node, order + [k], start)
    {
      hide Partition;
      hide AskedAll;
      hide AskedOne;
      AskOne(n, k);
      AskedMore(NodesIn(resources), n.node, order, k, start);
    }

    method AskOne(n: Resource, k: ResourceKey)
      requires Valid() && n.node.key in resources && resources[n.node.key] == n && k in resources
      modifies Objects()`ownerRefs
      ensures Valid() && RefsIn(resources) == AskedOne(NodesIn(resources), n.node, k, old(RefsIn(resources)))
    {
      hide Partition;
      hide Told;
      Relate(n, resources[k]);
    }

    // The first half of onNodeRemoved: the key leaves both maps. Returns what is left of its namespace.
    method Forget(key: ResourceKey) returns (ns: map<ResourceKey, Resource>)
      requires Valid() && key in resources
      modifies this
      ensures Valid() && resources == old(resources) - {key} && ns == InNamespace(resources, key.namespace)
    {
      hide Partition;
      hide InNamespace;
      PartitionDelete(resources, key);
      NeighboursOf(resources, key, nsIndex);
      ns := nsIndex[key.namespace] - {key};
      nsIndex := if |ns| == 0 then nsIndex - {key.namespace} else nsIndex[key.namespace := ns];
      resources := resources - {key};
    }

    /**
     Both maps lose the key, and the claims it inferred the first reference with its UID. Where claims list no UID
     twice that is CacheSpec.Drop.
     */
    method OnNodeRemoved(key: ResourceKey)
      requires Valid()
      modifies this, Objects()`ownerRefs
      ensures Valid() && resources == old(resources) - {key}
      ensures RefsIn(resources) ==
              if key in old(resources)
              then DisownedIn(NodesIn(resources), old(resources)[key].node, old(RefsIn(resources)) - {key})
              else old(RefsIn(resources))
      ensures old(AllTidy()) ==>
                AllTidy() && Contents() == if key in old(resources) then Drop(old(Contents()), key) else old(Contents())
    {
      hide Partition;
      hide Drop;
      hide DisownedIn;
      if key in resources {
        var existing := resources[key].node;
        ghost var nodes, refs := NodesIn(resources), RefsIn(resources);
        var ns := Forget(key);
        assert NodesIn(resources) == nodes - {key} && RefsIn(resources) == refs - {key};
        if existing.infers.Some? {
          Disown(existing, ns);
        } else {
          NobodyDisowned(nodes - {key}, existing, refs - {key});
        }
        if old(AllTidy()) { DisownedDrop(nodes, refs, key); }
      } else {
        assert resources == resources - {key};
      }
    }

    // The loop of onNodeRemoved
    method Disown(gone: Node, ns: map<ResourceKey, Resource>)
      requires Valid() && ns == InNamespace(resources, gone.key.namespace)
      modifies Objects()`ownerRefs
      ensures Valid() && RefsIn(resources) == DisownedIn(NodesIn(resources), gone, old(RefsIn(resources)))
    {
      hide Partition;
      hide DisownedBut;
      hide DisownedIn;
      ghost var start, nodes := RefsIn(resources), NodesIn(resources);
      var todo := ns.Keys;
      DisownedNobody(nodes, gone, start, ns.Keys);
      while todo != {}
        invariant todo <= ns.Keys && Valid() && RefsIn(resources) == DisownedBut(nodes, gone, start, todo)
        decreases |todo|
      {
        var k :| k in todo;
        DisownOne(gone, k, start, todo);
        todo := todo - {k};
      }
      DisownedEverybody(nodes, gone, start);
    }

    method DisownOne(gone: Node, k: ResourceKey, ghost start: Refs, ghost todo: set<ResourceKey>)
      requires Valid() && k in resources && k in todo && k.namespace == gone.key.namespace
      requires start.Keys == resources.Keys && RefsIn(resources) == DisownedBut(NodesIn(resources), gone, start, todo)
      modifies Objects()`ownerRefs
      ensures Valid() && RefsIn(resources) == DisownedBut(NodesIn(resources), gone, start, todo - {k})
    {
      hide Partition;
      hide WithOwner;
      hide DisownedBut;
      ghost var before := RefsIn(resources);
      if resources[k].node.IsClaim() && gone.Infers(k) {
        resources[k].SetOwnerRef(RefTo(gone), false);
      }
      assert RefsIn(resources) == before[k := Without(resources[k].node, gone, before[k])];
      DisownedNext(NodesIn(resources), gone, start, todo, k);
    }
  }

  // The references of `v` once the parent has gone
  function Without(v: Node, gone: Node, refs: seq<OwnerRef>): seq<OwnerRef> {
    if v.IsClaim() && gone.Infers(v.key) then WithOwner(refs, RefTo(gone), false) else refs
  }

  // Where the loop of onNodeRemoved stands with some keys of the namespace still to do
  function DisownedBut(nodes: Nodes, gone: Node, refs: Refs, todo: set<ResourceKey>): (r: Refs)
    requires refs.Keys == nodes.Keys
    ensures r.Keys == refs.Keys
  {
    map k | k in nodes ::
      if k.namespace == gone.key.namespace && k !in todo then Without(nodes[k], gone, refs[k]) else refs[k]
  }

  lemma DisownedNobody(nodes: Nodes, gone: Node, refs: Refs, todo: set<ResourceKey>)
    requires refs.Keys == nodes.Keys && forall k :: k in nodes && k.namespace == gone.key.namespace ==> k in todo
    ensures DisownedBut(nodes, gone, refs, todo) == refs
  {
  }

  lemma DisownedNext(nodes: Nodes, gone: Node, refs: Refs, todo: set<ResourceKey>, k: ResourceKey)
    requires refs.Keys == nodes.Keys && k in todo && k in nodes && k.namespace == gone.key.namespace
    ensures var now := DisownedBut(nodes, gone, refs, todo);
            DisownedBut(nodes, gone, refs, todo - {k}) == now[k := Without(nodes[k], gone, now[k])]
  {
    hide Without;
  }

  lemma DisownedEverybody(nodes: Nodes, gone: Node, refs: Refs)
    requires refs.Keys == nodes.Keys && forall k :: k in nodes ==> nodes[k].key == k
    ensures DisownedBut(nodes, gone, refs, {}) == DisownedIn(nodes, gone, refs)
  {
    hide WithOwner;
  }

  // The claims of the namespace that a parent inferred, without the parent
  function DisownedIn(nodes: Nodes, gone: Node, refs: Refs): (r: Refs)
    requires refs.Keys == nodes.Keys
    ensures r.Keys == refs.Keys
  {
    map k | k in nodes ::
      if k.namespace == gone.key.namespace && nodes[k].IsClaim() && gone.Infers(k)
      then WithOwner(refs[k], RefTo(gone), false) else refs[k]
  }

  lemma NobodyDisowned(nodes: Nodes, gone: Node, refs: Refs)
    requires refs.Keys == nodes.Keys && !gone.IsParent()
    ensures DisownedIn(nodes, gone, refs) == refs
  {
  }

  lemma DisownedDrop(nodes: Nodes, refs: Refs, key: ResourceKey)
    requires refs.Keys == nodes.Keys && TidyRefs(nodes, refs) && key in nodes && nodes[key].key == key
    ensures var next := DisownedIn(nodes - {key}, nodes[key], refs - {key});
            TidyRefs(nodes - {key}, next) && CacheOf(nodes - {key}, next) == Drop(CacheOf(nodes, refs), key)
  {
    var c, next := CacheOf(nodes, refs), DisownedIn(nodes - {key}, nodes[key], refs - {key});
    assert Drop(c, key).Keys == nodes.Keys - {key};
    hide Drop;
    hide DisownedIn;
    hide UidsDistinct;
    hide Uids;
    forall k | k in nodes && k != key
      ensures (nodes[k].IsClaim() ==> UidsDistinct(next[k])) && Entry(nodes[k], Uids(next[k])) == Drop(c, key)[k]
    {
      OneDisowned(nodes, refs, key, k);
    }
    SameCache(CacheOf(nodes - {key}, next), Drop(c, key));
  }

  lemma SameCache(a: Cache, b: Cache)
    requires a.Keys == b.Keys && forall k :: k in a ==> a[k] == b[k]
    ensures a == b
  {
  }

  lemma OneDisowned(nodes: Nodes, refs: Refs, key: ResourceKey, k: ResourceKey)
    requires refs.Keys == nodes.Keys && TidyRefs(nodes, refs) && key in nodes && nodes[key].key == key
    requires k in nodes && k != key
    ensures var next := DisownedIn(nodes - {key}, nodes[key], refs - {key})[k];
            (nodes[k].IsClaim() ==> UidsDistinct(next)) &&
            Entry(nodes[k], Uids(next)) == Drop(CacheOf(nodes, refs), key)[k]
  {
    hide Uids;
    hide UidsDistinct;
    hide WithOwner;
    assert NodesOf(CacheOf(nodes, refs)) == nodes;
    if nodes[k].IsClaim() { WithOwnerUids(refs[k], RefTo(nodes[key]), false); }
  }

  // Setting a node, once its namespace has been asked in some order
  lemma Asked(nodes: Nodes, n: Node, order: seq<ResourceKey>, refs: Refs, own: seq<OwnerRef>)
    requires refs.Keys == nodes.Keys && OrderOf(order, nodes[n.key := n], n.key.namespace) && n.listed == Uids(own)
    requires forall k :: k in nodes ==> nodes[k].key == k
    ensures var all, was := nodes[n.key := n], refs[n.key := own];
            var now := AskedAll(all, n, order, was);
            && AskedInSomeOrder(n, all, was, now)
            && (TidyRefs(nodes, refs) && (n.IsClaim() ==> UidsDistinct(own)) ==>
                  TidyRefs(all, now) && Puts(CacheOf(nodes, refs), n, CacheOf(all, now)))
  {
    hide AskedAll;
    hide Puts;
    hide Uids;
    hide UidsDistinct;
    var all, was := nodes[n.key := n], refs[n.key := own];
    assert AskedInSomeOrder(n, all, was, AskedAll(all, n, order, was));
    if TidyRefs(nodes, refs) && (n.IsClaim() ==> UidsDistinct(own)) {
      assert CacheOf(all, was) == CacheOf(nodes, refs)[n.key := Entry(n, n.listed)];
      AskedPuts(CacheOf(nodes, refs), all, n, order, was);
    }
  }

  // The references of a cache after a node has been set
  ghost predicate AskedInSomeOrder(n: Node, nodes: Nodes, was: Refs, now: Refs) {
    && n.key in nodes && was.Keys == nodes.Keys
    && exists order :: OrderOf(order, nodes, n.key.namespace) && now == AskedAll(nodes, n, order, was)
  }

  lemma AllAsked(resources: map<ResourceKey, Resource>, ns: map<ResourceKey, Resource>, order: seq<ResourceKey>,
                 name: string)
    requires ns == InNamespace(resources, name) && Visits(order, ns.Keys)
    ensures OrderOf(order, NodesIn(resources), name)
  {
  }

  lemma AskedNone(nodes: Nodes, n: Node, refs: Refs)
    requires n.key in nodes && refs.Keys == nodes.Keys
    ensures AskedAll(nodes, n, [], refs) == refs
  {
  }

  lemma AskedMore(nodes: Nodes, n: Node, order: seq<ResourceKey>, k: ResourceKey, refs: Refs)
    requires n.key in nodes && refs.Keys == nodes.Keys && k in nodes && forall l :: l in order ==> l in nodes
    ensures AskedAll(nodes, n, order + [k], refs) == AskedOne(nodes, n, k, AskedAll(nodes, n, order, refs))
  {
    assert (order + [k])[..|order|] == order;
  }

  // What is neither parent nor claim has nothing to ask and nothing to be told.
  lemma {:induction false} NothingToAsk(nodes: Nodes, n: Node, order: seq<ResourceKey>, refs: Refs)
    requires n.key in nodes && refs.Keys == nodes.Keys && (forall k :: k in order ==> k in nodes)
    requires !n.IsParent() && !n.IsClaim()
    ensures AskedAll(nodes, n, order, refs) == refs
  {
    if order != [] {
      NothingToAsk(nodes, n, order[..|order| - 1], refs);
    }
  }

  lemma OrderOfSet(s: set<ResourceKey>) returns (order: seq<ResourceKey>)
    ensures Visits(order, s)
  {
    order := [];
    var todo := s;
    while todo != {}
      invariant todo <= s && Visits(order, s - todo)
    {
      var k := AnyOf(todo);
      VisitsMore(order, s - todo, k);
      assert (s - todo) + {k} == s - (todo - {k});
      order, todo := order + [k], todo - {k};
    }
    assert s - {} == s;
  }

  lemma SomeOrder(nodes: Nodes, ns: string) returns (order: seq<ResourceKey>)
    ensures OrderOf(order, nodes, ns)
  {
    order := OrderOfSet(set k | k in nodes && k.namespace == ns);
  }

  lemma NeighboursOf(resources: map<ResourceKey, Resource>, key: ResourceKey,
                     index: map<string, map<ResourceKey, Resource>>)
    requires index == Partition(resources) && key.namespace in index
    ensures index[key.namespace] - {key} == InNamespace(resources - {key}, key.namespace)
  {
  }

  lemma MidwayNext(start: Cache, n: Node, asked: set<ResourceKey>, before: Cache, now: Cache, k: ResourceKey)
    requires Midway(start, n, asked, before) && before[n.key].node == n
    requires k in before && k.namespace == n.key.namespace && k !in asked && before[k].node.key == k
    requires now.Keys == before.Keys && forall v :: v in now ==> now[v].node == before[v].node
    requires forall v :: v in now && v != k && v != n.key ==> now[v].owners == before[v].owners
    requires k != n.key ==> now[k].owners == Answered(before[k].node, n, before[k].owners)
    requires now[n.key].owners == Answered(n, before[k].node, before[n.key].owners)
    ensures Midway(start, n, asked + {k}, now)
  {
    hide Resolved;
    assert NodesOf(now) == NodesOf(before);
    if n.IsClaim() {
      ResolvedNext(NodesOf(before), asked, n.key, n.listed, before[n.key].owners, k);
    }
  }

  lemma BucketIs(resources: map<ResourceKey, Resource>, index: map<string, map<ResourceKey, Resource>>, name: string,
                 k: ResourceKey)
    requires index == Partition(resources) && k in resources && k.namespace == name
    ensures name in index && index[name] == InNamespace(resources, name)
  {
  }

  lemma AskedNobody(c: Cache, n: Node)
    requires n.key in c && c[n.key] == Entry(n, n.listed)
    ensures Midway(c, n, {}, c)
  {
  }

  lemma PutDone(before: Cache, n: Node, next: Cache)
    requires var start := before[n.key := Entry(n, n.listed)];
             Midway(start, n, (set k | k in start && k.namespace == n.key.namespace), next)
             || (Midway(start, n, {}, next) && !n.IsParent() && !n.IsClaim())
    ensures Puts(before, n, next)
  {
    var start := before[n.key := Entry(n, n.listed)];
    assert NodesOf(start) == NodesOf(before)[n.key := n];
    if n.IsClaim() {
      var asked := set k | k in start && k.namespace == n.key.namespace;
      var nodes := NodesOf(next);
      forall u, answer
        ensures AnswerFor(nodes, asked, n.key, u, answer) <==> AnswerFor(nodes, next.Keys, n.key, u, answer)
      {
        if AnswerFor(nodes, next.Keys, n.key, u, answer) {
          var s :| s in next.Keys && Related(nodes, s, n.key) && nodes[s].uid == u && nodes[s].Infers(n.key) == answer;
          assert s in asked;
        }
      }
    }
  }
}
