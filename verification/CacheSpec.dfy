/**
 What the cluster cache (pkg/cache/cluster.go) holds, as a value: for each key its resource and the UIDs of
 its owners. Owners of PersistentVolumeClaims are partly inferred: a StatefulSet answers for any key
 whether it is its parent, and the cache keeps the claims' owner references in step with the answers.
 */
module CacheSpec {
  import opened Kube

  /** What does not change about a cached resource; `listed` are the owners it arrived with. */
  datatype Node = Node(
    key: ResourceKey,
    uid: string,
    apiVersion: string,
    version: string,
    listed: set<string>,
    infers: Option<ResourceKey -> bool>)
  {
    // mightHaveInferredOwner
    predicate IsClaim() { key.group == "" && key.kind == CLAIM_KIND }

    predicate IsParent() { infers.Some? }

    predicate Infers(k: ResourceKey) { infers.Some? && infers.value(k) }
  }

  const CLAIM_KIND := "PersistentVolumeClaim"

  datatype Entry = Entry(node: Node, owners: set<string>)

  type Cache = map<ResourceKey, Entry>

  type Nodes = map<ResourceKey, Node>

  function NodesOf(c: Cache): Nodes {
    map k | k in c :: c[k].node
  }

  // A parent and a claim of one namespace
  predicate Related(nodes: Nodes, s: ResourceKey, v: ResourceKey) {
    && s in nodes && v in nodes && s.namespace == v.namespace
    && nodes[s].IsParent() && nodes[v].IsClaim()
  }

  /** The invariant: a claim lists a parent's UID exactly when the parent infers the claim. */
  ghost predicate Inferred(c: Cache) {
    forall s, v :: Related(NodesOf(c), s, v) ==>
      (c[s].node.uid in c[v].owners <==> c[s].node.Infers(v))
  }

  /** In the nodes' own terms: what can infer answers yes for exactly those claims of its namespace that list it. */
  lemma InferredMeans(c: Cache)
    ensures Inferred(c) <==>
            forall s, v :: (s in c && v in c && s.namespace == v.namespace && c[s].node.infers.Some?
                            && c[v].node.key.group == "" && c[v].node.key.kind == "PersistentVolumeClaim")
              ==> (c[s].node.uid in c[v].owners <==> c[s].node.infers.value(v))
  {
    forall s, v
      ensures Related(NodesOf(c), s, v) <==>
              s in c && v in c && s.namespace == v.namespace && c[s].node.infers.Some?
              && c[v].node.key.group == "" && c[v].node.key.kind == "PersistentVolumeClaim"
    {
    }
  }

  // Parents that share a UID give the same answers.
  ghost predicate Agree(nodes: Nodes) {
    forall s, t, v :: Related(nodes, s, v) && Related(nodes, t, v) && nodes[s].uid == nodes[t].uid ==>
      (nodes[s].Infers(v) <==> nodes[t].Infers(v))
  }

  // Different parents have different UIDs.
  ghost predicate Apart(nodes: Nodes) {
    forall s, t ::
      (s in nodes && t in nodes && s != t && s.namespace == t.namespace && nodes[s].IsParent() && nodes[t].IsParent())
      ==> nodes[s].uid != nodes[t].uid
  }

  lemma ApartAgree(nodes: Nodes)
    requires Apart(nodes)
    ensures Agree(nodes)
  {
  }

  // ----- setting and removing a node -----

  // setOwnerRef, on UIDs
  function Adjust(owners: set<string>, uid: string, add: bool): set<string> {
    if add then owners + {uid} else owners - {uid}
  }

  // Some of the parents asked has this UID and gives this answer.
  ghost predicate AnswerFor(nodes: Nodes, asked: set<ResourceKey>, v: ResourceKey, u: string, answer: bool) {
    exists s :: s in asked && Related(nodes, s, v) && nodes[s].uid == u && nodes[s].Infers(v) == answer
  }

  // The owners of a claim that started with `listed`, when some of its parents have been asked, in any order
  ghost predicate Resolved(nodes: Nodes, asked: set<ResourceKey>, v: ResourceKey, listed: set<string>,
                           owners: set<string>) {
    forall u ::
      && (!AnswerFor(nodes, asked, v, u, true) && !AnswerFor(nodes, asked, v, u, false) ==>
            (u in owners <==> u in listed))
      && (AnswerFor(nodes, asked, v, u, true) && !AnswerFor(nodes, asked, v, u, false) ==> u in owners)
      && (AnswerFor(nodes, asked, v, u, false) && !AnswerFor(nodes, asked, v, u, true) ==> u !in owners)
  }

  lemma ResolvedNext(nodes: Nodes, asked: set<ResourceKey>, v: ResourceKey, listed: set<string>, owners: set<string>,
                     s: ResourceKey)
    requires Resolved(nodes, asked, v, listed, owners)
    ensures Resolved(nodes, asked + {s}, v, listed,
                     if Related(nodes, s, v) then Adjust(owners, nodes[s].uid, nodes[s].Infers(v)) else owners)
  {
  }

  /** `next` may result from setting `n`. Only where parents share a UID and disagree is there a choice. */
  ghost predicate Puts(c: Cache, n: Node, next: Cache) {
    && next.Keys == c.Keys + {n.key}
    && NodesOf(next) == NodesOf(c)[n.key := n]
    && (forall v :: v in c && v != n.key ==>
         next[v].owners ==
           if Related(NodesOf(next), n.key, v) then Adjust(c[v].owners, n.uid, n.Infers(v)) else c[v].owners)
    && (if n.IsClaim() then Resolved(NodesOf(next), next.Keys, n.key, n.listed, next[n.key].owners)
        else next[n.key].owners == n.listed)
  }

  function Drop(c: Cache, key: ResourceKey): Cache
    requires key in c
  {
    var n := c[key].node;
    map v | v in c && v != key ::
      if Related(NodesOf(c), key, v) && n.Infers(v) then Entry(c[v].node, c[v].owners - {n.uid}) else c[v]
  }

  /** Setting a node keeps the invariant exactly when parents with one UID agree about the claims. */
  lemma PutKeepsInferred(c: Cache, n: Node, next: Cache)
    requires Inferred(c) && Puts(c, n, next)
    ensures Inferred(next) <==> Agree(NodesOf(next))
  {
    var nodes := NodesOf(next);
    if Inferred(next) {
      forall s, t, v | Related(nodes, s, v) && Related(nodes, t, v) && nodes[s].uid == nodes[t].uid
        ensures nodes[s].Infers(v) <==> nodes[t].Infers(v)
      {
        assert nodes[s].uid in next[v].owners <==> nodes[s].Infers(v);
      }
    }
    if Agree(nodes) {
      forall s, v | Related(nodes, s, v) ensures nodes[s].uid in next[v].owners <==> nodes[s].Infers(v) {
        PutPair(c, n, next, s, v);
      }
    }
  }

  lemma PutPair(c: Cache, n: Node, next: Cache, s: ResourceKey, v: ResourceKey)
    requires Inferred(c) && Puts(c, n, next) && Agree(NodesOf(next)) && Related(NodesOf(next), s, v)
    ensures next[s].node.uid in next[v].owners <==> next[s].node.Infers(v)
  {
    var nodes := NodesOf(next);
    if v == n.key {
      assert AnswerFor(nodes, next.Keys, v, nodes[s].uid, nodes[s].Infers(v));
    } else if s != n.key {
      assert Related(NodesOf(c), s, v);
      assert Related(nodes, n.key, v) && n.uid == nodes[s].uid ==> (n.Infers(v) <==> nodes[s].Infers(v));
    }
  }

  // A second parent with the UID of the one removed, and a claim of both
  ghost predicate SharesClaim(nodes: Nodes, key: ResourceKey) {
    exists s, v :: s != key && v != key && Related(nodes, key, v) && Related(nodes, s, v)
      && nodes[s].uid == nodes[key].uid && nodes[key].Infers(v)
  }

  /**
   Removing a node keeps the invariant exactly when no other parent with its UID has a claim in common with
   it. Otherwise the claim loses a reference it should still have.
   */
  lemma DropKeepsInferred(c: Cache, key: ResourceKey)
    requires Inferred(c) && key in c
    ensures Inferred(Drop(c, key)) <==> !SharesClaim(NodesOf(c), key)
  {
    var nodes, next := NodesOf(c), Drop(c, key);
    if SharesClaim(nodes, key) {
      var s, v :| s != key && v != key && Related(nodes, key, v) && Related(nodes, s, v)
        && nodes[s].uid == nodes[key].uid && nodes[key].Infers(v);
      assert Related(NodesOf(next), s, v);
      assert c[s].node.uid in c[v].owners && c[s].node.Infers(v);
      assert next[s].node.uid !in next[v].owners;
    } else {
      forall s, v | Related(NodesOf(next), s, v)
        ensures next[s].node.uid in next[v].owners <==> next[s].node.Infers(v)
      {
        assert Related(nodes, s, v);
      }
    }
  }

  // Removing a node of distinct UID is always safe.
  lemma DropApart(c: Cache, key: ResourceKey)
    requires Inferred(c) && Apart(NodesOf(c)) && key in c
    ensures Inferred(Drop(c, key)) && Apart(NodesOf(Drop(c, key)))
  {
    DropKeepsInferred(c, key);
  }

  // Two parents listed under different groups, as StatefulSets in apps and extensions are, with one UID and one claim
  function Twins(s: ResourceKey, t: ResourceKey, v: ResourceKey): Cache {
    var infers := Some((k: ResourceKey) => k == v);
    map[s := Entry(Node(s, "1", "apps/v1", "7", {}, infers), {}),
        t := Entry(Node(t, "1", "extensions/v1beta1", "7", {}, infers), {}),
        v := Entry(Node(v, "2", "v1", "7", {}, None), {"1"})]
  }

  lemma DuplicateUid(s: ResourceKey, t: ResourceKey, v: ResourceKey)
    requires s != t && t != v && s != v && s.namespace == t.namespace == v.namespace
    requires v.group == "" && v.kind == CLAIM_KIND && s.group != "" && t.group != ""
    ensures Inferred(Twins(s, t, v)) && Agree(NodesOf(Twins(s, t, v)))
    ensures !Inferred(Drop(Twins(s, t, v), s))
  {
    var c := Twins(s, t, v);
    assert Related(NodesOf(c), s, v) && Related(NodesOf(c), t, v);
    assert SharesClaim(NodesOf(c), s);
    DropKeepsInferred(c, s);
  }

  // ----- runs -----

  datatype Event = Set(node: Node) | Remove(key: ResourceKey)

  // setNode, or onNodeRemoved, which does nothing to a key it does not know
  ghost predicate Steps(c: Cache, e: Event, next: Cache) {
    match e
    case Set(n) => Puts(c, n, next)
    case Remove(k) => next == if k in c then Drop(c, k) else c
  }

  ghost predicate IsRun(events: seq<Event>, states: seq<Cache>) {
    && |states| == |events| + 1
    && forall i :: 0 <= i < |events| ==> Steps(states[i], events[i], states[i + 1])
  }

  // Every run in which parents always have distinct UIDs keeps the invariant.
  lemma {:induction false} RunKeepsInferred(events: seq<Event>, states: seq<Cache>, i: nat)
    requires IsRun(events, states) && i < |states|
    requires forall j :: 0 <= j < |states| ==> Apart(NodesOf(states[j]))
    requires Inferred(states[0])
    ensures Inferred(states[i])
  {
    if i > 0 {
      RunKeepsInferred(events, states, i - 1);
      var c, next := states[i - 1], states[i];
      assert Steps(c, events[i - 1], next);
      match events[i - 1]
      case Set(n) =>
        PutKeepsInferred(c, n, next);
        ApartAgree(NodesOf(next));
      case Remove(k) =>
        if k in c { DropKeepsInferred(c, k); }
    }
  }

  // ----- loading -----

  // The owners of a claim once everything is loaded: those it arrived with, corrected by every parent
  function SettledOwners(nodes: Nodes, v: ResourceKey): set<string>
    requires v in nodes
  {
    if !nodes[v].IsClaim() then nodes[v].listed
    else
      (nodes[v].listed - (set s | s in nodes && Related(nodes, s, v) :: nodes[s].uid))
      + (set s | s in nodes && Related(nodes, s, v) && nodes[s].Infers(v) :: nodes[s].uid)
  }

  function Settled(nodes: Nodes): Cache {
    map v | v in nodes :: Entry(nodes[v], SettledOwners(nodes, v))
  }

  // Agreement of all nodes is agreement of some of them.
  lemma AgreePart(all: Nodes, part: Nodes)
    requires Agree(all) && forall k :: k in part ==> k in all && all[k] == part[k]
    ensures Agree(part)
  {
  }

  lemma PutSettled(nodes: Nodes, n: Node, next: Cache)
    requires n.key !in nodes && Agree(nodes[n.key := n]) && Puts(Settled(nodes), n, next)
    ensures next == Settled(nodes[n.key := n])
  {
    var all := nodes[n.key := n];
    assert NodesOf(Settled(nodes)) == nodes;
    assert NodesOf(next) == all;
    forall v | v in all ensures next[v].owners == SettledOwners(all, v) {
      if v == n.key {
        NewClaim(all, n, next[v].owners);
      } else {
        OldClaim(nodes, n, v);
      }
    }
    assert next.Keys == NodesOf(next).Keys == all.Keys;
    forall v | v in all ensures next[v] == Entry(all[v], SettledOwners(all, v)) {
      assert NodesOf(next)[v] == all[v];
    }
  }

  lemma NewClaim(all: Nodes, n: Node, owners: set<string>)
    requires n.key in all && all[n.key] == n && Agree(all)
    requires if n.IsClaim() then Resolved(all, all.Keys, n.key, n.listed, owners) else owners == n.listed
    ensures owners == SettledOwners(all, n.key)
  {
  }

  lemma OldClaim(nodes: Nodes, n: Node, v: ResourceKey)
    requires v in nodes && n.key !in nodes && Agree(nodes[n.key := n])
    ensures var all := nodes[n.key := n];
            SettledOwners(all, v) ==
            if Related(all, n.key, v) then Adjust(SettledOwners(nodes, v), n.uid, n.Infers(v))
            else SettledOwners(nodes, v)
  {
    var all := nodes[n.key := n];
    if nodes[v].IsClaim() {
      assert forall s :: s in nodes ==> (Related(all, s, v) <==> Related(nodes, s, v));
      var was, now := SettledOwners(nodes, v), SettledOwners(all, v);
      forall u ensures u in now <==> u in if Related(all, n.key, v) then Adjust(was, n.uid, n.Infers(v)) else was {
        if Related(all, n.key, v) && u == n.uid {
          assert forall s :: Related(all, s, v) && all[s].uid == u ==> (all[s].Infers(v) <==> n.Infers(v));
        }
      }
    }
  }

  function Catalogue(ns: seq<Node>): Nodes {
    if ns == [] then map[] else Catalogue(ns[..|ns| - 1])[ns[|ns| - 1].key := ns[|ns| - 1]]
  }

  /** A load, in any order of arrival and with any order of iteration, ends in the one settled cache. */
  lemma {:induction false} LoadSettles(ns: seq<Node>, states: seq<Cache>)
    requires |states| == |ns| + 1 && states[0] == map[]
    requires forall i :: 0 <= i < |ns| ==> Puts(states[i], ns[i], states[i + 1])
    requires forall i, j :: 0 <= i < j < |ns| ==> ns[i].key != ns[j].key
    requires Agree(Catalogue(ns))
    ensures states[|ns|] == Settled(Catalogue(ns))
  {
    hide Agree;
    hide Puts;
    if ns == [] {
      assert Catalogue(ns) == map[];
    } else {
      var n := |ns| - 1;
      CatalogueKeys(ns[..n]);
      AgreePart(Catalogue(ns), Catalogue(ns[..n]));
      LoadSettles(ns[..n], states[..n + 1]);
      assert ns[n].key !in Catalogue(ns[..n]);
      PutSettled(Catalogue(ns[..n]), ns[n], states[n + 1]);
    }
  }

  lemma {:induction false} CatalogueKeys(ns: seq<Node>)
    ensures forall k :: k in Catalogue(ns) ==> exists i :: 0 <= i < |ns| && ns[i].key == k && ns[i] == Catalogue(ns)[k]
    ensures forall i :: 0 <= i < |ns| ==> ns[i].key in Catalogue(ns)
  {
    if ns != [] {
      var n := |ns| - 1;
      CatalogueKeys(ns[..n]);
      forall i | 0 <= i < |ns| ensures ns[i].key in Catalogue(ns) {
        if i < n { assert ns[..n][i] == ns[i]; }
      }
      forall k | k in Catalogue(ns) ensures exists i :: 0 <= i < |ns| && ns[i].key == k && ns[i] == Catalogue(ns)[k] {
        if k == ns[n].key {
        } else {
          assert k in Catalogue(ns[..n]);
          var i :| 0 <= i < |ns[..n]| && ns[..n][i].key == k && ns[..n][i] == Catalogue(ns[..n])[k];
          assert ns[i] == ns[..n][i];
        }
      }
    }
  }

  // Two loads of the same resources, in whatever orders, give every claim the same owners.
  lemma LoadAnyOrder(a: seq<Node>, b: seq<Node>, statesA: seq<Cache>, statesB: seq<Cache>)
    requires |statesA| == |a| + 1 && |statesB| == |b| + 1 && statesA[0] == statesB[0] == map[]
    requires forall i :: 0 <= i < |a| ==> Puts(statesA[i], a[i], statesA[i + 1])
    requires forall i :: 0 <= i < |b| ==> Puts(statesB[i], b[i], statesB[i + 1])
    requires forall i, j :: 0 <= i < j < |a| ==> a[i].key != a[j].key
    requires forall i, j :: 0 <= i < j < |b| ==> b[i].key != b[j].key
    requires forall n :: n in a <==> n in b
    requires Agree(Catalogue(a))
    ensures statesA[|a|] == statesB[|b|]
  {
    SameCatalogue(a, b);
    LoadSettles(a, statesA);
    LoadSettles(b, statesB);
  }

  lemma OneOfKey(a: seq<Node>, m: Node, n: Node)
    requires forall i, j :: 0 <= i < j < |a| ==> a[i].key != a[j].key
    requires m in a && n in a && m.key == n.key
    ensures m == n
  {
  }

  lemma SameCatalogue(a: seq<Node>, b: seq<Node>)
    requires forall i, j :: 0 <= i < j < |a| ==> a[i].key != a[j].key
    requires forall n :: n in a <==> n in b
    ensures Catalogue(a) == Catalogue(b)
  {
    hide Catalogue;
    var ca, cb := Catalogue(a), Catalogue(b);
    CatalogueKeys(a);
    CatalogueKeys(b);
    forall k | k in ca ensures k in cb && ca[k] == cb[k] {
      var i :| 0 <= i < |a| && a[i].key == k && a[i] == ca[k];
      assert a[i] in b;
      var j :| 0 <= j < |b| && b[j].key == k && b[j] == cb[k];
      assert b[j] in a;
      OneOfKey(a, a[i], b[j]);
    }
    forall k | k in cb ensures k in ca {
      var j :| 0 <= j < |b| && b[j].key == k && b[j] == cb[k];
      assert b[j] in a;
    }
    assert ca.Keys == cb.Keys;
  }
}
