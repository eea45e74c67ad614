/** What filling in the UIDs of owner references does to the cache, and to the owners inferred in it. */
module Backfill {
  import opened Kube
  import opened CacheSpec
  import opened OwnerRefs
  import opened OwnerGraph
  import opened BuildGraph

  function NodesOfNamespace(nodes: Nodes, ns: string): Nodes {
    map k | k in nodes && k.namespace == ns :: nodes[k]
  }

  // The references once the graphs of some namespaces have been built
  function BackfillIn(nodes: Nodes, refs: Refs, built: set<string>): (r: Refs)
    ensures r.Keys == refs.Keys
  {
    map k | k in refs ::
      if k.namespace in built then BackfilledAll(NodesOfNamespace(nodes, k.namespace), k.namespace, refs[k])
      else refs[k]
  }

  // The UIDs filled in
  function FilledUids(nodes: Nodes, ns: string, refs: seq<OwnerRef>): set<string> {
    set i | 0 <= i < |refs| && refs[i].uid == "" && OwnerUid(nodes, ns, refs[i]).Some?
      :: OwnerUid(nodes, ns, refs[i]).value
  }

  lemma BackfilledUids(nodes: Nodes, ns: string, refs: seq<OwnerRef>, u: string)
    requires u != ""
    ensures u in Uids(BackfilledAll(nodes, ns, refs)) <==> u in Uids(refs) || u in FilledUids(nodes, ns, refs)
  {
    hide OwnerUid;
    var filled := BackfilledAll(nodes, ns, refs);
    forall i | 0 <= i < |refs| ensures BackfilledUid(nodes, ns, refs[i], filled[i]) {
      OneBackfilled(nodes, ns, refs[i]);
    }
    if u in Uids(filled) {
      var r :| r in filled && r.uid == u;
      var i :| 0 <= i < |filled| && filled[i] == r;
      assert BackfilledUid(nodes, ns, refs[i], filled[i]) && refs[i] in refs;
    }
    if u in Uids(refs) {
      var r :| r in refs && r.uid == u;
      var i :| 0 <= i < |refs| && refs[i] == r;
      assert BackfilledUid(nodes, ns, refs[i], filled[i]) && filled[i] in filled;
    }
    if u in FilledUids(nodes, ns, refs) {
      var i :| 0 <= i < |refs| && refs[i].uid == "" && OwnerUid(nodes, ns, refs[i]) == Some(u);
      assert BackfilledUid(nodes, ns, refs[i], filled[i]) && filled[i] in filled;
    }
  }

  predicate BackfilledUid(nodes: Nodes, ns: string, ref: OwnerRef, filled: OwnerRef) {
    filled.uid == if ref.uid == "" && OwnerUid(nodes, ns, ref).Some? then OwnerUid(nodes, ns, ref).value else ref.uid
  }

  lemma OneBackfilled(nodes: Nodes, ns: string, ref: OwnerRef)
    ensures BackfilledUid(nodes, ns, ref, Backfilled(nodes, ns, ref))
  {
  }

  // There is nothing to fill in where no UID is empty.
  lemma FullBackfilled(nodes: Nodes, ns: string, refs: seq<OwnerRef>)
    requires "" !in Uids(refs)
    ensures BackfilledAll(nodes, ns, refs) == refs
  {
    forall i | 0 <= i < |refs| ensures BackfilledAll(nodes, ns, refs)[i] == refs[i] {
      assert refs[i].uid in Uids(refs);
    }
  }

  // A claim that names, in a reference without UID, a parent which does not infer it
  ghost predicate FillsWrongly(nodes: Nodes, refs: Refs, built: set<string>, s: ResourceKey, v: ResourceKey) {
    && Related(nodes, s, v) && v in refs && v.namespace in built && !nodes[s].Infers(v)
    && exists i :: 0 <= i < |refs[v]| && refs[v][i].uid == "" &&
         StandsFor(NodesOfNamespace(nodes, v.namespace), v.namespace, refs[v][i], nodes[s].uid)
  }

  /** Filling in keeps the claims' owners as inferred exactly when it fills in no parent that denies the claim. */
  lemma BackfillKeepsInferred(nodes: Nodes, refs: Refs, built: set<string>)
    requires refs.Keys == nodes.Keys && Inferred(CacheOf(nodes, refs))
    requires forall s :: s in nodes && nodes[s].IsParent() ==> nodes[s].uid != ""
    ensures Inferred(CacheOf(nodes, BackfillIn(nodes, refs, built))) <==>
            forall s, v :: !FillsWrongly(nodes, refs, built, s, v)
  {
    var before, after := CacheOf(nodes, refs), CacheOf(nodes, BackfillIn(nodes, refs, built));
    assert NodesOf(before) == nodes && NodesOf(after) == nodes;
    forall s, v | Related(nodes, s, v)
      ensures (nodes[s].uid in after[v].owners <==> nodes[s].Infers(v)) <==> !FillsWrongly(nodes, refs, built, s, v)
    {
      assert nodes[s].uid in before[v].owners <==> nodes[s].Infers(v);
      PairBackfilled(nodes, refs, built, s, v);
    }
  }

  lemma PairBackfilled(nodes: Nodes, refs: Refs, built: set<string>, s: ResourceKey, v: ResourceKey)
    requires refs.Keys == nodes.Keys && Related(nodes, s, v) && nodes[s].uid != ""
    requires nodes[s].uid in Uids(refs[v]) <==> nodes[s].Infers(v)
    ensures (nodes[s].uid in Uids(BackfillIn(nodes, refs, built)[v]) <==> nodes[s].Infers(v)) <==>
            !FillsWrongly(nodes, refs, built, s, v)
  {
    hide StandsFor;
    var inside, u := NodesOfNamespace(nodes, v.namespace), nodes[s].uid;
    BackfilledUids(inside, v.namespace, refs[v], u);
    forall i | 0 <= i < |refs[v]| { OwnerUidIs(inside, v.namespace, refs[v][i], u); }
  }
}
