/** Resources and their owner references (pkg/cache/resource.go). */
module OwnerRefs {
  import opened Kube
  import opened CacheSpec

  datatype OwnerRef = OwnerRef(uid: string, name: string, kind: string, apiVersion: string)

  // toOwnerRef
  function RefTo(n: Node): (r: OwnerRef)
    ensures r.uid == n.uid
  {
    OwnerRef(n.uid, n.key.name, n.key.kind, n.apiVersion)
  }

  function Uids(refs: seq<OwnerRef>): set<string> {
    set r | r in refs :: r.uid
  }

  predicate UidsDistinct(refs: seq<OwnerRef>) {
    forall i, j :: 0 <= i < j < |refs| ==> refs[i].uid != refs[j].uid
  }

  // setOwnerRef, on lists: only the first reference with the UID counts.
  function WithOwner(refs: seq<OwnerRef>, ref: OwnerRef, add: bool): seq<OwnerRef> {
    if refs == [] then if add then [ref] else []
    else if refs[0].uid == ref.uid then if add then refs else refs[1..]
    else [refs[0]] + WithOwner(refs[1..], ref, add)
  }

  lemma UidsCons(r: OwnerRef, refs: seq<OwnerRef>)
    ensures Uids([r] + refs) == {r.uid} + Uids(refs)
    ensures UidsDistinct([r] + refs) <==> r.uid !in Uids(refs) && UidsDistinct(refs)
  {
    var all := [r] + refs;
    assert Uids(all) == {r.uid} + Uids(refs) by {
      assert forall x :: x in all <==> x == r || x in refs;
    }
    if UidsDistinct(all) {
      forall i | 0 <= i < |refs| ensures refs[i].uid != r.uid { assert all[i + 1] == refs[i] && all[0] == r; }
      forall i, j | 0 <= i < j < |refs| ensures refs[i].uid != refs[j].uid {
        assert all[i + 1] == refs[i] && all[j + 1] == refs[j];
      }
    }
    if r.uid !in Uids(refs) && UidsDistinct(refs) {
      forall i, j | 0 <= i < j < |all| ensures all[i].uid != all[j].uid {
        assert all[j] == refs[j - 1] && all[j].uid in Uids(refs);
        if i > 0 { assert all[i] == refs[i - 1]; }
      }
    }
  }

  // With distinct UIDs, the reference is there afterwards exactly when asked for, and the others are as before.
  lemma {:induction false} WithOwnerUids(refs: seq<OwnerRef>, ref: OwnerRef, add: bool)
    requires UidsDistinct(refs)
    ensures UidsDistinct(WithOwner(refs, ref, add))
    ensures Uids(WithOwner(refs, ref, add)) == Adjust(Uids(refs), ref.uid, add)
    ensures forall r: OwnerRef :: r.uid != ref.uid ==> (r in WithOwner(refs, ref, add) <==> r in refs)
  {
    hide UidsDistinct;
    hide Uids;
    if refs == [] {
      UidsCons(ref, []);
      assert [ref] + [] == [ref] && Uids([]) == {} && UidsDistinct([]) by { NoUids(); }
    } else {
      assert refs == [refs[0]] + refs[1..];
      UidsCons(refs[0], refs[1..]);
      if refs[0].uid != ref.uid {
        WithOwnerUids(refs[1..], ref, add);
        UidsCons(refs[0], WithOwner(refs[1..], ref, add));
      }
    }
  }

  lemma NoUids()
    ensures Uids([]) == {} && UidsDistinct([])
  {
  }

  // Without distinct UIDs a removal may leave another reference with the same UID behind.
  lemma RemovalNeedsDistinctUids(ref: OwnerRef)
    ensures ref.uid in Uids(WithOwner([ref, ref], ref, false))
  {
  }

  function CountUid(refs: seq<OwnerRef>, uid: string): nat {
    if refs == [] then 0 else CountUid(refs[1..], uid) + if refs[0].uid == uid then 1 else 0
  }

  lemma {:induction false} CountPositive(refs: seq<OwnerRef>, uid: string)
    ensures uid in Uids(refs) <==> CountUid(refs, uid) > 0
  {
    hide Uids;
    if refs == [] {
      NoUids();
    } else {
      CountPositive(refs[1..], uid);
      assert refs == [refs[0]] + refs[1..];
      UidsCons(refs[0], refs[1..]);
    }
  }

  // A removal takes one reference away, so it leaves none exactly when there was at most one.
  lemma {:induction false} RemovalExact(refs: seq<OwnerRef>, ref: OwnerRef)
    ensures CountUid(WithOwner(refs, ref, false), ref.uid) ==
            if CountUid(refs, ref.uid) == 0 then 0 else CountUid(refs, ref.uid) - 1
    ensures ref.uid !in Uids(WithOwner(refs, ref, false)) <==> CountUid(refs, ref.uid) <= 1
  {
    CountPositive(WithOwner(refs, ref, false), ref.uid);
    if refs != [] && refs[0].uid != ref.uid {
      RemovalExact(refs[1..], ref);
    }
  }

  class Resource {
    const node: Node
    var ownerRefs: seq<OwnerRef>

    constructor (node: Node, ownerRefs: seq<OwnerRef>)
      ensures this.node == node && this.ownerRefs == ownerRefs
    {
      this.node := node;
      this.ownerRefs := ownerRefs;
    }

    function ToOwnerRef(): OwnerRef { RefTo(node) }

    method SetOwnerRef(ref: OwnerRef, add: bool)
      modifies this`ownerRefs
      ensures ownerRefs == WithOwner(old(ownerRefs), ref, add)
    {
      var index := -1;
      var i := 0;
      while i < |ownerRefs| && index < 0
        invariant 0 <= i <= |ownerRefs|
        invariant index >= 0 ==> index < |ownerRefs| && ownerRefs[index].uid == ref.uid
        invariant forall j :: 0 <= j < (if index < 0 then i else index) ==> ownerRefs[j].uid != ref.uid
      {
        if ownerRefs[i].uid == ref.uid {
          index := i;
        }
        i := i + 1;
      }
      WithOwnerAt(ownerRefs, ref, add, if index < 0 then |ownerRefs| else index);
      var added := index > -1;
      if add != added {
        if add {
          ownerRefs := ownerRefs + [ref];
        } else {
          ownerRefs := ownerRefs[..index] + ownerRefs[index + 1..];
        }
      }
    }
  }

  // What is added or removed, given where the first reference with the UID stands
  lemma {:induction false} WithOwnerAt(refs: seq<OwnerRef>, ref: OwnerRef, add: bool, index: nat)
    requires index <= |refs| && forall j :: 0 <= j < index ==> refs[j].uid != ref.uid
    requires index < |refs| ==> refs[index].uid == ref.uid
    ensures WithOwner(refs, ref, add) ==
            if index < |refs| then if add then refs else refs[..index] + refs[index + 1..]
            else if add then refs + [ref] else refs
  {
    if refs != [] && index > 0 {
      WithOwnerAt(refs[1..], ref, add, index - 1);
      assert refs == [refs[0]] + refs[1..];
    }
  }

  // ----- the resources of a cache, and what their references come to -----

  type Refs = map<ResourceKey, seq<OwnerRef>>

  function NodesIn(resources: map<ResourceKey, Resource>): Nodes {
    map k | k in resources :: resources[k].node
  }

  function RefsIn(resources: map<ResourceKey, Resource>): (refs: Refs)
    reads (set k | k in resources :: resources[k])`ownerRefs
    ensures refs.Keys == resources.Keys
  {
    map k | k in resources :: resources[k].ownerRefs
  }

  function CacheOf(nodes: Nodes, refs: Refs): (c: Cache)
    requires refs.Keys == nodes.Keys
    ensures c.Keys == nodes.Keys
  {
    map k | k in nodes :: Entry(nodes[k], Uids(refs[k]))
  }

  // No claim lists a UID twice.
  predicate TidyRefs(nodes: Nodes, refs: Refs)
    requires refs.Keys == nodes.Keys
  {
    forall k :: k in nodes && nodes[k].IsClaim() ==> UidsDistinct(refs[k])
  }
}
