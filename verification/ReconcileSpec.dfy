/**
 Matching targets with live objects (pkg/sync/reconcile.go): what de-duplication by UID may leave, and which
 live object each target gets.
 */
module ReconcileSpec {
  import opened Kube
  import opened Lists

  // An entry may be nil, as map values of pointer type may.
  type Live = map<ResourceKey, Option<Obj>>

  predicate KeyedByOwn(live: Live) {
    forall k :: k in live && live[k].Some? ==> live[k].value.key == k
  }

  function OwnKeys(targets: seq<Obj>): (ks: set<ResourceKey>) {
    set t | t in targets :: t.key
  }

  // ----- duplicates -----

  // The live objects with one UID
  function Group(live: Live, uid: string): set<ResourceKey> {
    set k | k in live && live[k].Some? && live[k].value.uid == uid
  }

  // What may become of one group
  predicate GroupDeduped(targets: set<ResourceKey>, group: set<ResourceKey>, kept: set<ResourceKey>) {
    if |group| <= 1 then kept == group
    else if group * targets != {} then kept == group * targets
    else kept <= group && |kept| == 1
  }

  /** De-duplication leaves of each group the members that are targets themselves, or one if none is; the rest stays. */
  ghost predicate Deduped(targets: set<ResourceKey>, live: Live, after: Live) {
    && after.Keys <= live.Keys
    && (forall k :: k in after ==> after[k] == live[k])
    && (forall k :: k in live && live[k].None? ==> k in after)
    && (forall uid :: GroupDeduped(targets, Group(live, uid), Group(after, uid)))
  }

  // No object disappears altogether, and no target loses its namesake.
  lemma DedupKeeps(targets: set<ResourceKey>, live: Live, after: Live, k: ResourceKey)
    requires Deduped(targets, live, after) && k in live && live[k].Some?
    ensures k in targets ==> k in after
    ensures exists j :: j in after && after[j].Some? && after[j].value.uid == live[k].value.uid
  {
    var uid := live[k].value.uid;
    var group, kept := Group(live, uid), Group(after, uid);
    assert GroupDeduped(targets, group, kept);
    assert k in group;
    if k in targets { assert k in group * targets; }
    assert kept != {} by {
      if |group| > 1 && group * targets == {} { assert |kept| == 1; }
    }
    var j := AnyOf(kept);
  }

  // Of two objects with one UID both stay only if both are targets; a target leaves room for no other.
  lemma DedupLeavesOne(targets: set<ResourceKey>, live: Live, after: Live, j: ResourceKey, k: ResourceKey)
    requires Deduped(targets, live, after) && j in live && k in after && j != k
    requires live[j].Some? && live[k].Some? && live[j].value.uid == live[k].value.uid
    ensures j in after ==> j in targets && k in targets
    ensures j in targets ==> k in targets
  {
    var uid := live[j].value.uid;
    var group, kept := Group(live, uid), Group(after, uid);
    assert GroupDeduped(targets, group, kept);
    assert j in group && k in group && k in kept;
    assert |group| > 1 by { assert {j, k} <= group; TwoApart(group, j, k); }
    if j in after { assert j in kept; if |kept| == 1 { TwoApart(kept, j, k); } }
    if j in targets { assert j in group * targets; }
  }

  lemma TwoApart(s: set<ResourceKey>, j: ResourceKey, k: ResourceKey)
    requires j in s && k in s && j != k
    ensures |s| >= 2
  {
    assert s == {j, k} + (s - {j, k});
  }

  // De-duplicating again changes nothing.
  lemma DedupAgain(targets: set<ResourceKey>, live: Live, after: Live)
    requires Deduped(targets, live, after)
    ensures forall again :: Deduped(targets, after, again) ==> again == after
  {
    forall again | Deduped(targets, after, again) ensures again == after {
      forall k | k in after ensures k in again {
        if after[k].Some? {
          var uid := after[k].value.uid;
          assert GroupDeduped(targets, Group(live, uid), Group(after, uid));
          assert GroupDeduped(targets, Group(after, uid), Group(again, uid));
          assert k in Group(after, uid);
          assert k in Group(again, uid);
        }
      }
    }
  }

  /**
   Which objects are sure to survive: those without a duplicate, and those whose own key is a target's. A
   namespaced target that leaves its namespace to the default does not protect its live object.
   */
  lemma SurvivesAlways(targets: set<ResourceKey>, live: Live, k: ResourceKey)
    requires k in live && live[k].Some?
    ensures (forall after :: Deduped(targets, live, after) ==> k in after) <==>
            |Group(live, live[k].value.uid)| <= 1 || k in targets
  {
    var group := Group(live, live[k].value.uid);
    assert k in group;
    if |group| <= 1 || k in targets {
      forall after | Deduped(targets, live, after) ensures k in after {
        assert GroupDeduped(targets, group, Group(after, live[k].value.uid));
        if k in targets { assert k in group * targets; }
        assert k in Group(after, live[k].value.uid);
      }
    } else {
      var after := Without(targets, live, k);
      WithoutDeduped(targets, live, k);
      if group - {k} == {} { AtMostOne(group, k); }
      assert k !in after;
    }
  }

  ghost function AnyKey(s: set<ResourceKey>): (k: ResourceKey)
    requires s != {}
    ensures k in s
  {
    var k :| k in s; k
  }

  // One outcome that does without k: every other group keeps what it must, or an arbitrary member
  ghost function Without(targets: set<ResourceKey>, live: Live, k: ResourceKey): Live {
    map j | j in live && Stays(targets, live, k, j) :: live[j]
  }

  ghost predicate Stays(targets: set<ResourceKey>, live: Live, k: ResourceKey, j: ResourceKey)
    requires j in live
  {
    if live[j].None? then true
    else
      var group := Group(live, live[j].value.uid);
      if |group| <= 1 then true
      else if group * targets != {} then j in targets
      else if group - {k} != {} then j == AnyKey(group - {k})
      else true
  }

  lemma WithoutDeduped(targets: set<ResourceKey>, live: Live, k: ResourceKey)
    ensures Deduped(targets, live, Without(targets, live, k))
  {
    var after := Without(targets, live, k);
    forall uid ensures GroupDeduped(targets, Group(live, uid), Group(after, uid)) {
      var group, kept := Group(live, uid), Group(after, uid);
      assert forall j :: j in group ==> live[j].value.uid == uid;
      assert forall j :: j in kept <==> j in group && Stays(targets, live, k, j);
      if |group| > 1 && group * targets == {} {
        assert group - {k} != {} by {
          if group - {k} == {} { assert group <= {k}; AtMostOne(group, k); }
        }
        assert kept == {AnyKey(group - {k})};
      }
    }
  }

  lemma AtMostOne(group: set<ResourceKey>, k: ResourceKey)
    requires group <= {k}
    ensures |group| <= 1
  {
    if group != {} { assert group == {k}; }
  }

  // ----- the live object of each target -----

  // What discovery says of a group and kind
  datatype Scope = Namespaced | ClusterScoped | UnknownScope

  // text.FirstNonEmpty
  function EffectiveNamespace(t: Obj, namespace: string): string {
    if t.key.namespace != "" then t.key.namespace else namespace
  }

  // The keys a target's live object may have, in the order they are tried
  function KeysToCheck(t: Obj, namespace: string, scope: Scope): seq<ResourceKey> {
    var ns := EffectiveNamespace(t, namespace);
    (if scope.Namespaced? || scope.UnknownScope? then [ResourceKey(t.key.group, t.key.kind, ns, t.key.name)] else [])
    + (if scope.ClusterScoped? || scope.UnknownScope? then [ResourceKey(t.key.group, t.key.kind, "", t.key.name)]
       else [])
  }

  function FirstIn(keys: seq<ResourceKey>, live: set<ResourceKey>): (r: Option<ResourceKey>)
    ensures r.Some? ==> r.value in keys && r.value in live
    ensures r.None? ==> forall k :: k in keys ==> k !in live
  {
    if keys == [] then None
    else if keys[0] in live then Some(keys[0])
    else FirstIn(keys[1..], live)
  }

  type Scopes = (string, string) -> Scope

  function Keys(t: Obj, namespace: string, scopes: Scopes): seq<ResourceKey> {
    KeysToCheck(t, namespace, scopes(t.key.group, t.key.kind))
  }

  function Taken(matches: seq<Option<ResourceKey>>): set<ResourceKey> {
    set m | m in matches && m.Some? :: m.value
  }

  /**
   The live key a target gets when `free` are those still to be had: if it is namespaced, the one in its own
   namespace, or else in the default one; if it is cluster-scoped, the one without a namespace; if its scope is
   unknown, the first of the two that is there.
   */
  predicate Gets(t: Obj, namespace: string, scope: Scope, free: set<ResourceKey>, m: Option<ResourceKey>) {
    var ns := if t.key.namespace != "" then t.key.namespace else namespace;
    var own := ResourceKey(t.key.group, t.key.kind, ns, t.key.name);
    var bare := ResourceKey(t.key.group, t.key.kind, "", t.key.name);
    match scope
    case Namespaced => m == if own in free then Some(own) else None
    case ClusterScoped => m == if bare in free then Some(bare) else None
    case UnknownScope => m == if own in free then Some(own) else if bare in free then Some(bare) else None
  }

  lemma GetsFirst(t: Obj, namespace: string, scopes: Scopes, free: set<ResourceKey>, m: Option<ResourceKey>)
    ensures m == FirstIn(Keys(t, namespace, scopes), free) <==>
            Gets(t, namespace, scopes(t.key.group, t.key.kind), free, m)
  {
  }

  /** The matches: every target gets what no earlier target has taken. */
  ghost predicate Matched(targets: seq<Obj>, namespace: string, scopes: Scopes, live: set<ResourceKey>,
                          matches: seq<Option<ResourceKey>>) {
    && |matches| == |targets|
    && forall i :: 0 <= i < |targets| ==>
         Gets(targets[i], namespace, scopes(targets[i].key.group, targets[i].key.kind), live - Taken(matches[..i]),
              matches[i])
  }

  // They are determined, target after target.
  function Matches(targets: seq<Obj>, namespace: string, scopes: Scopes, live: set<ResourceKey>)
    : (m: seq<Option<ResourceKey>>)
    ensures |m| == |targets|
  {
    if targets == [] then []
    else
      var n := |targets| - 1;
      var init := Matches(targets[..n], namespace, scopes, live);
      init + [FirstIn(Keys(targets[n], namespace, scopes), live - Taken(init))]
  }

  lemma {:induction false} MatchesExact(targets: seq<Obj>, namespace: string, scopes: Scopes, live: set<ResourceKey>,
                                        matches: seq<Option<ResourceKey>>)
    ensures Matched(targets, namespace, scopes, live, matches) <==> matches == Matches(targets, namespace, scopes, live)
  {
    if targets != [] && |matches| == |targets| {
      var n := |targets| - 1;
      MatchesExact(targets[..n], namespace, scopes, live, matches[..n]);
      GetsFirst(targets[n], namespace, scopes, live - Taken(matches[..n]), matches[n]);
      MatchedCut(targets, namespace, scopes, live, matches);
      MatchesCut(targets, namespace, scopes, live, matches);
    }
  }

  lemma MatchesCut(targets: seq<Obj>, namespace: string, scopes: Scopes, live: set<ResourceKey>,
                   matches: seq<Option<ResourceKey>>)
    requires targets != [] && |matches| == |targets|
    ensures var n := |targets| - 1;
            matches == Matches(targets, namespace, scopes, live) <==>
            (matches[..n] == Matches(targets[..n], namespace, scopes, live) &&
             matches[n] == FirstIn(Keys(targets[n], namespace, scopes), live - Taken(matches[..n])))
  {
    hide FirstIn;
    hide Taken;
    var n := |targets| - 1;
    assert matches == matches[..n] + [matches[n]];
  }

  lemma MatchedCut(targets: seq<Obj>, namespace: string, scopes: Scopes, live: set<ResourceKey>,
                   matches: seq<Option<ResourceKey>>)
    requires targets != [] && |matches| == |targets|
    ensures var n := |targets| - 1;
            Matched(targets, namespace, scopes, live, matches) <==>
            (Matched(targets[..n], namespace, scopes, live, matches[..n]) &&
             Gets(targets[n], namespace, scopes(targets[n].key.group, targets[n].key.kind),
                  live - Taken(matches[..n]), matches[n]))
  {
    hide Gets;
    hide Taken;
    var n := |targets| - 1;
    forall j | 0 <= j < n
      ensures matches[..n][j] == matches[j] && matches[..n][..j] == matches[..j] && targets[..n][j] == targets[j]
    {
    }
  }

  // No live object goes to two targets.
  lemma MatchedOnce(targets: seq<Obj>, namespace: string, scopes: Scopes, live: set<ResourceKey>,
                                       matches: seq<Option<ResourceKey>>, i: nat, j: nat)
    requires Matched(targets, namespace, scopes, live, matches)
    requires i < j < |matches| && matches[i].Some? && matches[j].Some?
    ensures matches[i] != matches[j]
  {
  }

  // The keys a target's live object may have
  predicate MayBe(t: Obj, namespace: string, scope: Scope, k: ResourceKey) {
    && k.group == t.key.group && k.kind == t.key.kind && k.name == t.key.name
    && (|| (!scope.ClusterScoped? && k.namespace == if t.key.namespace != "" then t.key.namespace else namespace)
        || (!scope.Namespaced? && k.namespace == ""))
  }

  // A live object a target of known scope may have is taken, if not by that target then by an earlier one.
  lemma KnownScopeTaken(targets: seq<Obj>, namespace: string, scopes: Scopes, live: set<ResourceKey>,
                        matches: seq<Option<ResourceKey>>, t: Obj, k: ResourceKey)
    requires Matched(targets, namespace, scopes, live, matches) && t in targets && k in live
    requires var scope := scopes(t.key.group, t.key.kind); !scope.UnknownScope? && MayBe(t, namespace, scope, k)
    ensures k in Taken(matches)
  {
  }

  // A lone target takes every live object it may have, whatever is live.
  ghost predicate TakesAll(t: Obj, namespace: string, scopes: Scopes) {
    forall live, matches :: Matched([t], namespace, scopes, live, matches) ==>
      forall k :: k in live && MayBe(t, namespace, scopes(t.key.group, t.key.kind), k) ==> k in Taken(matches)
  }

  /** It does exactly when its scope is known, or its two keys are one because it has no namespace. */
  lemma TakesAllExactly(t: Obj, namespace: string, scopes: Scopes)
    ensures TakesAll(t, namespace, scopes) <==>
            !scopes(t.key.group, t.key.kind).UnknownScope? || (t.key.namespace == "" && namespace == "")
  {
    var scope := scopes(t.key.group, t.key.kind);
    if !scope.UnknownScope? || (t.key.namespace == "" && namespace == "") {
      forall live, matches, k
        | Matched([t], namespace, scopes, live, matches) && k in live && MayBe(t, namespace, scope, k)
        ensures k in Taken(matches)
      {
        assert matches[..0] == [] && matches[0] == Some(k);
        assert Some(k) in matches;
      }
    } else {
      var live, matches := BothLive(t, namespace, scopes);
    }
  }

  // With both its objects live, a target of unknown scope takes the one in a namespace and leaves the other.
  lemma BothLive(t: Obj, namespace: string, scopes: Scopes)
    returns (live: set<ResourceKey>, matches: seq<Option<ResourceKey>>)
    requires scopes(t.key.group, t.key.kind).UnknownScope? && (t.key.namespace != "" || namespace != "")
    ensures var ns := if t.key.namespace != "" then t.key.namespace else namespace;
            var own, bare := ResourceKey(t.key.group, t.key.kind, ns, t.key.name), t.key.(namespace := "");
            && live == {own, bare} && matches == [Some(own)] && own != bare
            && MayBe(t, namespace, UnknownScope, own) && MayBe(t, namespace, UnknownScope, bare)
            && Matched([t], namespace, scopes, live, matches) && bare !in Taken(matches)
  {
    var ns := if t.key.namespace != "" then t.key.namespace else namespace;
    var own, bare := ResourceKey(t.key.group, t.key.kind, ns, t.key.name), t.key.(namespace := "");
    live, matches := {own, bare}, [Some(own)];
    assert matches[..0] == [] && Taken([]) == {};
  }
}
