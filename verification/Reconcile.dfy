/** Reconcile of pkg/sync/reconcile.go: the loops, proved against ReconcileSpec. */
module Reconcile {
  import opened Kube
  import opened Lists
  import opened ReconcileSpec

  function Present(objs: seq<Option<Obj>>): seq<Obj> {
    if objs == [] then []
    else
      var init, o := Present(objs[..|objs| - 1]), objs[|objs| - 1];
      if o.Some? then init + [o.value] else init
  }

  function IsTarget(): Obj -> bool { (o: Obj) => !o.ignored && !o.isHook }

  function IsActiveHook(): Obj -> bool { (o: Obj) => !o.ignored && o.isHook }

  lemma {:induction false} PresentIs(objs: seq<Option<Obj>>, o: Obj)
    ensures o in Present(objs) <==> Some(o) in objs
  {
    if objs != [] {
      var n := |objs| - 1;
      PresentIs(objs[..n], o);
      assert objs == objs[..n] + [objs[n]];
    }
  }

  // Both lists in the order of the input; ignored objects are in neither.
  method SplitHooks(target: seq<Option<Obj>>) returns (targets: seq<Obj>, hooks: seq<Obj>)
    ensures targets == Filter(IsTarget(), Present(target)) && hooks == Filter(IsActiveHook(), Present(target))
    ensures forall o :: o in targets <==> Some(o) in target && !o.ignored && !o.isHook
    ensures forall o :: o in hooks <==> Some(o) in target && !o.ignored && o.isHook
  {
    targets, hooks := [], [];
    for i := 0 to |target|
      invariant targets == Filter(IsTarget(), Present(target[..i]))
      invariant hooks == Filter(IsActiveHook(), Present(target[..i]))
    {
      PresentNext(target, i);
      if target[i].Some? && !target[i].value.ignored {
        if target[i].value.isHook {
          hooks := hooks + [target[i].value];
        } else {
          targets := targets + [target[i].value];
        }
      }
    }
    assert target[..|target|] == target;
    forall o { PresentIs(target, o); }
  }

  lemma PresentNext(target: seq<Option<Obj>>, i: nat)
    requires i < |target|
    ensures var before, now := Present(target[..i]), Present(target[..i + 1]);
            forall p: Obj -> bool :: Filter(p, now) ==
              if target[i].Some? && p(target[i].value) then Filter(p, before) + [target[i].value] else Filter(p, before)
  {
    assert target[..i + 1][..i] == target[..i];
    if target[i].Some? {
      forall p: Obj -> bool ensures Filter(p, Present(target[..i]) + [target[i].value]) ==
        if p(target[i].value) then Filter(p, Present(target[..i])) + [target[i].value]
        else Filter(p, Present(target[..i]))
      {
        FilterAppend(p, Present(target[..i]), [target[i].value]);
        assert [target[i].value][1..] == [];
      }
    }
  }

  // ----- duplicates -----

  function KeysOf(objs: seq<Obj>): (ks: seq<ResourceKey>)
    ensures |ks| == |objs| && forall i :: 0 <= i < |objs| ==> ks[i] == objs[i].key
  {
    seq(|objs|, i requires 0 <= i < |objs| => objs[i].key)
  }

  // The keys of the objects listed under each UID so far
  ghost predicate GroupedBy(live: Live, todo: set<ResourceKey>, byUid: map<string, seq<Obj>>) {
    && (forall u, k :: u in byUid && k in KeysOf(byUid[u]) ==>
         k in live && k !in todo && live[k].Some? && live[k].value.uid == u)
    && (forall k :: k in live && k !in todo && live[k].Some? ==>
         live[k].value.uid in byUid && k in KeysOf(byUid[live[k].value.uid]))
    && (forall u :: u in byUid ==> NoRepeats(KeysOf(byUid[u])) && byUid[u] != [])
  }

  // The live objects by UID, in whatever order the map yields them
  method GroupByUid(live: Live) returns (byUid: map<string, seq<Obj>>)
    requires KeyedByOwn(live)
    ensures forall u :: u in byUid <==> Group(live, u) != {}
    ensures forall u :: u in byUid ==> NoRepeats(KeysOf(byUid[u])) && (set k | k in KeysOf(byUid[u])) == Group(live, u)
  {
    hide GroupedBy;
    byUid := map[];
    var todo := live.Keys;
    assert GroupedBy(live, todo, byUid) by { GroupedNone(live); }
    while todo != {}
      invariant todo <= live.Keys && GroupedBy(live, todo, byUid)
      decreases |todo|
    {
      var k :| k in todo;
      GroupedNext(live, todo, byUid, k);
      var obj := live[k];
      if obj.Some? {
        var id := obj.value.uid;
        byUid := byUid[id := (if id in byUid then byUid[id] else []) + [obj.value]];
      }
      todo := todo - {k};
    }
    GroupedAll(live, byUid);
  }

  lemma GroupedNone(live: Live)
    ensures GroupedBy(live, live.Keys, map[])
  {
  }

  lemma GroupedAll(live: Live, byUid: map<string, seq<Obj>>)
    requires GroupedBy(live, {}, byUid)
    ensures forall u :: u in byUid <==> Group(live, u) != {}
    ensures forall u :: u in byUid ==> NoRepeats(KeysOf(byUid[u])) && (set k | k in KeysOf(byUid[u])) == Group(live, u)
  {
    forall u | u in byUid ensures (set k | k in KeysOf(byUid[u])) == Group(live, u) && Group(live, u) != {} {
      assert KeysOf(byUid[u])[0] in KeysOf(byUid[u]);
      assert KeysOf(byUid[u])[0] in Group(live, u);
    }
    forall u | Group(live, u) != {} ensures u in byUid {
      var k := AnyOf(Group(live, u));
    }
  }

  lemma GroupedNext(live: Live, todo: set<ResourceKey>, byUid: map<string, seq<Obj>>, k: ResourceKey)
    requires KeyedByOwn(live) && todo <= live.Keys && GroupedBy(live, todo, byUid) && k in todo
    ensures live[k].None? ==> GroupedBy(live, todo - {k}, byUid)
    ensures live[k].Some? ==>
              var u := live[k].value.uid;
              GroupedBy(live, todo - {k}, byUid[u := (if u in byUid then byUid[u] else []) + [live[k].value]])
  {
    if live[k].Some? {
      var u := live[k].value.uid;
      var was := if u in byUid then byUid[u] else [];
      assert KeysOf(was + [live[k].value]) == KeysOf(was) + [k];
      assert k !in KeysOf(was);
    }
  }

  // The members among the first i that are no targets
  function Passed(keys: seq<ResourceKey>, targets: set<ResourceKey>, i: nat): set<ResourceKey>
    requires i <= |keys|
  {
    set j | 0 <= j < i && keys[j] !in targets :: keys[j]
  }

  lemma PassedNext(keys: seq<ResourceKey>, targets: set<ResourceKey>, i: nat)
    requires i < |keys| && NoRepeats(keys)
    ensures keys[i] !in Passed(keys, targets, i)
    ensures Passed(keys, targets, i + 1) == Passed(keys, targets, i) + if keys[i] in targets then {} else {keys[i]}
  {
  }

  // The inner loop: drops members that are no targets, and stops before the last member goes.
  method DropDuplicates(objs: seq<Obj>, targets: set<ResourceKey>) returns (dropped: set<ResourceKey>)
    requires |objs| > 1 && NoRepeats(KeysOf(objs))
    ensures dropped <= set k | k in KeysOf(objs)
    ensures GroupDeduped(targets, set k | k in KeysOf(objs), (set k | k in KeysOf(objs)) - dropped)
  {
    hide Passed;
    hide NoRepeats;
    ghost var keys := KeysOf(objs);
    GroupSize(keys);
    dropped := {};
    assert Passed(keys, targets, 0) == {} by { NonePassed(keys, targets); }
    var duplicatesLeft := |objs|;
    var i := 0;
    while i < |objs| && duplicatesLeft != 1
      invariant 0 <= i <= |objs| && duplicatesLeft == |objs| - |dropped| && duplicatesLeft >= 1
      invariant dropped == Passed(keys, targets, i)
    {
      PassedNext(keys, targets, i);
      var resourceKey := objs[i].key;
      if resourceKey !in targets {
        dropped := dropped + {resourceKey};
        duplicatesLeft := duplicatesLeft - 1;
      }
      i := i + 1;
    }
    Leftover(keys, targets, dropped, i, duplicatesLeft);
  }

  lemma NonePassed(keys: seq<ResourceKey>, targets: set<ResourceKey>)
    ensures Passed(keys, targets, 0) == {}
  {
  }

  lemma {:induction false} GroupSize(keys: seq<ResourceKey>)
    requires NoRepeats(keys)
    ensures |set k | k in keys| == |keys|
  {
    if keys != [] {
      var n := |keys| - 1;
      GroupSize(keys[..n]);
      assert keys[n] !in keys[..n];
      assert (set k | k in keys) == (set k | k in keys[..n]) + {keys[n]};
    }
  }

  lemma Leftover(keys: seq<ResourceKey>, targets: set<ResourceKey>, dropped: set<ResourceKey>, i: nat, left: nat)
    requires |keys| > 1 && NoRepeats(keys) && i <= |keys| && left == |keys| - |dropped| && left >= 1
    requires dropped == Passed(keys, targets, i)
    requires i == |keys| || left == 1
    ensures dropped <= set k | k in keys
    ensures GroupDeduped(targets, set k | k in keys, (set k | k in keys) - dropped)
  {
    var group := set k | k in keys;
    var kept := group - dropped;
    GroupSize(keys);
    assert dropped <= group && |kept| == left;
    assert group * targets <= kept;
    if i == |keys| {
      forall k | k in kept ensures k in targets {
        var j :| 0 <= j < |keys| && keys[j] == k;
      }
      assert kept == group * targets;
    } else if group * targets != {} {
      OneMember(group * targets, kept);
    }
  }

  lemma OneMember(part: set<ResourceKey>, whole: set<ResourceKey>)
    requires part <= whole && part != {} && |whole| == 1
    ensures part == whole
  {
    if part != whole { ProperSubsetSmaller(part, whole); }
  }

  // dedupLiveResources
  method DedupLiveResources(targets: seq<Obj>, live: Live) returns (after: Live)
    requires KeyedByOwn(live)
    ensures Deduped(OwnKeys(targets), live, after)
  {
    hide GroupDeduped;
    var targetKeys := OwnKeys(targets);
    var byUid := GroupByUid(live);
    after := live;
    var todo := byUid.Keys;
    while todo != {}
      invariant todo <= byUid.Keys && after.Keys <= live.Keys && forall k :: k in after ==> after[k] == live[k]
      invariant forall k :: k in live && live[k].None? ==> k in after
      invariant forall u :: u in todo ==> Group(after, u) == Group(live, u)
      invariant forall u :: u in byUid && u !in todo ==> GroupDeduped(targetKeys, Group(live, u), Group(after, u))
      decreases |todo|
    {
      var u :| u in todo;
      after := DedupOne(targetKeys, live, after, u, byUid[u]);
      todo := todo - {u};
    }
    forall u ensures GroupDeduped(targetKeys, Group(live, u), Group(after, u)) {
      if u !in byUid { NoGroup(targetKeys, live, after, u); }
    }
  }

  lemma NoGroup(targets: set<ResourceKey>, live: Live, after: Live, u: string)
    requires Group(live, u) == {} && after.Keys <= live.Keys && forall k :: k in after ==> after[k] == live[k]
    ensures GroupDeduped(targets, Group(live, u), Group(after, u))
  {
  }

  // The body of the outer loop: one group
  method DedupOne(targets: set<ResourceKey>, ghost live: Live, before: Live, u: string, objs: seq<Obj>)
    returns (after: Live)
    requires before.Keys <= live.Keys && (forall k :: k in before ==> before[k] == live[k])
    requires Group(before, u) == Group(live, u) == (set k | k in KeysOf(objs)) && NoRepeats(KeysOf(objs))
    ensures after.Keys <= before.Keys && forall k :: k in after ==> after[k] == before[k]
    ensures forall k :: k in before && before[k].None? ==> k in after
    ensures GroupDeduped(targets, Group(live, u), Group(after, u))
    ensures forall v :: v != u ==> Group(after, v) == Group(before, v)
  {
    GroupSize(KeysOf(objs));
    after := before;
    if |objs| > 1 {
      var dropped := DropDuplicates(objs, targets);
      after := before - dropped;
      assert Group(after, u) == Group(before, u) - dropped;
      forall v | v != u ensures Group(after, v) == Group(before, v) {
        assert forall k :: k in dropped ==> k in Group(before, u);
      }
    }
  }

  // ----- the live object of each target -----

  method FindLive(keys: seq<ResourceKey>, live: Live) returns (found: Option<ResourceKey>)
    ensures found == FirstIn(keys, live.Keys)
  {
    found := None;
    var i := 0;
    while i < |keys| && found.None?
      invariant 0 <= i <= |keys|
      invariant FirstIn(keys, live.Keys) == if found.Some? then found else FirstIn(keys[i..], live.Keys)
    {
      if keys[i] in live {
        found := Some(keys[i]);
      }
      i := i + 1;
    }
  }

  // What a match stands for in the result
  function LiveOf(live: Live, m: Option<ResourceKey>): Option<Obj>
    requires m.Some? ==> m.value in live
  {
    if m.Some? then live[m.value] else None
  }

  // The loop over the targets: what is matched leaves the map.
  method MatchTargets(targets: seq<Obj>, live: Live, namespace: string, scopes: Scopes)
    returns (managed: seq<Option<Obj>>, left: Live)
    ensures var matches := Matches(targets, namespace, scopes, live.Keys);
            && Matched(targets, namespace, scopes, live.Keys, matches) && |managed| == |targets|
            && (forall i :: 0 <= i < |targets| ==>
                 (matches[i].Some? ==> matches[i].value in live) && managed[i] == LiveOf(live, matches[i]))
            && Taken(matches) <= live.Keys && left == live - Taken(matches)
  {
    hide Matched;
    hide FirstIn;
    hide Taken;
    hide Matches;
    managed, left := [], live;
    ghost var matches: seq<Option<ResourceKey>> := [];
    NoMatches(namespace, scopes, live.Keys);
    assert targets[..0] == [];
    for i := 0 to |targets|
      invariant matches == Matches(targets[..i], namespace, scopes, live.Keys)
      invariant |managed| == |matches| == i && Taken(matches) <= live.Keys && left == live - Taken(matches)
      invariant forall j :: 0 <= j < i ==>
                  (matches[j].Some? ==> matches[j].value in live) && managed[j] == LiveOf(live, matches[j])
    {
      var keysToCheck := Keys(targets[i], namespace, scopes);
      var found := FindLive(keysToCheck, left);
      assert left.Keys == live.Keys - Taken(matches);
      MatchesNext(targets, i, namespace, scopes, live.Keys);
      TakenNext(matches, found);
      if found.Some? {
        managed := managed + [left[found.value]];
        left := left - {found.value};
      } else {
        managed := managed + [None];
      }
      matches := matches + [found];
    }
    assert targets[..|targets|] == targets;
    MatchesExact(targets, namespace, scopes, live.Keys, matches);
  }

  lemma NoMatches(namespace: string, scopes: Scopes, live: set<ResourceKey>)
    ensures Matches([], namespace, scopes, live) == [] && Taken([]) == {}
  {
  }

  lemma MatchesNext(targets: seq<Obj>, i: nat, namespace: string, scopes: Scopes, live: set<ResourceKey>)
    requires i < |targets|
    ensures var matches := Matches(targets[..i], namespace, scopes, live);
            Matches(targets[..i + 1], namespace, scopes, live) ==
              matches + [FirstIn(Keys(targets[i], namespace, scopes), live - Taken(matches))]
  {
    assert targets[..i + 1][..i] == targets[..i];
  }

  lemma TakenNext(matches: seq<Option<ResourceKey>>, m: Option<ResourceKey>)
    ensures Taken(matches + [m]) == Taken(matches) + if m.Some? then {m.value} else {}
  {
  }

  datatype ReconciliationResult = ReconciliationResult(
    live: seq<Option<Obj>>,
    target: seq<Option<Obj>>,
    hooks: seq<Obj>)

  // The keys of a result: where each live entry comes from
  ghost predicate ComesFrom(r: ReconciliationResult, live: Live, from: seq<Option<ResourceKey>>) {
    && |from| == |r.live| == |r.target|
    && (forall i :: 0 <= i < |from| ==> (from[i].Some? ==> from[i].value in live) && r.live[i] == LiveOf(live, from[i]))
  }

  /**
   Every surviving live object is in the result exactly once; targets come first, in their order, each with the
   live object ReconcileSpec.Gets gives it; what is left has no target. Targets are the objects given that are
   neither hooks nor ignored.
   */
  method Reconcile(targetObjs: seq<Option<Obj>>, liveObjByKey: Live, namespace: string, scopes: Scopes)
    returns (r: ReconciliationResult, ghost survivors: Live, ghost from: seq<Option<ResourceKey>>)
    requires KeyedByOwn(liveObjByKey)
    ensures var targets := Filter(IsTarget(), Present(targetObjs));
            && Deduped(OwnKeys(targets), liveObjByKey, survivors)
            && ComesFrom(r, survivors, from) && |from| >= |targets|
            && (forall i :: 0 <= i < |targets| ==> r.target[i] == Some(targets[i]))
            && (forall i :: |targets| <= i < |r.target| ==> r.target[i] == None)
            && Matched(targets, namespace, scopes, survivors.Keys, from[..|targets|])
    ensures forall i, j :: 0 <= i < j < |from| && from[i].Some? && from[j].Some? ==> from[i] != from[j]
    ensures forall k :: k in survivors ==> Some(k) in from
    ensures r.hooks == Filter(IsActiveHook(), Present(targetObjs))
    ensures forall o :: Some(o) in r.target <==> Some(o) in targetObjs && !o.ignored && !o.isHook
    ensures forall o :: o in r.hooks <==> Some(o) in targetObjs && !o.ignored && o.isHook
  {
    hide *;
    var targets, hooks := SplitHooks(targetObjs);
    var live := DedupLiveResources(targets, liveObjByKey);
    survivors := live;
    var managed, left := MatchTargets(targets, live, namespace, scopes);
    ghost var matches := Matches(targets, namespace, scopes, live.Keys);
    var rest, keys := Remaining(left);
    var nils := Nils(|rest|);
    r := ReconciliationResult(managed + rest, SomeOf(targets) + nils, hooks);
    from := matches + keys;
    LeftOver(live, left, matches, keys);
    AllOnce(targets, namespace, scopes, survivors, matches, keys);
    MatchedLength(targets, namespace, scopes, live.Keys, matches);
    TargetsFirst(targets, nils);
    Assembled(r, survivors, managed, matches, rest, keys);
    assert from[..|targets|] == matches;
  }

  lemma MatchedLength(targets: seq<Obj>, namespace: string, scopes: Scopes, live: set<ResourceKey>,
                      matches: seq<Option<ResourceKey>>)
    requires Matched(targets, namespace, scopes, live, matches)
    ensures |matches| == |targets|
  {
  }

  lemma TargetsFirst(targets: seq<Obj>, nils: seq<Option<Obj>>)
    requires forall i :: 0 <= i < |nils| ==> nils[i] == None
    ensures var all := SomeOf(targets) + nils;
            && (forall i :: 0 <= i < |targets| ==> all[i] == Some(targets[i]))
            && (forall i :: |targets| <= i < |all| ==> all[i] == None)
            && (forall o :: Some(o) in all <==> o in targets)
  {
  }

  lemma LeftOver(live: Live, left: Live, matches: seq<Option<ResourceKey>>, keys: seq<Option<ResourceKey>>)
    requires left == live - Taken(matches)
    requires forall i :: 0 <= i < |keys| ==> keys[i].Some? && keys[i].value in left
    requires forall k :: k in left ==> Some(k) in keys
    ensures forall i :: 0 <= i < |keys| ==> keys[i].value in live && keys[i].value !in Taken(matches)
    ensures forall k :: k in live && k !in Taken(matches) ==> Some(k) in keys
    ensures forall k :: k in left ==> left[k] == live[k]
  {
  }

  lemma Assembled(r: ReconciliationResult, live: Live, managed: seq<Option<Obj>>, matches: seq<Option<ResourceKey>>,
                  rest: seq<Option<Obj>>, keys: seq<Option<ResourceKey>>)
    requires r.live == managed + rest && |r.target| == |r.live|
    requires |managed| == |matches| && |rest| == |keys| && Taken(matches) <= live.Keys
    requires forall i :: 0 <= i < |matches| ==>
               (matches[i].Some? ==> matches[i].value in live) && managed[i] == LiveOf(live, matches[i])
    requires forall i :: 0 <= i < |keys| ==> keys[i].Some? && keys[i].value in live && rest[i] == live[keys[i].value]
    ensures ComesFrom(r, live, matches + keys)
  {
  }

  function SomeOf(objs: seq<Obj>): (r: seq<Option<Obj>>)
    ensures |r| == |objs| && forall i :: 0 <= i < |objs| ==> r[i] == Some(objs[i])
  {
    seq(|objs|, i requires 0 <= i < |objs| => Some(objs[i]))
  }

  function Nils(n: nat): (r: seq<Option<Obj>>)
    ensures |r| == n && forall i :: 0 <= i < n ==> r[i] == None
  {
    seq(n, i => None)
  }

  // The last loop: what no target has taken, in whatever order the map yields it
  method Remaining(left: Live) returns (rest: seq<Option<Obj>>, ghost keys: seq<Option<ResourceKey>>)
    ensures |rest| == |keys|
    ensures forall i :: 0 <= i < |keys| ==> keys[i].Some? && keys[i].value in left && rest[i] == left[keys[i].value]
    ensures forall i, j :: 0 <= i < j < |keys| ==> keys[i] != keys[j]
    ensures forall k :: k in left ==> Some(k) in keys
  {
    rest, keys := [], [];
    var todo := left.Keys;
    while todo != {}
      invariant todo <= left.Keys && |rest| == |keys|
      invariant forall i :: 0 <= i < |keys| ==>
                  keys[i].Some? && keys[i].value in left && keys[i].value !in todo && rest[i] == left[keys[i].value]
      invariant forall i, j :: 0 <= i < j < |keys| ==> keys[i] != keys[j]
      invariant forall k :: k in left && k !in todo ==> Some(k) in keys
      decreases |todo|
    {
      var k :| k in todo;
      rest, keys := rest + [left[k]], keys + [Some(k)];
      todo := todo - {k};
    }
  }

  lemma AllOnce(targets: seq<Obj>, namespace: string, scopes: Scopes, live: Live, matches: seq<Option<ResourceKey>>,
                keys: seq<Option<ResourceKey>>)
    requires Matched(targets, namespace, scopes, live.Keys, matches)
    requires forall i :: 0 <= i < |keys| ==> keys[i].Some? && keys[i].value in live && keys[i].value !in Taken(matches)
    requires forall i, j :: 0 <= i < j < |keys| ==> keys[i] != keys[j]
    requires forall k :: k in live && k !in Taken(matches) ==> Some(k) in keys
    ensures var from := matches + keys;
            (forall i, j :: 0 <= i < j < |from| && from[i].Some? && from[j].Some? ==> from[i] != from[j]) &&
            (forall k :: k in live ==> Some(k) in from)
  {
  }
}
