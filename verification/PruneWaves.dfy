/**
 The waves of prune tasks: reversed among themselves, and last of all on request (the second half of
 getSyncTasks in pkg/sync/sync_context.go).
 */
module PruneWaves {
  import opened Kube
  import opened Lists
  import opened Tasks
  import opened TaskOrder
  import opened RunSpec

  // ----- the symmetric swap -----

  predicate Increasing(ws: seq<int>) {
    forall i, j :: 0 <= i < j < |ws| ==> ws[i] < ws[j]
  }

  // The wave a prune task gets when its own is w
  function Mirror(ws: seq<int>, w: int): int {
    if w in ws then ws[|ws| - 1 - IndexOf(ws, w)] else w
  }

  // The swap maps the waves onto themselves, undoes itself, and turns their order round.
  lemma MirrorLaws(ws: seq<int>, v: int, w: int)
    requires Increasing(ws) && v in ws && w in ws
    ensures Mirror(ws, v) in ws && Mirror(ws, Mirror(ws, v)) == v
    ensures v < w <==> Mirror(ws, w) < Mirror(ws, v)
  {
  }

  predicate IsLeast(s: set<int>, m: int) {
    m in s && forall x :: x in s ==> m <= x
  }

  function Least(s: set<int>): (m: int)
    requires s != {}
    ensures IsLeast(s, m)
  {
    LeastExists(s);
    var m :| IsLeast(s, m);
    m
  }

  lemma {:induction false} LeastExists(s: set<int>)
    requires s != {}
    ensures exists m :: IsLeast(s, m)
  {
    var y := AnyOf(s);
    var rest := s - {y};
    assert forall x :: x in s ==> x == y || x in rest;
    if rest == {} {
      assert IsLeast(s, y);
    } else {
      LeastExists(rest);
      var m :| IsLeast(rest, m);
      assert IsLeast(s, if y < m then y else m);
    }
  }

  // sort.Ints on the distinct elements of a set
  function Ascending(s: set<int>): (ws: seq<int>)
    ensures Increasing(ws) && forall x :: x in ws <==> x in s
  {
    if s == {} then [] else
    var rest := Ascending(s - {Least(s)});
    [Least(s)] + rest
  }

  // ----- on values -----

  function PruneWavesOf(ts: seq<Task>): set<int> {
    set t | t in ts && t.IsPrune() :: t.wave
  }

  function SwappedWave(ws: seq<int>, t: Task): Task {
    if t.IsPrune() then t.(wave := Mirror(ws, t.wave)) else t
  }

  function Reversed(ts: seq<Task>): (r: seq<Task>)
    ensures |r| == |ts|
  {
    seq(|ts|, i requires 0 <= i < |ts| => SwappedWave(Ascending(PruneWavesOf(ts)), ts[i]))
  }

  // The greatest wave of the Sync phase, or zero
  function HighestWave(ts: seq<Task>): (w: int)
    ensures w >= 0
    ensures forall t :: t in ts && t.phase.Sync? ==> t.wave <= w
    ensures w == 0 || exists t :: t in ts && t.phase.Sync? && t.wave == w
  {
    if ts == [] then 0 else
    var rest := HighestWave(ts[1..]);
    if ts[0].phase.Sync? && ts[0].wave > rest then ts[0].wave else rest
  }

  // The wave of tasks to be pruned last: one more, in 64 bits
  function LastWave(ts: seq<Task>): int {
    Add64(HighestWave(ts), 1)
  }

  predicate PrunedLast(cfg: Config, o: Objs) {
    o.LiveOnly? && (cfg.pruneLast || PruneLast in o.live.options)
  }

  function DeferredTask(cfg: Config, last: int, t: Task): Task {
    if PrunedLast(cfg, t.objs) then t.(wave := last) else t
  }

  /** The tasks with the waves of prune tasks arranged, in the order they came. */
  function Arranged(cfg: Config, ts: seq<Task>): (r: seq<Task>)
    ensures |r| == |ts|
  {
    seq(|ts|, i requires 0 <= i < |ts| => DeferredTask(cfg, LastWave(Reversed(ts)), Reversed(ts)[i]))
  }

  // To be pruned, and last: on request of the operation or of the object
  predicate AskedLast(cfg: Config, t: Task) {
    t.objs.LiveOnly? && (cfg.pruneLast || PruneLast in t.objs.live.options)
  }

  // Prune tasks that are not put last run in the reverse of the order in which they would have been created.
  lemma PruneOrderReversed(cfg: Config, ts: seq<Task>, i: nat, j: nat)
    requires i < |ts| && j < |ts| && ts[i].IsPrune() && ts[j].IsPrune()
    requires !AskedLast(cfg, ts[i]) && !AskedLast(cfg, ts[j])
    ensures ts[i].wave < ts[j].wave <==> Arranged(cfg, ts)[j].wave < Arranged(cfg, ts)[i].wave
    ensures Arranged(cfg, ts)[i].wave in PruneWavesOf(ts)
  {
    hide LastWave;
    hide Mirror;
    var ws := Ascending(PruneWavesOf(ts));
    assert ts[i] in ts && ts[j] in ts;
    assert ts[i].wave in ws && ts[j].wave in ws;
    MirrorLaws(ws, ts[i].wave, ts[j].wave);
    assert Arranged(cfg, ts)[i].wave == Mirror(ws, ts[i].wave) && Arranged(cfg, ts)[j].wave == Mirror(ws, ts[j].wave);
  }

  // Every Sync-phase task that is not to be pruned last stands before the last wave.
  predicate BeforeLast(cfg: Config, ts: seq<Task>, last: int) {
    forall t :: t in ts && t.phase.Sync? && !PrunedLast(cfg, t.objs) ==> t.wave < last
  }

  lemma LowerKeepsBefore(cfg: Config, d: Dependency, ts: seq<Task>, last: int)
    requires BeforeLast(cfg, ts, last)
    ensures BeforeLast(cfg, Lower(d, ts), last)
  {
    forall u | u in Lower(d, ts) && u.phase.Sync? && !PrunedLast(cfg, u.objs) ensures u.wave < last {
      var i :| 0 <= i < |ts| && Lower(d, ts)[i] == u;
      if d.Dep(ts[i].objs).Some? {
        LeastRefIs(d, ts, d.Dep(ts[i].objs).value, ts[i].Slot());
      }
      assert ts[i] in ts;
    }
  }

  predicate AllInts(ts: seq<Task>) {
    forall t :: t in ts ==> IsInt(t.wave)
  }

  lemma LowerKeepsInts(d: Dependency, ts: seq<Task>)
    requires AllInts(ts)
    ensures AllInts(Lower(d, ts))
  {
    forall u | u in Lower(d, ts) ensures IsInt(u.wave) {
      var i :| 0 <= i < |ts| && Lower(d, ts)[i] == u;
      if d.Dep(ts[i].objs).Some? {
        LeastRefIs(d, ts, d.Dep(ts[i].objs).value, ts[i].Slot());
      }
      assert ts[i] in ts;
    }
  }

  lemma ReversedInts(ts: seq<Task>)
    requires AllInts(ts)
    ensures AllInts(Reversed(ts))
  {
    hide IsInt;
    var ws := Ascending(PruneWavesOf(ts));
    forall t | t in Reversed(ts) ensures IsInt(t.wave) {
      var i :| 0 <= i < |ts| && Reversed(ts)[i] == t;
      assert t == SwappedWave(ws, ts[i]) && ts[i] in ts;
      if t.wave != ts[i].wave {
        assert t.wave in ws;
        var u :| u in ts && u.IsPrune() && u.wave == t.wave;
      }
    }
  }

  lemma ArrangedInts(cfg: Config, ts: seq<Task>)
    requires AllInts(ts)
    ensures AllInts(Reversed(ts)) && AllInts(Arranged(cfg, ts)) && HighestWave(Reversed(ts)) <= MAX_INT
  {
    hide Add64;
    hide Reversed;
    hide HighestWave;
    ReversedInts(ts);
    var h := HighestWave(Reversed(ts));
    if h > 0 { var t :| t in Reversed(ts) && t.phase.Sync? && t.wave == h; }
    forall t | t in Arranged(cfg, ts) ensures IsInt(t.wave) {
      var i :| 0 <= i < |ts| && Arranged(cfg, ts)[i] == t;
      assert Reversed(ts)[i] in Reversed(ts);
    }
  }

  // A task of the Sync phase, in the list Sort produces, that is not to be pruned last
  predicate OtherSync(cfg: Config, ts: seq<Task>, j: nat)
    requires j < |ts|
  {
    !AskedLast(cfg, ts[j]) && Canon(Arranged(cfg, ts))[j].phase.Sync?
  }

  lemma LastWaveAbove(cfg: Config, ts: seq<Task>, i: nat, j: nat)
    requires i < |ts| && j < |ts| && PrunedLast(cfg, ts[i].objs) && OtherSync(cfg, ts, j)
    requires AllInts(ts) && HighestWave(Reversed(ts)) < MAX_INT
    ensures Canon(Arranged(cfg, ts))[j].wave < Canon(Arranged(cfg, ts))[i].wave
  {
    var last, arranged := LastWave(Reversed(ts)), Arranged(cfg, ts);
    hide Add64;
    forall t | t in arranged && t.phase.Sync? && !PrunedLast(cfg, t.objs) ensures t.wave < last {
      var k :| 0 <= k < |ts| && arranged[k] == t;
      assert Reversed(ts)[k] in Reversed(ts);
    }
    LowerKeepsBefore(cfg, NAMESPACES, arranged, last);
    LowerKeepsBefore(cfg, CRDS, Lower(NAMESPACES, arranged), last);
    var canon := Canon(arranged);
    LastOnesWave(cfg, ts, i);
    assert canon[j] in canon && canon[j].objs == ts[j].objs;
  }

  lemma LastWaveWraps(cfg: Config, ts: seq<Task>, i: nat, j: nat)
    requires i < |ts| && j < |ts| && PrunedLast(cfg, ts[i].objs)
    requires AllInts(ts) && HighestWave(Reversed(ts)) == MAX_INT
    ensures Canon(Arranged(cfg, ts))[i].wave == MIN_INT <= Canon(Arranged(cfg, ts))[j].wave
  {
    hide LoweredSlot;
    hide HighestWave;
    hide Reversed;
    var arranged := Arranged(cfg, ts);
    ArrangedInts(cfg, ts);
    hide Arranged;
    LowerKeepsInts(NAMESPACES, arranged);
    LowerKeepsInts(CRDS, Lower(NAMESPACES, arranged));
    var canon := Canon(arranged);
    assert canon[j] in canon;
    LastOnesWave(cfg, ts, i);
  }

  lemma LastOnesWave(cfg: Config, ts: seq<Task>, i: nat)
    requires i < |ts| && PrunedLast(cfg, ts[i].objs)
    ensures Canon(Arranged(cfg, ts))[i].wave == LastWave(Reversed(ts))
  {
    hide LastWave;
    var arranged := Arranged(cfg, ts);
    assert Reversed(ts)[i].objs == ts[i].objs;
    assert arranged[i].wave == LastWave(Reversed(ts)) && arranged[i].objs == ts[i].objs;
    assert Lower(NAMESPACES, arranged)[i] == arranged[i];
  }

  /**
   In the list Sort produces, a task to be pruned last has a wave strictly greater than every other task of the
   Sync phase exactly when no wave of that phase is the greatest integer, beyond which the wave wraps around to
   the least, or when there is no such other task.
   */
  lemma PrunedLastIsLast(cfg: Config, ts: seq<Task>, i: nat)
    requires i < |ts| && AskedLast(cfg, ts[i]) && AllInts(ts)
    ensures (forall j :: 0 <= j < |ts| && OtherSync(cfg, ts, j) ==>
              Canon(Arranged(cfg, ts))[j].wave < Canon(Arranged(cfg, ts))[i].wave)
            <==> HighestWave(Reversed(ts)) < MAX_INT || forall j :: 0 <= j < |ts| ==> !OtherSync(cfg, ts, j)
  {
    hide Arranged;
    hide HighestWave;
    hide Reversed;
    hide OtherSync;
    hide LoweredSlot;
    ArrangedInts(cfg, ts);
    forall j | 0 <= j < |ts| && OtherSync(cfg, ts, j)
      ensures Canon(Arranged(cfg, ts))[j].wave < Canon(Arranged(cfg, ts))[i].wave <==>
              HighestWave(Reversed(ts)) < MAX_INT
    {
      if HighestWave(Reversed(ts)) < MAX_INT {
        LastWaveAbove(cfg, ts, i, j);
      } else {
        LastWaveWraps(cfg, ts, i, j);
      }
    }
  }

  lemma CanonStays(ts: seq<Task>, i: nat)
    requires i < |ts| && NAMESPACES.Dep(ts[i].objs).None? && CRDS.Dep(ts[i].objs).None?
    ensures Canon(ts)[i] == ts[i]
  {
    assert Lower(NAMESPACES, ts)[i] == ts[i];
  }

  lemma ArrangedStays(cfg: Config, ts: seq<Task>, i: nat)
    requires i < |ts| && ts[i].objs.TargetOnly?
    ensures Arranged(cfg, ts)[i] == Reversed(ts)[i] == ts[i]
  {
    hide LastWave;
  }

  // One such task, and one to be pruned last, which so comes first
  lemma PrunedLastWraps(cfg: Config, ts: seq<Task>)
    requires |ts| == 2 && AskedLast(cfg, ts[0]) && IsInt(ts[0].wave)
    requires ts[1].phase.Sync? && ts[1].objs.TargetOnly? && ts[1].wave == MAX_INT
    requires NAMESPACES.Dep(ts[1].objs).None? && CRDS.Dep(ts[1].objs).None?
    ensures Canon(Arranged(cfg, ts))[0].wave < Canon(Arranged(cfg, ts))[1].wave == MAX_INT
  {
    hide Arranged;
    hide Reversed;
    hide HighestWave;
    hide LoweredSlot;
    ArrangedInts(cfg, ts);
    ArrangedStays(cfg, ts, 1);
    assert Reversed(ts)[1] in Reversed(ts);
    CanonStays(Arranged(cfg, ts), 1);
    LastWaveWraps(cfg, ts, 0, 1);
  }
}
