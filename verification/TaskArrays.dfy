/** Task objects (pkg/sync/sync_task.go), and sorting an array of them by Less (pkg/sync/sync_tasks.go). */
module TaskArrays {
  import opened Kube
  import opened Lists
  import opened Tasks
  import opened TaskOrder

  class SyncTask {
    const objs: Objs
    const skipDryRun: bool
    var phase: Phase
    var waveOverride: Option<int>
    var syncStatus: ResultCode
    var operationState: OpPhase

    constructor (objs: Objs, phase: Phase, skipDryRun: bool)
      ensures this.objs == objs && this.phase == phase && this.skipDryRun == skipDryRun
      ensures waveOverride == None && syncStatus == NoCode && operationState == NoPhase
    {
      this.objs := objs;
      this.phase := phase;
      this.skipDryRun := skipDryRun;
      waveOverride := None;
      syncStatus, operationState := NoCode, NoPhase;
    }

    function Obj(): Obj { if objs.LiveOnly? then objs.live else objs.target }

    function Wave(): int
      reads this`waveOverride
    {
      if waveOverride.Some? then waveOverride.value else Obj().wave
    }

    function Slot(): Slot
      reads this`phase, this`waveOverride
    {
      At(phase, Wave())
    }

    // The task as a value
    function Info(): Task
      reads this`phase, this`waveOverride
    {
      Task(phase, Wave(), objs, skipDryRun)
    }
  }

  function Infos(s: seq<SyncTask>): (r: seq<Task>)
    reads (set t | t in s)`phase, (set t | t in s)`waveOverride
    ensures |r| == |s| && forall i :: 0 <= i < |s| ==> r[i] == s[i].Info()
    decreases |s|
  {
    if s == [] then [] else [s[0].Info()] + Infos(s[1..])
  }

  // ----- lists of the same objects -----

  lemma SameMembers(s: seq<SyncTask>, was: seq<SyncTask>)
    requires multiset(s) == multiset(was)
    ensures forall t :: t in s <==> t in was
  {
    assert forall t :: t in s <==> t in multiset(s);
    assert forall t :: t in was <==> t in multiset(was);
  }

  lemma {:induction false} DistinctOnce(s: seq<SyncTask>, t: SyncTask)
    requires NoRepeats(s)
    ensures multiset(s)[t] <= 1
  {
    if s != [] {
      assert s == [s[0]] + s[1..];
      DistinctOnce(s[1..], t);
      assert t == s[0] ==> t !in s[1..];
    }
  }

  lemma PartDistinct(s: seq<SyncTask>, was: seq<SyncTask>)
    requires multiset(s) <= multiset(was) && NoRepeats(was)
    ensures NoRepeats(s)
  {
    forall i, j | 0 <= i < j < |s| ensures s[i] != s[j] {
      DistinctOnce(was, s[i]);
      assert s == s[..i] + [s[i]] + s[i + 1..j] + [s[j]] + s[j + 1..];
    }
  }

  lemma KeysApart(tasks: seq<SyncTask>)
    requires DistinctKeys(Infos(tasks))
    ensures NoRepeats(tasks)
    ensures forall t, u :: t in tasks && u in tasks && t != u ==> t.Info().RKey() != u.Info().RKey()
  {
  }

  // Different keys stay different wherever the tasks stand.
  lemma PartKeys(s: seq<SyncTask>, was: seq<SyncTask>)
    requires multiset(s) <= multiset(was) && DistinctKeys(Infos(was))
    ensures NoRepeats(s) && DistinctKeys(Infos(s))
  {
    KeysApart(was);
    PartDistinct(s, was);
    forall i | 0 <= i < |s| ensures s[i] in was { assert s[i] in multiset(s); }
  }

  // ----- sort.Sort with Less and Swap -----

  // The first n tasks are in order: none is less than one before it.
  predicate InOrder(rank: string -> int, s: seq<Task>, n: nat)
    requires n <= |s|
  {
    forall i, j :: 0 <= i < j < n ==> !Less(rank, s[j], s[i])
  }

  // The library's sort is any sequence of swaps that ends with nothing out of order; this one inserts.
  method SortByLess(rank: string -> int, a: array<SyncTask>)
    modifies a
    ensures multiset(a[..]) == multiset(old(a[..]))
    ensures WavesFit(old(Infos(a[..]))) ==> InOrder(rank, Infos(a[..]), a.Length)
    ensures WavesFit(old(Infos(a[..]))) ==>
              forall i, j :: 0 <= i < j < a.Length ==> Precedes(rank, a[i].Info(), a[j].Info())
  {
    hide Less;
    hide Precedes;
    ghost var fits := WavesFit(Infos(a[..]));
    for i := 0 to a.Length
      invariant multiset(a[..]) == multiset(old(a[..]))
      invariant fits ==> WavesFit(Infos(a[..])) && InOrder(rank, Infos(a[..]), i)
    {
      Insert(rank, a, i, fits);
    }
    if fits { InOrderPrecedes(rank, Infos(a[..])); }
  }

  lemma InOrderPrecedes(rank: string -> int, s: seq<Task>)
    requires WavesFit(s) && InOrder(rank, s, |s|)
    ensures forall i, j :: 0 <= i < j < |s| ==> Precedes(rank, s[i], s[j])
  {
    forall i, j | 0 <= i < j < |s| ensures Precedes(rank, s[i], s[j]) {
      NotLessPrecedes(rank, s[i], s[j]);
    }
  }

  method Insert(rank: string -> int, a: array<SyncTask>, i: nat, ghost fits: bool)
    requires i < a.Length
    requires fits ==> WavesFit(Infos(a[..])) && InOrder(rank, Infos(a[..]), i)
    modifies a
    ensures multiset(a[..]) == multiset(old(a[..]))
    ensures fits ==> WavesFit(Infos(a[..])) && InOrder(rank, Infos(a[..]), i + 1)
  {
    hide Less;
    hide WavesFit;
    var j := i;
    while j > 0 && Less(rank, a[j].Info(), a[j - 1].Info())
      invariant 0 <= j <= i
      invariant multiset(a[..]) == multiset(old(a[..]))
      invariant fits ==> WavesFit(Infos(a[..])) && InOrderBut(rank, Infos(a[..]), i, j)
    {
      if fits { SinkOne(rank, Infos(a[..]), i, j); }
      SwapTasks(a, j, j - 1);
      j := j - 1;
    }
    if fits { SinkDone(rank, Infos(a[..]), i, j); }
  }

  method SwapTasks(a: array<SyncTask>, i: nat, j: nat)
    requires i < a.Length && j < a.Length
    modifies a
    ensures a[..] == Swapped(old(a[..]), i, j)
    ensures Infos(a[..]) == Swapped(old(Infos(a[..])), i, j)
    ensures multiset(a[..]) == multiset(old(a[..]))
  {
    ghost var before, infos := a[..], Infos(a[..]);
    Swap(a, i, j);
    assert Infos(before) == infos;
    InfosSwap(before, i, j);
  }

  method Swap<T>(a: array<T>, i: nat, j: nat)
    requires i < a.Length && j < a.Length
    modifies a
    ensures a[..] == Swapped(old(a[..]), i, j)
    ensures multiset(a[..]) == multiset(old(a[..]))
  {
    a[i], a[j] := a[j], a[i];
  }

  function Swapped<T>(s: seq<T>, i: nat, j: nat): (r: seq<T>)
    requires i < |s| && j < |s|
    ensures |r| == |s| && r[i] == s[j] && r[j] == s[i]
    ensures forall k :: 0 <= k < |s| && k != i && k != j ==> r[k] == s[k]
  {
    s[i := s[j]][j := s[i]]
  }

  lemma InfosSwap(s: seq<SyncTask>, i: nat, j: nat)
    requires i < |s| && j < |s|
    ensures Infos(Swapped(s, i, j)) == Swapped(Infos(s), i, j)
  {
    hide Swapped;
    forall k | 0 <= k < |s| ensures Infos(Swapped(s, i, j))[k] == Swapped(Infos(s), i, j)[k] {
      if k != i && k != j { assert Swapped(s, i, j)[k] == s[k]; }
    }
  }

  // The first i + 1 tasks are in order but for the one at j, and that one may precede all after it.
  predicate InOrderBut(rank: string -> int, s: seq<Task>, i: nat, j: nat)
    requires j <= i < |s|
  {
    && (forall x, y :: 0 <= x < y <= i && x != j && y != j ==> !Less(rank, s[y], s[x]))
    && (forall y :: j < y <= i ==> !Less(rank, s[y], s[j]))
  }

  lemma SinkOne(rank: string -> int, s: seq<Task>, i: nat, j: nat)
    requires 0 < j <= i < |s| && WavesFit(s) && InOrderBut(rank, s, i, j)
    requires Less(rank, s[j], s[j - 1])
    ensures WavesFit(Swapped(s, j, j - 1)) && InOrderBut(rank, Swapped(s, j, j - 1), i, j - 1)
  {
    hide Less;
    hide Swapped;
    var t := Swapped(s, j, j - 1);
    LessBySlot(rank, s[j], s[j - 1]);
    forall k | 0 <= k < |t| ensures t[k] in s {
      if k != j && k != j - 1 { assert t[k] == s[k]; }
    }
    forall x, y | 0 <= x < y <= i && x != j - 1 && y != j - 1 ensures !Less(rank, t[y], t[x]) {
      if x == j { assert t[x] == s[j - 1] && t[y] == s[y]; }
      else if y == j { assert t[y] == s[j - 1] && t[x] == s[x]; }
      else { assert t[x] == s[x] && t[y] == s[y]; }
    }
  }

  lemma SinkDone(rank: string -> int, s: seq<Task>, i: nat, j: nat)
    requires j <= i < |s| && InOrderBut(rank, s, i, j) && WavesFit(s)
    requires j == 0 || !Less(rank, s[j], s[j - 1])
    ensures InOrder(rank, s, i + 1)
  {
    hide Less;
    forall x | 0 <= x < j ensures !Less(rank, s[j], s[x]) {
      if x < j - 1 {
        NotLessTransitive(rank, s[x], s[j - 1], s[j]);
      }
    }
  }
}
