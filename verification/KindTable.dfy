/** The table of kinds that breaks ties between tasks of one slot (kindOrder of pkg/sync/sync_tasks.go). */
module KindTable {
  import opened Lists
  import opened KeyStrings
  import opened Tasks
  import opened TaskOrder

  // ----- the table -----

  // What others live in, and what limits them, comes first, ...
  lemma RowsOfLimits()
    ensures |KINDS| == 35 && KINDS[0] == "Namespace" && KINDS[1] == "NetworkPolicy"
            && KINDS[2] == "ResourceQuota" && KINDS[3] == "LimitRange" && KINDS[4] == "PodSecurityPolicy"
            && KINDS[5] == "PodDisruptionBudget"
  {
  }

  // ... then what others refer to, ...
  lemma RowsOfConfiguration()
    ensures KINDS[6] == "ServiceAccount" && KINDS[7] == "Secret" && KINDS[8] == "SecretList"
            && KINDS[9] == "ConfigMap" && KINDS[10] == "StorageClass" && KINDS[11] == "PersistentVolume"
            && KINDS[12] == "PersistentVolumeClaim"
  {
  }

  // ... then new kinds and what may be done, ...
  lemma RowsOfRoles()
    ensures KINDS[13] == "CustomResourceDefinition" && KINDS[14] == "ClusterRole"
            && KINDS[15] == "ClusterRoleList" && KINDS[16] == "ClusterRoleBinding"
            && KINDS[17] == "ClusterRoleBindingList" && KINDS[18] == "Role" && KINDS[19] == "RoleList"
            && KINDS[20] == "RoleBinding" && KINDS[21] == "RoleBindingList"
  {
  }

  // ... then what runs, ...
  lemma RowsOfWorkloads()
    ensures KINDS[22] == "Service" && KINDS[23] == "DaemonSet" && KINDS[24] == "Pod"
            && KINDS[25] == "ReplicationController" && KINDS[26] == "ReplicaSet" && KINDS[27] == "Deployment"
            && KINDS[28] == "HorizontalPodAutoscaler"
  {
  }

  // ... runs last, or reaches what runs.
  lemma RowsOfAccess()
    ensures KINDS[29] == "StatefulSet" && KINDS[30] == "Job" && KINDS[31] == "CronJob"
            && KINDS[32] == "IngressClass" && KINDS[33] == "Ingress" && KINDS[34] == "APIService"
  {
  }

  lemma ShortNamesOnce()
    ensures forall i, j :: 0 <= i < j < |KINDS| && |KINDS[i]| <= 10 ==> KINDS[i] != KINDS[j]
  {
  }

  lemma LongNamesOnce()
    ensures forall i, j :: 0 <= i < j < |KINDS| && |KINDS[i]| > 10 ==> KINDS[i] != KINDS[j]
  {
  }

  // No kind is listed twice.
  lemma TableNoRepeats()
    ensures NoRepeats(KINDS)
  {
    ShortNamesOnce();
    LongNamesOnce();
  }

  // ----- what its ranks say of two kinds -----

  // A table lists the first no later than the second, or does not list the second at all.
  predicate ListsInOrder(table: seq<string>, a: string, b: string) {
    b in table ==> exists i, j :: 0 <= i <= j < |table| && table[i] == a && table[j] == b
  }

  lemma {:induction false} IndexInIs(kind: string, kinds: seq<string>)
    requires kind in kinds
    ensures IndexIn(kind, kinds) < |kinds| && kinds[IndexIn(kind, kinds)] == kind
  {
    if kinds[0] != kind { IndexInIs(kind, kinds[1..]); }
  }

  lemma IndexOrder(table: seq<string>, a: string, b: string)
    requires NoRepeats(table) && a in table && b in table
    ensures IndexIn(a, table) < |table| && (IndexIn(a, table) == IndexIn(b, table) <==> a == b)
    ensures IndexIn(a, table) <= IndexIn(b, table) <==> ListsInOrder(table, a, b)
  {
    IndexInIs(a, table);
    IndexInIs(b, table);
  }

  // The rank of a kind says where the table lists it; kinds it does not list come after all that it does.
  lemma RankExact(a: string, b: string)
    ensures KindOrder(a) <= KindOrder(b) <==> ListsInOrder(KINDS, a, b)
    ensures KindOrder(a) == KindOrder(b) <==> a == b || (a !in KINDS && b !in KINDS)
  {
    hide IndexIn;
    TableNoRepeats();
    if a in KINDS { IndexInIs(a, KINDS); }
    if b in KINDS { IndexInIs(b, KINDS); }
    if a in KINDS && b in KINDS { IndexOrder(KINDS, a, b); }
  }

  /** The place of two tasks in the sorted list: by phase and wave, then by the table of kinds, then by name. */
  predicate InPlace(a: Task, b: Task) {
    && SlotLeq(a.Slot(), b.Slot())
    && (a.Slot() == b.Slot() ==> ListsInOrder(KINDS, a.Kind(), b.Kind()))
    && (a.Slot() == b.Slot() && (a.Kind() == b.Kind() || (a.Kind() !in KINDS && b.Kind() !in KINDS)) ==>
          !StringLess(b.Obj().key.name, a.Obj().key.name))
  }

  lemma InPlaceExact(a: Task, b: Task)
    requires Comparable(a, b) && Comparable(b, a)
    ensures !Less(KindOrder, b, a) <==> InPlace(a, b)
  {
    hide *;
    NotLessPrecedes(KindOrder, a, b);
    RankExact(a.Kind(), b.Kind());
    PrecedesIs(a, b);
  }

  lemma PrecedesIs(a: Task, b: Task)
    requires KindOrder(a.Kind()) <= KindOrder(b.Kind()) <==> ListsInOrder(KINDS, a.Kind(), b.Kind())
    requires KindOrder(a.Kind()) == KindOrder(b.Kind()) <==>
             a.Kind() == b.Kind() || (a.Kind() !in KINDS && b.Kind() !in KINDS)
    ensures Precedes(KindOrder, a, b) <==> InPlace(a, b)
  {
    hide KindOrder;
    hide ListsInOrder;
  }

  // The phases run in this order, whatever the waves; within a phase the lower wave comes first.
  lemma PhasesInOrder(a: Slot, b: Slot)
    ensures var earlier := (p: Phase, q: Phase) =>
              (p.PreSync? && !q.PreSync?) || (p.Sync? && (q.PostSync? || q.SyncFail?)) || (p.PostSync? && q.SyncFail?);
            SlotLess(a, b) <==> earlier(a.phase, b.phase) || (a.phase == b.phase && a.wave < b.wave)
  {
  }
}
