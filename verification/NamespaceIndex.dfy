/** The second map of the cluster cache (nsIndex of pkg/cache/cluster.go): the same resources, by namespace. */
module NamespaceIndex {
  import opened Kube

  function InNamespace<V>(m: map<ResourceKey, V>, ns: string): map<ResourceKey, V> {
    map k | k in m && k.namespace == ns :: m[k]
  }

  function Namespaces<V>(m: map<ResourceKey, V>): set<string> {
    set k | k in m :: k.namespace
  }

  // One bucket for each namespace that has a resource
  function Partition<V>(m: map<ResourceKey, V>): map<string, map<ResourceKey, V>> {
    map ns | ns in Namespaces(m) :: InNamespace(m, ns)
  }

  function Bucket<V>(index: map<string, map<ResourceKey, V>>, ns: string): map<ResourceKey, V> {
    if ns in index then index[ns] else map[]
  }

  /** An index is the partition exactly when it is free of empty buckets and each bucket holds its namespace's keys. */
  lemma PartitionExact<V>(m: map<ResourceKey, V>, index: map<string, map<ResourceKey, V>>)
    ensures index == Partition(m) <==>
            (forall ns :: ns in index ==> index[ns] != map[]) && (forall ns :: Bucket(index, ns) == InNamespace(m, ns))
  {
    if index == Partition(m) {
      forall ns | ns in index ensures index[ns] != map[] {
        var k :| k in m && k.namespace == ns;
        assert k in index[ns];
      }
      forall ns ensures Bucket(index, ns) == InNamespace(m, ns) {
        if ns !in index { assert InNamespace(m, ns).Keys == {}; }
      }
    }
    if (forall ns :: ns in index ==> index[ns] != map[]) && (forall ns :: Bucket(index, ns) == InNamespace(m, ns)) {
      forall ns ensures ns in index <==> ns in Namespaces(m) {
        assert Bucket(index, ns) == InNamespace(m, ns);
        if ns in Namespaces(m) {
          var k :| k in m && k.namespace == ns;
          assert k in InNamespace(m, ns);
        }
        if ns in index {
          var k := AnyKey(index[ns]);
        }
      }
      assert index.Keys == Partition(m).Keys;
      forall ns | ns in index ensures index[ns] == Partition(m)[ns] {
        assert Bucket(index, ns) == InNamespace(m, ns);
      }
    }
  }

  lemma AnyKey<V>(m: map<ResourceKey, V>) returns (k: ResourceKey)
    requires m != map[]
    ensures k in m
  {
    assert m.Keys != {};
    k :| k in m.Keys;
  }

  // Storing a key: its bucket is made if need be, and takes the key too.
  lemma PartitionPut<V>(m: map<ResourceKey, V>, k: ResourceKey, v: V)
    ensures Partition(m[k := v]) == Partition(m)[k.namespace := Bucket(Partition(m), k.namespace)[k := v]]
  {
    var index := Partition(m)[k.namespace := Bucket(Partition(m), k.namespace)[k := v]];
    PartitionExact(m, Partition(m));
    forall ns ensures Bucket(index, ns) == InNamespace(m[k := v], ns) {
      assert Bucket(Partition(m), ns) == InNamespace(m, ns);
    }
    forall ns | ns in index ensures index[ns] != map[] {
      if ns == k.namespace { assert k in index[ns]; }
    }
    PartitionExact(m[k := v], index);
  }

  // Deleting a key: a bucket left empty goes too.
  lemma PartitionDelete<V>(m: map<ResourceKey, V>, k: ResourceKey)
    requires k in m
    ensures k.namespace in Partition(m)
    ensures var rest := Partition(m)[k.namespace] - {k};
            Partition(m - {k}) ==
            if |rest| == 0 then Partition(m) - {k.namespace} else Partition(m)[k.namespace := rest]
  {
    assert k.namespace in Namespaces(m);
    var rest := Partition(m)[k.namespace] - {k};
    var index := if |rest| == 0 then Partition(m) - {k.namespace} else Partition(m)[k.namespace := rest];
    PartitionExact(m, Partition(m));
    assert |rest| == 0 <==> rest == map[];
    forall ns ensures Bucket(index, ns) == InNamespace(m - {k}, ns) {
      assert Bucket(Partition(m), ns) == InNamespace(m, ns);
      if ns == k.namespace { assert rest == InNamespace(m - {k}, ns); }
    }
    PartitionExact(m - {k}, index);
  }
}
