/** Putting a list of entries into a bucket. */
module Maps {
  import opened Wrappers

  /** The bucket after putting every entry, in order. */
  function PutAll<K, V>(m: map<K, V>, entries: seq<(K, V)>): map<K, V> {
    if entries == [] then m else
      var e := entries[|entries| - 1];
      PutAll(m, entries[..|entries| - 1])[e.0 := e.1]
  }

  /** No two entries share a key. */
  predicate Distinct<K(==), V>(entries: seq<(K, V)>) {
    forall i, j :: 0 <= i < j < |entries| ==> entries[i].0 != entries[j].0
  }

  /** No key is taken, neither in the bucket nor twice in the list. */
  predicate Fresh<K(==), V>(m: map<K, V>, entries: seq<(K, V)>) {
    Distinct(entries) && forall i :: 0 <= i < |entries| ==> entries[i].0 !in m
  }

  ghost predicate HasKey<K, V>(entries: seq<(K, V)>, k: K) {
    exists i :: 0 <= i < |entries| && entries[i].0 == k
  }

  /** Distinct entries each end up in the bucket; every other key keeps its value. */
  lemma {:induction false} PutAllContents<K, V>(m: map<K, V>, entries: seq<(K, V)>)
    requires Distinct(entries)
    ensures forall i :: 0 <= i < |entries| ==>
              entries[i].0 in PutAll(m, entries) && PutAll(m, entries)[entries[i].0] == entries[i].1
    ensures forall k :: !HasKey(entries, k) ==>
              (k in PutAll(m, entries) <==> k in m) && (k in m ==> PutAll(m, entries)[k] == m[k])
  {
    if entries != [] {
      var n := |entries| - 1;
      var init, e := entries[..n], entries[n];
      PutAllContents(m, init);
      forall i | 0 <= i < n
        ensures entries[i].0 in PutAll(m, entries) && PutAll(m, entries)[entries[i].0] == entries[i].1
      {
        assert entries[i] == init[i];
      }
      forall k | !HasKey(entries, k)
        ensures (k in PutAll(m, entries) <==> k in m) && (k in m ==> PutAll(m, entries)[k] == m[k])
      {
        assert entries[n].0 != k;
        forall i | 0 <= i < n ensures init[i].0 != k {
          assert init[i] == entries[i];
        }
        assert !HasKey(init, k);
      }
    }
  }

  lemma PutAllAt<K, V>(m: map<K, V>, entries: seq<(K, V)>, i: nat)
    requires Distinct(entries) && i < |entries|
    ensures entries[i].0 in PutAll(m, entries) && PutAll(m, entries)[entries[i].0] == entries[i].1
  {
    PutAllContents(m, entries);
  }

  lemma PutAllElsewhere<K, V>(m: map<K, V>, entries: seq<(K, V)>, k: K)
    requires Distinct(entries) && forall i :: 0 <= i < |entries| ==> entries[i].0 != k
    ensures (k in PutAll(m, entries) <==> k in m) && (k in m ==> PutAll(m, entries)[k] == m[k])
  {
    PutAllContents(m, entries);
  }

  lemma TakenKey<K, V>(m: map<K, V>, entries: seq<(K, V)>, k: K)
    requires Distinct(entries)
    ensures k in PutAll(m, entries) <==> k in m || exists i :: 0 <= i < |entries| && entries[i].0 == k
  {
  }

  /** One transaction that puts the entries in order and gives up at the first taken key. */
  method PutFresh<K(==), V>(m: map<K, V>, entries: seq<(K, V)>) returns (r: Option<map<K, V>>)
    ensures r.Some? <==> Fresh(m, entries)
    ensures r.Some? ==> r.value == PutAll(m, entries)
  {
    var bucket := m;
    for i := 0 to |entries|
      invariant Fresh(m, entries[..i])
      invariant bucket == PutAll(m, entries[..i])
    {
      var (k, v) := entries[i];
      TakenKey(m, entries[..i], k);
      if k in bucket {
        if k !in m {
          var j :| 0 <= j < i && entries[..i][j].0 == k;
          assert entries[j].0 == entries[i].0;
        }
        return None;
      }
      bucket := bucket[k := v];
      assert entries[..i + 1][..i] == entries[..i];
    }
    assert entries[..|entries|] == entries;
    r := Some(bucket);
  }
}
