/** The bucket of Merkle proofs, kept under chainID || pk || height, and its pruning by a cursor
    that walks the keys in lexicographic order. */
module ProofStore {
  import opened Bytes
  import opened Keys
  import opened Maps
  import opened Wrappers
  import opened Crypto

  type Proofs = map<ByteString, ByteString>

  /** The entries that a list of proofs becomes. */
  function ProofEntries(chainId: ByteString, pk: ByteString, start: U64, interval: U64, proofs: seq<ByteString>): (es: seq<(ByteString, ByteString)>)
    ensures |es| == |proofs|
    ensures forall i :: 0 <= i < |proofs| ==> es[i] == (RecordKey(chainId, pk, HeightAt(start, interval, i)), proofs[i])
  {
    seq(|proofs|, i requires 0 <= i < |proofs| => (RecordKey(chainId, pk, HeightAt(start, interval, i)), proofs[i]))
  }

  // ----- the cursor -----

  /** The least key at or after `from`, or strictly after it. */
  predicate IsLeast(keys: set<ByteString>, from: ByteString, strict: bool, k: ByteString) {
    k in keys && Reaches(from, strict, k) && forall q :: q in keys && Reaches(from, strict, q) ==> !Before(q, k)
  }

  predicate Reaches(from: ByteString, strict: bool, k: ByteString) {
    Before(from, k) || (!strict && from == k)
  }

  lemma {:induction false} LeastExists(keys: set<ByteString>, k: ByteString)
    requires k in keys
    ensures exists m :: m in keys && forall q :: q in keys ==> !Before(q, m)
    decreases keys
  {
    var rest := set q | q in keys && Before(q, k);
    BeforeIrreflexive(k);
    if rest == {} {
      assert forall q :: q in keys && Before(q, k) ==> q in rest;
    } else {
      var q :| q in rest;
      assert k !in rest;
      LeastExists(rest, q);
      var m :| m in rest && forall q :: q in rest ==> !Before(q, m);
      forall q | q in keys ensures !Before(q, m) {
        if Before(q, m) {
          BeforeTransitive(q, m, k);
        }
      }
    }
  }

  /** Where the cursor stands after Seek (not strict) or Next (strict). */
  function Position(keys: set<ByteString>, from: ByteString, strict: bool): (r: Option<ByteString>)
    ensures r.Some? ==> IsLeast(keys, from, strict, r.value)
    ensures r.None? ==> forall q :: q in keys ==> !Reaches(from, strict, q)
  {
    var ahead := set q | q in keys && Reaches(from, strict, q);
    if ahead == {} then
      assert forall q :: q in keys && Reaches(from, strict, q) ==> q in ahead;
      None
    else
      assert exists m :: IsLeast(keys, from, strict, m) by {
        var q :| q in ahead;
        LeastExists(ahead, q);
        var m :| m in ahead && forall q :: q in ahead ==> !Before(q, m);
        assert IsLeast(keys, from, strict, m);
      }
      assert forall a, b :: IsLeast(keys, from, strict, a) && IsLeast(keys, from, strict, b) ==> a == b by {
        forall a, b | IsLeast(keys, from, strict, a) && IsLeast(keys, from, strict, b) ensures a == b {
          BeforeTotal(a, b);
        }
      }
      var m :| m in keys && IsLeast(keys, from, strict, m);
      Some(m)
  }

  /** The height in the last eight bytes of a key. */
  function TailHeight(key: ByteString): U64
    requires |key| >= 8
  {
    U64FromBE(key[|key| - 8..])
  }

  /** The scan reaches `k` and takes it out: no key of the prefix up to `k` is above the target. */
  ghost predicate Scanned(keys: set<ByteString>, prefix: ByteString, target: U64, k: ByteString)
    requires |prefix| >= 8
  {
    && prefix <= k
    && forall q :: q in keys && prefix <= q && !Before(k, q) ==> TailHeight(q) <= target
  }

  /** Everything under the prefix that lies before the cursor. */
  ghost predicate Passed(prefix: ByteString, cursor: Option<ByteString>, k: ByteString) {
    prefix <= k && (cursor.Some? ==> Before(k, cursor.value))
  }

  lemma SeekPassesNothing(keys: set<ByteString>, prefix: ByteString)
    ensures forall k :: k in keys ==> !Passed(prefix, Position(keys, prefix, false), k)
    ensures var cursor := Position(keys, prefix, false); cursor.Some? ==> !Before(cursor.value, prefix)
  {
    hide Position;
    var cursor := Position(keys, prefix, false);
    BeforeIrreflexive(prefix);
    if cursor.Some? && Before(cursor.value, prefix) && Before(prefix, cursor.value) {
      BeforeTransitive(prefix, cursor.value, prefix);
    }
    forall k | k in keys ensures !Passed(prefix, cursor, k) {
      BeforeTotal(prefix, k);
      if prefix <= k {
        PrefixNotBefore(prefix, k);
      }
    }
  }

  /** Moving on from `at`, once it is gone from the keys, passes `at` and nothing else. */
  lemma NextPassesOne(keys: set<ByteString>, prefix: ByteString, at: ByteString, k: ByteString)
    requires k in keys || k == at || Passed(prefix, Some(at), k)
    requires prefix <= at
    ensures Passed(prefix, Position(keys, at, true), k) <==> Passed(prefix, Some(at), k) || k == at
  {
    hide Position;
    var next := Position(keys, at, true);
    BeforeTotal(k, at);
    if next.Some? {
      if Before(k, at) {
        BeforeTransitive(k, at, next.value);
      }
      if Before(at, k) && Before(k, next.value) {
        assert Reaches(at, true, k);
      }
    }
  }

  /** Where the walk ends, it has passed exactly what a scan takes out. */
  lemma WalkEnds(keys: set<ByteString>, prefix: ByteString, target: U64, cursor: Option<ByteString>, k: ByteString)
    requires |prefix| >= 8 && k in keys
    requires cursor.Some? ==> cursor.value in keys && !Before(cursor.value, prefix)
    requires forall q :: q in keys && Passed(prefix, cursor, q) ==> TailHeight(q) <= target
    requires cursor.Some? && prefix <= cursor.value ==> TailHeight(cursor.value) > target
    ensures Passed(prefix, cursor, k) <==> Scanned(keys, prefix, target, k)
  {
    if Passed(prefix, cursor, k) {
      forall q | q in keys && prefix <= q && !Before(k, q) ensures TailHeight(q) <= target {
        if cursor.Some? {
          BeforeTotal(k, q);
          if Before(q, k) {
            BeforeTransitive(q, k, cursor.value);
          }
        }
      }
    } else if prefix <= k {
      var c := cursor.value;
      PrefixContiguous(prefix, c, k);
      assert TailHeight(c) > target;
      if Before(k, c) {
        assert false;
      }
    }
  }

  // ----- what pruning is meant to take out -----

  /** The slot of (chainId, pk) at or below the target. */
  ghost predicate OwnSlotUpTo(key: ByteString, chainId: ByteString, pk: ByteString, target: U64) {
    exists h: U64 :: h <= target && key == RecordKey(chainId, pk, h)
  }

  /** Under one prefix, keys are ordered as their heights are. */
  lemma RecordKeyOrder(chainId: ByteString, pk: ByteString, h1: U64, h2: U64)
    ensures Before(RecordKey(chainId, pk, h1), RecordKey(chainId, pk, h2)) <==> h1 < h2
    ensures TailHeight(RecordKey(chainId, pk, h1)) == h1
  {
    BeforeCommonPrefix(chainId + pk, U64ToBE(h1), U64ToBE(h2));
    BigEndianOrder(U64ToBE(h1), U64ToBE(h2));
    U64ToBEInjective(TailHeight(RecordKey(chainId, pk, h1)), h1);
  }

  /** Without foreign keys, the early break loses nothing and the scan takes nothing else. */
  lemma ScanOfOwnKeys(keys: set<ByteString>, chainId: ByteString, pk: ByteString, target: U64, k: ByteString)
    requires |pk| == PK_LEN && k in keys
    requires forall q :: q in keys ==> !Foreign(q, chainId, pk)
    ensures Scanned(keys, chainId + pk, target, k) <==> OwnSlotUpTo(k, chainId, pk, target)
  {
    hide RecordKey, Foreign, HasKeyPrefix, TailHeight;
    forall q | q in keys && chainId + pk <= q ensures exists h: U64 :: q == RecordKey(chainId, pk, h) {
      HasKeyPrefixIsPrefix(q, chainId, pk);
      PrefixedKey(q, chainId, pk);
    }
    if Scanned(keys, chainId + pk, target, k) {
      var h: U64 :| k == RecordKey(chainId, pk, h);
      BeforeIrreflexive(k);
      RecordKeyOrder(chainId, pk, h, h);
      assert TailHeight(k) <= target;
    }
    if h: U64 :| h <= target && k == RecordKey(chainId, pk, h) {
      RecordKeyHasPrefix(chainId, pk, h);
      forall q | q in keys && chainId + pk <= q && !Before(k, q) ensures TailHeight(q) <= target {
        var h': U64 :| q == RecordKey(chainId, pk, h');
        RecordKeyOrder(chainId, pk, h, h');
        RecordKeyOrder(chainId, pk, h', h);
      }
    }
  }

  lemma RecordKeyHasPrefix(chainId: ByteString, pk: ByteString, h: U64)
    ensures chainId + pk <= RecordKey(chainId, pk, h)
  {
  }

  /** The scan takes out exactly the proofs of its chain and key up to the target, whatever the
      target, if and only if the bucket holds no foreign key under its prefix. */
  lemma PruningExact(keys: set<ByteString>, chainId: ByteString, pk: ByteString)
    requires |pk| == PK_LEN
    ensures (forall target: U64, k :: k in keys ==>
               (Scanned(keys, chainId + pk, target, k) <==> OwnSlotUpTo(k, chainId, pk, target)))
            <==> (forall k :: k in keys ==> !Foreign(k, chainId, pk))
  {
    hide RecordKey, HasKeyPrefix, TailHeight, OwnSlotUpTo;
    if k :| k in keys && Foreign(k, chainId, pk) {
      HasKeyPrefixIsPrefix(k, chainId, pk);
      assert Scanned(keys, chainId + pk, MAX_U64, k);
      OwnIsNotForeign(k, chainId, pk, MAX_U64);
    } else {
      forall target: U64, k | k in keys
        ensures Scanned(keys, chainId + pk, target, k) <==> OwnSlotUpTo(k, chainId, pk, target)
      {
        ScanOfOwnKeys(keys, chainId, pk, target, k);
      }
    }
  }

  /** A chain id can be chosen so that pruning takes out another chain's proof. */
  lemma PruningCanHitAnotherChain(pk: ByteString, h: U64)
    requires |pk| == PK_LEN
    ensures var c: ByteString := [98];
            var key := RecordKey(c + pk, pk, h);
            c + pk != c && Scanned({key}, c + pk, h, key)
  {
    RecordKeyOrder([98] + pk, pk, h, h);
  }

  /** A foreign key can also stop the scan early, so that a proof below the target stays. */
  lemma ForeignKeyCanStopPruning(c: ByteString, pk: ByteString, q: ByteString)
    requires |pk| == |q| == PK_LEN && q[0] == 0
    ensures var h := U64FromBE([1, 0, 0, 0, 0, 0, 0, 0]);
            var own, other := RecordKey(c, pk, h), RecordKey(c + pk, q, MAX_U64);
            OwnSlotUpTo(own, c, pk, h) && Foreign(other, c, pk) && !Scanned({own, other}, c + pk, h, own)
  {
    hide U64FromBE, U64ToBE, HasKeyPrefix, TailHeight;
    var tail: ByteString := [1, 0, 0, 0, 0, 0, 0, 0];
    var h := U64FromBE(tail);
    var own, other := RecordKey(c, pk, h), RecordKey(c + pk, q, MAX_U64);
    var rest := q + U64ToBE(MAX_U64);
    assert other == (c + pk) + rest && own == (c + pk) + tail;
    BeforeCommonPrefix(c + pk, rest, tail);
    BeforeCommonPrefix(c + pk, tail, rest);
    HasKeyPrefixIsPrefix(other, c, pk);
    RecordKeyOrder(c + pk, q, MAX_U64, MAX_U64);
    assert !Before(own, other) && other in {own, other} && TailHeight(other) > h;
  }

  lemma OwnIsNotForeign(k: ByteString, chainId: ByteString, pk: ByteString, target: U64)
    ensures OwnSlotUpTo(k, chainId, pk, target) ==> !Foreign(k, chainId, pk)
  {
  }

  class PubRandProofStore {
    var bucket: Proofs

    constructor ()
      ensures bucket == map[]
    {
      bucket := map[];
    }

    method BuildKeys(chainId: ByteString, pk: ByteString, startHeight: U64, num: U64, interval: U64)
      returns (keys: seq<ByteString>)
      ensures |keys| == num
      ensures forall i :: 0 <= i < num ==> keys[i] == RecordKey(chainId, pk, HeightAt(startHeight, interval, i))
    {
      hide RecordKey, HeightAt;
      keys := [];
      for i := 0 to num
        invariant |keys| == i
        invariant forall j :: 0 <= j < i ==> keys[j] == RecordKey(chainId, pk, HeightAt(startHeight, interval, j))
      {
        keys := keys + [RecordKey(chainId, pk, HeightAt(startHeight, interval, i))];
      }
    }

    /** AddPubRandProofList: all proofs in one transaction, or none. */
    method AddPubRandProofList(chainId: ByteString, pk: ByteString, height: U64, numPubRand: U64,
                               proofList: seq<ByteString>, interval: U64, committed: bool)
      returns (r: Result<()>)
      modifies this
      ensures r.Ok? <==> numPubRand == |proofList| && committed
      ensures r.Ok? ==> bucket == PutAll(old(bucket), ProofEntries(chainId, pk, height, interval, proofList))
      ensures r.Err? ==> bucket == old(bucket)
    {
      hide RecordKey, HeightAt;
      var keys := BuildKeys(chainId, pk, height, numPubRand, interval);
      if |keys| != |proofList| {
        return Err(LengthMismatch);
      }
      ghost var es := ProofEntries(chainId, pk, height, interval, proofList);
      var tx := bucket;
      for i := 0 to |keys|
        invariant tx == PutAll(bucket, es[..i])
        invariant bucket == old(bucket)
      {
        tx := tx[keys[i] := proofList[i]];
        assert es[..i + 1][..i] == es[..i] && es[..i + 1][i] == (keys[i], proofList[i]);
      }
      assert es[..|keys|] == es;
      if !committed {
        return Err(Database);
      }
      bucket := tx;
      r := Ok(());
    }

    /** GetPubRandProofList: the proofs of consecutive heights, if every one is there. */
    method GetPubRandProofList(chainId: ByteString, pk: ByteString, height: U64, numPubRand: U64)
      returns (r: Result<seq<ByteString>>)
      ensures r.Ok? <==> forall i :: 0 <= i < numPubRand ==> RecordKey(chainId, pk, HeightAt(height, 1, i)) in bucket
      ensures r.Ok? ==> |r.value| == numPubRand
      ensures r.Ok? ==> forall i :: 0 <= i < numPubRand ==> r.value[i] == bucket[RecordKey(chainId, pk, HeightAt(height, 1, i))]
    {
      hide RecordKey, HeightAt;
      var keys := BuildKeys(chainId, pk, height, numPubRand, 1);
      var list: seq<ByteString> := [];
      for i := 0 to |keys|
        invariant |list| == i
        invariant forall j :: 0 <= j < i ==> keys[j] in bucket && list[j] == bucket[keys[j]]
      {
        if keys[i] !in bucket {
          assert RecordKey(chainId, pk, HeightAt(height, 1, i)) !in bucket;
          return Err(ProofNotFound);
        }
        list := list + [bucket[keys[i]]];
      }
      r := Ok(list);
    }

    /** RemovePubRandProofList: seek the prefix, delete while under it, stop at the first height
        above the target. */
    method RemovePubRandProofList(chainId: ByteString, pk: ByteString, targetHeight: U64, committed: bool) returns (r: Result<()>)
      requires |pk| == PK_LEN
      modifies this
      ensures r.Ok? <==> committed
      ensures r.Ok? ==> bucket == map k | k in old(bucket) && !Scanned(old(bucket).Keys, chainId + pk, targetHeight, k) :: old(bucket)[k]
      ensures r.Err? ==> bucket == old(bucket)
    {
      hide Position, Scanned;
      var prefix := chainId + pk;
      var tx := bucket;
      ghost var keys := tx.Keys;
      var cursor := Position(tx.Keys, prefix, false);
      SeekPassesNothing(keys, prefix);
      while cursor.Some? && prefix <= cursor.value
        invariant bucket == old(bucket)
        invariant cursor.Some? ==> cursor.value in tx && !Before(cursor.value, prefix)
        invariant tx == map k | k in bucket && !Passed(prefix, cursor, k) :: bucket[k]
        invariant forall k :: k in keys && Passed(prefix, cursor, k) ==> TailHeight(k) <= targetHeight
        decreases tx.Keys
      {
        var at := cursor.value;
        if TailHeight(at) > targetHeight {
          break;
        }
        tx := tx - {at};
        cursor := Position(tx.Keys, at, true);
        forall k | k in keys
          ensures Passed(prefix, cursor, k) <==> Passed(prefix, Some(at), k) || k == at
        {
          NextPassesOne(tx.Keys, prefix, at, k);
        }
        if cursor.Some? && Before(cursor.value, prefix) {
          BeforeTransitive(at, cursor.value, prefix);
        }
      }
      forall k | k in keys
        ensures Passed(prefix, cursor, k) <==> Scanned(keys, prefix, targetHeight, k)
      {
        WalkEnds(keys, prefix, targetHeight, cursor, k);
      }
      if !committed {
        return Err(Database);
      }
      bucket := tx;
      r := Ok(());
    }
  }
}
