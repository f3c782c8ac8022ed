/** The sign-record bucket of the EOTS database. Every transaction is an atomic update
    of a map: `committed` says whether the database accepted it, and an error inside it
    leaves the bucket as it was. */
module EotsStore {
  import opened Bytes
  import opened Keys
  import opened Maps
  import opened Wrappers

  datatype SigningRecord = SigningRecord(msg: ByteString, sig: ByteString, timestamp: int)

  datatype BatchSignRecord = BatchSignRecord(
    height: U64, chainId: ByteString, msg: ByteString, eotsPk: ByteString, sig: ByteString)

  type Records = map<ByteString, SigningRecord>

  function KeyOf(b: BatchSignRecord): ByteString {
    RecordKey(b.chainId, b.eotsPk, b.height)
  }

  /** What a batch record becomes in the bucket. */
  function Entry(b: BatchSignRecord, timestamp: int): (ByteString, SigningRecord) {
    (KeyOf(b), SigningRecord(b.msg, b.sig, timestamp))
  }

  function Entries(batch: seq<BatchSignRecord>, timestamp: int): (es: seq<(ByteString, SigningRecord)>)
    ensures |es| == |batch|
    ensures forall i :: 0 <= i < |batch| ==> es[i] == Entry(batch[i], timestamp)
  {
    seq(|batch|, i requires 0 <= i < |batch| => Entry(batch[i], timestamp))
  }

  /** What GetSignRecordsBatch finds. */
  function Lookup(records: Records, eotsPk: ByteString, chainId: ByteString, heights: seq<U64>): map<U64, SigningRecord> {
    map h | h in heights && RecordKey(chainId, eotsPk, h) in records :: records[RecordKey(chainId, eotsPk, h)]
  }

  /** The keys that a rollback of (chainId, pk) from a height takes out. */
  predicate RolledBack(key: ByteString, chainId: ByteString, pk: ByteString, fromHeight: U64) {
    HasKeyPrefix(key, chainId, pk) && ExtractHeight(key).Some? && ExtractHeight(key).value >= fromHeight
  }

  function Rollback(records: Records, chainId: ByteString, pk: ByteString, fromHeight: U64): Records {
    map k | k in records && !RolledBack(k, chainId, pk, fromHeight) :: records[k]
  }

  /** The slot of (chainId, pk) at or above the height: what a rollback is meant to take out. */
  ghost predicate OwnSlotFrom(key: ByteString, chainId: ByteString, pk: ByteString, fromHeight: U64) {
    exists h: U64 :: h >= fromHeight && key == RecordKey(chainId, pk, h)
  }

  lemma OwnSlotRolledBack(key: ByteString, chainId: ByteString, pk: ByteString, fromHeight: U64)
    requires |pk| == PK_LEN
    ensures RolledBack(key, chainId, pk, fromHeight) && !Foreign(key, chainId, pk) <==> OwnSlotFrom(key, chainId, pk, fromHeight)
  {
    HasKeyPrefixIsPrefix(key, chainId, pk);
    if HasKeyPrefix(key, chainId, pk) {
      PrefixedKey(key, chainId, pk);
    }
    forall h: U64 | key == RecordKey(chainId, pk, h)
      ensures HasKeyPrefix(key, chainId, pk) && ExtractHeight(key) == Some(h)
    {
      assert key == chainId + pk + U64ToBE(h);
    }
  }

  /** A rollback takes out exactly the slots of its chain and key at or above its height,
      whatever the height, if and only if the bucket holds no foreign key under its prefix. */
  lemma RollbackExact(records: Records, chainId: ByteString, pk: ByteString)
    requires |pk| == PK_LEN
    ensures (forall h: U64 :: Rollback(records, chainId, pk, h).Keys
                              == set k | k in records && !OwnSlotFrom(k, chainId, pk, h))
            <==> (forall k :: k in records ==> !Foreign(k, chainId, pk))
  {
    forall k, h: U64
      ensures RolledBack(k, chainId, pk, h) && !Foreign(k, chainId, pk) <==> OwnSlotFrom(k, chainId, pk, h)
    {
      OwnSlotRolledBack(k, chainId, pk, h);
    }
    if k :| k in records && Foreign(k, chainId, pk) {
      assert RolledBack(k, chainId, pk, 0) && !OwnSlotFrom(k, chainId, pk, 0);
      assert k in (set k' | k' in records && !OwnSlotFrom(k', chainId, pk, 0));
      assert k !in Rollback(records, chainId, pk, 0).Keys;
    }
  }

  /** A chain id can be chosen so that a rollback takes out another chain's record. */
  lemma RollbackCanHitAnotherChain(pk: ByteString, h: U64)
    requires |pk| == PK_LEN
    ensures var c: ByteString := [98];
            var c': ByteString := c + pk;
            && c' != c
            && RolledBack(RecordKey(c', pk, h), c, pk, 0)
  {
  }

  class EotsStore {
    var keyNames: map<ByteString, string>
    var signRecords: Records

    constructor ()
      ensures keyNames == map[] && signRecords == map[]
    {
      keyNames, signRecords := map[], map[];
    }

    method SaveSignRecord(height: U64, chainId: ByteString, msg: ByteString, publicKey: ByteString,
                          signature: ByteString, now: int, committed: bool)
      returns (r: Result<()>)
      modifies this`signRecords
      ensures r.Ok? <==> committed && RecordKey(chainId, publicKey, height) !in old(signRecords)
      ensures r.Ok? ==> signRecords == old(signRecords)[RecordKey(chainId, publicKey, height) := SigningRecord(msg, signature, now)]
      ensures r.Err? ==> signRecords == old(signRecords)
      ensures RecordKey(chainId, publicKey, height) in old(signRecords) ==> r == Err(DuplicateSignRecord)
    {
      var key := RecordKey(chainId, publicKey, height);
      if key in signRecords {
        return Err(DuplicateSignRecord);
      }
      if !committed {
        return Err(Database);
      }
      signRecords := signRecords[key := SigningRecord(msg, signature, now)];
      r := Ok(());
    }

    method GetSignRecord(eotsPk: ByteString, chainId: ByteString, height: U64) returns (r: Option<SigningRecord>)
      ensures r.Some? <==> RecordKey(chainId, eotsPk, height) in signRecords
      ensures r.Some? ==> r.value == signRecords[RecordKey(chainId, eotsPk, height)]
    {
      var key := RecordKey(chainId, eotsPk, height);
      if key in signRecords {
        r := Some(signRecords[key]);
      } else {
        r := None;
      }
    }

    method GetSignRecordsBatch(eotsPk: ByteString, chainId: ByteString, heights: seq<U64>)
      returns (results: map<U64, SigningRecord>)
      ensures forall h :: h in results <==> h in heights && RecordKey(chainId, eotsPk, h) in signRecords
      ensures forall h :: h in results ==> results[h] == signRecords[RecordKey(chainId, eotsPk, h)]
      ensures results == Lookup(signRecords, eotsPk, chainId, heights)
    {
      results := map[];
      for i := 0 to |heights|
        invariant results == Lookup(signRecords, eotsPk, chainId, heights[..i])
      {
        var key := RecordKey(chainId, eotsPk, heights[i]);
        if key in signRecords {
          results := results[heights[i] := signRecords[key]];
        }
        assert heights[..i + 1] == heights[..i] + [heights[i]];
      }
      assert heights[..|heights|] == heights;
    }

    method SaveSignRecordsBatch(records: seq<BatchSignRecord>, now: int, committed: bool) returns (r: Result<()>)
      modifies this`signRecords
      ensures r.Ok? <==> records == [] || (committed && Fresh(old(signRecords), Entries(records, now)))
      ensures r.Ok? ==> signRecords == PutAll(old(signRecords), Entries(records, now))
      ensures r.Err? ==> signRecords == old(signRecords)
    {
      if |records| == 0 {
        return Ok(());
      }
      var bucket := PutFresh(signRecords, Entries(records, now));
      if bucket.None? {
        return Err(DuplicateSignRecord);
      }
      if !committed {
        return Err(Database);
      }
      signRecords := bucket.value;
      r := Ok(());
    }

    method DeleteSignRecordsFromHeight(eotsPk: Option<ByteString>, chainId: Option<ByteString>, fromHeight: U64, committed: bool)
      returns (r: Result<()>)
      modifies this`signRecords
      ensures r.Ok? <==> && eotsPk.Some? && chainId.Some? && committed
                         && forall k :: k in old(signRecords) && HasKeyPrefix(k, chainId.value, eotsPk.value) ==> |k| >= 8
      ensures r.Ok? ==> signRecords == Rollback(old(signRecords), chainId.value, eotsPk.value, fromHeight)
      ensures r.Err? ==> signRecords == old(signRecords)
    {
      if eotsPk.None? || chainId.None? {
        return Err(NilArgument);
      }
      var pk, chain := eotsPk.value, chainId.value;
      var keysToDelete: seq<ByteString> := [];
      var rest := signRecords.Keys;
      while rest != {}
        invariant rest <= signRecords.Keys
        invariant forall k :: k in signRecords.Keys - rest && HasKeyPrefix(k, chain, pk) ==> |k| >= 8
        invariant forall k :: k in keysToDelete <==> k in signRecords.Keys - rest && RolledBack(k, chain, pk, fromHeight)
        decreases rest
      {
        var k :| k in rest;
        rest := rest - {k};
        if HasKeyPrefix(k, chain, pk) {
          var height := ExtractHeight(k);
          if height.None? {
            return Err(KeyTooShort);
          }
          if height.value >= fromHeight {
            keysToDelete := keysToDelete + [k];
          }
        }
      }
      var bucket := signRecords;
      for i := 0 to |keysToDelete|
        invariant bucket == map k | k in signRecords && k !in keysToDelete[..i] :: signRecords[k]
      {
        bucket := bucket - {keysToDelete[i]};
        assert keysToDelete[..i + 1] == keysToDelete[..i] + [keysToDelete[i]];
      }
      assert keysToDelete[..|keysToDelete|] == keysToDelete;
      if !committed {
        return Err(Database);
      }
      signRecords := bucket;
      r := Ok(());
    }
  }
}
