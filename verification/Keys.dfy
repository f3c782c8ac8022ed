/** The byte layouts that identify a signing slot: record keys, nonce-derivation
    inputs and the messages that are signed. */
module Keys {
  import opened Bytes
  import opened Wrappers

  /** Length of an x-only public key (BIP-340, "Public Key Generation"). */
  const PK_LEN: nat := 32

  /** chainID || pk || height, in the sign-record bucket and in the proof bucket */
  function RecordKey(chainId: ByteString, pk: ByteString, height: U64): (key: ByteString)
    ensures |key| == |chainId| + |pk| + 8
    ensures key[|key| - 8..] == U64ToBE(height)
    ensures key[..|key| - 8] == chainId + pk
  {
    chainId + pk + U64ToBE(height)
  }

  /** height || chainID || iteration, the message under the nonce HMAC */
  function NonceInput(chainId: ByteString, height: U64, iteration: U64): ByteString {
    U64ToBE(height) + chainId + U64ToBE(iteration)
  }

  /** The bytes signed for a block; an empty context adds nothing. */
  function MsgToSign(signCtx: ByteString, height: U64, hash: ByteString): ByteString {
    if signCtx == [] then U64ToBE(height) + hash else signCtx + (U64ToBE(height) + hash)
  }

  /** hasKeyPrefix: the key starts with chainID and then pk. */
  predicate HasKeyPrefix(key: ByteString, chainId: ByteString, pk: ByteString) {
    && |key| >= |chainId| + |pk|
    && key[..|chainId|] == chainId
    && key[|chainId|..|chainId| + |pk|] == pk
  }

  /** ExtractHeightFromKey: the last eight bytes. */
  function ExtractHeight(key: ByteString): (r: Option<U64>)
    ensures r.None? <==> |key| < 8
    ensures forall p: ByteString, h: U64 :: key == p + U64ToBE(h) ==> r == Some(h)
  {
    if |key| < 8 then None else
      assert forall p: ByteString, h: U64 :: key == p + U64ToBE(h) ==> key[|key| - 8..] == U64ToBE(h);
      Some(U64FromBE(key[|key| - 8..]))
  }

  lemma U64ToBEInjective(a: U64, b: U64)
    ensures U64ToBE(a) == U64ToBE(b) <==> a == b
  {
    assert FromBE(U64ToBE(a)) == a && FromBE(U64ToBE(b)) == b;
  }

  /** Two keys coincide exactly when the heights do and the two leading parts run
      together to the same bytes; where the chain id ends is not encoded. */
  lemma RecordKeysEqual(c1: ByteString, p1: ByteString, h1: U64, c2: ByteString, p2: ByteString, h2: U64)
    ensures RecordKey(c1, p1, h1) == RecordKey(c2, p2, h2) <==> c1 + p1 == c2 + p2 && h1 == h2
  {
  }

  /** Keys of different lengths can share a record key. */
  lemma RecordKeyIsAmbiguous(h: U64)
    ensures RecordKey([98], [99, 100], h) == RecordKey([98, 99], [100], h)
  {
    RecordKeysEqual([98], [99, 100], h, [98, 99], [100], h);
  }

  /** With public keys of one length, as BIP-340 keys are, a record key names one slot. */
  lemma RecordKeyInjective(c1: ByteString, p1: ByteString, h1: U64, c2: ByteString, p2: ByteString, h2: U64)
    requires |p1| == |p2|
    ensures RecordKey(c1, p1, h1) == RecordKey(c2, p2, h2) <==> c1 == c2 && p1 == p2 && h1 == h2
  {
    RecordKeysEqual(c1, p1, h1, c2, p2, h2);
    if c1 + p1 == c2 + p2 {
      assert |c1| == |c2|;
      assert (c1 + p1)[..|c1|] == c1 && (c2 + p2)[..|c1|] == c2;
      assert (c1 + p1)[|c1|..] == p1 && (c2 + p2)[|c1|..] == p2;
    }
  }

  /** The nonce input encodes its three parts without ambiguity, for every chain id. */
  lemma NonceInputInjective(c1: ByteString, h1: U64, i1: U64, c2: ByteString, h2: U64, i2: U64)
    ensures NonceInput(c1, h1, i1) == NonceInput(c2, h2, i2) <==> c1 == c2 && h1 == h2 && i1 == i2
  {
    var n1, n2 := NonceInput(c1, h1, i1), NonceInput(c2, h2, i2);
    U64ToBEInjective(h1, h2);
    U64ToBEInjective(i1, i2);
    assert n1[..8] == U64ToBE(h1) && n2[..8] == U64ToBE(h2);
    assert n1[8..|n1| - 8] == c1 && n2[8..|n2| - 8] == c2;
    assert n1[|n1| - 8..] == U64ToBE(i1) && n2[|n2| - 8..] == U64ToBE(i2);
  }

  /** For one public key, record slots and nonce-derivation inputs correspond one to one. */
  lemma SlotsAreNonceSources(pk: ByteString, c1: ByteString, h1: U64, c2: ByteString, h2: U64, i: U64)
    ensures RecordKey(c1, pk, h1) == RecordKey(c2, pk, h2) <==> NonceInput(c1, h1, i) == NonceInput(c2, h2, i)
  {
    RecordKeyInjective(c1, pk, h1, c2, pk, h2);
    NonceInputInjective(c1, h1, i, c2, h2, i);
  }

  /** The bytes of a nonce input: eight for the height, the chain id, eight for the iteration. */
  lemma NonceInputLayout(chainId: ByteString, height: U64, iteration: U64)
    ensures var n := NonceInput(chainId, height, iteration);
            && |n| == 8 + |chainId| + 8
            && n[..8] == U64ToBE(height) && n[8..8 + |chainId|] == chainId && n[8 + |chainId|..] == U64ToBE(iteration)
  {
  }

  /** The bytes of a message: the context, eight for the height, the hash. */
  lemma MsgToSignLayout(signCtx: ByteString, height: U64, hash: ByteString)
    ensures var m := MsgToSign(signCtx, height, hash);
            var c := |signCtx|;
            && |m| == c + 8 + |hash|
            && m[..c] == signCtx && m[c..c + 8] == U64ToBE(height) && m[c + 8..] == hash
  {
  }

  /** Under one context, equal messages mean the same block. */
  lemma MsgToSignInjective(signCtx: ByteString, h1: U64, hash1: ByteString, h2: U64, hash2: ByteString)
    ensures MsgToSign(signCtx, h1, hash1) == MsgToSign(signCtx, h2, hash2) <==> h1 == h2 && hash1 == hash2
  {
    hide MsgToSign;
    U64ToBEInjective(h1, h2);
    MsgToSignLayout(signCtx, h1, hash1);
    MsgToSignLayout(signCtx, h2, hash2);
  }

  lemma HasKeyPrefixIsPrefix(key: ByteString, chainId: ByteString, pk: ByteString)
    ensures HasKeyPrefix(key, chainId, pk) <==> chainId + pk <= key
  {
  }

  /** Two chain ids neither of which extends the other. */
  predicate PrefixFree(c1: ByteString, c2: ByteString) {
    c1 == c2 || (!(c1 <= c2) && !(c2 <= c1))
  }

  /** A key under the prefix of (chainId, pk) that belongs to another slot. */
  predicate Foreign(key: ByteString, chainId: ByteString, pk: ByteString) {
    HasKeyPrefix(key, chainId, pk) && |key| != |chainId| + |pk| + 8
  }

  /** A key under the prefix of (chainId, pk) belongs to that pair or is foreign. */
  lemma PrefixedKey(key: ByteString, chainId: ByteString, pk: ByteString)
    requires HasKeyPrefix(key, chainId, pk)
    ensures !Foreign(key, chainId, pk) <==> exists h: U64 :: key == RecordKey(chainId, pk, h)
  {
    HasKeyPrefixIsPrefix(key, chainId, pk);
    if !Foreign(key, chainId, pk) {
      var n := |key| - 8;
      assert key == key[..n] + key[n..];
      assert key == RecordKey(chainId, pk, U64FromBE(key[n..]));
    }
  }

  /** Prefix-free chain ids exclude foreign keys. */
  lemma PrefixFreeExcludesForeign(chainId: ByteString, pk: ByteString, c: ByteString, p: ByteString, h: U64)
    requires |pk| == |p|
    requires PrefixFree(chainId, c)
    requires HasKeyPrefix(RecordKey(c, p, h), chainId, pk)
    ensures chainId == c && pk == p
  {
  }
}
