/** The cryptography the daemons build on, as uninterpreted functions, and the two
    loops over it: nonce derivation by rejection sampling, and randomness lists. */
module Crypto {
  import opened Bytes
  import opened Keys
  import opened Wrappers

  /** Order of the secp256k1 group. */
  const ORDER: nat := 0xFFFFFFFF_FFFFFFFF_FFFFFFFF_FFFFFFFE_BAAEDCE6_AF48A03B_BFD25E8C_D0364141

  type Scalar = x: int | 0 <= x < ORDER

  lemma OrderFits()
    ensures ORDER < Pow256(32)
  {
    assert Pow256(8) == U64_LIMIT;
    assert Pow256(12) == U64_LIMIT * U32_LIMIT;
    assert Pow256(16) == U64_LIMIT * U64_LIMIT;
    assert Pow256(20) == U64_LIMIT * U64_LIMIT * U32_LIMIT;
    assert Pow256(24) == U64_LIMIT * U64_LIMIT * U64_LIMIT;
    assert Pow256(28) == U64_LIMIT * U64_LIMIT * U64_LIMIT * U32_LIMIT;
  }

  /** ModNScalar.Bytes and PrivateKey.Serialize */
  function ScalarBytes(x: Scalar): (b: ByteString)
    ensures |b| == 32
    ensures SetByteSlice(b) == (x, false)
  {
    OrderFits();
    ToBE(x, 32)
  }

  /** ModNScalar.SetByteSlice: at most 32 bytes, reduced modulo the order, with the overflow flag. */
  function SetByteSlice(b: ByteString): (r: (Scalar, bool)) {
    var n := FromBE(if |b| > 32 then b[..32] else b);
    if n < ORDER then (n, false) else (n % ORDER, true)
  }

  /** The scalar is the number of the first 32 bytes modulo the order, and the flag says whether that number was too large. */
  lemma {:induction false} SetByteSliceReduces(b: ByteString)
    ensures var n := FromBE(if |b| > 32 then b[..32] else b);
            SetByteSlice(b).0 == n % ORDER && (SetByteSlice(b).1 <==> n >= ORDER)
  {
  }

  /** Every library primitive the source calls, assumed only to be deterministic. */
  datatype Suite = Suite(
    hmac: (ByteString, ByteString) -> ByteString,
    xOnlyPubKey: Scalar -> ByteString,
    pubRand: Scalar -> ByteString,
    eotsSign: (Scalar, Scalar, ByteString) -> Option<Scalar>,
    merkleRoot: seq<ByteString> -> ByteString,
    merkleProofs: seq<ByteString> -> seq<ByteString>)
  {
    /** What the libraries guarantee: key and proof-list lengths, and that rejection
        sampling meets an acceptable digest before its counter wraps around. */
    ghost predicate Lawful() {
      && (forall k: Scalar :: |xOnlyPubKey(k)| == PK_LEN)
      && (forall l: seq<ByteString> :: |merkleProofs(l)| == |l|)
      && (forall key: ByteString, chainId: ByteString, height: U64 :: SamplingEnds(this, key, chainId, height))
    }
  }

  function Repeat(x: ByteString, n: nat): (r: seq<ByteString>)
    ensures |r| == n
  {
    seq(n, _ => x)
  }

  /** A suite that meets the guarantees, so that they are not contradictory. */
  function SampleSuite(): (s: Suite)
    ensures s.Lawful()
  {
    var s := Suite((_, _) => [1], _ => ToBE(0, PK_LEN), _ => [], (_, _, _) => None, _ => [], l => Repeat([], |l|));
    assert FromBE([1]) == 1;
    assert forall key: ByteString, chainId: ByteString, height: U64 :: Accepts(s, key, chainId, height, 0) && SamplingEnds(s, key, chainId, height);
    s
  }

  type LawfulSuite = s: Suite | s.Lawful() witness SampleSuite()

  // ----- nonce derivation -----

  function Digest(s: Suite, key: ByteString, chainId: ByteString, height: U64, i: U64): ByteString {
    s.hmac(key, NonceInput(chainId, height, i))
  }

  /** The digest at iteration i neither overflows the group order nor is zero. */
  predicate Accepts(s: Suite, key: ByteString, chainId: ByteString, height: U64, i: U64) {
    var (x, overflow) := SetByteSlice(Digest(s, key, chainId, height, i));
    !overflow && x != 0
  }

  ghost predicate SamplingEnds(s: Suite, key: ByteString, chainId: ByteString, height: U64) {
    exists i: U64 :: Accepts(s, key, chainId, height, i)
  }

  ghost predicate FirstAccepted(s: Suite, key: ByteString, chainId: ByteString, height: U64, i: U64) {
    && Accepts(s, key, chainId, height, i)
    && forall j: U64 :: j < i ==> !Accepts(s, key, chainId, height, j)
  }

  lemma {:induction false} FirstAcceptedExists(s: Suite, key: ByteString, chainId: ByteString, height: U64, i: U64)
    requires Accepts(s, key, chainId, height, i)
    ensures exists j: U64 :: FirstAccepted(s, key, chainId, height, j)
    decreases i
  {
    if j: U64 :| j < i && Accepts(s, key, chainId, height, j) {
      FirstAcceptedExists(s, key, chainId, height, j);
    } else {
      assert FirstAccepted(s, key, chainId, height, i);
    }
  }

  /** The iteration whose digest becomes the nonce. */
  ghost function NonceIteration(s: LawfulSuite, priv: Scalar, chainId: ByteString, height: U64): (i: U64)
    ensures FirstAccepted(s, ScalarBytes(priv), chainId, height, i)
  {
    assert SamplingEnds(s, ScalarBytes(priv), chainId, height);
    var w: U64 :| Accepts(s, ScalarBytes(priv), chainId, height, w);
    FirstAcceptedExists(s, ScalarBytes(priv), chainId, height, w);
    var i: U64 :| FirstAccepted(s, ScalarBytes(priv), chainId, height, i);
    i
  }

  /** The private nonce of a slot. */
  ghost function Nonce(s: LawfulSuite, priv: Scalar, chainId: ByteString, height: U64): (x: Scalar)
    ensures x != 0
  {
    SetByteSlice(Digest(s, ScalarBytes(priv), chainId, height, NonceIteration(s, priv, chainId, height))).0
  }

  /** The public randomness of a slot. */
  ghost function PubRandAt(s: LawfulSuite, priv: Scalar, chainId: ByteString, height: U64): ByteString {
    s.pubRand(Nonce(s, priv, chainId, height))
  }

  /** The nonce is the first digest that neither overflows the group order nor is zero. */
  lemma NonceIsFirstAccepted(s: LawfulSuite, priv: Scalar, chainId: ByteString, height: U64, i: U64)
    requires var (x, overflow) := SetByteSlice(s.hmac(ScalarBytes(priv), NonceInput(chainId, height, i))); !overflow && x != 0
    requires forall j: U64 :: j < i ==>
               var (x, overflow) := SetByteSlice(s.hmac(ScalarBytes(priv), NonceInput(chainId, height, j))); overflow || x == 0
    ensures Nonce(s, priv, chainId, height) != 0
    ensures Nonce(s, priv, chainId, height) == SetByteSlice(s.hmac(ScalarBytes(priv), NonceInput(chainId, height, i))).0
  {
    hide SetByteSlice, ScalarBytes, NonceInput;
    var key, first := ScalarBytes(priv), NonceIteration(s, priv, chainId, height);
    assert Accepts(s, key, chainId, height, i) && Accepts(s, key, chainId, height, first);
    assert first == i;
  }

  /** GenerateRandomness: sample until the digest is a valid nonzero scalar. */
  method GenerateRandomness(s: LawfulSuite, priv: Scalar, chainId: ByteString, height: U64)
    returns (privRand: Scalar, pubRand: ByteString)
    ensures privRand == Nonce(s, priv, chainId, height)
    ensures pubRand == PubRandAt(s, priv, chainId, height)
  {
    hide SetByteSlice, ScalarBytes, NonceInput;
    var key := ScalarBytes(priv);
    ghost var first := NonceIteration(s, priv, chainId, height);
    var iteration: U64 := 0;
    var (x, overflow) := SetByteSlice(s.hmac(key, NonceInput(chainId, height, iteration)));
    while overflow || x == 0
      invariant iteration <= first
      invariant (x, overflow) == SetByteSlice(Digest(s, key, chainId, height, iteration))
      invariant forall j: U64 :: j < iteration ==> !Accepts(s, key, chainId, height, j)
      decreases first - iteration
    {
      iteration := iteration + 1;
      var r := SetByteSlice(s.hmac(key, NonceInput(chainId, height, iteration)));
      x, overflow := r.0, r.1;
    }
    assert FirstAccepted(s, key, chainId, height, iteration);
    privRand := x;
    pubRand := s.pubRand(x);
  }

  /** The height of entry i of a list that starts at `start` and steps by `interval`. */
  function HeightAt(start: U64, interval: U64, i: nat): U64 {
    (start + i * interval) % U64_LIMIT
  }

  /** Every entry lies one interval, in 64-bit arithmetic, above the one before. */
  lemma HeightAtSteps(start: U64, interval: U64, i: nat)
    ensures HeightAt(start, interval, 0) == start
    ensures HeightAt(start, interval, i + 1) == Add64(HeightAt(start, interval, i), interval)
  {
    var x := start + i * interval;
    assert start + (i + 1) * interval == x + interval;
    assert x == (x / U64_LIMIT) * U64_LIMIT + x % U64_LIMIT;
    WrapOnce(x / U64_LIMIT, x % U64_LIMIT, interval);
  }

  lemma WrapOnce(q: nat, r: U64, y: U64)
    ensures (q * U64_LIMIT + r + y) % U64_LIMIT == Add64(r, y)
  {
    if r + y < U64_LIMIT {
      Remainder(q, r + y);
    } else {
      assert q * U64_LIMIT + r + y == (q + 1) * U64_LIMIT + (r + y - U64_LIMIT);
      Remainder(q + 1, r + y - U64_LIMIT);
    }
  }

  lemma Remainder(q: nat, r: U64)
    ensures (q * U64_LIMIT + r) % U64_LIMIT == r
  {
  }

  lemma HeightAtPlain(start: U64, i: nat)
    requires start + i < U64_LIMIT
    ensures HeightAt(start, 1, i) == start + i
  {
  }

  /** Public randomness of `num` consecutive heights. */
  ghost function PubRands(s: LawfulSuite, priv: Scalar, chainId: ByteString, start: U64, num: nat): (l: seq<ByteString>)
    ensures |l| == num
    ensures forall i :: 0 <= i < num ==> l[i] == PubRandAt(s, priv, chainId, HeightAt(start, 1, i))
  {
    seq(num, i requires 0 <= i < num => PubRandAt(s, priv, chainId, HeightAt(start, 1, i)))
  }

  /** CreateRandomnessPairList once the key is at hand; no interval means consecutive heights. */
  method CreateRandomnessPairList(s: LawfulSuite, key: Result<Scalar>, chainId: ByteString,
                                  startHeight: U64, num: U32, interval: Option<U64>)
    returns (r: Result<seq<ByteString>>)
    ensures r.Err? <==> interval == Some(0) || key.Err?
    ensures interval == Some(0) ==> r == Err(ZeroInterval)
    ensures interval != Some(0) && key.Err? ==> r == Err(key.error)
    ensures r.Ok? ==> |r.value| == num
    ensures r.Ok? ==> forall i :: 0 <= i < num ==>
                        r.value[i] == PubRandAt(s, key.value, chainId, HeightAt(startHeight, if interval.Some? then interval.value else 1, i))
    ensures r.Ok? && interval.None? ==> r.value == PubRands(s, key.value, chainId, startHeight, num)
  {
    hide PubRandAt, HeightAt;
    if interval == Some(0) {
      return Err(ZeroInterval);
    }
    if key.Err? {
      return Err(key.error);
    }
    var step := if interval.Some? then interval.value else 1;
    var list := [];
    for i := 0 to num
      invariant |list| == i
      invariant forall j :: 0 <= j < i ==> list[j] == PubRandAt(s, key.value, chainId, HeightAt(startHeight, step, j))
    {
      var _, pubRand := GenerateRandomness(s, key.value, chainId, HeightAt(startHeight, step, i));
      list := list + [pubRand];
    }
    r := Ok(list);
  }
}
