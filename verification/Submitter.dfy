/** Voting: which blocks are voted on, how a vote is put together, and how a submission is retried. */
module Submitter {
  import opened Bytes
  import opened Keys
  import opened Lists
  import opened Wrappers
  import opened Crypto
  import opened EotsStore
  import opened EotsManager
  import opened ProofStore
  import opened Committer
  import opened FpState
  import opened Poller

  datatype Vote = Vote(block: Block, pubRand: ByteString, proof: ByteString, sig: Scalar)

  // ----- filtering -----

  /** The block is above the last voted height and the chain grants voting power there. */
  predicate Eligible(b: Block, lastVoted: U64, power: U64 -> Result<bool>) {
    b.height > lastVoted && power(b.height) == Ok(true)
  }

  function EligibleBlocks(blocks: seq<Block>, lastVoted: U64, power: U64 -> Result<bool>): seq<Block> {
    if blocks == [] then [] else
      var b := blocks[|blocks| - 1];
      EligibleBlocks(blocks[..|blocks| - 1], lastVoted, power) + (if Eligible(b, lastVoted, power) then [b] else [])
  }

  predicate Ascending(blocks: seq<Block>) {
    forall i, j :: 0 <= i < j < |blocks| ==> blocks[i].height < blocks[j].height
  }

  /** The block at a position, if it is above the last voted height and the chain grants power there. */
  ghost function EligibleAt(blocks: seq<Block>, lastVoted: U64, power: U64 -> Result<bool>): nat -> Option<Block> {
    (i: nat) =>
      if i < |blocks| && blocks[i].height > lastVoted && power(blocks[i].height) == Ok(true) then Some(blocks[i]) else None
  }

  /** Filtering keeps exactly the eligible blocks, each once and in order, so an ascending order stays ascending. */
  lemma {:induction false} EligibleBlocksAre(blocks: seq<Block>, lastVoted: U64, power: U64 -> Result<bool>)
    ensures Picks(|blocks|, EligibleAt(blocks, lastVoted, power), EligibleBlocks(blocks, lastVoted, power))
    ensures forall b :: b in EligibleBlocks(blocks, lastVoted, power) <==> b in blocks && Eligible(b, lastVoted, power)
    ensures Ascending(blocks) ==> Ascending(EligibleBlocks(blocks, lastVoted, power))
    decreases |blocks|
  {
    hide Picks;
    var at := EligibleAt(blocks, lastVoted, power);
    if blocks == [] {
      PicksNothing(at);
    } else {
      var n := |blocks| - 1;
      EligibleBlocksAre(blocks[..n], lastVoted, power);
      assert blocks == blocks[..n] + [blocks[n]];
      var kept := EligibleBlocks(blocks[..n], lastVoted, power);
      PicksSame(n, EligibleAt(blocks[..n], lastVoted, power), at, kept);
      PicksOneMore(n, at, kept);
      assert kept + [] == kept;
      forall i | 0 <= i < |kept| && Ascending(blocks) ensures kept[i].height < blocks[n].height {
        assert kept[i] in blocks[..n];
      }
    }
  }

  // ----- putting votes together -----

  function Requests(blocks: seq<Block>): (reqs: seq<SignRequest>)
    ensures |reqs| == |blocks|
    ensures forall i :: 0 <= i < |blocks| ==>
              reqs[i] == SignRequest(MsgToSign([], blocks[i].height, blocks[i].hash), blocks[i].height)
  {
    seq(|blocks|, i requires 0 <= i < |blocks| =>
          SignRequest(MsgToSign([], blocks[i].height, blocks[i].hash), blocks[i].height))
  }

  /** Signatures by height. */
  function SigMap(responses: seq<SignResponse>): map<U64, Scalar> {
    if responses == [] then map[] else
      var r := responses[|responses| - 1];
      SigMap(responses[..|responses| - 1])[r.height := r.signature]
  }

  /** Blocks with their randomness, proof and signature; a block without a signature is left out. */
  function Zip(blocks: seq<Block>, rands: seq<ByteString>, proofs: seq<ByteString>, sigs: map<U64, Scalar>): seq<Vote>
    requires |rands| == |proofs| == |blocks|
    decreases |blocks|
  {
    if blocks == [] then [] else
      var n := |blocks| - 1;
      Zip(blocks[..n], rands[..n], proofs[..n], sigs)
      + (if blocks[n].height in sigs then [Vote(blocks[n], rands[n], proofs[n], sigs[blocks[n].height])] else [])
  }

  /** The vote at a position of the lists, if the block there has a signature. */
  ghost function VoteAt(blocks: seq<Block>, rands: seq<ByteString>, proofs: seq<ByteString>, sigs: map<U64, Scalar>): nat -> Option<Vote>
    requires |rands| == |proofs| == |blocks|
  {
    (i: nat) =>
      if i < |blocks| && blocks[i].height in sigs then Some(Vote(blocks[i], rands[i], proofs[i], sigs[blocks[i].height])) else None
  }

  /** The votes are those of the positions whose block has a signature, each once and in order. */
  lemma {:induction false} ZipIsByPosition(blocks: seq<Block>, rands: seq<ByteString>, proofs: seq<ByteString>, sigs: map<U64, Scalar>)
    requires |rands| == |proofs| == |blocks|
    ensures Picks(|blocks|, VoteAt(blocks, rands, proofs, sigs), Zip(blocks, rands, proofs, sigs))
    decreases |blocks|
  {
    hide Picks;
    var at := VoteAt(blocks, rands, proofs, sigs);
    if blocks == [] {
      PicksNothing(at);
    } else {
      var n := |blocks| - 1;
      var votes := Zip(blocks[..n], rands[..n], proofs[..n], sigs);
      ZipIsByPosition(blocks[..n], rands[..n], proofs[..n], sigs);
      PicksSame(n, VoteAt(blocks[..n], rands[..n], proofs[..n], sigs), at, votes);
      PicksOneMore(n, at, votes);
      assert votes + [] == votes;
    }
  }

  lemma ZipMembers(blocks: seq<Block>, rands: seq<ByteString>, proofs: seq<ByteString>, sigs: map<U64, Scalar>, v: Vote)
    requires |rands| == |proofs| == |blocks|
    ensures v in Zip(blocks, rands, proofs, sigs) <==>
              exists i :: && 0 <= i < |blocks| && blocks[i].height in sigs
                          && v == Vote(blocks[i], rands[i], proofs[i], sigs[blocks[i].height])
  {
    hide Picks, Zip;
    var at, votes := VoteAt(blocks, rands, proofs, sigs), Zip(blocks, rands, proofs, sigs);
    ZipIsByPosition(blocks, rands, proofs, sigs);
    PicksMembers(|blocks|, at, votes, v);
    assert forall i: nat :: i < |blocks| ==>
        (at(i) == Some(v) <==> blocks[i].height in sigs && v == Vote(blocks[i], rands[i], proofs[i], sigs[blocks[i].height]));
  }

  // ----- one attempt -----

  /** The proofs of `n` heights counted from the first block of the batch. */
  ghost predicate HasProofs(p: Provider, proofs: Proofs, start: U64, n: nat) {
    forall i :: 0 <= i < n ==> p.Key(HeightAt(start, 1, i)) in proofs
  }

  ghost function ProofsFrom(p: Provider, proofs: Proofs, start: U64, n: nat): (l: seq<ByteString>)
    requires HasProofs(p, proofs, start, n)
    ensures |l| == n
    ensures forall i :: 0 <= i < n ==> l[i] == proofs[p.Key(HeightAt(start, 1, i))]
  {
    seq(n, i requires 0 <= i < n => proofs[p.Key(HeightAt(start, 1, i))])
  }

  lemma HasProofsMeans(p: Provider, proofs: Proofs, start: U64, n: nat)
    ensures HasProofs(p, proofs, start, n) <==> forall i :: 0 <= i < n ==> RecordKey(p.chainId, p.pk, HeightAt(start, 1, i)) in proofs
  {
    hide RecordKey, HeightAt;
  }

  lemma FetchedProofs(p: Provider, proofs: Proofs, start: U64, n: nat, list: seq<ByteString>)
    requires HasProofs(p, proofs, start, n) && |list| == n
    requires forall i :: 0 <= i < n ==> list[i] == proofs[RecordKey(p.chainId, p.pk, HeightAt(start, 1, i))]
    ensures list == ProofsFrom(p, proofs, start, n)
  {
    hide RecordKey, HeightAt;
  }

  /** The votes an attempt offers to the chain, and the sign records it leaves. Randomness and proofs
      are fetched for consecutive heights from the first block on. */
  ghost function BatchVotes(p: Provider, proofs: Proofs, records: Records, blocks: seq<Block>, now: int, committed: bool): Outcome<seq<Vote>>
    requires blocks != []
  {
    var start, n := blocks[0].height, |blocks|;
    if !HasProofs(p, proofs, start, n) then Outcome(records, Err(ProofNotFound))
    else
      var o := SignBatch(p.suite, records, Ok(p.priv), p.pk, p.chainId, Requests(blocks), now, committed);
      if o.result.Err? then Outcome(o.records, Err(o.result.error))
      else Outcome(o.records, Ok(Zip(blocks, p.Rands(start, n), ProofsFrom(p, proofs, start, n), SigMap(o.result.value))))
  }

  lemma CommitFlagIrrelevant(s: LawfulSuite, records: Records, key: Result<Scalar>, pk: ByteString, chainId: ByteString,
                             reqs: seq<SignRequest>, now: int, committed: bool)
    requires SignBatch(s, records, key, pk, chainId, reqs, now, committed).result.Ok?
    ensures SignBatch(s, records, key, pk, chainId, reqs, now, committed) == SignBatch(s, records, key, pk, chainId, reqs, now, true)
  {
    hide Plan, Lookup;
  }

  /** Once an attempt has got its signatures, every later attempt offers the same votes and changes no
      record, as long as the records of the first and the proofs are kept. */
  lemma AttemptRepeats(p: Provider, proofs: Proofs, records: Records, later: Records, blocks: seq<Block>,
                       now: int, committed: bool, now': int, committed': bool)
    requires blocks != [] && BatchVotes(p, proofs, records, blocks, now, committed).result.Ok?
    requires Extends(BatchVotes(p, proofs, records, blocks, now, committed).records, later)
    ensures BatchVotes(p, proofs, later, blocks, now', committed')
            == Outcome(later, BatchVotes(p, proofs, records, blocks, now, committed).result)
  {
    hide SignBatch, PubRands, RecordKey, HeightAt, Zip, SigMap, Extends, HasProofs, Requests;
    var reqs := Requests(blocks);
    CommitFlagIrrelevant(p.suite, records, Ok(p.priv), p.pk, p.chainId, reqs, now, committed);
    BatchRepeats(p.suite, records, later, p.priv, p.priv, p.pk, p.chainId, reqs, now, now', committed');
  }

  /** A batch in which a height occurs twice is never voted on: signing refuses it every time. */
  lemma RepeatedHeightIsNeverVoted(p: Provider, proofs: Proofs, records: Records, blocks: seq<Block>, now: int, committed: bool, i: nat, j: nat)
    requires i < j < |blocks| && blocks[i].height == blocks[j].height
    ensures BatchVotes(p, proofs, records, blocks, now, committed).result.Err?
    ensures BatchVotes(p, proofs, records, blocks, now, committed).records == records
  {
    hide PubRands, RecordKey, HeightAt, Zip, SigMap, HasProofs, Plan, Lookup;
    assert Requests(blocks)[i].height == Requests(blocks)[j].height;
    assert !DistinctHeights(Requests(blocks));
  }

  // ----- alignment -----

  /** The randomness that an attempt puts at position i belongs to the height of block i exactly if that
      height is the first one plus i, provided different heights have different randomness. */
  lemma AlignedIffConsecutive(p: Provider, blocks: seq<Block>, i: nat)
    requires i < |blocks| && blocks[0].height + i < U64_LIMIT
    requires forall h1: U64, h2: U64 :: h1 != h2 ==>
               PubRandAt(p.suite, p.priv, p.chainId, h1) != PubRandAt(p.suite, p.priv, p.chainId, h2)
    ensures p.Rands(blocks[0].height, |blocks|)[i] == PubRandAt(p.suite, p.priv, p.chainId, blocks[i].height)
            <==> blocks[i].height == blocks[0].height + i
  {
    hide PubRandAt;
    assert HeightAt(blocks[0].height, 1, i) == blocks[0].height + i;
  }

  /** The vote at position i of the batch, as an attempt puts it together. */
  ghost predicate MadeAt(p: Provider, proofs: Proofs, blocks: seq<Block>, sigs: map<U64, Scalar>, i: nat, v: Vote)
    requires i < |blocks|
  {
    var h := HeightAt(blocks[0].height, 1, i);
    && v.block == blocks[i]
    && v.pubRand == PubRandAt(p.suite, p.priv, p.chainId, h)
    && p.Key(h) in proofs && v.proof == proofs[p.Key(h)]
    && v.block.height in sigs && v.sig == sigs[v.block.height]
  }

  /** Every vote of an attempt is the one of some position. */
  lemma VoteHasPosition(p: Provider, proofs: Proofs, records: Records, blocks: seq<Block>, now: int, committed: bool, v: Vote)
    returns (i: nat)
    requires blocks != [] && BatchVotes(p, proofs, records, blocks, now, committed).result.Ok?
    requires v in BatchVotes(p, proofs, records, blocks, now, committed).result.value
    ensures i < |blocks|
    ensures SignBatch(p.suite, records, Ok(p.priv), p.pk, p.chainId, Requests(blocks), now, committed).result.Ok?
    ensures MadeAt(p, proofs, blocks,
                   SigMap(SignBatch(p.suite, records, Ok(p.priv), p.pk, p.chainId, Requests(blocks), now, committed).result.value), i, v)
  {
    hide SignBatch, RecordKey, PubRandAt, Zip, SigMap, Requests, HeightAt;
    var start, n := blocks[0].height, |blocks|;
    var o := SignBatch(p.suite, records, Ok(p.priv), p.pk, p.chainId, Requests(blocks), now, committed);
    var sigs := SigMap(o.result.value);
    ZipMembers(blocks, p.Rands(start, n), ProofsFrom(p, proofs, start, n), sigs, v);
    i :| && 0 <= i < n && blocks[i].height in sigs
         && v == Vote(blocks[i], p.Rands(start, n)[i], ProofsFrom(p, proofs, start, n)[i], sigs[blocks[i].height]);
  }

  /** In a batch of consecutive heights, every vote carries the randomness and the proof of its own
      height, also after blocks without a signature have been dropped. */
  lemma ConsecutiveVotesAligned(p: Provider, proofs: Proofs, records: Records, blocks: seq<Block>, now: int, committed: bool, v: Vote)
    requires blocks != [] && Consecutive(blocks, blocks[0].height)
    requires BatchVotes(p, proofs, records, blocks, now, committed).result.Ok?
    requires v in BatchVotes(p, proofs, records, blocks, now, committed).result.value
    ensures v.block in blocks
    ensures v.pubRand == PubRandAt(p.suite, p.priv, p.chainId, v.block.height)
    ensures p.Key(v.block.height) in proofs && v.proof == proofs[p.Key(v.block.height)]
  {
    hide BatchVotes, SignBatch, RecordKey, PubRandAt, SigMap, Requests, HeightAt;
    var i := VoteHasPosition(p, proofs, records, blocks, now, committed, v);
    HeightAtPlain(blocks[0].height, i);
  }

  /** The vote that belongs at a position of the batch, given the signatures by height: the block there, and the randomness
      and the proof of the first height plus the position. */
  ghost function MadeVoteAt(p: Provider, proofs: Proofs, blocks: seq<Block>, sigs: map<U64, Scalar>): nat -> Option<Vote>
    requires blocks != []
  {
    (i: nat) =>
      var h := HeightAt(blocks[0].height, 1, i);
      if i < |blocks| && blocks[i].height in sigs && p.Key(h) in proofs
      then Some(Vote(blocks[i], PubRandAt(p.suite, p.priv, p.chainId, h), proofs[p.Key(h)], sigs[blocks[i].height]))
      else None
  }

  /** The votes that an attempt offers are those of the positions whose block got a signature, each once and in the
      order of the batch; there is no other such list. */
  lemma VotesInOrder(p: Provider, proofs: Proofs, records: Records, blocks: seq<Block>, now: int, committed: bool)
    requires blocks != [] && BatchVotes(p, proofs, records, blocks, now, committed).result.Ok?
    ensures SignBatch(p.suite, records, Ok(p.priv), p.pk, p.chainId, Requests(blocks), now, committed).result.Ok?
    ensures var sigs := SigMap(SignBatch(p.suite, records, Ok(p.priv), p.pk, p.chainId, Requests(blocks), now, committed).result.value);
            Picks(|blocks|, MadeVoteAt(p, proofs, blocks, sigs), BatchVotes(p, proofs, records, blocks, now, committed).result.value)
  {
    hide SignBatch, RecordKey, PubRandAt, Zip, SigMap, Requests, HeightAt, Picks;
    var start, n := blocks[0].height, |blocks|;
    var sigs := SigMap(SignBatch(p.suite, records, Ok(p.priv), p.pk, p.chainId, Requests(blocks), now, committed).result.value);
    var rands, list := p.Rands(start, n), ProofsFrom(p, proofs, start, n);
    ZipIsByPosition(blocks, rands, list, sigs);
    PicksSame(n, VoteAt(blocks, rands, list, sigs), MadeVoteAt(p, proofs, blocks, sigs), Zip(blocks, rands, list, sigs));
  }

  /** For ascending blocks, the votes offered have strictly ascending heights, so none is offered twice. */
  lemma VotesAscend(p: Provider, proofs: Proofs, records: Records, blocks: seq<Block>, now: int, committed: bool, a: nat, b: nat)
    requires blocks != [] && Ascending(blocks) && BatchVotes(p, proofs, records, blocks, now, committed).result.Ok?
    requires a < b < |BatchVotes(p, proofs, records, blocks, now, committed).result.value|
    ensures var votes := BatchVotes(p, proofs, records, blocks, now, committed).result.value;
            votes[a].block.height < votes[b].block.height
  {
    hide BatchVotes, SignBatch, RecordKey, PubRandAt, SigMap, Requests, HeightAt, Picks;
    VotesInOrder(p, proofs, records, blocks, now, committed);
    var sigs := SigMap(SignBatch(p.suite, records, Ok(p.priv), p.pk, p.chainId, Requests(blocks), now, committed).result.value);
    var votes := BatchVotes(p, proofs, records, blocks, now, committed).result.value;
    var i, j := PicksInOrder(|blocks|, MadeVoteAt(p, proofs, blocks, sigs), votes, a, b);
    assert votes[a].block == blocks[i] && votes[b].block == blocks[j];
  }

  /** No ineligible block lies between two eligible ones. */
  ghost predicate PowerUnbroken(blocks: seq<Block>, lastVoted: U64, power: U64 -> Result<bool>) {
    forall i, j, k :: 0 <= i < j < k < |blocks| && Eligible(blocks[i], lastVoted, power) && Eligible(blocks[k], lastVoted, power) ==>
                        Eligible(blocks[j], lastVoted, power)
  }

  lemma ConsecutiveMeansUnbroken(blocks: seq<Block>, lastVoted: U64, power: U64 -> Result<bool>, i: nat, j: nat, k: nat)
    requires blocks != [] && Consecutive(blocks, blocks[0].height)
    requires EligibleBlocks(blocks, lastVoted, power) != []
    requires Consecutive(EligibleBlocks(blocks, lastVoted, power), EligibleBlocks(blocks, lastVoted, power)[0].height)
    requires i < j < k < |blocks| && Eligible(blocks[i], lastVoted, power) && Eligible(blocks[k], lastVoted, power)
    ensures Eligible(blocks[j], lastVoted, power)
  {
    hide EligibleBlocks, EligibleAt, Picks, Eligible;
    var kept := EligibleBlocks(blocks, lastVoted, power);
    EligibleBlocksAre(blocks, lastVoted, power);
    var a :| 0 <= a < |kept| && kept[a] == blocks[i];
    var c :| 0 <= c < |kept| && kept[c] == blocks[k];
    var b := kept[a + (j - i)];
    assert b in kept && b.height == blocks[j].height;
    var m :| 0 <= m < |blocks| && blocks[m] == b;
    assert m == j;
  }

  lemma UnbrokenBetween(blocks: seq<Block>, lastVoted: U64, power: U64 -> Result<bool>, i: nat, j: nat, k: nat)
    requires PowerUnbroken(blocks, lastVoted, power) && i < j <= k < |blocks|
    requires Eligible(blocks[i], lastVoted, power) && Eligible(blocks[k], lastVoted, power)
    ensures Eligible(blocks[j], lastVoted, power)
  {
    hide Eligible;
  }

  /** With power unbroken, two neighbours among the kept blocks were neighbours before. */
  lemma UnbrokenMeansNeighbours(blocks: seq<Block>, lastVoted: U64, power: U64 -> Result<bool>, a: nat)
    requires blocks != [] && Consecutive(blocks, blocks[0].height)
    requires PowerUnbroken(blocks, lastVoted, power)
    requires a + 1 < |EligibleBlocks(blocks, lastVoted, power)|
    ensures EligibleBlocks(blocks, lastVoted, power)[a + 1].height == EligibleBlocks(blocks, lastVoted, power)[a].height + 1
  {
    hide EligibleBlocks, EligibleAt, Picks, Eligible, PowerUnbroken;
    var kept := EligibleBlocks(blocks, lastVoted, power);
    EligibleBlocksAre(blocks, lastVoted, power);
    assert Ascending(blocks);
    assert kept[a] in kept && kept[a + 1] in kept;
    var i :| 0 <= i < |blocks| && blocks[i] == kept[a];
    var k :| 0 <= k < |blocks| && blocks[k] == kept[a + 1];
    assert i < k;
    UnbrokenBetween(blocks, lastVoted, power, i, i + 1, k);
    var b :| 0 <= b < |kept| && kept[b] == blocks[i + 1];
    assert a < b && kept[b].height <= kept[a + 1].height;
  }

  /** Consecutive blocks stay consecutive after filtering if and only if voting power is unbroken. */
  lemma FilteredConsecutiveIff(blocks: seq<Block>, lastVoted: U64, power: U64 -> Result<bool>)
    requires blocks != [] && Consecutive(blocks, blocks[0].height)
    requires EligibleBlocks(blocks, lastVoted, power) != []
    ensures Consecutive(EligibleBlocks(blocks, lastVoted, power), EligibleBlocks(blocks, lastVoted, power)[0].height)
            <==> PowerUnbroken(blocks, lastVoted, power)
  {
    hide EligibleBlocks, Eligible;
    var kept := EligibleBlocks(blocks, lastVoted, power);
    if Consecutive(kept, kept[0].height) {
      forall i, j, k | 0 <= i < j < k < |blocks| && Eligible(blocks[i], lastVoted, power) && Eligible(blocks[k], lastVoted, power)
        ensures Eligible(blocks[j], lastVoted, power)
      {
        ConsecutiveMeansUnbroken(blocks, lastVoted, power, i, j, k);
      }
    }
    if PowerUnbroken(blocks, lastVoted, power) {
      forall a | 0 <= a < |kept| - 1 ensures kept[a + 1].height == kept[a].height + 1 {
        UnbrokenMeansNeighbours(blocks, lastVoted, power, a);
      }
      StepsAreConsecutive(kept);
    }
  }

  lemma {:induction false} StepsAreConsecutive(blocks: seq<Block>)
    requires blocks != [] && forall a :: 0 <= a < |blocks| - 1 ==> blocks[a + 1].height == blocks[a].height + 1
    ensures Consecutive(blocks, blocks[0].height)
    decreases |blocks|
  {
    var n := |blocks| - 1;
    if n > 0 {
      StepsAreConsecutive(blocks[..n]);
      assert blocks[n].height == blocks[n - 1].height + 1;
      assert blocks[..n][n - 1] == blocks[n - 1];
      forall i | 0 <= i < |blocks| ensures blocks[i].height == blocks[0].height + i {
        if i < n {
          assert blocks[..n][i] == blocks[i];
        }
      }
    }
  }

  /** Filtering can break the alignment: without power at one height in the middle, the block after it
      is put together with the randomness of the height before. */
  lemma FilteringCanMisalign(h: U64, hash: ByteString)
    requires h + 2 < U64_LIMIT
    ensures var blocks := [Block(h, hash), Block(h + 1, hash), Block(h + 2, hash)];
            var power := (x: U64) => Ok(x != h + 1);
            h > 0 ==> && EligibleBlocks(blocks, h - 1, power) == [blocks[0], blocks[2]]
                      && HeightAt(blocks[0].height, 1, 1) != blocks[2].height
  {
    if h > 0 {
      var blocks := [Block(h, hash), Block(h + 1, hash), Block(h + 2, hash)];
      var power := (x: U64) => Ok(x != h + 1);
      assert blocks[..2][..1] == [blocks[0]] && blocks[..2][..1][..0] == [];
      assert EligibleBlocks(blocks[..2][..1], h - 1, power) == [blocks[0]];
      assert EligibleBlocks(blocks[..2], h - 1, power) == [blocks[0]];
    }
  }

  // ----- the last voted height over runs -----

  /** One call of SubmitBatchFinalitySignatures; `sent` says whether the chain gave a transaction hash. */
  datatype Submission = Submission(blocks: seq<Block>, power: U64 -> Result<bool>, sent: bool)

  ghost predicate Votes(last: U64, c: Submission) {
    c.sent && EligibleBlocks(c.blocks, last, c.power) != []
  }

  ghost function LastVotedAfter(last: U64, c: Submission): U64 {
    var kept := EligibleBlocks(c.blocks, last, c.power);
    if Votes(last, c) then kept[|kept| - 1].height else last
  }

  ghost function LastVoted(last: U64, calls: seq<Submission>): U64 {
    if calls == [] then last else LastVotedAfter(LastVoted(last, calls[..|calls| - 1]), calls[|calls| - 1])
  }

  /** A submission with a transaction hash raises the last voted height, past every block it offers. */
  lemma SubmissionAdvances(last: U64, c: Submission)
    requires Ascending(c.blocks)
    ensures LastVotedAfter(last, c) >= last
    ensures Votes(last, c) ==> LastVotedAfter(last, c) > last
    ensures forall b :: b in EligibleBlocks(c.blocks, last, c.power) ==> b.height > last
    ensures Votes(last, c) ==> forall b :: b in EligibleBlocks(c.blocks, last, c.power) ==> b.height <= LastVotedAfter(last, c)
  {
    hide EligibleAt, Picks;
    EligibleBlocksAre(c.blocks, last, c.power);
    var kept := EligibleBlocks(c.blocks, last, c.power);
    if kept != [] {
      assert kept[|kept| - 1] in kept;
    }
  }

  lemma {:induction false} LastVotedMonotone(last: U64, calls: seq<Submission>, i: nat)
    requires i <= |calls| && forall k :: 0 <= k < |calls| ==> Ascending(calls[k].blocks)
    ensures LastVoted(last, calls[..i]) <= LastVoted(last, calls)
    decreases |calls|
  {
    if i < |calls| {
      var n := |calls| - 1;
      assert forall k :: 0 <= k < n ==> calls[..n][k] == calls[k];
      assert calls[..n][..i] == calls[..i];
      LastVotedMonotone(last, calls[..n], i);
      SubmissionAdvances(LastVoted(last, calls[..n]), calls[n]);
    } else {
      assert calls[..i] == calls;
    }
  }

  /** In any run of ascending batches without a reset, the blocks offered by an earlier submission that got
      a transaction hash all lie below those of a later one, so no height is voted on twice. */
  lemma NoHeightVotedTwice(last: U64, calls: seq<Submission>, i: nat, j: nat, b1: Block, b2: Block)
    requires i < j < |calls| && forall k :: 0 <= k < |calls| ==> Ascending(calls[k].blocks)
    requires Votes(LastVoted(last, calls[..i]), calls[i])
    requires b1 in EligibleBlocks(calls[i].blocks, LastVoted(last, calls[..i]), calls[i].power)
    requires b2 in EligibleBlocks(calls[j].blocks, LastVoted(last, calls[..j]), calls[j].power)
    ensures b1.height < b2.height
  {
    hide EligibleBlocks, LastVotedAfter;
    SubmissionAdvances(LastVoted(last, calls[..i]), calls[i]);
    SubmissionAdvances(LastVoted(last, calls[..j]), calls[j]);
    assert calls[..i + 1][..i] == calls[..i];
    assert calls[..j][..i + 1] == calls[..i + 1];
    LastVotedMonotone(last, calls[..j], i + 1);
  }

  // ----- the submitter -----

  datatype ErrorClass = Unrecoverable | Expected | Retryable

  /** How the chain answers a batch of votes. */
  datatype ChainReply = Tx(hash: string) | NoTx | Refused(class_: ErrorClass)

  /** What the environment does during one attempt and after a failed one. */
  datatype AttemptEnv = AttemptEnv(now: int, signDbOk: bool, reply: ChainReply, stateDbOk: bool, finalized: Result<bool>, shutdown: bool)

  datatype Attempt =
    | Submitted(hash: string)   // a transaction
    | AllFiltered               // a response without a transaction
    | AllSkipped                // nothing to send: every block was a double sign
    | Failed(class_: ErrorClass)

  /** One attempt: how it ended, and what it offered to the chain, if anything. */
  datatype Try = Try(outcome: Attempt, offer: Option<seq<Vote>>)

  /** The call came back with a transaction hash. */
  predicate IsVoted(r: Result<Option<Attempt>>) {
    r.Ok? && r.value.Some? && r.value.value.Submitted?
  }

  /** The last attempt offered its votes to the chain, which answered with a transaction hash. */
  predicate GotHash(tries: seq<Try>, envs: nat -> AttemptEnv) {
    && tries != [] && tries[|tries| - 1].offer.Some?
    && var reply := envs(|tries| - 1).reply; reply.Tx? && reply.hash != ""
  }

  /** Who votes, with the key if it is at hand, and the proofs. */
  datatype Voter = Voter(suite: LawfulSuite, key: Result<Scalar>, chainId: ByteString, pk: ByteString, proofs: Proofs)
  {
    ghost function Provider(): Provider
      requires key.Ok?
    {
      Committer.Provider.Provider(suite, key.value, chainId, pk)
    }
  }

  /** An attempt up to the submission: the votes it has for the chain, and the sign records it leaves. */
  ghost function Prepare(f: Voter, records: Records, blocks: seq<Block>, env: AttemptEnv): Outcome<seq<Vote>> {
    if !(0 < |blocks| < U32_LIMIT) then Outcome(records, Err(EmptyBatch))
    else if f.key.Err? then Outcome(records, Err(f.key.error))
    else BatchVotes(f.Provider(), f.proofs, records, blocks, env.now, env.signDbOk)
  }

  /** Votes go to the chain if there are any. */
  function OfferOf(votes: Result<seq<Vote>>): Option<seq<Vote>> {
    if votes.Ok? && votes.value != [] then Some(votes.value) else None
  }

  /** Without votes, nothing was recorded; in particular nothing is signed unless every proof is there. */
  lemma ErrorKeepsAllRecords(f: Voter, records: Records, blocks: seq<Block>, env: AttemptEnv)
    ensures Prepare(f, records, blocks, env).result.Err? ==> Prepare(f, records, blocks, env).records == records
    ensures 0 < |blocks| && f.key.Ok? && !HasProofs(f.Provider(), f.proofs, blocks[0].height, |blocks|) ==>
              Prepare(f, records, blocks, env).result.Err?
  {
    hide HasProofs, Plan, Lookup, Zip, SigMap, PubRands, Requests;
  }

  lemma PrepareRepeats(f: Voter, base: Records, records: Records, blocks: seq<Block>, env: AttemptEnv, env': AttemptEnv)
    requires Prepare(f, base, blocks, env).result.Ok? && Prepare(f, base, blocks, env).records == records
    ensures Prepare(f, records, blocks, env') == Prepare(f, base, blocks, env)
  {
    hide BatchVotes, Extends;
    ExtendsItself(records);
    AttemptRepeats(f.Provider(), f.proofs, base, records, blocks, env.now, env.signDbOk, env'.now, env'.signDbOk);
  }

  lemma ExtendsItself(records: Records)
    ensures Extends(records, records)
  {
  }

  lemma NoBlocks(lastVoted: U64, power: U64 -> Result<bool>)
    ensures EligibleBlocks([], lastVoted, power) == []
  {
  }

  lemma VotesAreForBlocks(p: Provider, proofs: Proofs, records: Records, blocks: seq<Block>, now: int, committed: bool)
    requires blocks != []
    ensures var o := BatchVotes(p, proofs, records, blocks, now, committed);
            o.result.Ok? ==> forall v :: v in o.result.value ==> v.block in blocks
  {
    hide BatchVotes, SigMap, SignBatch, Requests, RecordKey, PubRandAt, HeightAt;
    var o := BatchVotes(p, proofs, records, blocks, now, committed);
    if o.result.Ok? {
      forall v | v in o.result.value ensures v.block in blocks {
        var i := VoteHasPosition(p, proofs, records, blocks, now, committed, v);
      }
    }
  }

  // ----- retries -----

  /** What the attempt at a position has to offer: what the one before offered, or else what it can prepare from the
      records that the call started with. */
  ghost predicate OffersDue(f: Voter, base: Records, blocks: seq<Block>, envs: nat -> AttemptEnv, tries: seq<Try>, i: nat)
    requires i < |tries|
  {
    tries[i].offer == if i > 0 && tries[i - 1].offer.Some? then tries[i - 1].offer else OfferOf(Prepare(f, base, blocks, envs(i)).result)
  }

  /** All offers are due ones, and all are the same. */
  ghost predicate Offering(f: Voter, base: Records, blocks: seq<Block>, envs: nat -> AttemptEnv, tries: seq<Try>) {
    && (forall i :: 0 <= i < |tries| ==> OffersDue(f, base, blocks, envs, tries, i))
    && (forall i :: 0 <= i < |tries| && tries[i].offer.Some? ==> tries[i].offer == tries[|tries| - 1].offer)
  }

  /** Some attempt prepared these votes from the records that the call started with, and left these. */
  ghost predicate PreparedOnce(f: Voter, base: Records, blocks: seq<Block>, envs: nat -> AttemptEnv, records: Records, votes: seq<Vote>) {
    exists i: nat :: Prepare(f, base, blocks, envs(i)) == Outcome(records, Ok(votes))
  }

  /** Before anything is offered the records are those that the call started with; afterwards those of the attempt
      that first offered. */
  ghost predicate Recorded(f: Voter, base: Records, blocks: seq<Block>, envs: nat -> AttemptEnv, tries: seq<Try>, records: Records) {
    if tries == [] || tries[|tries| - 1].offer.None? then records == base
    else PreparedOnce(f, base, blocks, envs, records, tries[|tries| - 1].offer.value)
  }

  /** One more attempt: what it offers is due, and the records are as they should be, unless it ended with nothing to send. */
  lemma OneMoreTry(f: Voter, base: Records, blocks: seq<Block>, envs: nat -> AttemptEnv, tries: seq<Try>, records: Records, outcome: Attempt)
    requires Offering(f, base, blocks, envs, tries) && Recorded(f, base, blocks, envs, tries, records)
    ensures var o := Prepare(f, records, blocks, envs(|tries|));
            var tries' := tries + [Try(outcome, OfferOf(o.result))];
            && Offering(f, base, blocks, envs, tries')
            && (o.result != Ok([]) ==> Recorded(f, base, blocks, envs, tries', o.records))
  {
    hide Prepare;
    var n := |tries|;
    var o := Prepare(f, records, blocks, envs(n));
    var tries' := tries + [Try(outcome, OfferOf(o.result))];
    ErrorKeepsAllRecords(f, records, blocks, envs(n));
    if n > 0 && tries[n - 1].offer.Some? {
      var votes := tries[n - 1].offer.value;
      assert PreparedOnce(f, base, blocks, envs, records, votes);
      var i: nat :| Prepare(f, base, blocks, envs(i)) == Outcome(records, Ok(votes));
      PrepareRepeats(f, base, records, blocks, envs(i), envs(n));
      OfferedNotEmpty(f, base, blocks, envs, tries, n - 1);
    } else {
      assert o.result.Ok? ==> Prepare(f, base, blocks, envs(n)) == Outcome(o.records, Ok(o.result.value));
    }
    forall i | 0 <= i < |tries'| ensures OffersDue(f, base, blocks, envs, tries', i) {
      assert i < n ==> OffersDue(f, base, blocks, envs, tries, i);
    }
  }

  lemma {:induction false} OfferedNotEmpty(f: Voter, base: Records, blocks: seq<Block>, envs: nat -> AttemptEnv, tries: seq<Try>, i: nat)
    requires i < |tries| && forall j :: 0 <= j < |tries| ==> OffersDue(f, base, blocks, envs, tries, j)
    requires tries[i].offer.Some?
    ensures tries[i].offer.value != []
    ensures exists j: nat :: Prepare(f, base, blocks, envs(j)).result == Ok(tries[i].offer.value)
    decreases i
  {
    hide Prepare;
    assert OffersDue(f, base, blocks, envs, tries, i);
    if i > 0 && tries[i - 1].offer.Some? {
      OfferedNotEmpty(f, base, blocks, envs, tries, i - 1);
    } else {
      assert Prepare(f, base, blocks, envs(i)).result == Ok(tries[i].offer.value);
    }
  }

  /** Whatever is offered is not empty and only for blocks of the batch. */
  lemma OffersAreForBlocks(f: Voter, base: Records, blocks: seq<Block>, envs: nat -> AttemptEnv, tries: seq<Try>)
    requires Offering(f, base, blocks, envs, tries)
    ensures forall i :: 0 <= i < |tries| && tries[i].offer.Some? ==>
              tries[i].offer.value != [] && forall v :: v in tries[i].offer.value ==> v.block in blocks
  {
    hide OffersDue, BatchVotes;
    forall i | 0 <= i < |tries| && tries[i].offer.Some?
      ensures tries[i].offer.value != [] && forall v :: v in tries[i].offer.value ==> v.block in blocks
    {
      OfferedNotEmpty(f, base, blocks, envs, tries, i);
      var j: nat :| Prepare(f, base, blocks, envs(j)).result == Ok(tries[i].offer.value);
      VotesAreForBlocks(f.Provider(), f.proofs, base, blocks, envs(j).now, envs(j).signDbOk);
    }
  }

  /** The attempt failed in a way that is tried again, the block is not final yet, and nobody shuts down. */
  predicate GoesOn(try_: Try, env: AttemptEnv) {
    try_.outcome == Failed(Retryable) && env.finalized == Ok(false) && !env.shutdown
  }

  /** What the call returns after its last attempt. */
  predicate Concludes(r: Result<Option<Attempt>>, last: Attempt, env: AttemptEnv, attempts: nat, maxRetries: nat) {
    match last
    case Submitted(_) => r == Ok(Some(last))
    case AllFiltered => r == Ok(Some(last))
    case AllSkipped => r == Ok(None)
    case Failed(Unrecoverable) => r.Err?
    case Failed(Expected) => r == Ok(None)
    case Failed(Retryable) =>
      if attempts > maxRetries then r.Err?
      else if env.finalized.Err? then r == Err(env.finalized.error)
      else if env.finalized.value then r == Ok(None)
      else env.shutdown && r.Err?
  }

  class FinalitySubmitter {
    const em: LocalEotsManager
    const proofStore: PubRandProofStore
    const state: FpState
    const chainId: ByteString
    const maxRetries: U32

    constructor (em: LocalEotsManager, proofStore: PubRandProofStore, state: FpState, chainId: ByteString, maxRetries: U32)
      ensures this.em == em && this.proofStore == proofStore && this.state == state
      ensures this.chainId == chainId && this.maxRetries == maxRetries
    {
      this.em, this.proofStore, this.state, this.chainId, this.maxRetries := em, proofStore, state, chainId, maxRetries;
    }

    ghost function Self(): Voter
      reads em, em.es, proofStore
    {
      Voter(em.suite, em.Key(state.btcPk), chainId, state.btcPk, proofStore.bucket)
    }

    /** The height in memory and the stored one after an attempt that got a transaction hash, or did not. */
    twostate predicate HeightMoved(moved: bool, height: U64, stored: bool)
      reads state, state.s
    {
      && state.lastVotedHeight == (if moved then height else old(state.lastVotedHeight))
      && (!moved ==> state.s.lastVoted == old(state.s.lastVoted))
      && (moved && state.btcPk in old(state.s.lastVoted) ==>
            state.btcPk in state.s.lastVoted && state.View() == After(old(state.View()), Set(height, stored)))
    }

    /** FilterBlocksForVoting: asks for the power at every block above the last voted height. */
    method FilterBlocksForVoting(blocks: seq<Block>, power: U64 -> Result<bool>) returns (r: Result<seq<Block>>)
      ensures r.Ok? <==> forall b :: b in blocks && b.height > state.lastVotedHeight ==> power(b.height).Ok?
      ensures r.Ok? ==> r.value == EligibleBlocks(blocks, state.lastVotedHeight, power)
    {
      var kept: seq<Block> := [];
      for i := 0 to |blocks|
        invariant kept == EligibleBlocks(blocks[..i], state.lastVotedHeight, power)
        invariant forall j :: 0 <= j < i && blocks[j].height > state.lastVotedHeight ==> power(blocks[j].height).Ok?
      {
        assert blocks[..i + 1][..i] == blocks[..i];
        if blocks[i].height <= state.lastVotedHeight {
          continue;
        }
        var hasPower := power(blocks[i].height);
        if hasPower.Err? {
          assert blocks[i] in blocks;
          return Err(hasPower.error);
        }
        if !hasPower.value {
          continue;
        }
        kept := kept + [blocks[i]];
      }
      assert blocks[..|blocks|] == blocks;
      r := Ok(kept);
    }

    /** SignFinalitySigBatch: signatures by height. */
    method SignFinalitySigBatch(blocks: seq<Block>, now: int, committed: bool) returns (r: Result<map<U64, Scalar>>)
      modifies em.es`signRecords
      ensures var o := SignBatch(em.suite, old(em.es.signRecords), em.Key(state.btcPk), state.btcPk, chainId, Requests(blocks), now, committed);
              && em.es.signRecords == o.records
              && (o.result.Err? ==> r == Err(o.result.error))
              && (o.result.Ok? ==> r == Ok(SigMap(o.result.value)))
    {
      hide SignBatch;
      var resp := em.SignBatchEOTS(state.btcPk, chainId, Requests(blocks), now, committed);
      if resp.Err? {
        return Err(resp.error);
      }
      var sigs: map<U64, Scalar> := map[];
      for i := 0 to |resp.value|
        invariant sigs == SigMap(resp.value[..i])
      {
        assert resp.value[..i + 1][..i] == resp.value[..i];
        sigs := sigs[resp.value[i].height := resp.value[i].signature];
      }
      assert resp.value[..|resp.value|] == resp.value;
      r := Ok(sigs);
    }

    /** The loop that zips blocks with randomness, proofs and signatures. */
    method ZipVotes(blocks: seq<Block>, rands: seq<ByteString>, proofs: seq<ByteString>, sigs: map<U64, Scalar>) returns (votes: seq<Vote>)
      requires |rands| == |proofs| == |blocks|
      ensures votes == Zip(blocks, rands, proofs, sigs)
      ensures Picks(|blocks|, VoteAt(blocks, rands, proofs, sigs), votes)
    {
      hide Picks;
      votes := [];
      for i := 0 to |blocks|
        invariant votes == Zip(blocks[..i], rands[..i], proofs[..i], sigs)
      {
        assert blocks[..i + 1][..i] == blocks[..i] && rands[..i + 1][..i] == rands[..i] && proofs[..i + 1][..i] == proofs[..i];
        if blocks[i].height in sigs {
          votes := votes + [Vote(blocks[i], rands[i], proofs[i], sigs[blocks[i].height])];
        }
      }
      assert blocks[..|blocks|] == blocks && rands[..|blocks|] == rands && proofs[..|blocks|] == proofs;
      ZipIsByPosition(blocks, rands, proofs, sigs);
    }

    /** submitBatchFinalitySignaturesOnce up to the submission: what is offered to the chain, if anything. Without the key,
        or without a proof for every height, nothing is signed. */
    method PrepareVotes(blocks: seq<Block>, env: AttemptEnv) returns (r: Result<seq<Vote>>)
      modifies em.es`signRecords
      ensures Outcome(em.es.signRecords, r) == Prepare(Self(), old(em.es.signRecords), blocks, env)
      ensures em.Key(state.btcPk).Ok? && 0 < |blocks| < U32_LIMIT ==>
                Outcome(em.es.signRecords, r)
                == BatchVotes(Self().Provider(), proofStore.bucket, old(em.es.signRecords), blocks, env.now, env.signDbOk)
      ensures r.Err? ==> em.es.signRecords == old(em.es.signRecords)
      ensures r.Ok? ==> 0 < |blocks| < U32_LIMIT && em.Key(state.btcPk).Ok? && HasProofs(Self().Provider(), proofStore.bucket, blocks[0].height, |blocks|)
    {
      hide SignBatch, PubRands, RecordKey, HeightAt, Zip, SigMap, Requests, VoteAt, Picks, HasProofs, ProofsFrom;
      ErrorKeepsAllRecords(Self(), em.es.signRecords, blocks, env);
      if |blocks| == 0 || |blocks| >= U32_LIMIT {
        return Err(EmptyBatch);
      }
      var start := blocks[0].height;
      var rands := em.PubRandList(state.btcPk, chainId, start, |blocks|);
      if rands.Err? {
        return Err(rands.error);
      }
      var proofs := proofStore.GetPubRandProofList(chainId, state.btcPk, start, |blocks|);
      HasProofsMeans(Self().Provider(), proofStore.bucket, start, |blocks|);
      if proofs.Err? {
        return Err(ProofNotFound);
      }
      FetchedProofs(Self().Provider(), proofStore.bucket, start, |blocks|, proofs.value);
      var sigs := SignFinalitySigBatch(blocks, env.now, env.signDbOk);
      if sigs.Err? {
        return Err(sigs.error);
      }
      var votes := ZipVotes(blocks, rands.value, proofs.value, sigs.value);
      r := Ok(votes);
    }

    /** submitBatchFinalitySignaturesOnce. It is a submission exactly if votes were offered and the chain answered with a
        transaction hash, and only then does the last voted height move, to the last block of the batch. */
    method SubmitOnce(blocks: seq<Block>, env: AttemptEnv) returns (r: Attempt, offer: Option<seq<Vote>>)
      modifies em.es`signRecords, state, state.s
      ensures var o := Prepare(Self(), old(em.es.signRecords), blocks, env);
              && em.es.signRecords == o.records
              && (offer.Some? <==> o.result.Ok? && o.result.value != [])
              && (offer.Some? ==> offer.value == o.result.value)
              && (offer.None? ==> r == if o.result == Ok([]) then AllSkipped else Failed(Retryable))
      ensures r.Submitted? <==> offer.Some? && env.reply.Tx? && env.reply.hash != ""
      ensures r.Submitted? ==> blocks != [] && r.hash == env.reply.hash
      ensures offer.Some? && env.reply.Refused? ==> r == Failed(env.reply.class_)
      ensures offer.Some? && !r.Submitted? && !env.reply.Refused? ==> r == AllFiltered
      ensures HeightMoved(r.Submitted?, if blocks == [] then 0 else blocks[|blocks| - 1].height, env.stateDbOk)
    {
      hide Prepare;
      var votes := PrepareVotes(blocks, env);
      if votes.Err? {
        return Failed(Retryable), None;
      }
      if votes.value == [] {
        return AllSkipped, None;
      }
      offer := Some(votes.value);
      match env.reply
      case Refused(class_) =>
        r := Failed(class_);
      case NoTx =>
        r := AllFiltered;
      case Tx(hash) =>
        if hash == "" {
          return AllFiltered, offer;
        }
        var _ := state.SetLastVotedHeight(blocks[|blocks| - 1].height, env.stateDbOk);
        r := Submitted(hash);
    }

    /** The retry loop over the filtered blocks, for every behaviour of the chain. It makes at least one attempt and at most
        maxRetries + 1; it goes on exactly while an attempt failed in a way that is tried again and neither finality nor
        shutdown stops it; all attempts that reach the chain offer the same votes, with the same signatures. */
    method Retry(kept: seq<Block>, envs: nat -> AttemptEnv) returns (r: Result<Option<Attempt>>, tries: seq<Try>)
      requires kept != []
      modifies em.es`signRecords, state, state.s
      ensures 1 <= |tries| <= maxRetries + 1
      ensures forall i :: 0 <= i < |tries| - 1 ==> GoesOn(tries[i], envs(i))
      ensures Concludes(r, tries[|tries| - 1].outcome, envs(|tries| - 1), |tries|, maxRetries)
      ensures Offering(Self(), old(em.es.signRecords), kept, envs, tries)
      ensures tries[|tries| - 1].outcome.AllSkipped? || Recorded(Self(), old(em.es.signRecords), kept, envs, tries, em.es.signRecords)
      ensures IsVoted(r) <==> GotHash(tries, envs)
      ensures HeightMoved(GotHash(tries, envs), kept[|kept| - 1].height, envs(|tries| - 1).stateDbOk)
    {
      hide Prepare, Offering, Recorded;
      tries := [];
      ghost var f, base := Self(), em.es.signRecords;
      NothingTried(f, base, kept, envs);
      while true
        invariant Self() == f && |tries| <= maxRetries
        invariant HeightMoved(false, 0, false)
        invariant forall i :: 0 <= i < |tries| ==> GoesOn(tries[i], envs(i))
        invariant Offering(f, base, kept, envs, tries) && Recorded(f, base, kept, envs, tries, em.es.signRecords)
        decreases maxRetries + 1 - |tries|
      {
        ghost var records, earlier := em.es.signRecords, tries;
        var env := envs(|tries|);
        var res, offer := SubmitOnce(kept, env);
        OneMoreTry(f, base, kept, envs, earlier, records, res);
        tries := tries + [Try(res, offer)];
        if !res.Failed? {
          return Ok(if res.AllSkipped? then None else Some(res)), tries;
        }
        if res.class_.Unrecoverable? {
          return Err(SubmissionFailed), tries;
        }
        if res.class_.Expected? {
          return Ok(None), tries;
        }
        if |tries| > maxRetries {
          return Err(SubmissionFailed), tries;
        }
        if env.finalized.Err? {
          return Err(env.finalized.error), tries;
        }
        if env.finalized.value {
          return Ok(None), tries;
        }
        if env.shutdown {
          return Err(SubmissionFailed), tries;
        }
      }
    }

    /** SubmitBatchFinalitySignatures: filters the blocks, then retries. Only eligible blocks are offered, and the
        last voted height moves, to the last eligible block, exactly when a transaction hash came back. */
    method SubmitBatchFinalitySignatures(blocks: seq<Block>, power: U64 -> Result<bool>, envs: nat -> AttemptEnv)
      returns (r: Result<Option<Attempt>>, tries: seq<Try>)
      modifies em.es`signRecords, state, state.s
      ensures |tries| <= maxRetries + 1
      ensures forall i :: 0 <= i < |tries| && tries[i].offer.Some? ==>
                && tries[i].offer == tries[|tries| - 1].offer && tries[i].offer.value != []
                && forall v :: v in tries[i].offer.value ==> v.block in EligibleBlocks(blocks, old(state.lastVotedHeight), power)
      ensures tries == [] <==> || EligibleBlocks(blocks, old(state.lastVotedHeight), power) == []
                               || exists b :: b in blocks && b.height > old(state.lastVotedHeight) && power(b.height).Err?
      ensures tries == [] ==> !IsVoted(r) && em.es.signRecords == old(em.es.signRecords)
      ensures tries != [] ==> && Concludes(r, tries[|tries| - 1].outcome, envs(|tries| - 1), |tries|, maxRetries)
                              && Offering(Self(), old(em.es.signRecords), EligibleBlocks(blocks, old(state.lastVotedHeight), power), envs, tries)
      ensures blocks == [] ==> r == Err(EmptyBatch)
      ensures IsVoted(r) <==> GotHash(tries, envs)
      ensures state.lastVotedHeight == LastVotedAfter(old(state.lastVotedHeight), Submission(blocks, power, GotHash(tries, envs)))
      ensures GotHash(tries, envs) ==> Votes(old(state.lastVotedHeight), Submission(blocks, power, true))
    {
      hide EligibleBlocks, Offering, Recorded, Prepare;
      tries := [];
      if |blocks| == 0 {
        NoBlocks(state.lastVotedHeight, power);
        return Err(EmptyBatch), tries;
      }
      var filtered := FilterBlocksForVoting(blocks, power);
      if filtered.Err? {
        return Err(filtered.error), tries;
      }
      if filtered.value == [] {
        return Ok(None), tries;
      }
      ghost var f, base := Self(), em.es.signRecords;
      r, tries := Retry(filtered.value, envs);
      OffersAreForBlocks(f, base, filtered.value, envs, tries);
      SameOffers(f, base, filtered.value, envs, tries);
    }
  }

  lemma NothingTried(f: Voter, base: Records, blocks: seq<Block>, envs: nat -> AttemptEnv)
    ensures Offering(f, base, blocks, envs, []) && Recorded(f, base, blocks, envs, [], base)
  {
  }

  lemma SameOffers(f: Voter, base: Records, blocks: seq<Block>, envs: nat -> AttemptEnv, tries: seq<Try>)
    requires Offering(f, base, blocks, envs, tries)
    ensures forall i :: 0 <= i < |tries| && tries[i].offer.Some? ==> tries[i].offer == tries[|tries| - 1].offer
  {
    hide OffersDue;
  }
}
