/** Commitments, proofs, nonces and signatures together: what every vote that is sent carries. */
module EndToEnd {
  import opened Bytes
  import opened Keys
  import opened Maps
  import opened Wrappers
  import opened Crypto
  import opened EotsStore
  import opened EotsManager
  import opened ProofStore
  import opened Committer
  import opened Poller
  import opened Submitter
  import CommitRuns
  import SigningRuns

  /** The vote's randomness and proof open the commitment at the position of the vote's height. */
  ghost predicate Opens(p: Provider, c: PubRandCommit, v: Vote) {
    && c.Covers(v.block.height)
    && var list := p.Rands(c.start, c.num);
       && c.root == p.suite.merkleRoot(list)
       && v.pubRand == list[v.block.height - c.start]
       && v.proof == p.suite.merkleProofs(list)[v.block.height - c.start]
  }

  ghost predicate OpensSome(p: Provider, commits: seq<PubRandCommit>, v: Vote) {
    exists j :: 0 <= j < |commits| && Opens(p, commits[j], v)
  }

  /** The vote's signature is over its own block, made with the nonce whose public part it carries. */
  ghost predicate SignedWithItsRandomness(p: Provider, v: Vote) {
    exists k: Scalar :: && v.pubRand == p.suite.pubRand(k)
                        && p.suite.eotsSign(p.priv, k, MsgToSign([], v.block.height, v.block.hash)) == Some(v.sig)
  }

  ghost predicate CoveredAt(w: CommitRuns.World, h: U64) {
    h > w.floor && exists j :: 0 <= j < |w.ledger.commits| && w.ledger.commits[j].Covers(h)
  }

  /** Every record in a slot of the provider is its own signature for that slot. */
  ghost predicate OwnRecords(p: Provider, records: Records) {
    forall h: U64 :: p.Key(h) in records ==> OwnSignature(p, SignRequest(records[p.Key(h)].msg, h), records[p.Key(h)].sig)
  }

  ghost predicate OwnSignature(p: Provider, req: SignRequest, sig: ByteString) {
    var x := Signature(p.suite, p.priv, p.chainId, req);
    x.Some? && sig == ScalarBytes(x.value)
  }

  // ----- signatures -----

  /** If what a batch finds is the provider's own, then so is every answer. */
  lemma AnswerIsOwn(p: Provider, existing: map<U64, SigningRecord>, req: SignRequest)
    requires Answer(p.suite, existing, p.priv, p.chainId, req).Some?
    requires req.height in existing ==> OwnSignature(p, SignRequest(existing[req.height].msg, req.height), existing[req.height].sig)
    ensures Answer(p.suite, existing, p.priv, p.chainId, req) == Signature(p.suite, p.priv, p.chainId, req)
  {
    hide Signature, SetByteSlice;
    assert req == SignRequest(req.msg, req.height);
  }

  lemma {:induction false} SigMapIsFromResponses(responses: seq<SignResponse>, h: U64)
    requires h in SigMap(responses)
    ensures SignResponse(SigMap(responses)[h], h) in responses
    decreases |responses|
  {
    var n := |responses| - 1;
    if responses[n].height != h {
      SigMapIsFromResponses(responses[..n], h);
    }
  }

  lemma {:induction false} SigMapHasResponses(responses: seq<SignResponse>, r: SignResponse)
    requires r in responses
    ensures r.height in SigMap(responses)
    decreases |responses|
  {
    var n := |responses| - 1;
    if responses[n] != r {
      SigMapHasResponses(responses[..n], r);
    }
  }

  /** A signed batch keeps the provider's records its own. */
  lemma BatchKeepsOwn(p: Provider, records: Records, reqs: seq<SignRequest>, now: int, committed: bool)
    requires OwnRecords(p, records)
    ensures OwnRecords(p, SignBatch(p.suite, records, Ok(p.priv), p.pk, p.chainId, reqs, now, committed).records)
  {
    hide Signature, ScalarBytes, RecordKey, SignBatch, OwnSignature;
    var o := SignBatch(p.suite, records, Ok(p.priv), p.pk, p.chainId, reqs, now, committed);
    if o.result.Err? {
      ErrorKeepsRecords(p, records, reqs, now, committed);
    } else {
      CommitFlagIrrelevant(p.suite, records, Ok(p.priv), p.pk, p.chainId, reqs, now, committed);
      forall h: U64 | p.Key(h) in o.records
        ensures OwnSignature(p, SignRequest(o.records[p.Key(h)].msg, h), o.records[p.Key(h)].sig)
      {
        if i :| 0 <= i < |reqs| && reqs[i].height == h {
          SlotIsOwn(p, records, reqs, now, i);
        } else {
          BatchFrame(p.suite, records, p.priv, p.pk, p.chainId, reqs, now, h);
        }
      }
    }
  }

  lemma ErrorKeepsRecords(p: Provider, records: Records, reqs: seq<SignRequest>, now: int, committed: bool)
    ensures var o := SignBatch(p.suite, records, Ok(p.priv), p.pk, p.chainId, reqs, now, committed);
            o.result.Err? ==> o.records == records
  {
    hide Plan, Lookup;
  }

  lemma SlotIsOwn(p: Provider, records: Records, reqs: seq<SignRequest>, now: int, i: nat)
    requires OwnRecords(p, records) && i < |reqs|
    requires SignBatch(p.suite, records, Ok(p.priv), p.pk, p.chainId, reqs, now, true).result.Ok?
    ensures var r := SignBatch(p.suite, records, Ok(p.priv), p.pk, p.chainId, reqs, now, true).records;
            var k := p.Key(reqs[i].height);
            k in r && OwnSignature(p, SignRequest(r[k].msg, reqs[i].height), r[k].sig)
  {
    hide Signature, ScalarBytes, RecordKey, SignBatch;
    BatchSlot(p.suite, records, p.priv, p.pk, p.chainId, reqs, now, i);
    assert reqs[i] == SignRequest(reqs[i].msg, reqs[i].height);
  }

  /** A batch leaves the slots of other heights alone. */
  lemma BatchFrame(s: LawfulSuite, records: Records, priv: Scalar, pk: ByteString, chainId: ByteString,
                   reqs: seq<SignRequest>, now: int, h: U64)
    requires SignBatch(s, records, Ok(priv), pk, chainId, reqs, now, true).result.Ok?
    requires forall i :: 0 <= i < |reqs| ==> reqs[i].height != h
    ensures var after := SignBatch(s, records, Ok(priv), pk, chainId, reqs, now, true).records;
            var k := RecordKey(chainId, pk, h);
            (k in after <==> k in records) && (k in records ==> after[k] == records[k])
  {
    hide Signature, ScalarBytes, RecordKey, Plan, PutAll;
    var existing := Lookup(records, pk, chainId, Heights(reqs));
    var plan := Plan(s, existing, priv, pk, chainId, reqs).value;
    PlanSavesOnlyMissing(s, existing, priv, pk, chainId, reqs);
    SavesFresh(plan, records, pk, chainId, reqs, now);
    var es := Entries(plan.toSave, now);
    forall i | 0 <= i < |es| ensures es[i].0 != RecordKey(chainId, pk, h) {
      RecordKeyInjective(chainId, pk, plan.toSave[i].height, chainId, pk, h);
    }
    PutAllElsewhere(records, es, RecordKey(chainId, pk, h));
  }

  // ----- votes -----

  /** Where every height of a batch is covered, an attempt finds all its proofs. */
  lemma CoveredHaveProofs(p: Provider, run: seq<CommitRuns.World>, blocks: seq<Block>)
    requires |p.pk| == PK_LEN && CommitRuns.Run(p, run)
    requires blocks != [] && Consecutive(blocks, blocks[0].height)
    requires forall b :: b in blocks ==> CoveredAt(run[|run| - 1], b.height)
    ensures HasProofs(p, run[|run| - 1].ledger.proofs, blocks[0].height, |blocks|)
  {
    hide CommitRuns.Steps, CommitRuns.Inv, RecordKey, HeightAt;
    var w := run[|run| - 1];
    CommitRuns.RunInv(p, run);
    forall i | 0 <= i < |blocks| ensures p.Key(HeightAt(blocks[0].height, 1, i)) in w.ledger.proofs {
      var h := blocks[i].height;
      HeightAtPlain(blocks[0].height, i);
      assert blocks[i] in blocks;
      var j :| 0 <= j < |w.ledger.commits| && w.ledger.commits[j].Covers(h);
      CommitRuns.InvAt(p, w, j, h);
    }
  }

  /** After any history of successful and failed commits, pruning, loss and recovery: every vote of a
      batch of consecutive heights that on-chain commitments cover, possibly several, opens one of them
      at the position of its height. */
  lemma VotesOpenCommitments(p: Provider, run: seq<CommitRuns.World>, records: Records, blocks: seq<Block>, now: int, committed: bool, v: Vote)
    requires |p.pk| == PK_LEN && CommitRuns.Run(p, run)
    requires blocks != [] && Consecutive(blocks, blocks[0].height)
    requires forall b :: b in blocks ==> CoveredAt(run[|run| - 1], b.height)
    requires BatchVotes(p, run[|run| - 1].ledger.proofs, records, blocks, now, committed).result.Ok?
    requires v in BatchVotes(p, run[|run| - 1].ledger.proofs, records, blocks, now, committed).result.value
    ensures OpensSome(p, run[|run| - 1].ledger.commits, v)
  {
    hide CommitRuns.Steps, CommitRuns.Inv, RecordKey, BatchVotes, PubRandAt, HeightAt;
    var w := run[|run| - 1];
    CommitRuns.RunInv(p, run);
    ConsecutiveVotesAligned(p, w.ledger.proofs, records, blocks, now, committed, v);
    var h := v.block.height;
    var j :| 0 <= j < |w.ledger.commits| && w.ledger.commits[j].Covers(h);
    var c := w.ledger.commits[j];
    CommitRuns.InvAt(p, w, j, h);
    HeightAtPlain(c.start, h - c.start);
    assert Opens(p, c, v);
  }

  /** Every vote of a batch of consecutive heights is signed over its own block with the nonce whose public
      part it carries, new signatures and repeated ones alike. */
  lemma VotesAreSignedWithTheirRandomness(p: Provider, proofs: Proofs, records: Records, blocks: seq<Block>, now: int, committed: bool, v: Vote)
    requires OwnRecords(p, records)
    requires blocks != [] && Consecutive(blocks, blocks[0].height)
    requires BatchVotes(p, proofs, records, blocks, now, committed).result.Ok?
    requires v in BatchVotes(p, proofs, records, blocks, now, committed).result.value
    ensures SignedWithItsRandomness(p, v)
  {
    hide BatchVotes, RecordKey, HeightAt, Plan, SigMap, OwnSignature, Nonce;
    var reqs := Requests(blocks);
    var i := VoteHasPosition(p, proofs, records, blocks, now, committed, v);
    ConsecutiveVotesAligned(p, proofs, records, blocks, now, committed, v);
    var o := SignBatch(p.suite, records, Ok(p.priv), p.pk, p.chainId, reqs, now, committed);
    var existing := Lookup(records, p.pk, p.chainId, Heights(reqs));
    PlanAnswers(p.suite, existing, p.priv, p.pk, p.chainId, reqs);
    SigMapIsFromResponses(o.result.value, v.block.height);
    assert reqs[i] in reqs && Answer(p.suite, existing, p.priv, p.chainId, reqs[i]) == Some(v.sig);
    assert reqs[i].height in existing ==> p.Key(reqs[i].height) in records;
    AnswerIsOwn(p, existing, reqs[i]);
    var k := Nonce(p.suite, p.priv, p.chainId, v.block.height);
    assert v.pubRand == p.suite.pubRand(k);
  }

  /** In every signing run of a manager that holds one private key under the provider's public key, crashes,
      concurrency and rollbacks included, the provider's records are its own. */
  lemma RunRecordsAreOwn(p: Provider, m: SigningRuns.Manager, run: seq<SigningRuns.State>)
    requires SigningRuns.Run(m, run) && m.suite == p.suite && |p.pk| == PK_LEN
    requires forall x: Scalar :: m.held(p.pk, x) ==> x == p.priv
    ensures OwnRecords(p, run[|run| - 1].records)
  {
    hide SigningRuns.Steps, SigningRuns.ThreadOk, SigningRuns.AnswerOk, RecordKey, Signature, ScalarBytes;
    SigningRuns.RunInv(m, run);
    var records := run[|run| - 1].records;
    forall h: U64 | p.Key(h) in records
      ensures OwnSignature(p, SignRequest(records[p.Key(h)].msg, h), records[p.Key(h)].sig)
    {
      var k, r := p.Key(h), records[p.Key(h)];
      assert SigningRuns.Genuine(m, k, r.msg, r.sig);
      var c, q, h': U64, priv: Scalar :| SigningRuns.SignedBy(m, k, r.msg, r.sig, c, q, h', priv);
      RecordKeyInjective(p.chainId, p.pk, h, c, q, h');
    }
  }

  /** After any history of signing and any history of commitments, every vote of a batch of consecutive covered
      heights opens an on-chain commitment at its height and is signed, over its own block, with the nonce
      behind the randomness that the commitment binds it to. */
  lemma EveryVoteIsGood(p: Provider, m: SigningRuns.Manager, signing: seq<SigningRuns.State>, run: seq<CommitRuns.World>,
                        blocks: seq<Block>, now: int, committed: bool, v: Vote)
    requires SigningRuns.Run(m, signing) && m.suite == p.suite && |p.pk| == PK_LEN
    requires forall x: Scalar :: m.held(p.pk, x) ==> x == p.priv
    requires CommitRuns.Run(p, run)
    requires blocks != [] && Consecutive(blocks, blocks[0].height)
    requires forall b :: b in blocks ==> CoveredAt(run[|run| - 1], b.height)
    requires BatchVotes(p, run[|run| - 1].ledger.proofs, signing[|signing| - 1].records, blocks, now, committed).result.Ok?
    requires v in BatchVotes(p, run[|run| - 1].ledger.proofs, signing[|signing| - 1].records, blocks, now, committed).result.value
    ensures OpensSome(p, run[|run| - 1].ledger.commits, v)
    ensures SignedWithItsRandomness(p, v)
  {
    hide SigningRuns.Steps, CommitRuns.Steps, BatchVotes, OwnRecords, OpensSome, SignedWithItsRandomness, CoveredAt;
    RunRecordsAreOwn(p, m, signing);
    var records := signing[|signing| - 1].records;
    VotesOpenCommitments(p, run, records, blocks, now, committed, v);
    VotesAreSignedWithTheirRandomness(p, run[|run| - 1].ledger.proofs, records, blocks, now, committed, v);
  }

  // ----- no block is left out -----

  /** The slot of the block holds no record, or one of the same message. */
  predicate NoConflict(p: Provider, records: Records, b: Block) {
    p.Key(b.height) in records ==> records[p.Key(b.height)].msg == MsgToSign([], b.height, b.hash)
  }

  ghost predicate CanBeSigned(p: Provider, b: Block) {
    Signature(p.suite, p.priv, p.chainId, SignRequest(MsgToSign([], b.height, b.hash), b.height)).Some?
  }

  /** The signatures of a plan are those of exactly the requests that have an answer. */
  lemma SignedIffAnswered(p: Provider, existing: map<U64, SigningRecord>, reqs: seq<SignRequest>, q: SignRequest)
    requires DistinctHeights(reqs) && q in reqs
    requires forall r :: r in reqs && r.height !in existing ==> Signature(p.suite, p.priv, p.chainId, r).Some?
    ensures var plan := Plan(p.suite, existing, p.priv, p.pk, p.chainId, reqs);
            plan.Ok? && (q.height in SigMap(plan.value.responses) <==> Answer(p.suite, existing, p.priv, p.chainId, q).Some?)
  {
    hide Signature, Answer, Plan, SigMap;
    PlanCompletes(p.suite, existing, p.priv, p.pk, p.chainId, reqs);
    PlanAnswers(p.suite, existing, p.priv, p.pk, p.chainId, reqs);
    var responses := Plan(p.suite, existing, p.priv, p.pk, p.chainId, reqs).value.responses;
    var answer := Answer(p.suite, existing, p.priv, p.chainId, q);
    if answer.Some? {
      SigMapHasResponses(responses, SignResponse(answer.value, q.height));
    }
    if q.height in SigMap(responses) {
      SigMapIsFromResponses(responses, q.height);
    }
  }

  /** What a batch of votes reads at the slot of one of its blocks. */
  lemma ReadsSlot(p: Provider, records: Records, blocks: seq<Block>, i: nat)
    requires i < |blocks|
    ensures ReadAsIs(Lookup(records, p.pk, p.chainId, Heights(Requests(blocks))), records, p.pk, p.chainId, blocks[i].height)
  {
    hide RecordKey;
    assert Heights(Requests(blocks))[i] == blocks[i].height;
  }

  /** The signatures of a batch of votes are those of exactly the blocks without a conflict. */
  lemma SignedIffNoConflict(p: Provider, records: Records, blocks: seq<Block>, now: int, i: nat)
    requires i < |blocks| && Consecutive(blocks, blocks[0].height)
    requires forall b :: b in blocks && p.Key(b.height) !in records ==> CanBeSigned(p, b)
    ensures var o := SignBatch(p.suite, records, Ok(p.priv), p.pk, p.chainId, Requests(blocks), now, true);
            o.result.Ok? && (blocks[i].height in SigMap(o.result.value) <==> NoConflict(p, records, blocks[i]))
  {
    hide Signature, SetByteSlice, RecordKey, Plan, SigMap, MsgToSign, Lookup, PutAll, Heights;
    var reqs := Requests(blocks);
    var existing := Lookup(records, p.pk, p.chainId, Heights(reqs));
    forall j | 0 <= j < |reqs| && reqs[j].height !in existing ensures CanBeSigned(p, blocks[j]) {
      ReadsSlot(p, records, blocks, j);
      assert blocks[j] in blocks;
    }
    ReadsSlot(p, records, blocks, i);
    SignedIffAnswered(p, existing, reqs, reqs[i]);
  }

  /** After any history of commitments, if signing itself does not fail, a batch of consecutive covered heights is
      voted on, and a block is left out exactly if its slot holds a record of another message. */
  lemma VotedIffNoConflict(p: Provider, run: seq<CommitRuns.World>, records: Records, blocks: seq<Block>, now: int, i: nat)
    requires |p.pk| == PK_LEN && CommitRuns.Run(p, run)
    requires i < |blocks| && Consecutive(blocks, blocks[0].height)
    requires forall b :: b in blocks ==> CoveredAt(run[|run| - 1], b.height)
    requires forall b :: b in blocks && p.Key(b.height) !in records ==> CanBeSigned(p, b)
    ensures var o := BatchVotes(p, run[|run| - 1].ledger.proofs, records, blocks, now, true);
            o.result.Ok? && ((exists v :: v in o.result.value && v.block == blocks[i]) <==> NoConflict(p, records, blocks[i]))
  {
    hide CommitRuns.Steps, CoveredAt, CanBeSigned, NoConflict, HasProofs, SignBatch, SigMap, Zip, PubRands, Requests;
    CoveredHaveProofs(p, run, blocks);
    SignedIffNoConflict(p, records, blocks, now, i);
    var start, n, proofs := blocks[0].height, |blocks|, run[|run| - 1].ledger.proofs;
    var sigs := SigMap(SignBatch(p.suite, records, Ok(p.priv), p.pk, p.chainId, Requests(blocks), now, true).result.value);
    var rands, list := p.Rands(start, n), ProofsFrom(p, proofs, start, n);
    forall v | v in Zip(blocks, rands, list, sigs) ensures v.block.height in sigs {
      ZipMembers(blocks, rands, list, sigs, v);
    }
    if blocks[i].height in sigs {
      ZipMembers(blocks, rands, list, sigs, Vote(blocks[i], rands[i], list[i], sigs[blocks[i].height]));
    }
  }
}
