/** Commitment of public randomness: when to commit, what a commit stores and submits, manual
    commits, and recovery of lost proofs. */
module Committer {
  import opened Bytes
  import opened Keys
  import opened Maps
  import opened Wrappers
  import opened Crypto
  import opened EotsManager
  import opened ProofStore

  /** A commitment on the chain, to the randomness of [start, start + num). */
  datatype PubRandCommit = PubRandCommit(start: U64, num: U64, root: ByteString)
  {
    /** GetEndHeight, in 64-bit arithmetic */
    function End(): (e: U64)
      ensures num >= 1 && start + num <= U64_LIMIT ==> e == start + num - 1
    {
      Sub64(Add64(start, num), 1)
    }

    predicate Covers(h: U64) {
      start <= h < start + num
    }
  }

  /** GetLastCommittedHeight: zero when nothing is committed. */
  function LastCommitted(commits: seq<PubRandCommit>): U64 {
    if commits == [] then 0 else commits[|commits| - 1].End()
  }

  datatype Decision = Enough | CommitFrom(start: U64)

  /** ShouldCommit over the answers of its queries. However the sums wrap, a commit starts above
      the last one; when they do not, it starts at the largest of the next height, the
      delayed tip and the activation height, exactly while less than `num` is left ahead. */
  function ShouldCommit(last: Result<U64>, tip: Result<U64>, activation: Result<U64>, delay: I64, num: U32): (r: Result<Decision>)
    ensures r.Ok? ==> last.Ok? && tip.Ok? && delay >= 0
    ensures r.Ok? && r.value.CommitFrom? ==> r.value.start > last.value
    ensures last.Err? ==> r == Err(last.error)
    ensures last.Ok? && tip.Err? ==> r == Err(tip.error)
    ensures last.Ok? && tip.Ok? && delay >= 0 ==>
              var delayed := Add64(tip.value, delay);
              && (r == Ok(Enough) <==> last.value >= delayed && last.value >= Add64(delayed, num))
              && (r != Ok(Enough) && activation.Err? ==> r == Err(activation.error))
              && (r != Ok(Enough) && activation.Ok? ==>
                    r == Ok(CommitFrom(Max64(Max64(Add64(last.value, 1), delayed), activation.value))))
    ensures last.Ok? && tip.Ok? && delay >= 0 && tip.value + delay + num < U64_LIMIT ==>
              (r == Ok(Enough) <==> last.value >= tip.value + delay + num)
    ensures r.Ok? && r.value.CommitFrom? && tip.value + delay + num < U64_LIMIT ==>
              && activation.Ok?
              && r.value.start == Max64(Max64(last.value + 1, tip.value + delay), activation.value)
  {
    if last.Err? then Err(last.error)
    else if tip.Err? then Err(tip.error)
    else if delay < 0 then Err(NegativeDelay)
    else
      var delayed := Add64(tip.value, delay);
      var start :=
        if last.value < delayed then Some(delayed)
        else if last.value < Add64(delayed, num) then Some(Add64(last.value, 1))
        else None;
      if start.None? then Ok(Enough)
      else if activation.Err? then Err(activation.error)
      else Ok(CommitFrom(Max64(start.value, activation.value)))
  }

  // ----- one commit -----

  /** Whose randomness is committed. */
  datatype Provider = Provider(suite: LawfulSuite, priv: Scalar, chainId: ByteString, pk: ByteString)
  {
    ghost function Rands(start: U64, num: nat): (l: seq<ByteString>)
      ensures |l| == num
    {
      PubRands(suite, priv, chainId, start, num)
    }

    ghost function Root(start: U64, num: nat): ByteString {
      suite.merkleRoot(Rands(start, num))
    }

    ghost function Proofs(start: U64, num: nat): (l: seq<ByteString>)
      ensures |l| == num
    {
      suite.merkleProofs(Rands(start, num))
    }

    ghost function Entries(start: U64, num: nat): seq<(ByteString, ByteString)> {
      ProofEntries(chainId, pk, start, 1, Proofs(start, num))
    }

    function Key(h: U64): ByteString {
      RecordKey(chainId, pk, h)
    }
  }

  /** How the chain answers a commit: the last case is an error reported for a commit it did accept. */
  datatype Reply = Accepted | Rejected | AcceptedUnseen

  /** What the environment does during one commit. */
  datatype CommitEnv = CommitEnv(keyOk: bool, dbOk: bool, signOk: bool, reply: Reply)

  /** The chain's commitments and the local proofs. */
  datatype Ledger = Ledger(commits: seq<PubRandCommit>, proofs: Proofs)

  /** Commit: proofs are stored first, then the commitment is signed and submitted. */
  ghost function CommitTo(p: Provider, l: Ledger, start: U64, num: U32, env: CommitEnv): Ledger {
    if !env.keyOk || !env.dbOk then l
    else
      var stored := l.(proofs := PutAll(l.proofs, p.Entries(start, num)));
      if !env.signOk || env.reply.Rejected? then stored
      else stored.(commits := l.commits + [PubRandCommit(start, num, p.Root(start, num))])
  }

  predicate Succeeds(env: CommitEnv) {
    env.keyOk && env.dbOk && env.signOk && env.reply.Accepted?
  }

  // ----- what storing a proof list does, height by height -----

  lemma EntryAt(chainId: ByteString, pk: ByteString, start: U64, proofs: seq<ByteString>, i: nat)
    requires start + |proofs| <= U64_LIMIT && i < |proofs|
    ensures ProofEntries(chainId, pk, start, 1, proofs)[i] == (RecordKey(chainId, pk, start + i), proofs[i])
  {
    hide RecordKey, HeightAt;
    HeightAtPlain(start, i);
  }

  lemma EntriesDiffer(chainId: ByteString, pk: ByteString, start: U64, proofs: seq<ByteString>, i: nat, j: nat)
    requires start + |proofs| <= U64_LIMIT && i < j < |proofs|
    ensures ProofEntries(chainId, pk, start, 1, proofs)[i].0 != ProofEntries(chainId, pk, start, 1, proofs)[j].0
  {
    hide RecordKey, HeightAt, ProofEntries;
    EntryAt(chainId, pk, start, proofs, i);
    EntryAt(chainId, pk, start, proofs, j);
    RecordKeyInjective(chainId, pk, start + i, chainId, pk, start + j);
  }

  lemma EntriesDistinct(chainId: ByteString, pk: ByteString, start: U64, proofs: seq<ByteString>)
    requires start + |proofs| <= U64_LIMIT
    ensures Distinct(ProofEntries(chainId, pk, start, 1, proofs))
  {
    hide RecordKey, HeightAt, ProofEntries;
    var es := ProofEntries(chainId, pk, start, 1, proofs);
    forall i, j | 0 <= i < j < |es| ensures es[i].0 != es[j].0 {
      EntriesDiffer(chainId, pk, start, proofs, i, j);
    }
  }

  /** Inside the range the new proof is found, outside it nothing changes. */
  lemma StoredAt(bucket: Proofs, chainId: ByteString, pk: ByteString, start: U64, proofs: seq<ByteString>, h: U64)
    requires start + |proofs| <= U64_LIMIT
    ensures var k := RecordKey(chainId, pk, h);
            var after := PutAll(bucket, ProofEntries(chainId, pk, start, 1, proofs));
            && (start <= h < start + |proofs| ==> k in after && after[k] == proofs[h - start])
            && (!(start <= h < start + |proofs|) ==> (k in after <==> k in bucket) && (k in bucket ==> after[k] == bucket[k]))
  {
    hide RecordKey, HeightAt, PutAll, ProofEntries;
    var es := ProofEntries(chainId, pk, start, 1, proofs);
    EntriesDistinct(chainId, pk, start, proofs);
    var k := RecordKey(chainId, pk, h);
    if start <= h < start + |proofs| {
      EntryAt(chainId, pk, start, proofs, h - start);
      PutAllAt(bucket, es, h - start);
    } else {
      forall i | 0 <= i < |es| ensures es[i].0 != k {
        EntryAt(chainId, pk, start, proofs, i);
        RecordKeyInjective(chainId, pk, start + i, chainId, pk, h);
      }
      PutAllElsewhere(bucket, es, k);
    }
  }

  /** The proofs of another provider's slots stay as they are. */
  lemma OthersKept(bucket: Proofs, chainId: ByteString, pk: ByteString, start: U64, proofs: seq<ByteString>,
                   c: ByteString, q: ByteString, h: U64)
    requires start + |proofs| <= U64_LIMIT
    requires |pk| == |q| && (chainId != c || pk != q)
    ensures var k := RecordKey(c, q, h);
            var after := PutAll(bucket, ProofEntries(chainId, pk, start, 1, proofs));
            (k in after <==> k in bucket) && (k in bucket ==> after[k] == bucket[k])
  {
    hide RecordKey, HeightAt, PutAll, ProofEntries;
    var es := ProofEntries(chainId, pk, start, 1, proofs);
    EntriesDistinct(chainId, pk, start, proofs);
    forall i | 0 <= i < |es| ensures es[i].0 != RecordKey(c, q, h) {
      EntryAt(chainId, pk, start, proofs, i);
      RecordKeyInjective(chainId, pk, start + i, c, q, h);
    }
    PutAllElsewhere(bucket, es, RecordKey(c, q, h));
  }

  // ----- the committer's loop reaches a standstill -----

  /** One round of the commitment loop in which every query and the commit succeed. */
  ghost function Round(p: Provider, l: Ledger, tip: U64, activation: U64, delay: I64, num: U32, env: CommitEnv): Ledger
  {
    var d := ShouldCommit(Ok(LastCommitted(l.commits)), Ok(tip), Ok(activation), delay, num);
    if d.Ok? && d.value.CommitFrom? then CommitTo(p, l, d.value.start, num, env) else l
  }

  lemma RoundAdvances(p: Provider, l: Ledger, tip: U64, activation: U64, delay: I64, num: U32, env: CommitEnv)
    requires 0 <= delay && num >= 1 && Succeeds(env)
    requires tip + delay + 2 * num < U64_LIMIT && activation + 2 * num < U64_LIMIT
    ensures var last := LastCommitted(l.commits);
            var last' := LastCommitted(Round(p, l, tip, activation, delay, num, env).commits);
            if last >= tip + delay + num then Round(p, l, tip, activation, delay, num, env) == l
            else last' == Max64(Max64(last + 1, tip + delay), activation) + num - 1
  {
  }

  /** With nothing committed yet, a round that succeeds makes the first commit, from the largest of 1, the delayed
      tip and the activation height, with the root of that range, and stores its proofs. */
  lemma FirstRound(p: Provider, proofs: Proofs, tip: U64, activation: U64, delay: I64, num: U32, env: CommitEnv)
    requires 0 <= delay && num >= 1 && Succeeds(env) && tip + delay + num < U64_LIMIT
    ensures var start := Max64(Max64(1, tip + delay), activation);
            Round(p, Ledger([], proofs), tip, activation, delay, num, env)
            == Ledger([PubRandCommit(start, num, p.Root(start, num))], PutAll(proofs, p.Entries(start, num)))
  {
    hide PutAll, PubRands;
  }

  /** With a fixed tip and every commit succeeding, two rounds leave nothing to commit, and the
      randomness then reaches past the delayed tip by a full batch. */
  lemma TwoRoundsSuffice(p: Provider, l: Ledger, tip: U64, activation: U64, delay: I64, num: U32, env1: CommitEnv, env2: CommitEnv)
    requires 0 <= delay && num >= 1 && Succeeds(env1) && Succeeds(env2)
    requires tip + delay + 2 * num < U64_LIMIT && activation + 2 * num < U64_LIMIT
    ensures var l2 := Round(p, Round(p, l, tip, activation, delay, num, env1), tip, activation, delay, num, env2);
            && LastCommitted(l2.commits) >= tip + delay + num
            && ShouldCommit(Ok(LastCommitted(l2.commits)), Ok(tip), Ok(activation), delay, num) == Ok(Enough)
  {
    hide Round;
    RoundAdvances(p, l, tip, activation, delay, num, env1);
    RoundAdvances(p, Round(p, l, tip, activation, delay, num, env1), tip, activation, delay, num, env2);
  }
}
