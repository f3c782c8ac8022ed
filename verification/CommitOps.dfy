/** The operations of the randomness committer, of the manual commit command and of the proof
    recovery command, on the chain and the proof bucket. */
module CommitOps {
  import opened Bytes
  import opened Keys
  import opened Lists
  import opened Maps
  import opened Wrappers
  import opened Crypto
  import opened EotsManager
  import opened ProofStore
  import opened Committer
  import opened CommitRuns

  /** The consumer chain's commitments of one provider, in ascending order. */
  class ConsumerChain {
    var commits: seq<PubRandCommit>

    constructor ()
      ensures commits == []
    {
      commits := [];
    }
  }

  /** Commits that follow one another without gap or overlap, from one height to the next free one. */
  ghost predicate Tiles(commits: seq<PubRandCommit>, from: int, to: int)
    decreases |commits|
  {
    if commits == [] then from == to else
      var c := commits[|commits| - 1];
      c.start + c.num == to && Tiles(commits[..|commits| - 1], from, c.start)
  }

  /** The commits that end at or after a height. */
  function FromHeight(commits: seq<PubRandCommit>, h: U64): seq<PubRandCommit> {
    if commits == [] then [] else
      var c := commits[|commits| - 1];
      FromHeight(commits[..|commits| - 1], h) + (if h <= c.End() then [c] else [])
  }

  ghost function EndsFrom(commits: seq<PubRandCommit>, h: U64): nat -> Option<PubRandCommit> {
    (i: nat) => if i < |commits| && h <= commits[i].End() then Some(commits[i]) else None
  }

  /** The listed commits are those that end at or after the height, each once and in order. */
  lemma {:induction false} FromHeightIsFilter(commits: seq<PubRandCommit>, h: U64)
    ensures Picks(|commits|, EndsFrom(commits, h), FromHeight(commits, h))
    ensures forall c :: c in FromHeight(commits, h) <==> c in commits && h <= c.End()
    decreases |commits|
  {
    hide Picks;
    var at := EndsFrom(commits, h);
    if commits == [] {
      PicksNothing(at);
    } else {
      var n := |commits| - 1;
      FromHeightIsFilter(commits[..n], h);
      PicksSame(n, EndsFrom(commits[..n], h), at, FromHeight(commits[..n], h));
      PicksOneMore(n, at, FromHeight(commits[..n], h));
      assert commits == commits[..n] + [commits[n]];
      assert FromHeight(commits[..n], h) + [] == FromHeight(commits[..n], h);
    }
  }

  /** The proofs after storing those of each listed commit. */
  ghost function StoreAll(p: Provider, list: seq<PubRandCommit>, proofs: Proofs): Proofs {
    if list == [] then proofs else
      var c := list[|list| - 1];
      PutAll(StoreAll(p, list[..|list| - 1], proofs), p.Entries(c.start, c.num))
  }

  /** The proofs of the first listed commits are stored, up to some commit. */
  ghost predicate StoredSome(p: Provider, list: seq<PubRandCommit>, before: Proofs, after: Proofs) {
    exists n :: 0 <= n <= |list| && after == StoreAll(p, list[..n], before)
  }

  /** The commit's size and root are what this provider recomputes, and the database accepts its proofs. */
  ghost predicate Recoverable(p: Provider, c: PubRandCommit, dbOk: bool) {
    c.num < U32_LIMIT && c.root == p.Root(c.start, c.num) && dbOk
  }

  lemma StoreOneMore(p: Provider, list: seq<PubRandCommit>, c: PubRandCommit, proofs: Proofs)
    ensures StoreAll(p, list + [c], proofs) == PutAll(StoreAll(p, list, proofs), p.Entries(c.start, c.num))
  {
    hide PutAll;
    assert (list + [c])[..|list|] == list;
  }

  lemma {:induction false} RecoveredIsStoreAll(p: Provider, commits: seq<PubRandCommit>, h: U64, proofs: Proofs)
    ensures Recovered(p, commits, h, proofs) == StoreAll(p, FromHeight(commits, h), proofs)
    decreases |commits|
  {
    hide PutAll, StoreAll;
    if commits == [] {
      StoreNothing(p, proofs);
    } else {
      var n := |commits| - 1;
      RecoveredIsStoreAll(p, commits[..n], h, proofs);
      StoreOneMore(p, FromHeight(commits[..n], h), commits[n], proofs);
      assert FromHeight(commits[..n], h) + [] == FromHeight(commits[..n], h);
    }
  }

  lemma StoreNothing(p: Provider, proofs: Proofs)
    ensures StoreAll(p, [], proofs) == proofs
  {
  }

  /** The commits added since `before` are of one size and tile the heights from `start` up to `next`. */
  ghost predicate TiledTo(before: seq<PubRandCommit>, commits: seq<PubRandCommit>, start: U64, next: int, num: U32) {
    && before <= commits
    && Tiles(commits[|before|..], start, next)
    && (|commits| > |before| ==> LastCommitted(commits) + 1 == next)
    && (next == start ==> commits == before)
    && forall i :: |before| <= i < |commits| ==> commits[i].num == num
  }

  lemma TiledNothing(before: seq<PubRandCommit>, start: U64, num: U32)
    ensures TiledTo(before, before, start, start, num)
  {
    assert before[|before|..] == [];
  }

  lemma TiledOneMore(before: seq<PubRandCommit>, commits: seq<PubRandCommit>, start: U64, num: U32, c: PubRandCommit)
    requires TiledTo(before, commits, start, c.start, num) && c.num == num >= 1 && start <= c.start && c.start + num < U64_LIMIT
    ensures TiledTo(before, commits + [c], start, c.start + num, num)
  {
    var added := (commits + [c])[|before|..];
    assert added[..|added| - 1] == commits[|before|..];
  }

  class RandomnessCommitter {
    const em: LocalEotsManager
    const store: PubRandProofStore
    const chain: ConsumerChain
    const btcPk: ByteString
    const chainId: ByteString
    const numPubRand: U32

    constructor (em: LocalEotsManager, store: PubRandProofStore, chain: ConsumerChain,
                 btcPk: ByteString, chainId: ByteString, numPubRand: U32)
      ensures this.em == em && this.store == store && this.chain == chain
      ensures this.btcPk == btcPk && this.chainId == chainId && this.numPubRand == numPubRand
    {
      this.em, this.store, this.chain, this.btcPk, this.chainId, this.numPubRand := em, store, chain, btcPk, chainId, numPubRand;
    }

    /** Whose randomness this commits, once the key is at hand. */
    ghost function Self(): Provider
      reads em, em.es
      requires em.Key(btcPk).Ok?
    {
      Provider(em.suite, em.Key(btcPk).value, chainId, btcPk)
    }

    ghost function State(): Ledger
      reads store, chain
    {
      Ledger(chain.commits, store.bucket)
    }

    /** Commit */
    method Commit(startHeight: U64, env: CommitEnv) returns (r: Result<()>)
      requires env.keyOk <==> em.Key(btcPk).Ok?
      modifies store, chain
      ensures !env.keyOk ==> r.Err? && State() == old(State())
      ensures env.keyOk ==> State() == CommitTo(Self(), old(State()), startHeight, numPubRand, env)
      ensures r.Ok? <==> env.keyOk && env.dbOk && env.signOk && env.reply.Accepted?
      ensures env.keyOk && env.dbOk ==> store.bucket == PutAll(old(store.bucket), Self().Entries(startHeight, numPubRand))
      ensures !env.keyOk || !env.dbOk ==> store.bucket == old(store.bucket)
      ensures env.keyOk && env.dbOk && env.signOk && !env.reply.Rejected? ==>
                chain.commits == old(chain.commits) + [PubRandCommit(startHeight, numPubRand, Self().Root(startHeight, numPubRand))]
      ensures !env.keyOk || !env.dbOk || !env.signOk || env.reply.Rejected? ==> chain.commits == old(chain.commits)
    {
      hide PubRands, PutAll, ProofEntries;
      var list := em.PubRandList(btcPk, chainId, startHeight, numPubRand);
      if list.Err? {
        return Err(list.error);
      }
      var root, proofs := em.suite.merkleRoot(list.value), em.suite.merkleProofs(list.value);
      var saved := store.AddPubRandProofList(chainId, btcPk, startHeight, numPubRand, proofs, 1, env.dbOk);
      if saved.Err? {
        return Err(saved.error);
      }
      if !env.signOk {
        return Err(SignFailed);
      }
      if env.reply.Rejected? {
        return Err(SubmissionFailed);
      }
      chain.commits := chain.commits + [PubRandCommit(startHeight, |list.value|, root)];
      if env.reply.AcceptedUnseen? {
        return Err(SubmissionFailed);
      }
      r := Ok(());
    }

    /** A commit above the last one keeps what every run keeps. It adds its range or nothing; a successful one
        adds it. */
    method CommitAbove(startHeight: U64, env: CommitEnv, ghost floor: int) returns (r: Result<()>)
      requires numPubRand >= 1 && startHeight + numPubRand < U64_LIMIT
      requires LastCommitted(chain.commits) < startHeight
      requires env.keyOk <==> em.Key(btcPk).Ok?
      modifies store, chain
      ensures old(chain.commits) <= chain.commits
      ensures |chain.commits| <= |old(chain.commits)| + 1
      ensures |chain.commits| > |old(chain.commits)| ==>
                && chain.commits[|old(chain.commits)|].start == startHeight
                && chain.commits[|old(chain.commits)|].num == numPubRand
      ensures r.Ok? ==> |chain.commits| == |old(chain.commits)| + 1
      ensures r.Ok? <==> env.keyOk && env.dbOk && env.signOk && env.reply.Accepted?
      ensures em.Key(btcPk).Ok? && old(Inv(Self(), World(State(), floor))) ==> Inv(Self(), World(State(), floor))
    {
      hide Inv, PutAll;
      ghost var l := State();
      if em.Key(btcPk).Ok? && Inv(Self(), World(l, floor)) {
        CommitKeeps(Self(), World(l, floor), startHeight, numPubRand, env);
      }
      r := Commit(startHeight, env);
    }

    /** CommitPubRandWithStartHeight: commits batch after batch until the target is covered. On success
        the new commits tile the heights from the start without gap or overlap, and reach the target
        by less than one batch. It succeeds if it may start and every commit succeeds. Failed or not, the new
        commits tile from the start, and the call keeps what every run keeps. */
    method CommitPubRandWithStartHeight(startHeight: U64, targetHeight: U64, queryOk: bool, envs: nat -> CommitEnv, ghost floor: int)
      returns (r: Result<()>)
      requires numPubRand >= 1 && targetHeight + numPubRand < U64_LIMIT
      requires forall i :: envs(i).keyOk <==> em.Key(btcPk).Ok?
      modifies store, chain
      ensures old(chain.commits) <= chain.commits
      ensures startHeight <= targetHeight && queryOk && old(LastCommitted(chain.commits)) < startHeight && (forall i :: Succeeds(envs(i))) ==>
                r.Ok?
      ensures |chain.commits| > |old(chain.commits)| ==>
                Tiles(chain.commits[|old(chain.commits)|..], startHeight, LastCommitted(chain.commits) + 1)
      ensures forall i :: |old(chain.commits)| <= i < |chain.commits| ==> chain.commits[i].num == numPubRand
      ensures r.Ok? ==>
                && old(LastCommitted(chain.commits)) < startHeight <= targetHeight
                && Tiles(chain.commits[|old(chain.commits)|..], startHeight, LastCommitted(chain.commits) + 1)
                && targetHeight <= LastCommitted(chain.commits) < targetHeight + numPubRand
      ensures startHeight > targetHeight || !queryOk || old(LastCommitted(chain.commits)) >= startHeight ==>
                r.Err? && State() == old(State())
      ensures em.Key(btcPk).Ok? && old(Inv(Self(), World(State(), floor))) ==> Inv(Self(), World(State(), floor))
    {
      hide Inv, Tiles, CommitTo;
      if startHeight > targetHeight {
        return Err(StartAboveTarget);
      }
      if !queryOk {
        return Err(QueryFailed);
      }
      if LastCommitted(chain.commits) >= startHeight {
        return Err(AlreadyCommitted);
      }
      r := CommitBatches(startHeight, targetHeight, envs, floor);
    }

    /** The loop of CommitPubRandWithStartHeight. */
    method CommitBatches(startHeight: U64, targetHeight: U64, envs: nat -> CommitEnv, ghost floor: int) returns (r: Result<()>)
      requires numPubRand >= 1 && targetHeight + numPubRand < U64_LIMIT
      requires LastCommitted(chain.commits) < startHeight <= targetHeight
      requires forall i :: envs(i).keyOk <==> em.Key(btcPk).Ok?
      modifies store, chain
      ensures exists next :: TiledTo(old(chain.commits), chain.commits, startHeight, next, numPubRand)
      ensures (forall i :: Succeeds(envs(i))) ==> r.Ok?
      ensures r.Ok? ==> |chain.commits| > |old(chain.commits)| && targetHeight <= LastCommitted(chain.commits) < targetHeight + numPubRand
      ensures em.Key(btcPk).Ok? && old(Inv(Self(), World(State(), floor))) ==> Inv(Self(), World(State(), floor))
    {
      hide Inv, Tiles, CommitTo;
      ghost var before := chain.commits;
      var next := startHeight;
      var j := 0;
      TiledNothing(before, startHeight, numPubRand);
      while next <= targetHeight
        invariant startHeight <= next < targetHeight + numPubRand + 1
        invariant TiledTo(before, chain.commits, startHeight, next, numPubRand)
        invariant next > startHeight ==> |chain.commits| > |before|
        invariant em.Key(btcPk).Ok? && old(Inv(Self(), World(State(), floor))) ==> Inv(Self(), World(State(), floor))
        decreases targetHeight - next
      {
        ghost var commits := chain.commits;
        var c := CommitAbove(next, envs(j), floor);
        if |chain.commits| > |commits| {
          assert chain.commits == commits + [chain.commits[|commits|]];
          TiledOneMore(before, commits, startHeight, numPubRand, chain.commits[|commits|]);
        } else {
          assert chain.commits == commits;
        }
        if c.Err? {
          return Err(c.error);
        }
        next := next + numPubRand;
        j := j + 1;
      }
      r := Ok(());
    }

    /** CommitPubRand: continues after the last commit, but refuses whenever the last committed height
        reads as zero, which it does when nothing was ever committed. The last height is queried twice. */
    method CommitPubRand(targetHeight: U64, queryOk: bool, againOk: bool, envs: nat -> CommitEnv, ghost floor: int) returns (r: Result<()>)
      requires numPubRand >= 1 && targetHeight + numPubRand < U64_LIMIT
      requires forall i :: envs(i).keyOk <==> em.Key(btcPk).Ok?
      modifies store, chain
      ensures old(chain.commits) == [] ==> r.Err? && State() == old(State())
      ensures old(LastCommitted(chain.commits)) == 0 ==> r.Err? && State() == old(State())
      ensures !queryOk || !againOk || old(LastCommitted(chain.commits)) >= targetHeight ==> r.Err? && State() == old(State())
      ensures queryOk && againOk && 0 < old(LastCommitted(chain.commits)) < targetHeight && (forall i :: Succeeds(envs(i))) ==> r.Ok?
      ensures r.Ok? ==>
                && old(chain.commits) <= chain.commits
                && Tiles(chain.commits[|old(chain.commits)|..], old(LastCommitted(chain.commits)) + 1, LastCommitted(chain.commits) + 1)
                && targetHeight <= LastCommitted(chain.commits) < targetHeight + numPubRand
      ensures em.Key(btcPk).Ok? && old(Inv(Self(), World(State(), floor))) ==> Inv(Self(), World(State(), floor))
    {
      hide Inv, Tiles;
      if !queryOk {
        return Err(QueryFailed);
      }
      var last := LastCommitted(chain.commits);
      if last >= targetHeight {
        return Err(AlreadyCommitted);
      }
      var startHeight := if last == 0 then 0 else last + 1;
      r := CommitPubRandWithStartHeight(startHeight, targetHeight, againOk, envs, floor);
    }

    /** QueryPubRandCommitList: one commit a page, in ascending order; `pagesOk` says which page
        queries succeed. */
    method QueryPubRandCommitList(startHeight: U64, pagesOk: nat -> bool) returns (r: Result<seq<PubRandCommit>>)
      ensures r.Ok? ==> r.value == FromHeight(chain.commits, startHeight)
      ensures r.Ok? <==> && pagesOk(0)
                         && forall i :: 0 <= i < |chain.commits| ==> pagesOk(i) && chain.commits[i].num >= 1
    {
      var list: seq<PubRandCommit> := [];
      var page := 0;
      if !pagesOk(page) {
        return Err(QueryFailed);
      }
      if |chain.commits| == 0 {
        return Ok([]);
      }
      while true
        invariant page < |chain.commits|
        invariant pagesOk(0) && forall i :: 0 <= i < page ==> pagesOk(i) && chain.commits[i].num >= 1
        invariant list == FromHeight(chain.commits[..page], startHeight)
        decreases |chain.commits| - page
      {
        if !pagesOk(page) {
          return Err(QueryFailed);
        }
        var commit := chain.commits[page];
        if commit.num < 1 {
          return Err(QueryFailed);
        }
        if startHeight <= commit.End() {
          list := list + [commit];
        }
        assert chain.commits[..page + 1][..page] == chain.commits[..page];
        if page + 1 == |chain.commits| {
          break;
        }
        page := page + 1;
      }
      assert chain.commits[..|chain.commits|] == chain.commits;
      r := Ok(list);
    }

    /** One commit of the recovery command: recompute its randomness, insist on the root the chain
        holds, store the proofs again. */
    method RecoverCommit(commit: PubRandCommit, dbOk: bool) returns (r: Result<()>)
      modifies store
      ensures r.Ok? <==> && commit.num < U32_LIMIT && em.Key(btcPk).Ok? && dbOk
                         && commit.root == Self().Root(commit.start, commit.num)
      ensures r.Ok? ==> store.bucket == PutAll(old(store.bucket), Self().Entries(commit.start, commit.num))
      ensures r.Err? ==> store.bucket == old(store.bucket)
    {
      hide PubRands, PutAll, ProofEntries;
      if commit.num >= U32_LIMIT {
        return Err(TooManyValues);
      }
      var rands := em.PubRandList(btcPk, chainId, commit.start, commit.num);
      if rands.Err? {
        return Err(rands.error);
      }
      var root, proofs := em.suite.merkleRoot(rands.value), em.suite.merkleProofs(rands.value);
      if root != commit.root {
        return Err(RootMismatch);
      }
      r := store.AddPubRandProofList(chainId, btcPk, commit.start, commit.num, proofs, 1, dbOk);
    }

    /** The loop of the recovery command over the listed commits. */
    method RecoverEach(commits: seq<PubRandCommit>, dbOk: nat -> bool, ghost p: Provider) returns (r: Result<()>)
      requires em.Key(btcPk).Ok? ==> p == Self()
      modifies store
      ensures em.Key(btcPk).Err? ==> store.bucket == old(store.bucket)
      ensures r.Ok? ==> store.bucket == StoreAll(p, commits, old(store.bucket))
      ensures r.Ok? <==> || commits == []
                         || (em.Key(btcPk).Ok? && forall i :: 0 <= i < |commits| ==> Recoverable(p, commits[i], dbOk(i)))
      ensures StoredSome(p, commits, old(store.bucket), store.bucket)
    {
      hide PutAll;
      for i := 0 to |commits|
        invariant em.Key(btcPk).Err? ==> i == 0
        invariant store.bucket == StoreAll(p, commits[..i], old(store.bucket))
        invariant forall j :: 0 <= j < i ==> Recoverable(p, commits[j], dbOk(j))
      {
        var one := RecoverCommit(commits[i], dbOk(i));
        if one.Err? {
          return one;
        }
        assert commits[..i + 1][..i] == commits[..i];
      }
      assert commits[..|commits|] == commits;
      r := Ok(());
    }

    /** The recovery command: every commit that ends at or after the height, in order. It succeeds on
        what this provider itself committed, and only if the roots agree. */
    method RecoverProofs(startHeight: U64, pagesOk: nat -> bool, dbOk: nat -> bool) returns (r: Result<()>)
      modifies store
      ensures r.Ok? && em.Key(btcPk).Ok? ==>
                && store.bucket == Recovered(Self(), chain.commits, startHeight, old(store.bucket))
                && forall c :: c in chain.commits && startHeight <= c.End() ==> c.root == Self().Root(c.start, c.num)
      ensures em.Key(btcPk).Ok? && CommitsOk(Self(), chain.commits) && (forall i :: pagesOk(i) && dbOk(i)) ==> r.Ok?
      ensures em.Key(btcPk).Err? ==> store.bucket == old(store.bucket)
      ensures r.Err? && em.Key(btcPk).Ok? ==> StoredSome(Self(), FromHeight(chain.commits, startHeight), old(store.bucket), store.bucket)
    {
      hide StoreAll, FromHeight, Recovered;
      ghost var p := if em.Key(btcPk).Ok? then Self() else Provider(em.suite, 0, chainId, btcPk);
      StoreNothing(p, store.bucket);
      assert FromHeight(chain.commits, startHeight)[..0] == [];
      var list := QueryPubRandCommitList(startHeight, pagesOk);
      if list.Err? {
        return Err(list.error);
      }
      FromHeightIsFilter(chain.commits, startHeight);
      RecoveredIsStoreAll(p, chain.commits, startHeight, store.bucket);
      r := RecoverEach(list.value, dbOk, p);
    }
  }
}
