/** Randomness commitment over whole runs: rounds of the commitment loop, manual commits, failed
    attempts, restarts with another configuration, pruning, loss and recovery of proofs, and other
    providers that share the proof bucket. */
module CommitRuns {
  import opened Bytes
  import opened Keys
  import opened Maps
  import opened Wrappers
  import opened Crypto
  import opened ProofStore
  import opened Committer

  /** NumPubRand and TimestampingDelayBlocks */
  datatype Config = Config(num: U32, delay: I64)

  /** The ledger, and the height above which no proof has been given up. */
  datatype World = World(ledger: Ledger, floor: int)

  datatype Step =
    | CommitRound(cfg: Config, tip: U64, activation: U64, env: CommitEnv)
    | ManualCommit(num: U32, start: U64, env: CommitEnv)
    | Prune(target: U64)
    | Lose(kept: set<ByteString>)
    | Recover(fromHeight: U64)
    | OtherAdd(chainId: ByteString, pk: ByteString, start: U64, proofs: seq<ByteString>)
    | OtherPrune(chainId: ByteString, pk: ByteString, target: U64)

  /** Proofs of one provider after the scan of RemovePubRandProofList. */
  ghost function Pruned(proofs: Proofs, chainId: ByteString, pk: ByteString, target: U64): Proofs
    requires |pk| == PK_LEN
  {
    map k | k in proofs && !Scanned(proofs.Keys, chainId + pk, target, k) :: proofs[k]
  }

  /** Proofs after recovering every commit that ends at or after a height. */
  ghost function Recovered(p: Provider, commits: seq<PubRandCommit>, fromHeight: U64, proofs: Proofs): Proofs {
    if commits == [] then proofs else
      var c := commits[|commits| - 1];
      var before := Recovered(p, commits[..|commits| - 1], fromHeight, proofs);
      if fromHeight <= c.End() then PutAll(before, p.Entries(c.start, c.num)) else before
  }

  /** One step. Heights stay clear of the end of the 64-bit range, so no commit wraps around. */
  ghost predicate Next(p: Provider, w: World, w': World, step: Step)
    requires |p.pk| == PK_LEN
  {
    match step
    case CommitRound(cfg, tip, activation, env) =>
      && cfg.num >= 1
      && var d := ShouldCommit(Ok(LastCommitted(w.ledger.commits)), Ok(tip), Ok(activation), cfg.delay, cfg.num);
         if d.Ok? && d.value.CommitFrom?
         then d.value.start + cfg.num < U64_LIMIT && w' == w.(ledger := CommitTo(p, w.ledger, d.value.start, cfg.num, env))
         else w' == w
    case ManualCommit(num, start, env) =>
      && num >= 1 && start + num < U64_LIMIT && LastCommitted(w.ledger.commits) < start
      && w' == w.(ledger := CommitTo(p, w.ledger, start, num, env))
    case Prune(target) =>
      w' == World(w.ledger.(proofs := Pruned(w.ledger.proofs, p.chainId, p.pk, target)), if w.floor < target then target else w.floor)
    case Lose(kept) =>
      w' == World(w.ledger.(proofs := map k | k in w.ledger.proofs && k in kept :: w.ledger.proofs[k]), MAX_U64)
    case Recover(fromHeight) =>
      w' == World(w.ledger.(proofs := Recovered(p, w.ledger.commits, fromHeight, w.ledger.proofs)),
                  if fromHeight - 1 < w.floor then fromHeight - 1 else w.floor)
    case OtherAdd(chainId, pk, start, proofs) =>
      && |pk| == PK_LEN && (chainId != p.chainId || pk != p.pk) && start + |proofs| <= U64_LIMIT
      && w' == w.(ledger := w.ledger.(proofs := PutAll(w.ledger.proofs, ProofEntries(chainId, pk, start, 1, proofs))))
    case OtherPrune(chainId, pk, target) =>
      && |pk| == PK_LEN && (chainId != p.chainId || pk != p.pk) && PrefixFree(chainId, p.chainId)
      && w' == w.(ledger := w.ledger.(proofs := Pruned(w.ledger.proofs, chainId, pk, target)))
  }

  ghost predicate Steps(p: Provider, w: World, w': World)
    requires |p.pk| == PK_LEN
  {
    exists step :: Next(p, w, w', step)
  }

  const INIT: World := World(Ledger([], map[]), -1)

  ghost predicate Run(p: Provider, run: seq<World>)
    requires |p.pk| == PK_LEN
  {
    && run != [] && run[0] == INIT
    && forall i :: 0 <= i < |run| - 1 ==> Steps(p, run[i], run[i + 1])
  }

  // ----- invariant -----

  predicate WellFormed(c: PubRandCommit) {
    1 <= c.num < U32_LIMIT && c.start + c.num < U64_LIMIT
  }

  /** Ranges are increasing and disjoint, and each root commits to its own range. */
  ghost predicate CommitsOk(p: Provider, commits: seq<PubRandCommit>) {
    && (forall i :: 0 <= i < |commits| ==> WellFormed(commits[i]) && commits[i].root == p.Root(commits[i].start, commits[i].num))
    && (forall i, j :: 0 <= i < j < |commits| ==> commits[i].End() < commits[j].start)
  }

  /** The proof of a covered height is the one of the commit's own tree. */
  ghost predicate ProofOk(p: Provider, proofs: Proofs, c: PubRandCommit, h: U64) {
    c.Covers(h) ==> p.Key(h) in proofs && proofs[p.Key(h)] == p.Proofs(c.start, c.num)[h - c.start]
  }

  ghost predicate ProofsOk(p: Provider, l: Ledger, floor: int) {
    forall i, h: U64 :: 0 <= i < |l.commits| && h > floor ==> ProofOk(p, l.proofs, l.commits[i], h)
  }

  ghost predicate Inv(p: Provider, w: World) {
    CommitsOk(p, w.ledger.commits) && ProofsOk(p, w.ledger, w.floor)
  }

  lemma LastIsHighest(p: Provider, commits: seq<PubRandCommit>, i: nat)
    requires CommitsOk(p, commits) && i < |commits|
    ensures commits[i].End() <= LastCommitted(commits)
    ensures commits[i].End() == commits[i].start + commits[i].num - 1
  {
    assert WellFormed(commits[i]) && WellFormed(commits[|commits| - 1]);
  }

  // ----- preservation -----

  /** Storing the proofs of a commit makes them right. */
  lemma StorePuts(p: Provider, proofs: Proofs, c: PubRandCommit, h: U64)
    requires WellFormed(c)
    ensures ProofOk(p, PutAll(proofs, p.Entries(c.start, c.num)), c, h)
  {
    hide RecordKey, HeightAt, PutAll, PubRands, ProofEntries;
    StoredAt(proofs, p.chainId, p.pk, c.start, p.Proofs(c.start, c.num), h);
  }

  /** Storing the proofs of [start, start + num) keeps those of a commit that ends below or starts above. */
  lemma StoreKeeps(p: Provider, proofs: Proofs, start: U64, num: U32, c: PubRandCommit, h: U64)
    requires start + num < U64_LIMIT && WellFormed(c)
    requires c.End() < start || start + num <= c.start
    requires ProofOk(p, proofs, c, h)
    ensures ProofOk(p, PutAll(proofs, p.Entries(start, num)), c, h)
  {
    hide RecordKey, HeightAt, PutAll, PubRands, ProofEntries;
    StoredAt(proofs, p.chainId, p.pk, start, p.Proofs(start, num), h);
  }

  /** A commit, whatever becomes of it, keeps the proofs of the commits below it. */
  lemma CommitKeepsProofs(p: Provider, w: World, start: U64, num: U32)
    requires Inv(p, w)
    requires LastCommitted(w.ledger.commits) < start && start + num < U64_LIMIT
    ensures ProofsOk(p, w.ledger.(proofs := PutAll(w.ledger.proofs, p.Entries(start, num))), w.floor)
  {
    hide PutAll, ProofOk, LastCommitted;
    forall i, h: U64 | 0 <= i < |w.ledger.commits| && h > w.floor
      ensures ProofOk(p, PutAll(w.ledger.proofs, p.Entries(start, num)), w.ledger.commits[i], h)
    {
      LastIsHighest(p, w.ledger.commits, i);
      StoreKeeps(p, w.ledger.proofs, start, num, w.ledger.commits[i], h);
    }
  }

  lemma CommitKeeps(p: Provider, w: World, start: U64, num: U32, env: CommitEnv)
    requires Inv(p, w)
    requires num >= 1 && LastCommitted(w.ledger.commits) < start && start + num < U64_LIMIT
    ensures Inv(p, w.(ledger := CommitTo(p, w.ledger, start, num, env)))
  {
    hide PutAll, ProofOk, LastCommitted;
    var l, l' := w.ledger, CommitTo(p, w.ledger, start, num, env);
    CommitKeepsProofs(p, w, start, num);
    if |l'.commits| > |l.commits| {
      var c := PubRandCommit(start, num, p.Root(start, num));
      forall i | 0 <= i < |l.commits| ensures l.commits[i].End() < start {
        LastIsHighest(p, l.commits, i);
      }
      forall h: U64 ensures ProofOk(p, l'.proofs, c, h) {
        StorePuts(p, l.proofs, c, h);
      }
    }
  }

  /** Pruning up to a target keeps the proofs above it, foreign keys or not. */
  lemma PruneKeeps(p: Provider, w: World, target: U64)
    requires Inv(p, w) && |p.pk| == PK_LEN
    ensures ProofsOk(p, w.ledger.(proofs := Pruned(w.ledger.proofs, p.chainId, p.pk, target)), if w.floor < target then target else w.floor)
  {
    hide RecordKey, TailHeight, Before;
    var after := Pruned(w.ledger.proofs, p.chainId, p.pk, target);
    forall i, h: U64 | 0 <= i < |w.ledger.commits| && h > w.floor && h > target
      ensures ProofOk(p, after, w.ledger.commits[i], h)
    {
      assert ProofOk(p, w.ledger.proofs, w.ledger.commits[i], h);
      RecordKeyHasPrefix(p.chainId, p.pk, h);
      RecordKeyOrder(p.chainId, p.pk, h, h);
      assert TailHeight(p.Key(h)) == h;
    }
  }

  /** Pruning for another provider keeps everything of this one, given prefix-free chain ids. */
  lemma OtherPruneKeeps(p: Provider, w: World, chainId: ByteString, pk: ByteString, target: U64)
    requires Inv(p, w) && |p.pk| == PK_LEN && |pk| == PK_LEN
    requires (chainId != p.chainId || pk != p.pk) && PrefixFree(chainId, p.chainId)
    ensures ProofsOk(p, w.ledger.(proofs := Pruned(w.ledger.proofs, chainId, pk, target)), w.floor)
  {
    hide RecordKey, TailHeight, HasKeyPrefix;
    var after := Pruned(w.ledger.proofs, chainId, pk, target);
    forall i, h: U64 | 0 <= i < |w.ledger.commits| && h > w.floor
      ensures ProofOk(p, after, w.ledger.commits[i], h)
    {
      assert ProofOk(p, w.ledger.proofs, w.ledger.commits[i], h);
      HasKeyPrefixIsPrefix(p.Key(h), chainId, pk);
      if HasKeyPrefix(p.Key(h), chainId, pk) {
        PrefixFreeExcludesForeign(chainId, pk, p.chainId, p.pk, h);
      }
    }
  }

  lemma OtherAddKeeps(p: Provider, w: World, chainId: ByteString, pk: ByteString, start: U64, proofs: seq<ByteString>)
    requires Inv(p, w) && |p.pk| == |pk| && (chainId != p.chainId || pk != p.pk) && start + |proofs| <= U64_LIMIT
    ensures ProofsOk(p, w.ledger.(proofs := PutAll(w.ledger.proofs, ProofEntries(chainId, pk, start, 1, proofs))), w.floor)
  {
    hide RecordKey, PutAll, ProofEntries;
    var after := PutAll(w.ledger.proofs, ProofEntries(chainId, pk, start, 1, proofs));
    forall i, h: U64 | 0 <= i < |w.ledger.commits| && h > w.floor
      ensures ProofOk(p, after, w.ledger.commits[i], h)
    {
      assert ProofOk(p, w.ledger.proofs, w.ledger.commits[i], h);
      OthersKept(w.ledger.proofs, chainId, pk, start, proofs, p.chainId, p.pk, h);
    }
  }

  // ----- recovery -----

  lemma CommitsPrefix(p: Provider, commits: seq<PubRandCommit>)
    requires CommitsOk(p, commits) && commits != []
    ensures CommitsOk(p, commits[..|commits| - 1])
    ensures WellFormed(commits[|commits| - 1])
    ensures forall i :: 0 <= i < |commits| - 1 ==> WellFormed(commits[i]) && commits[i].End() < commits[|commits| - 1].start
  {
  }

  /** Recovery leaves a proof where it is right, and puts it where its commit is recovered. */
  lemma {:induction false} RecoveredAt(p: Provider, commits: seq<PubRandCommit>, fromHeight: U64, proofs: Proofs, i: nat, h: U64)
    requires CommitsOk(p, commits) && i < |commits|
    requires fromHeight <= commits[i].End() || ProofOk(p, proofs, commits[i], h)
    ensures ProofOk(p, Recovered(p, commits, fromHeight, proofs), commits[i], h)
    decreases |commits|
  {
    hide PutAll, ProofOk, CommitsOk;
    var n := |commits| - 1;
    var c, before := commits[n], Recovered(p, commits[..n], fromHeight, proofs);
    CommitsPrefix(p, commits);
    if i < n {
      RecoveredAt(p, commits[..n], fromHeight, proofs, i, h);
      StoreKeeps(p, before, c.start, c.num, commits[i], h);
    } else if fromHeight <= c.End() {
      StorePuts(p, before, c, h);
    } else {
      RecoveredKeeps(p, commits[..n], fromHeight, proofs, c, h);
    }
  }

  /** Recovering other commits does not touch the heights of a later one. */
  lemma {:induction false} RecoveredKeeps(p: Provider, commits: seq<PubRandCommit>, fromHeight: U64, proofs: Proofs, c: PubRandCommit, h: U64)
    requires CommitsOk(p, commits) && WellFormed(c)
    requires forall i :: 0 <= i < |commits| ==> commits[i].End() < c.start
    requires ProofOk(p, proofs, c, h)
    ensures ProofOk(p, Recovered(p, commits, fromHeight, proofs), c, h)
    decreases |commits|
  {
    hide PutAll, ProofOk, CommitsOk;
    if commits != [] {
      var n := |commits| - 1;
      CommitsPrefix(p, commits);
      RecoveredKeeps(p, commits[..n], fromHeight, proofs, c, h);
      StoreKeeps(p, Recovered(p, commits[..n], fromHeight, proofs), commits[n].start, commits[n].num, c, h);
    }
  }

  lemma RecoverKeeps(p: Provider, w: World, fromHeight: U64)
    requires Inv(p, w)
    ensures ProofsOk(p, w.ledger.(proofs := Recovered(p, w.ledger.commits, fromHeight, w.ledger.proofs)),
                     if fromHeight - 1 < w.floor then fromHeight - 1 else w.floor)
  {
    hide RecordKey, Recovered;
    var after := Recovered(p, w.ledger.commits, fromHeight, w.ledger.proofs);
    forall i, h: U64 | 0 <= i < |w.ledger.commits| && h > (if fromHeight - 1 < w.floor then fromHeight - 1 else w.floor)
      ensures ProofOk(p, after, w.ledger.commits[i], h)
    {
      var c := w.ledger.commits[i];
      assert WellFormed(c);
      if c.Covers(h) {
        if h > w.floor {
          assert ProofOk(p, w.ledger.proofs, c, h);
        }
        RecoveredAt(p, w.ledger.commits, fromHeight, w.ledger.proofs, i, h);
      }
    }
  }

  /** After any loss, recovery from a height restores, for every commit that ends at or after it,
      exactly the proofs that committing it had stored. */
  lemma RecoveryRestores(p: Provider, commits: seq<PubRandCommit>, fromHeight: U64, damaged: Proofs, i: nat, h: U64)
    requires CommitsOk(p, commits) && i < |commits|
    requires fromHeight <= commits[i].End() && commits[i].Covers(h)
    ensures var stored := PutAll(map[], p.Entries(commits[i].start, commits[i].num));
            var recovered := Recovered(p, commits, fromHeight, damaged);
            p.Key(h) in stored && p.Key(h) in recovered && recovered[p.Key(h)] == stored[p.Key(h)]
  {
    hide PutAll, Recovered;
    assert WellFormed(commits[i]);
    RecoveredAt(p, commits, fromHeight, damaged, i, h);
    StorePuts(p, map[], commits[i], h);
  }

  // ----- every run -----

  lemma InvStep(p: Provider, w: World, w': World, step: Step)
    requires |p.pk| == PK_LEN && Inv(p, w) && Next(p, w, w', step)
    ensures Inv(p, w')
  {
    hide RecordKey, HeightAt, PutAll, PubRands, ProofEntries, CommitsOk, ProofsOk, Pruned, Recovered, CommitTo;
    match step
    case CommitRound(cfg, tip, activation, env) =>
      var d := ShouldCommit(Ok(LastCommitted(w.ledger.commits)), Ok(tip), Ok(activation), cfg.delay, cfg.num);
      if d.Ok? && d.value.CommitFrom? {
        CommitKeeps(p, w, d.value.start, cfg.num, env);
      }
    case ManualCommit(num, start, env) => CommitKeeps(p, w, start, num, env);
    case Prune(target) => PruneKeeps(p, w, target);
    case Lose(kept) => NothingAboveMax(p, w'.ledger);
    case Recover(fromHeight) => RecoverKeeps(p, w, fromHeight);
    case OtherAdd(chainId, pk, start, proofs) => OtherAddKeeps(p, w, chainId, pk, start, proofs);
    case OtherPrune(chainId, pk, target) => OtherPruneKeeps(p, w, chainId, pk, target);
  }

  lemma NothingAboveMax(p: Provider, l: Ledger)
    ensures ProofsOk(p, l, MAX_U64)
  {
  }

  /** In every run, the committed ranges are disjoint and increasing, each root commits to the
      randomness of its own range, and every committed height that was not given up has locally
      exactly the proof of its commit's own tree. */
  lemma {:induction false} RunInv(p: Provider, run: seq<World>)
    requires |p.pk| == PK_LEN && Run(p, run)
    ensures Inv(p, run[|run| - 1])
    decreases |run|
  {
    hide Next, CommitsOk, ProofsOk;
    var n := |run| - 1;
    if n > 0 {
      RunInv(p, run[..n]);
      assert Steps(p, run[n - 1], run[n]);
      var step :| Next(p, run[n - 1], run[n], step);
      InvStep(p, run[n - 1], run[n], step);
    } else {
      NothingCommitted(p);
    }
  }

  /** In every run, the last committed height is zero when nothing is committed, and otherwise the highest one
      that any commitment covers. */
  lemma LastCommittedIsHighest(p: Provider, run: seq<World>)
    requires |p.pk| == PK_LEN && Run(p, run)
    ensures var commits := run[|run| - 1].ledger.commits;
            && (commits == [] ==> LastCommitted(commits) == 0)
            && (commits != [] ==> exists i :: 0 <= i < |commits| && commits[i].Covers(LastCommitted(commits)))
            && (forall i, h: U64 :: 0 <= i < |commits| && commits[i].Covers(h) ==> h <= LastCommitted(commits))
  {
    hide Steps, ProofsOk, LastCommitted;
    RunInv(p, run);
    var commits := run[|run| - 1].ledger.commits;
    LastCommittedOf(commits);
    forall i, h: U64 | 0 <= i < |commits| && commits[i].Covers(h) ensures h <= LastCommitted(commits) {
      LastIsHighest(p, commits, i);
    }
    if commits != [] {
      LastIsHighest(p, commits, |commits| - 1);
      assert commits[|commits| - 1].Covers(LastCommitted(commits));
    }
  }

  lemma LastCommittedOf(commits: seq<PubRandCommit>)
    ensures commits == [] ==> LastCommitted(commits) == 0
    ensures commits != [] ==> LastCommitted(commits) == commits[|commits| - 1].End()
  {
  }

  /** The operations on values are steps of the machine: a round of the loop, a manual commit above the last one,
      pruning and recovery. */
  lemma OperationsAreSteps(p: Provider, w: World, cfg: Config, tip: U64, activation: U64, env: CommitEnv, start: U64, h: U64)
    requires |p.pk| == PK_LEN && cfg.num >= 1 && tip + cfg.delay + 2 * cfg.num < U64_LIMIT && activation + 2 * cfg.num < U64_LIMIT
    ensures Steps(p, w, w.(ledger := Round(p, w.ledger, tip, activation, cfg.delay, cfg.num, env)))
    ensures start + cfg.num < U64_LIMIT && LastCommitted(w.ledger.commits) < start ==>
              Steps(p, w, w.(ledger := CommitTo(p, w.ledger, start, cfg.num, env)))
    ensures Steps(p, w, World(w.ledger.(proofs := Pruned(w.ledger.proofs, p.chainId, p.pk, h)), if w.floor < h then h else w.floor))
    ensures Steps(p, w, World(w.ledger.(proofs := Recovered(p, w.ledger.commits, h, w.ledger.proofs)),
                              if h - 1 < w.floor then h - 1 else w.floor))
  {
    hide CommitTo, Pruned, Recovered, LastCommitted;
    assert Next(p, w, w.(ledger := Round(p, w.ledger, tip, activation, cfg.delay, cfg.num, env)), CommitRound(cfg, tip, activation, env));
    assert start + cfg.num < U64_LIMIT && LastCommitted(w.ledger.commits) < start ==>
        Next(p, w, w.(ledger := CommitTo(p, w.ledger, start, cfg.num, env)), ManualCommit(cfg.num, start, env));
    assert Next(p, w, World(w.ledger.(proofs := Pruned(w.ledger.proofs, p.chainId, p.pk, h)), if w.floor < h then h else w.floor), Prune(h));
    assert Next(p, w, World(w.ledger.(proofs := Recovered(p, w.ledger.commits, h, w.ledger.proofs)),
                            if h - 1 < w.floor then h - 1 else w.floor), Recover(h));
  }

  /** What the invariant says of one covered height. */
  lemma InvAt(p: Provider, w: World, j: nat, h: U64)
    requires Inv(p, w) && j < |w.ledger.commits| && h > w.floor
    ensures ProofOk(p, w.ledger.proofs, w.ledger.commits[j], h)
    ensures WellFormed(w.ledger.commits[j])
    ensures w.ledger.commits[j].root == p.Root(w.ledger.commits[j].start, w.ledger.commits[j].num)
  {
    hide ProofOk;
  }

  lemma NothingCommitted(p: Provider)
    ensures Inv(p, INIT)
  {
  }

  /** A round that commits starts above the last commit, and leaves a gap exactly when the height
      after the last commit is below the delayed tip or below the activation height. */
  lemma GapOnlyWhenBehind(commits: seq<PubRandCommit>, tip: U64, activation: U64, cfg: Config)
    requires cfg.num >= 1 && tip + cfg.delay + cfg.num < U64_LIMIT
    ensures var last := LastCommitted(commits);
            var d := ShouldCommit(Ok(last), Ok(tip), Ok(activation), cfg.delay, cfg.num);
            d.Ok? && d.value.CommitFrom? ==>
              && d.value.start > last
              && (d.value.start > last + 1 <==> last + 1 < tip + cfg.delay || last + 1 < activation)
  {
  }
}
