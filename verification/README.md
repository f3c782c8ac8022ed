# Finality provider and EOTS manager, verified

A Dafny model of the two daemons of a Babylon finality provider.

The **EOTS manager** holds signing keys. For each chain and height it derives a nonce from the key, and it
signs one message per slot, a slot being a chain, a public key and a height. Two messages signed with one
nonce reveal the private key, so its sign-record store is the safety core of the system.

The **finality provider** commits public randomness to the consumer chain ahead of time, keeps the Merkle
proofs locally, polls blocks, and votes on them in batches with retries.

## Main results

- **Double-sign protection over runs** (`SigningRuns`). Calls interleave at every transaction, without a lock,
  with failures, crashes and operator rollbacks. Two signatures ever returned for one slot are equal and over
  one message, unless a rollback took out that slot. Every signature returned is made with the slot's nonce.
- **Batch signing refines one-by-one signing** (`EotsManager`), errors and skipped double signs included, and
  repeating a signed batch is idempotent.
- **Randomness commitment over runs** (`CommitRuns`). Through failed and unseen commits, changed configuration,
  pruning, loss, recovery and other providers in the same bucket, committed ranges stay disjoint, roots match
  their ranges, and every height that was not given up has the proof of its own commitment's tree.
- **Votes end to end** (`EndToEnd`). After any such histories, every vote of a batch of consecutive covered
  heights opens an on-chain commitment at its height, and is signed over its block with the nonce behind that
  randomness. A block of such a batch is left out exactly if its slot holds a record of another message.
- **Submission** (`Submitter`, `Resend`, `FpState`). All attempts of a retried submission offer the same votes,
  each once and in order; the last voted height moves exactly when the chain answers with a hash; no height is voted on twice without a reset; a resend drops exactly the messages the chain reported.
- **Polling** (`Poller`). Enqueued heights have no gap, whatever fails, and a tick that is answered in full with
  a consumer that takes blocks catches up with the tip.

Seven expectations do not hold for every input. Each has an exact condition and a concrete counterexample:

| expectation | exact condition | counterexample |
|---|---|---|
| a record key names one slot | `Keys.RecordKeysEqual` | `Keys.RecordKeyIsAmbiguous` |
| a rollback touches only its own chain and key | `EotsStore.RollbackExact` | `EotsStore.RollbackCanHitAnotherChain` |
| pruning touches only its own chain and key | `ProofStore.PruningExact` | `ProofStore.PruningCanHitAnotherChain` |
| an empty response means that every message was reported | `Resend.EmptyResponseMeansAllReported` | `Resend.CapCanHideAnUnsentMessage` |
| each height is enqueued once | `Poller.EnqueuedOnceIff` | `Poller.FailureCanRepeatHeights` |
| filtered batches stay consecutive | `Submitter.FilteredConsecutiveIff` | `Submitter.FilteringCanMisalign` |
| the randomness at a position is that of the block there | `Submitter.AlignedIffConsecutive` | `Submitter.FilteringCanMisalign` |

## How it is modelled

- Cryptographic primitives are arbitrary deterministic functions (`Crypto.Suite`), constrained only by key and
  proof-list lengths and by rejection sampling ending before its counter wraps.
- 64-bit arithmetic wraps explicitly (`Add64`, `Sub64`, `HeightAt`).
- A database transaction is an atomic update of a map. A parameter says whether it was committed.
- Clocks, chain answers and shutdown are parameters, or functions of the attempt number.
- Objects that the program updates in place are classes, each proved against a function on values. The run
  theorems are about those functions.

Where comments and code disagree, the model follows the code:

- The resend comment promises the last error when no message is left; the code returns an empty success.
- The manual commit comment promises a start after the last committed height; the code refuses when that
  height reads as zero.
- Record timestamps are documented in seconds and stored in milliseconds.
- The proof bucket is documented as keyed by public randomness and is keyed by chain id, public key and height.

## Model

| member | source | states |
|---|---|---|
| Keys.RecordKeysEqual | eotsmanager/store/storedsigningrecord.go:30-41 | two record keys coincide iff the heights do and chain id and key run together to the same bytes |
| Keys.RecordKeyIsAmbiguous | eotsmanager/store/storedsigningrecord.go:30-41 | two slots with keys of different lengths and one record key |
| Keys.RecordKeyInjective | eotsmanager/store/storedsigningrecord.go:30-41 | with keys of one length, a record key names exactly one slot |
| Keys.NonceInputInjective | eotsmanager/randgenerator/randgenerator.go:25 | the nonce input determines chain id, height and iteration, for every chain id |
| Keys.NonceInputLayout | eotsmanager/randgenerator/randgenerator.go:25 | eight bytes of height, the chain id, eight bytes of iteration |
| Keys.SlotsAreNonceSources | eotsmanager/randgenerator/randgenerator.go:25 | for one key, slots and nonce inputs correspond one to one |
| Keys.MsgToSignLayout | types/blockinfo.go:34-40 | the context, eight bytes of height, the hash |
| Keys.MsgToSignInjective | types/blockinfo.go:34-40 | under one context, equal messages mean equal height and hash |
| Keys.ExtractHeight | eotsmanager/store/eotsstore.go:400-410 | inverts the height suffix of any key; fails iff the key is shorter than eight bytes |
| Keys.HasKeyPrefixIsPrefix | eotsmanager/store/eotsstore.go:384-396 | the two slice comparisons are the prefix test for chain id followed by key |
| Keys.PrefixedKey | eotsmanager/store/eotsstore.go:384-396 | a key under a prefix is a slot of that prefix iff its length fits |
| Keys.PrefixFreeExcludesForeign | eotsmanager/store/eotsstore.go:384-396 | with prefix-free chain ids a prefix match means the same chain and key |
| Crypto.NonceIsFirstAccepted | eotsmanager/randgenerator/randgenerator.go:16-46 | the nonce is the nonzero, non-overflowing digest of the least acceptable iteration |
| Crypto.GenerateRandomness | eotsmanager/randgenerator/randgenerator.go:16-46 | the sampling loop ends with the slot's nonce and its public part |
| Crypto.HeightAtSteps | eotsmanager/localmanager.go:218-226 | each entry of a list lies one interval, in 64-bit arithmetic, above the one before |
| Crypto.CreateRandomnessPairList | eotsmanager/localmanager.go:201-238 | entry i is the randomness of start + i * interval (wrapping); fails iff the interval is zero or there is no key |
| Validation.HasDuplicateHeights | util/validation.go:13-23 | reports a duplicate iff there is one, and then the first height that repeats |
| EotsStore.EotsStore.SaveSignRecord | eotsmanager/store/eotsstore.go:162-198 | saves iff the slot is empty and the transaction commits; otherwise nothing changes |
| EotsStore.EotsStore.GetSignRecord | eotsmanager/store/eotsstore.go:200-230 | the record of exactly the slot asked for, or none |
| EotsStore.EotsStore.GetSignRecordsBatch | eotsmanager/store/eotsstore.go:233-266 | exactly the requested heights that have a record, each with its own |
| EotsStore.EotsStore.SaveSignRecordsBatch | eotsmanager/store/eotsstore.go:269-314 | all or nothing: succeeds iff every slot is empty and none occurs twice |
| EotsStore.EotsStore.DeleteSignRecordsFromHeight | eotsmanager/store/eotsstore.go:327-380 | removes exactly the prefixed keys at or above the height; fails without change on missing arguments or a short key |
| EotsStore.OwnSlotRolledBack | eotsmanager/store/eotsstore.go:327-380 | a key that is rolled back and not foreign is exactly an own slot at or above the height |
| EotsStore.RollbackExact | eotsmanager/store/eotsstore.go:327-380 | a rollback removes exactly its own slots, at every height, iff no foreign key lies under its prefix |
| EotsStore.RollbackCanHitAnotherChain | eotsmanager/store/eotsstore.go:384-396 | a chain id whose rollback removes another chain's record |
| EotsManager.KeyFor | eotsmanager/localmanager.go:536-556 | a key is found iff its name is stored, the key is available and it derives the public key asked for |
| EotsManager.LocalEotsManager.Key | eotsmanager/localmanager.go:536-578 | the test backend reads the keyring and the file backend the unlocked keys; the key derives the public key |
| EotsManager.LocalEotsManager.Unlock | eotsmanager/localmanager.go:580-601 | adds the key under its name, once; afterwards it can be used iff it derives the public key |
| EotsManager.LocalEotsManager.SignEOTS | eotsmanager/localmanager.go:240-313 | a slot on record is answered from the record, key or no key: same message with its signature, another with a refusal; any other slot needs the key, is signed with its nonce and saved before the return |
| EotsManager.LocalEotsManager.PlanBatch | eotsmanager/localmanager.go:358-423 | the loop computes the plan, including its first error |
| EotsManager.LocalEotsManager.SignBatchEOTS | eotsmanager/localmanager.go:315-432 | equals the function on the bucket; repeated heights are refused before the key is looked up; an error leaves the bucket as it was |
| EotsManager.LocalEotsManager.PubRandList | eotsmanager/localmanager.go:201-238 | the randomness of consecutive heights under the key of the public key |
| EotsManager.PlanAnswers | eotsmanager/localmanager.go:358-423 | each response answers the request of its own height |
| EotsManager.PlanInOrder | eotsmanager/localmanager.go:358-423 | the responses are those of the answered requests, each once and in order |
| EotsManager.PlanCompletes | eotsmanager/localmanager.go:358-423 | if new requests can be signed, the loop completes and every request that has an answer gets it |
| EotsManager.PlanSavesOnlyMissing | eotsmanager/localmanager.go:358-423 | what is to be saved belongs to distinct requested slots without a record |
| EotsManager.PlanSavesAllMissing | eotsmanager/localmanager.go:358-423 | every request without a record is signed and will be saved |
| EotsManager.BatchSucceedsIff | eotsmanager/localmanager.go:315-432 | a batch succeeds iff heights are distinct, the key is at hand, new requests can be signed, and the transaction commits or is not needed |
| EotsManager.BatchRefinesSequential | eotsmanager/localmanager.go:315-432 | a batch answers what its requests answer one by one, errors included, and leaves the same bucket up to timestamps |
| EotsManager.BatchSlot | eotsmanager/localmanager.go:315-432 | after a batch a requested slot holds its old record or the request's own message and signature |
| EotsManager.BatchRepeats | eotsmanager/localmanager.go:362-381 | repeating a signed batch over any bucket that kept its records gives the same answer and changes nothing |
| SigningRuns.InvStep | eotsmanager/localmanager.go:240-432 | every step of interleaved calls, failures, crashes and rollbacks keeps the invariant |
| SigningRuns.RunInv | eotsmanager/localmanager.go:240-432 | the invariant holds in every reachable state |
| SigningRuns.OneMessagePerSlot | eotsmanager/localmanager.go:240-432 | two signatures ever returned for a slot that no rollback hit are equal and over one message |
| SigningRuns.OneBlockPerSlot | types/blockinfo.go:34-40 | for votes that means one block hash |
| SigningRuns.ReturnedAreGenuine | eotsmanager/localmanager.go:287-313 | every signature returned for a 32-byte key is made by a key pair of it with the slot's nonce, rollbacks included |
| SigningRuns.NonceInputNeverReused | eotsmanager/randgenerator/randgenerator.go:16-46 | one nonce input is never spent on two messages |
| SigningRuns.SlotsBelowRollbacksKeepGuarantee | eotsmanager/localmanager.go:659-665 | with prefix-free chain ids, slots below all rollbacks of their own chain and key keep the guarantee |
| SigningRuns.BatchIsRun | eotsmanager/localmanager.go:315-432 | a successful batch call is five steps of the machine with the same bucket and responses |
| SigningRuns.OneSucceedsIff | eotsmanager/localmanager.go:240-313 | a single call succeeds iff the message is on record, or the slot is free and the key at hand can sign |
| SigningRuns.SingleIsRun | eotsmanager/localmanager.go:240-313 | so is a single call whose message is on record, with or without a key at hand, or that can be signed |
| ProofStore.PubRandProofStore.BuildKeys | finality-provider/store/pub_rand.go:90-108 | key i is that of start + i * interval, wrapping |
| ProofStore.PubRandProofStore.AddPubRandProofList | finality-provider/store/pub_rand.go:114-156 | all proofs or none; fails on a length mismatch |
| ProofStore.PubRandProofStore.GetPubRandProofList | finality-provider/store/pub_rand.go:181-210 | succeeds iff every height has a proof, and returns each at its position |
| ProofStore.PubRandProofStore.RemovePubRandProofList | finality-provider/store/pub_rand.go:213-244 | the cursor walk removes exactly the keys up to the first one above the target |
| ProofStore.RecordKeyOrder | finality-provider/store/pub_rand.go:54-65 | under one prefix, lexicographic key order is height order |
| ProofStore.ScanOfOwnKeys | finality-provider/store/pub_rand.go:213-244 | without foreign keys the early break loses nothing |
| ProofStore.PruningExact | finality-provider/store/pub_rand.go:213-244 | pruning removes exactly its own proofs, at every target, iff no foreign key lies under its prefix |
| ProofStore.PruningCanHitAnotherChain | finality-provider/store/pub_rand.go:213-244 | a chain id whose pruning removes another chain's proof |
| ProofStore.ForeignKeyCanStopPruning | finality-provider/store/pub_rand.go:213-244 | a foreign key above the target can stop the walk before an own proof below it |
| Committer.ShouldCommit | finality-provider/service/rand_committer.go:100-155 | a commit always starts above the last, at the largest of three bounds, exactly while less than a batch is left ahead, in 64-bit arithmetic; each query error is passed on |
| Committer.StoredAt | finality-provider/store/pub_rand.go:114-156 | storing a list changes exactly the heights of its range |
| Committer.OthersKept | finality-provider/store/pub_rand.go:114-156 | another provider's proofs stay as they are |
| Committer.RoundAdvances | finality-provider/service/fp_instance.go:377-406 | what one successful round does to the last committed height |
| Committer.FirstRound | finality-provider/service/rand_committer.go:100-169 | with nothing committed, a successful round commits from the largest of 1, the delayed tip and the activation height |
| Committer.TwoRoundsSuffice | finality-provider/service/fp_instance.go:377-406 | with a fixed tip, two successful rounds leave nothing to commit |
| CommitRuns.InvStep | finality-provider/service/rand_committer.go:201-244 | commits, manual commits, pruning, loss, recovery and other providers keep the invariant |
| CommitRuns.RunInv | finality-provider/service/rand_committer.go:201-244 | in every run ranges are disjoint and increasing, roots match their ranges, and each height not given up has the proof of its own tree |
| CommitRuns.LastCommittedIsHighest | finality-provider/service/rand_committer.go:157-169 | in every run the last committed height is zero without commitments and otherwise the highest covered one |
| CommitRuns.OperationsAreSteps | finality-provider/service/fp_instance.go:377-406 | rounds, manual commits, pruning and recovery are steps of the machine |
| CommitRuns.RecoveryRestores | finality-provider/cmd/fpd/daemon/recover_proof.go:130-156 | after any loss, recovery restores exactly the proofs that committing had stored |
| CommitRuns.GapOnlyWhenBehind | finality-provider/service/rand_committer.go:100-155 | a commit leaves a gap iff the next height is below the delayed tip or the activation height |
| CommitOps.RandomnessCommitter.Commit | finality-provider/service/rand_committer.go:201-244 | proofs are stored before submission; exactly what each stage leaves when a later one fails; succeeds iff every stage does |
| CommitOps.RandomnessCommitter.CommitPubRandWithStartHeight | finality-provider/service/fp_test_helper.go:67-100 | succeeds if it may start and every commit does; the new commits tile the heights from the start, failed or not, and on success pass the target by less than a batch; keeps the run invariant |
| CommitOps.RandomnessCommitter.CommitBatches | finality-provider/service/fp_test_helper.go:67-100 | the loop: batches of one size, without gap or overlap, until the target is covered or one fails |
| CommitOps.RandomnessCommitter.CommitPubRand | finality-provider/service/fp_test_helper.go:38-63 | continues after the last commit without gap; refuses on an empty chain and whenever the last height reads zero |
| CommitOps.FromHeightIsFilter | clientcontroller/babylon/consumer.go:437-490 | the listed commits are those that end at or after the height, each once and in order |
| CommitOps.RandomnessCommitter.QueryPubRandCommitList | clientcontroller/babylon/consumer.go:437-490 | paging one by one yields exactly those commits, in order; succeeds iff every page does and every commit is nonempty |
| CommitOps.RandomnessCommitter.RecoverCommit | finality-provider/cmd/fpd/daemon/recover_proof.go:135-156 | stores a commit's proofs again iff the recomputed root agrees with the chain's |
| CommitOps.RandomnessCommitter.RecoverEach | finality-provider/cmd/fpd/daemon/recover_proof.go:135-156 | succeeds iff every commit can be recovered; otherwise the commits before the first that cannot are stored |
| CommitOps.RandomnessCommitter.RecoverProofs | finality-provider/cmd/fpd/daemon/recover_proof.go:130-156 | recovers every commit from the height on; succeeds on whatever this provider committed |
| CommitOps.RecoveredIsStoreAll | finality-provider/cmd/fpd/daemon/recover_proof.go:130-156 | recovery is storing the filtered commits in order |
| Resend.BatchRetries | clientcontroller/babylon/consumer.go:543-555 | the number of messages, or a smaller positive cap |
| Resend.RemoveMsgAtIndex | clientcontroller/babylon/consumer.go:559-565 | removes exactly that element in place; an index outside changes nothing |
| Resend.SendResending | clientcontroller/babylon/consumer.go:495-539 | bounded sends, never an empty batch, each offering the batch less what was reported; the outcome is that of the last send |
| Resend.LeftUnlessReported | clientcontroller/babylon/consumer.go:495-539 | a message is gone iff some send reported it with an expected error |
| Resend.OfferIsBatchLessReported | clientcontroller/babylon/consumer.go:495-539 | every offer keeps the original order and lacks exactly the reported messages |
| Resend.EmptyResponseMeansAllReported | clientcontroller/babylon/consumer.go:495-539 | all messages were reported iff the cap does not bind and every send named a message still there |
| Resend.CapCanHideAnUnsentMessage | clientcontroller/babylon/consumer.go:543-555 | with a cap, an empty response can hide a message neither sent nor reported |
| FpState.FinalityProviderStore.SetFpLastVotedHeight | finality-provider/store/fpstore.go:163-207 | the stored height becomes the larger of the two; fails without change for an unknown provider |
| FpState.FpState.SetLastVotedHeight | finality-provider/service/fp_store_adapter.go:113-133 | memory takes the height; it is ahead of the database iff the write failed and the height is new |
| FpState.StoredIsHighest | finality-provider/store/fpstore.go:163-173 | over any run the stored height is the highest of those written |
| FpState.RestartNeverResumesBelow | finality-provider/service/fp_instance.go:94-137 | if writes succeed, a restart never resumes below the height in memory |
| FpState.ResetIsUndoneByRestart | finality-provider/service/fp_instance.go:161-173 | a reset lowers memory only; a restart is back at the stored height |
| Poller.StartHeight | finality-provider/service/bootstrap.go:55-117 | automatic mode starts just above everything voted or finalized and not below activation; wrap-around leaves the activation height |
| Poller.ChainPoller.constructor | finality-provider/service/chain_poller.go:51-72 | an idle poller with an empty channel of the configured or default size |
| Poller.ChainPoller.SetStartHeight | finality-provider/service/chain_poller.go:113-135 | starts once, with the cursor at the height and a fresh channel |
| Poller.ChainPoller.TryNextBlock | finality-provider/service/chain_poller.go:75-90 | takes the oldest block, iff the poller runs and there is one |
| Poller.ChainPoller.NextBatch | finality-provider/service/fp_instance.go:334-349 | takes a prefix of the channel, in order: all of it or a full batch; nothing before the start |
| Poller.ChainPoller.WaitForActivation | finality-provider/service/chain_poller.go:163-196 | returns the first successful answer and raises the cursor to that height; without one nothing changes |
| Poller.ChainPoller.TryPollChain | finality-provider/service/chain_poller.go:256-326 | enqueues a prefix of the blocks, short of the end only if stopped or if the channel is full and nothing is taken; the cursor moves iff all were enqueued |
| Poller.ChainPoller.PollCycle | finality-provider/service/chain_poller.go:242-251 | one tick at the cursor: what is asked for and sent, and when it counts as failed |
| Poller.ChainPoller.PollLoop | finality-provider/service/chain_poller.go:199-251 | is a run of poll cycles; gives up at the first tick with more than twenty failures in a row |
| Poller.ChainPoller.PollChain | finality-provider/service/chain_poller.go:199-240 | the enqueued heights are gap-free from the larger of the start and the first activation height answered |
| Poller.EnqueuedIsGapFree | finality-provider/service/chain_poller.go:256-326 | whatever cycles fail while sending, no height is missing below the cursor |
| Poller.TickCatchesUp | finality-provider/service/chain_poller.go:256-326 | a tick with complete answers and a consumer that takes blocks leaves the cursor above the tip |
| Poller.EnqueuedOnceIff | finality-provider/service/chain_poller.go:291-318 | no height is enqueued twice iff nothing is sent after a cycle that failed in the middle of sending |
| Poller.FailureCanRepeatHeights | finality-provider/service/chain_poller.go:291-318 | such a failure makes the next cycle repeat heights |
| Submitter.EligibleBlocksAre | finality-provider/service/finality_submitter.go:117-173 | filtering keeps exactly the blocks above the last vote with power, each once and in order |
| Submitter.FinalitySubmitter.FilterBlocksForVoting | finality-provider/service/finality_submitter.go:117-173 | the loop computes that filter; fails iff a power query above the last vote fails |
| Submitter.FinalitySubmitter.SignFinalitySigBatch | finality-provider/service/finality_submitter.go:380-409 | the batch's signatures by height, and its effect on the records |
| Submitter.FinalitySubmitter.ZipVotes | finality-provider/service/finality_submitter.go:291-309 | the votes are those of the positions with a signature, each once and in order |
| Submitter.ZipIsByPosition | finality-provider/service/finality_submitter.go:291-309 | the votes are exactly the signed positions, each once and in order |
| Submitter.VotesInOrder | finality-provider/service/finality_submitter.go:264-309 | the votes offered are, position by position and once each, block, randomness, proof and signature |
| Submitter.VotesAscend | finality-provider/service/finality_submitter.go:291-309 | for ascending blocks the votes offered have strictly ascending heights |
| Submitter.FinalitySubmitter.PrepareVotes | finality-provider/service/finality_submitter.go:264-318 | what is offered to the chain is the function of proofs and records; without the key or a proof nothing is signed |
| Submitter.ErrorKeepsAllRecords | finality-provider/service/finality_submitter.go:275-289 | an attempt without votes leaves the sign records alone; a missing proof is such an attempt |
| Submitter.FinalitySubmitter.SubmitOnce | finality-provider/service/finality_submitter.go:264-355 | a submission iff votes were offered and the chain answered with a nonempty hash; a refusal keeps its class; the last voted height moves iff it is a submission |
| Submitter.FinalitySubmitter.Retry | finality-provider/service/finality_submitter.go:199-260 | one to maxRetries + 1 attempts; goes on iff the failure is retryable and neither finality nor shutdown intervenes; all offers are the same votes; voted iff the last offer got a hash |
| Submitter.OneMoreTry | finality-provider/service/finality_submitter.go:199-260 | each attempt offers what the one before offered, or else what it prepares from the records the call started with |
| Submitter.FinalitySubmitter.SubmitBatchFinalitySignatures | finality-provider/service/finality_submitter.go:179-261 | offers only eligible blocks and attempts iff there are any; the last voted height moves to the last of them iff the last offer was answered with a nonempty hash |
| Submitter.AttemptRepeats | finality-provider/service/finality_submitter.go:264-355 | once signed, every later attempt offers the same votes and changes no record |
| Submitter.RepeatedHeightIsNeverVoted | eotsmanager/localmanager.go:322-329 | a batch that repeats a height is refused every time |
| Submitter.AlignedIffConsecutive | finality-provider/service/finality_submitter.go:264-309 | the randomness at position i is that of block i iff its height is the first plus i |
| Submitter.ConsecutiveVotesAligned | finality-provider/service/finality_submitter.go:264-309 | in a consecutive batch each vote carries its own randomness and proof, also after skipped blocks |
| Submitter.FilteredConsecutiveIff | finality-provider/service/finality_submitter.go:117-173 | filtering keeps consecutive blocks consecutive iff power is unbroken |
| Submitter.FilteringCanMisalign | finality-provider/service/finality_submitter.go:117-173 | one height without power in the middle breaks the alignment |
| Submitter.SubmissionAdvances | finality-provider/service/finality_submitter.go:338-352 | a submission with a hash raises the last voted height past every block offered |
| Submitter.NoHeightVotedTwice | finality-provider/service/finality_submitter.go:117-173 | over any run without a reset, later offers lie above earlier successful ones |
| EndToEnd.CoveredHaveProofs | finality-provider/service/rand_committer.go:275-286 | after any commitment history, a batch of covered heights finds all its proofs |
| EndToEnd.VotesOpenCommitments | finality-provider/service/finality_submitter.go:264-309 | each vote of a consecutive covered batch opens an on-chain commitment at its height |
| EndToEnd.VotesAreSignedWithTheirRandomness | finality-provider/service/finality_submitter.go:264-309 | each vote is signed over its block with the nonce behind the randomness it carries |
| EndToEnd.BatchKeepsOwn | eotsmanager/localmanager.go:315-432 | signing a batch keeps every record the provider's own signature |
| EndToEnd.RunRecordsAreOwn | eotsmanager/localmanager.go:240-432 | in every signing run the provider's records are its own signatures |
| EndToEnd.EveryVoteIsGood | finality-provider/service/finality_submitter.go:264-309 | after any signing and commitment histories, every such vote is correctly opened and correctly signed |
| EndToEnd.SignedIffNoConflict | eotsmanager/localmanager.go:358-423 | a block of a batch gets a signature iff its slot holds no record of another message |
| EndToEnd.VotedIffNoConflict | finality-provider/service/finality_submitter.go:291-309 | a covered block of a consecutive batch is voted on iff its slot holds no record of another message |

## Left out

- Crypto.GenerateRandomness: assumes that sampling meets an acceptable digest before its 64-bit counter wraps.
- Committer.RoundAdvances: assumes heights clear of the end of the 64-bit range, as do the run theorems of the commitments.
- CommitRuns.RunInv: assumes at least one value per commit and prefix-free chain ids between providers that prune.
- CommitOps.RandomnessCommitter.CommitPubRandWithStartHeight: assumes at least one value per commit, which the configuration does not check and without which the loop does not end.
- ProofStore.PubRandProofStore.RemovePubRandProofList: is stated for 32-byte keys; the database cursor is taken not to be disturbed by deleting the key under it.
- Poller.ChainPoller.PollLoop: assumes that the chain answers with consecutive blocks from the height asked for.
- Submitter.FinalitySubmitter.SubmitOnce: a failed write of the last voted height is passed over, as at shutdown; other write failures end the process.
- Submitter.NoHeightVotedTwice: covers runs without a reset of the last voted height.
- Submitter.AlignedIffConsecutive: assumes that different heights have different randomness.
- The internals of HMAC, EOTS signatures and Merkle trees: uninterpreted.
- A commit reported as failed that takes effect only after the next round has read the chain.
- How a resend's outcome becomes the chain reply that the submitter sees: a parameter.
- The parsing of message indices out of error texts: the index is a parameter.
- Failures of read transactions, corrupted records and proof marshalling.
- Locks, timers, retry delays and shutdown, except as nondeterministic answers; signing is proved without the lock.
- Passphrases, key creation, keyring backends other than test and file, and the unsafe test-only signing call.
- Provider status transitions, jailing and slashing.
- gRPC, HMAC authentication of requests, command-line parsing, configuration files, metrics and database backup.
