/** The EOTS manager: key lookup, single and batch signing over the record store. */
module EotsManager {
  import opened Bytes
  import opened Keys
  import opened Lists
  import opened Maps
  import opened Wrappers
  import opened Crypto
  import opened EotsStore
  import Validation

  datatype SignRequest = SignRequest(msg: ByteString, height: U64)
  datatype SignResponse = SignResponse(signature: Scalar, height: U64)

  /** The keyring backends for which the manager can produce a key. */
  datatype Backend = TestBackend | FileBackend

  /** A new bucket content together with what the caller gets. */
  datatype Outcome<T> = Outcome(records: Records, result: Result<T>)

  function Heights(reqs: seq<SignRequest>): (hs: seq<U64>)
    ensures |hs| == |reqs|
    ensures forall i :: 0 <= i < |reqs| ==> hs[i] == reqs[i].height
  {
    seq(|reqs|, i requires 0 <= i < |reqs| => reqs[i].height)
  }

  predicate DistinctHeights(reqs: seq<SignRequest>) {
    forall i, j :: 0 <= i < j < |reqs| ==> reqs[i].height != reqs[j].height
  }

  // ----- signing one request -----

  /** The signature over a request, made with the nonce of its slot. */
  ghost function Signature(s: LawfulSuite, priv: Scalar, chainId: ByteString, req: SignRequest): Option<Scalar> {
    s.eotsSign(priv, Nonce(s, priv, chainId, req.height), req.msg)
  }

  /** SignEOTS as a function of the bucket. */
  ghost function SignOne(s: LawfulSuite, records: Records, key: Result<Scalar>, pk: ByteString, chainId: ByteString,
                         req: SignRequest, now: int, committed: bool): Outcome<Scalar>
  {
    var k := RecordKey(chainId, pk, req.height);
    if k in records then
      if records[k].msg == req.msg
      then Outcome(records, Ok(SetByteSlice(records[k].sig).0))
      else Outcome(records, Err(DoubleSign))
    else if key.Err? then Outcome(records, Err(key.error))
    else
      var sig := Signature(s, key.value, chainId, req);
      if sig.None? then Outcome(records, Err(SignFailed))
      else if !committed then Outcome(records, Err(Database))
      else Outcome(records[k := SigningRecord(req.msg, ScalarBytes(sig.value), now)], Ok(sig.value))
  }

  /** One more request after those already signed; a double sign is dropped, any other error stops. */
  ghost function EachStep(s: LawfulSuite, prev: Outcome<seq<SignResponse>>, key: Result<Scalar>, pk: ByteString, chainId: ByteString,
                          req: SignRequest, time: int): Outcome<seq<SignResponse>>
    requires prev.result.Ok?
  {
    var o := SignOne(s, prev.records, key, pk, chainId, req, time, true);
    match o.result
    case Ok(sig) => Outcome(o.records, Ok(prev.result.value + [SignResponse(sig, req.height)]))
    case Err(DoubleSign) => prev
    case Err(e) => Outcome(o.records, Err(e))
  }

  /** Requests signed one by one, in order. */
  ghost function SignEach(s: LawfulSuite, records: Records, key: Result<Scalar>, pk: ByteString, chainId: ByteString,
                          reqs: seq<SignRequest>, times: seq<int>): Outcome<seq<SignResponse>>
    requires |times| == |reqs|
    decreases |reqs|
  {
    if reqs == [] then Outcome(records, Ok([])) else
      var n := |reqs| - 1;
      var prev := SignEach(s, records, key, pk, chainId, reqs[..n], times[..n]);
      if prev.result.Err? then prev else EachStep(s, prev, key, pk, chainId, reqs[n], times[n])
  }

  // ----- signing a batch -----

  datatype Planned = Planned(responses: seq<SignResponse>, toSave: seq<BatchSignRecord>)

  /** What a batch answers to one request, if anything, given the records it has read. */
  ghost function Answer(s: LawfulSuite, existing: map<U64, SigningRecord>, priv: Scalar, chainId: ByteString, req: SignRequest): Option<Scalar> {
    if req.height !in existing then Signature(s, priv, chainId, req)
    else if existing[req.height].msg == req.msg then Some(SetByteSlice(existing[req.height].sig).0)
    else None
  }

  /** One turn of the batch loop. */
  ghost function PlanStep(s: LawfulSuite, existing: map<U64, SigningRecord>, priv: Scalar, pk: ByteString, chainId: ByteString,
                          prev: Planned, req: SignRequest): Result<Planned>
  {
    var sig := Answer(s, existing, priv, chainId, req);
    if sig.None? then if req.height in existing then Ok(prev) else Err(SignFailed)
    else
      Ok(Planned(prev.responses + [SignResponse(sig.value, req.height)],
                 if req.height in existing then prev.toSave
                 else prev.toSave + [BatchSignRecord(req.height, chainId, req.msg, pk, ScalarBytes(sig.value))]))
  }

  /** The batch loop: what it will answer and save, given the records it has read. */
  ghost function Plan(s: LawfulSuite, existing: map<U64, SigningRecord>, priv: Scalar, pk: ByteString, chainId: ByteString,
                      reqs: seq<SignRequest>): Result<Planned>
    decreases |reqs|
  {
    if reqs == [] then Ok(Planned([], [])) else
      var prev := Plan(s, existing, priv, pk, chainId, reqs[..|reqs| - 1]);
      if prev.Err? then prev else PlanStep(s, existing, priv, pk, chainId, prev.value, reqs[|reqs| - 1])
  }

  /** Each response belongs to a request and is its answer. */
  ghost predicate Matches(answer: SignRequest -> Option<Scalar>, reqs: seq<SignRequest>, responses: seq<SignResponse>) {
    && (forall r :: r in responses ==> exists q :: q in reqs && q.height == r.height)
    && (forall q, r :: q in reqs && r in responses && q.height == r.height ==> answer(q) == Some(r.signature))
  }

  lemma MatchesOneMore(answer: SignRequest -> Option<Scalar>, init: seq<SignRequest>, req: SignRequest, responses: seq<SignResponse>)
    requires Matches(answer, init, responses) && forall q :: q in init ==> q.height != req.height
    ensures Matches(answer, init + [req], responses)
    ensures answer(req).Some? ==> Matches(answer, init + [req], responses + [SignResponse(answer(req).value, req.height)])
  {
  }

  /** A plan answers each request with its answer. */
  lemma {:induction false} PlanAnswers(s: LawfulSuite, existing: map<U64, SigningRecord>, priv: Scalar, pk: ByteString,
                                       chainId: ByteString, reqs: seq<SignRequest>)
    requires DistinctHeights(reqs) && Plan(s, existing, priv, pk, chainId, reqs).Ok?
    ensures Matches(q => Answer(s, existing, priv, chainId, q), reqs, Plan(s, existing, priv, pk, chainId, reqs).value.responses)
    decreases |reqs|
  {
    hide Signature, SetByteSlice, ScalarBytes, Matches;
    var answer := q => Answer(s, existing, priv, chainId, q);
    if reqs == [] {
      NothingMatches(answer);
    } else {
      var n := |reqs| - 1;
      var prev := Plan(s, existing, priv, pk, chainId, reqs[..n]);
      PlanAnswers(s, existing, priv, pk, chainId, reqs[..n]);
      assert reqs == reqs[..n] + [reqs[n]];
      MatchesOneMore(answer, reqs[..n], reqs[n], prev.value.responses);
    }
  }

  /** If every new request can be signed, the loop completes and every request that has an answer gets it. */
  lemma {:induction false} PlanCompletes(s: LawfulSuite, existing: map<U64, SigningRecord>, priv: Scalar, pk: ByteString,
                                         chainId: ByteString, reqs: seq<SignRequest>)
    requires forall q :: q in reqs && q.height !in existing ==> Signature(s, priv, chainId, q).Some?
    ensures Plan(s, existing, priv, pk, chainId, reqs).Ok?
    ensures forall q :: q in reqs && Answer(s, existing, priv, chainId, q).Some? ==>
              SignResponse(Answer(s, existing, priv, chainId, q).value, q.height) in Plan(s, existing, priv, pk, chainId, reqs).value.responses
    decreases |reqs|
  {
    hide Signature, SetByteSlice, ScalarBytes;
    if reqs != [] {
      var n := |reqs| - 1;
      PlanCompletes(s, existing, priv, pk, chainId, reqs[..n]);
      assert reqs == reqs[..n] + [reqs[n]];
    }
  }

  /** The response, if any, to the request at a position. */
  ghost function ResponseAt(s: LawfulSuite, existing: map<U64, SigningRecord>, priv: Scalar, chainId: ByteString,
                            reqs: seq<SignRequest>): nat -> Option<SignResponse>
  {
    (i: nat) =>
      if i >= |reqs| then None else
        var sig := Answer(s, existing, priv, chainId, reqs[i]);
        if sig.Some? then Some(SignResponse(sig.value, reqs[i].height)) else None
  }

  /** The responses are those of the requests that have an answer, each once and in the order of the requests. */
  lemma {:induction false} PlanInOrder(s: LawfulSuite, existing: map<U64, SigningRecord>, priv: Scalar, pk: ByteString,
                                       chainId: ByteString, reqs: seq<SignRequest>)
    requires Plan(s, existing, priv, pk, chainId, reqs).Ok?
    ensures Picks(|reqs|, ResponseAt(s, existing, priv, chainId, reqs), Plan(s, existing, priv, pk, chainId, reqs).value.responses)
    decreases |reqs|
  {
    hide Answer, ScalarBytes, Picks;
    var at := ResponseAt(s, existing, priv, chainId, reqs);
    if reqs == [] {
      PicksNothing(at);
    } else {
      var n := |reqs| - 1;
      PlanInOrder(s, existing, priv, pk, chainId, reqs[..n]);
      var prev := Plan(s, existing, priv, pk, chainId, reqs[..n]).value.responses;
      PicksSame(n, ResponseAt(s, existing, priv, chainId, reqs[..n]), at, prev);
      PicksOneMore(n, at, prev);
    }
  }

  lemma NothingMatches(answer: SignRequest -> Option<Scalar>)
    ensures Matches(answer, [], [])
  {
  }

  /** SignBatchEOTS as a function of the bucket. */
  ghost function SignBatch(s: LawfulSuite, records: Records, key: Result<Scalar>, pk: ByteString, chainId: ByteString,
                           reqs: seq<SignRequest>, now: int, committed: bool): Outcome<seq<SignResponse>>
  {
    if !DistinctHeights(reqs) then Outcome(records, Err(DuplicateHeight))
    else if key.Err? then Outcome(records, Err(key.error))
    else
      var plan := Plan(s, Lookup(records, pk, chainId, Heights(reqs)), key.value, pk, chainId, reqs);
      if plan.Err? then Outcome(records, Err(plan.error))
      else if plan.value.toSave != [] && !committed then Outcome(records, Err(Database))
      else Outcome(PutAll(records, Entries(plan.value.toSave, now)), Ok(plan.value.responses))
  }

  /** What the loop wants to save belongs to distinct requested slots it did not find. */
  ghost predicate SavesOnlyMissing(plan: Planned, existing: map<U64, SigningRecord>, pk: ByteString, chainId: ByteString,
                                   reqs: seq<SignRequest>)
  {
    && (forall i :: 0 <= i < |plan.toSave| ==>
          && plan.toSave[i].chainId == chainId && plan.toSave[i].eotsPk == pk
          && plan.toSave[i].height !in existing && plan.toSave[i].height in Heights(reqs))
    && (forall i, j :: 0 <= i < j < |plan.toSave| ==> plan.toSave[i].height != plan.toSave[j].height)
  }

  lemma SavesOneMore(s: LawfulSuite, existing: map<U64, SigningRecord>, priv: Scalar, pk: ByteString, chainId: ByteString,
                     prev: Planned, init: seq<SignRequest>, req: SignRequest)
    requires SavesOnlyMissing(prev, existing, pk, chainId, init) && req.height !in Heights(init)
    requires PlanStep(s, existing, priv, pk, chainId, prev, req).Ok?
    ensures SavesOnlyMissing(PlanStep(s, existing, priv, pk, chainId, prev, req).value, existing, pk, chainId, init + [req])
  {
    hide Answer, ScalarBytes;
    assert Heights(init + [req]) == Heights(init) + [req.height];
  }

  lemma {:induction false} PlanSavesOnlyMissing(s: LawfulSuite, existing: map<U64, SigningRecord>, priv: Scalar,
                                                pk: ByteString, chainId: ByteString, reqs: seq<SignRequest>)
    requires DistinctHeights(reqs)
    requires Plan(s, existing, priv, pk, chainId, reqs).Ok?
    ensures SavesOnlyMissing(Plan(s, existing, priv, pk, chainId, reqs).value, existing, pk, chainId, reqs)
    decreases |reqs|
  {
    hide PlanStep, SavesOnlyMissing, Heights;
    if reqs == [] {
      SavesNothing(existing, pk, chainId);
    } else {
      var n := |reqs| - 1;
      PlanSavesOnlyMissing(s, existing, priv, pk, chainId, reqs[..n]);
      assert reqs[n].height !in Heights(reqs[..n]);
      SavesOneMore(s, existing, priv, pk, chainId, Plan(s, existing, priv, pk, chainId, reqs[..n]).value, reqs[..n], reqs[n]);
      assert reqs == reqs[..n] + [reqs[n]];
    }
  }

  lemma SavesNothing(existing: map<U64, SigningRecord>, pk: ByteString, chainId: ByteString)
    ensures SavesOnlyMissing(Planned([], []), existing, pk, chainId, [])
  {
  }

  lemma SavesFresh(plan: Planned, records: Records, pk: ByteString, chainId: ByteString, reqs: seq<SignRequest>, now: int)
    requires SavesOnlyMissing(plan, Lookup(records, pk, chainId, Heights(reqs)), pk, chainId, reqs)
    ensures Fresh(records, Entries(plan.toSave, now))
  {
  }

  /** Every request is on record. */
  predicate AllOnRecord(records: Records, pk: ByteString, chainId: ByteString, reqs: seq<SignRequest>) {
    forall q :: q in reqs ==> RecordKey(chainId, pk, q.height) in records
  }

  /** A batch succeeds if and only if its heights are distinct, the key is at hand, every request that is not on
      record can be signed, and the database accepts the transaction or none is needed. */
  lemma BatchSucceedsIff(s: LawfulSuite, records: Records, key: Result<Scalar>, pk: ByteString, chainId: ByteString,
                         reqs: seq<SignRequest>, now: int, committed: bool)
    ensures SignBatch(s, records, key, pk, chainId, reqs, now, committed).result.Ok?
            <==> && DistinctHeights(reqs) && key.Ok?
                 && (forall q :: q in reqs && RecordKey(chainId, pk, q.height) !in records ==> Signature(s, key.value, chainId, q).Some?)
                 && (committed || AllOnRecord(records, pk, chainId, reqs))
  {
    hide Signature, ScalarBytes, RecordKey, Plan, PutAll, Entries;
    if DistinctHeights(reqs) && key.Ok? {
      var existing := Lookup(records, pk, chainId, Heights(reqs));
      forall q | q in reqs ensures q.height in existing <==> RecordKey(chainId, pk, q.height) in records {
        var i :| 0 <= i < |reqs| && reqs[i] == q;
        assert Heights(reqs)[i] == q.height;
      }
      var plan := Plan(s, existing, key.value, pk, chainId, reqs);
      if plan.Ok? {
        SavesNothingIff(s, existing, key.value, pk, chainId, reqs);
      }
      if forall q :: q in reqs && q.height !in existing ==> Signature(s, key.value, chainId, q).Some? {
        PlanCompletes(s, existing, key.value, pk, chainId, reqs);
      }
    }
  }

  /** A completed loop has signed everything new, and has nothing to save exactly if nothing was new. */
  lemma SavesNothingIff(s: LawfulSuite, existing: map<U64, SigningRecord>, priv: Scalar, pk: ByteString, chainId: ByteString,
                        reqs: seq<SignRequest>)
    requires DistinctHeights(reqs) && Plan(s, existing, priv, pk, chainId, reqs).Ok?
    ensures forall q :: q in reqs && q.height !in existing ==> Signature(s, priv, chainId, q).Some?
    ensures Plan(s, existing, priv, pk, chainId, reqs).value.toSave == [] <==> forall q :: q in reqs ==> q.height in existing
  {
    hide Signature, ScalarBytes, Plan;
    PlanSavesAllMissing(s, existing, priv, pk, chainId, reqs);
    PlanSavesOnlyMissing(s, existing, priv, pk, chainId, reqs);
    var toSave := Plan(s, existing, priv, pk, chainId, reqs).value.toSave;
    if toSave != [] {
      assert toSave[0].height in Heights(reqs) && toSave[0].height !in existing;
    }
  }

  // ----- the batch form refines the one-by-one form -----

  /** Two buckets that differ at most in timestamps. */
  ghost predicate SameButTime(a: Records, b: Records) {
    && a.Keys == b.Keys
    && forall k :: k in a ==> a[k].msg == b[k].msg && a[k].sig == b[k].sig
  }

  lemma SameButTimeRefl(a: Records)
    ensures SameButTime(a, a)
  {
  }

  lemma SameButTimeSym(a: Records, b: Records)
    ensures SameButTime(a, b) <==> SameButTime(b, a)
  {
  }

  lemma SameButTimeUpdate(a: Records, b: Records, k: ByteString, msg: ByteString, sig: ByteString, t: int, u: int)
    requires SameButTime(a, b)
    ensures SameButTime(a[k := SigningRecord(msg, sig, t)], b[k := SigningRecord(msg, sig, u)])
  {
  }

  /** Two buckets that agree at one key. */
  ghost predicate SameAt(a: Records, b: Records, k: ByteString) {
    (k in a <==> k in b) && (k in b ==> a[k] == b[k])
  }

  lemma SameAtTrans(a: Records, b: Records, c: Records, k: ByteString)
    requires SameAt(a, b, k) && SameAt(b, c, k)
    ensures SameAt(a, c, k)
  {
  }

  lemma SignOneFrame(s: LawfulSuite, records: Records, key: Result<Scalar>, pk: ByteString, chainId: ByteString,
                     req: SignRequest, now: int, committed: bool, k: ByteString)
    requires k != RecordKey(chainId, pk, req.height)
    ensures SameAt(SignOne(s, records, key, pk, chainId, req, now, committed).records, records, k)
  {
    hide Signature, SetByteSlice, ScalarBytes, RecordKey;
  }

  /** Signing one by one touches only the slots of its own requests. */
  lemma {:induction false} SignEachFrame(s: LawfulSuite, records: Records, key: Result<Scalar>, pk: ByteString, chainId: ByteString,
                                         reqs: seq<SignRequest>, times: seq<int>, h: U64)
    requires |times| == |reqs|
    requires forall i :: 0 <= i < |reqs| ==> h != reqs[i].height
    ensures SameAt(SignEach(s, records, key, pk, chainId, reqs, times).records, records, RecordKey(chainId, pk, h))
    decreases |reqs|
  {
    hide SignOne, RecordKey, SameAt;
    var k := RecordKey(chainId, pk, h);
    if reqs == [] {
      SameAtRefl(records, k);
    } else {
      var n := |reqs| - 1;
      SignEachFrame(s, records, key, pk, chainId, reqs[..n], times[..n], h);
      var prev := SignEach(s, records, key, pk, chainId, reqs[..n], times[..n]);
      RecordKeyInjective(chainId, pk, h, chainId, pk, reqs[n].height);
      SignOneFrame(s, prev.records, key, pk, chainId, reqs[n], times[n], true, k);
      SameAtTrans(SignOne(s, prev.records, key, pk, chainId, reqs[n], times[n], true).records, prev.records, records, k);
    }
  }

  lemma SameAtRefl(a: Records, k: ByteString)
    ensures SameAt(a, a, k)
  {
  }

  /** The plan answers what signing one by one answers, and saves what it saves, up to timestamps. */
  ghost predicate Simulates(each: Outcome<seq<SignResponse>>, plan: Result<Planned>, records: Records, now: int) {
    && (plan.Err? ==> each.result == Err(plan.error))
    && (plan.Ok? ==> && each.result == Ok(plan.value.responses)
                     && SameButTime(each.records, PutAll(records, Entries(plan.value.toSave, now))))
  }

  /** The batch has read the slot of a request as it is. */
  ghost predicate ReadAsIs(existing: map<U64, SigningRecord>, records: Records, pk: ByteString, chainId: ByteString, h: U64) {
    var k := RecordKey(chainId, pk, h);
    (h in existing <==> k in records) && (k in records ==> existing[h] == records[k])
  }

  lemma StepSimulates(s: LawfulSuite, records: Records, existing: map<U64, SigningRecord>, priv: Scalar, pk: ByteString, chainId: ByteString,
                      plan: Planned, each: Outcome<seq<SignResponse>>, req: SignRequest, time: int, now: int)
    requires Simulates(each, Ok(plan), records, now)
    requires ReadAsIs(existing, records, pk, chainId, req.height)
    requires SameAt(each.records, records, RecordKey(chainId, pk, req.height))
    ensures Simulates(EachStep(s, each, Ok(priv), pk, chainId, req, time), PlanStep(s, existing, priv, pk, chainId, plan, req), records, now)
  {
    hide Signature, SetByteSlice, ScalarBytes, RecordKey, SameButTime, PutAll, Entries;
    var sig := Signature(s, priv, chainId, req);
    if req.height !in existing && sig.Some? {
      var b := BatchSignRecord(req.height, chainId, req.msg, pk, ScalarBytes(sig.value));
      PutOneMore(records, plan.toSave, b, now);
      SameButTimeUpdate(each.records, PutAll(records, Entries(plan.toSave, now)), KeyOf(b), b.msg, b.sig, time, now);
    }
  }

  lemma {:induction false} PlanIsSignEach(s: LawfulSuite, records: Records, existing: map<U64, SigningRecord>, priv: Scalar,
                                          pk: ByteString, chainId: ByteString, reqs: seq<SignRequest>, times: seq<int>, now: int)
    requires |times| == |reqs| && DistinctHeights(reqs)
    requires forall i :: 0 <= i < |reqs| ==> ReadAsIs(existing, records, pk, chainId, reqs[i].height)
    ensures Simulates(SignEach(s, records, Ok(priv), pk, chainId, reqs, times), Plan(s, existing, priv, pk, chainId, reqs), records, now)
    decreases |reqs|
  {
    hide RecordKey, SameButTime, SameAt, ReadAsIs, EachStep, PlanStep;
    if reqs != [] {
      var n := |reqs| - 1;
      assert forall i :: 0 <= i < n ==> reqs[..n][i] == reqs[i];
      PlanIsSignEach(s, records, existing, priv, pk, chainId, reqs[..n], times[..n], now);
      SignEachFrame(s, records, Ok(priv), pk, chainId, reqs[..n], times[..n], reqs[n].height);
      var plan, each := Plan(s, existing, priv, pk, chainId, reqs[..n]), SignEach(s, records, Ok(priv), pk, chainId, reqs[..n], times[..n]);
      if plan.Ok? {
        StepSimulates(s, records, existing, priv, pk, chainId, plan.value, each, reqs[n], times[n], now);
      }
    } else {
      assert Entries([], now) == [];
      SameButTimeRefl(records);
    }
  }

  lemma PutOneMore(records: Records, toSave: seq<BatchSignRecord>, b: BatchSignRecord, now: int)
    ensures PutAll(records, Entries(toSave + [b], now))
            == PutAll(records, Entries(toSave, now))[KeyOf(b) := SigningRecord(b.msg, b.sig, now)]
  {
    hide KeyOf;
    var es := Entries(toSave + [b], now);
    assert es[..|es| - 1] == Entries(toSave, now);
  }

  /** With the key at hand, distinct heights and a database that accepts the transaction, a batch
      answers exactly what its requests answer one by one, errors included, and leaves the same
      bucket up to timestamps. */
  lemma BatchRefinesSequential(s: LawfulSuite, records: Records, priv: Scalar, pk: ByteString, chainId: ByteString,
                               reqs: seq<SignRequest>, now: int, times: seq<int>)
    requires DistinctHeights(reqs) && |times| == |reqs|
    ensures var batch := SignBatch(s, records, Ok(priv), pk, chainId, reqs, now, true);
            var each := SignEach(s, records, Ok(priv), pk, chainId, reqs, times);
            && batch.result == each.result
            && (batch.result.Ok? ==> SameButTime(batch.records, each.records))
            && (batch.result.Err? ==> batch.records == records)
  {
    hide RecordKey, Plan, SignEach;
    var existing := Lookup(records, pk, chainId, Heights(reqs));
    forall i | 0 <= i < |reqs| ensures ReadAsIs(existing, records, pk, chainId, reqs[i].height) {
      assert Heights(reqs)[i] == reqs[i].height;
    }
    PlanIsSignEach(s, records, existing, priv, pk, chainId, reqs, times, now);
    SameButTimeSym(SignEach(s, records, Ok(priv), pk, chainId, reqs, times).records, SignBatch(s, records, Ok(priv), pk, chainId, reqs, now, true).records);
  }

  // ----- repeating a batch -----

  /** Every request the loop did not find is answered with a fresh signature and saved. */
  ghost predicate SavesAllMissing(s: LawfulSuite, plan: Planned, existing: map<U64, SigningRecord>, priv: Scalar,
                                  pk: ByteString, chainId: ByteString, reqs: seq<SignRequest>)
  {
    forall i :: 0 <= i < |reqs| && reqs[i].height !in existing ==>
      var sig := Signature(s, priv, chainId, reqs[i]);
      && sig.Some?
      && BatchSignRecord(reqs[i].height, chainId, reqs[i].msg, pk, ScalarBytes(sig.value)) in plan.toSave
  }

  /** A turn of the loop keeps what was to be saved and adds a missing request. */
  lemma StepSaves(s: LawfulSuite, existing: map<U64, SigningRecord>, priv: Scalar, pk: ByteString, chainId: ByteString,
                  prev: Planned, req: SignRequest)
    requires PlanStep(s, existing, priv, pk, chainId, prev, req).Ok?
    ensures var next := PlanStep(s, existing, priv, pk, chainId, prev, req).value;
            && (forall b :: b in prev.toSave ==> b in next.toSave)
            && (req.height !in existing ==>
                  var sig := Signature(s, priv, chainId, req);
                  sig.Some? && BatchSignRecord(req.height, chainId, req.msg, pk, ScalarBytes(sig.value)) in next.toSave)
  {
    hide Signature, SetByteSlice, ScalarBytes;
  }

  lemma {:induction false} PlanSavesAllMissing(s: LawfulSuite, existing: map<U64, SigningRecord>, priv: Scalar,
                                               pk: ByteString, chainId: ByteString, reqs: seq<SignRequest>)
    requires Plan(s, existing, priv, pk, chainId, reqs).Ok?
    ensures SavesAllMissing(s, Plan(s, existing, priv, pk, chainId, reqs).value, existing, priv, pk, chainId, reqs)
    decreases |reqs|
  {
    hide Signature, ScalarBytes, PlanStep;
    if reqs != [] {
      var n := |reqs| - 1;
      PlanSavesAllMissing(s, existing, priv, pk, chainId, reqs[..n]);
      StepSaves(s, existing, priv, pk, chainId, Plan(s, existing, priv, pk, chainId, reqs[..n]).value, reqs[n]);
      assert forall i :: 0 <= i < n ==> reqs[..n][i] == reqs[i];
    }
  }

  /** Records that let a batch answer as it did when `before` was all it found. */
  ghost predicate Remembers(s: LawfulSuite, after: map<U64, SigningRecord>, before: map<U64, SigningRecord>, priv: Scalar,
                            chainId: ByteString, reqs: seq<SignRequest>)
  {
    forall i :: 0 <= i < |reqs| ==>
      var h := reqs[i].height;
      && h in after
      && (h in before ==> after[h] == before[h])
      && (h !in before ==>
            var sig := Signature(s, priv, chainId, reqs[i]);
            sig.Some? && after[h].msg == reqs[i].msg && after[h].sig == ScalarBytes(sig.value))
  }

  /** A turn of the loop that finds what an earlier turn found or saved answers alike and saves nothing. */
  lemma StepRepeats(s: LawfulSuite, before: map<U64, SigningRecord>, after: map<U64, SigningRecord>, priv: Scalar, priv': Scalar,
                    pk: ByteString, chainId: ByteString, prev: Planned, req: SignRequest)
    requires Remembers(s, after, before, priv, chainId, [req])
    requires PlanStep(s, before, priv, pk, chainId, prev, req).Ok?
    ensures PlanStep(s, after, priv', pk, chainId, Planned(prev.responses, []), req)
            == Ok(Planned(PlanStep(s, before, priv, pk, chainId, prev, req).value.responses, []))
  {
    hide Signature, SetByteSlice;
    assert [req][0] == req;
  }

  lemma {:induction false} PlanRepeats(s: LawfulSuite, before: map<U64, SigningRecord>, after: map<U64, SigningRecord>,
                                       priv: Scalar, priv': Scalar, pk: ByteString, chainId: ByteString, reqs: seq<SignRequest>)
    requires Remembers(s, after, before, priv, chainId, reqs)
    requires Plan(s, before, priv, pk, chainId, reqs).Ok?
    ensures Plan(s, after, priv', pk, chainId, reqs) == Ok(Planned(Plan(s, before, priv, pk, chainId, reqs).value.responses, []))
    decreases |reqs|
  {
    hide Signature, ScalarBytes, PlanStep;
    if reqs != [] {
      var n := |reqs| - 1;
      assert forall i :: 0 <= i < n ==> reqs[..n][i] == reqs[i];
      PlanRepeats(s, before, after, priv, priv', pk, chainId, reqs[..n]);
      StepRepeats(s, before, after, priv, priv', pk, chainId, Plan(s, before, priv, pk, chainId, reqs[..n]).value, reqs[n]);
    }
  }

  /** `b` holds everything `a` holds. */
  ghost predicate Extends(a: Records, b: Records) {
    forall k :: k in a ==> k in b && b[k] == a[k]
  }

  /** After a signed batch, each requested slot holds what it held before or, if it was
      empty, the request's own message and signature. */
  lemma BatchSlot(s: LawfulSuite, records: Records, priv: Scalar, pk: ByteString, chainId: ByteString,
                  reqs: seq<SignRequest>, now: int, i: nat)
    requires SignBatch(s, records, Ok(priv), pk, chainId, reqs, now, true).result.Ok?
    requires i < |reqs|
    ensures var k := RecordKey(chainId, pk, reqs[i].height);
            var after := SignBatch(s, records, Ok(priv), pk, chainId, reqs, now, true).records;
            var sig := Signature(s, priv, chainId, reqs[i]);
            && k in after
            && (k in records ==> after[k] == records[k])
            && (k !in records ==> sig.Some? && after[k] == SigningRecord(reqs[i].msg, ScalarBytes(sig.value), now))
  {
    hide Signature, SetByteSlice, ScalarBytes, RecordKey, Plan;
    var h, existing := reqs[i].height, Lookup(records, pk, chainId, Heights(reqs));
    assert Heights(reqs)[i] == h;
    var plan := Plan(s, existing, priv, pk, chainId, reqs).value;
    PlanSavesAllMissing(s, existing, priv, pk, chainId, reqs);
    PlanSavesOnlyMissing(s, existing, priv, pk, chainId, reqs);
    SavesFresh(plan, records, pk, chainId, reqs, now);
    var es := Entries(plan.toSave, now);
    PutAllContents(records, es);
    if h in existing {
      assert !HasKey(es, RecordKey(chainId, pk, h));
    } else {
      var b := BatchSignRecord(h, chainId, reqs[i].msg, pk, ScalarBytes(Signature(s, priv, chainId, reqs[i]).value));
      var j :| 0 <= j < |plan.toSave| && plan.toSave[j] == b;
      assert es[j] == Entry(b, now);
    }
  }

  lemma LookupRemembers(s: LawfulSuite, records: Records, later: Records, priv: Scalar, pk: ByteString, chainId: ByteString,
                        reqs: seq<SignRequest>, now: int)
    requires SignBatch(s, records, Ok(priv), pk, chainId, reqs, now, true).result.Ok?
    requires Extends(SignBatch(s, records, Ok(priv), pk, chainId, reqs, now, true).records, later)
    ensures Remembers(s, Lookup(later, pk, chainId, Heights(reqs)), Lookup(records, pk, chainId, Heights(reqs)), priv, chainId, reqs)
  {
    hide Signature, ScalarBytes, RecordKey, SignBatch;
    forall i | 0 <= i < |reqs|
      ensures RecordKey(chainId, pk, reqs[i].height) in SignBatch(s, records, Ok(priv), pk, chainId, reqs, now, true).records
      ensures var k := RecordKey(chainId, pk, reqs[i].height);
              var sig := Signature(s, priv, chainId, reqs[i]);
              && (k in records ==> later[k] == records[k])
              && (k !in records ==> sig.Some? && later[k] == SigningRecord(reqs[i].msg, ScalarBytes(sig.value), now))
      ensures reqs[i].height in Heights(reqs)
    {
      BatchSlot(s, records, priv, pk, chainId, reqs, now, i);
      assert Heights(reqs)[i] == reqs[i].height;
    }
  }

  /** Once a batch has been signed, repeating it over any bucket that has kept those records
      gives the same answer and changes nothing, whichever key is at hand. */
  lemma BatchRepeats(s: LawfulSuite, records: Records, later: Records, priv: Scalar, priv': Scalar, pk: ByteString,
                     chainId: ByteString, reqs: seq<SignRequest>, now: int, now': int, committed': bool)
    requires SignBatch(s, records, Ok(priv), pk, chainId, reqs, now, true).result.Ok?
    requires Extends(SignBatch(s, records, Ok(priv), pk, chainId, reqs, now, true).records, later)
    ensures SignBatch(s, later, Ok(priv'), pk, chainId, reqs, now', committed')
            == Outcome(later, SignBatch(s, records, Ok(priv), pk, chainId, reqs, now, true).result)
  {
    hide Signature, SetByteSlice, ScalarBytes, RecordKey, Plan, Lookup;
    LookupRemembers(s, records, later, priv, pk, chainId, reqs, now);
    PlanRepeats(s, Lookup(records, pk, chainId, Heights(reqs)), Lookup(later, pk, chainId, Heights(reqs)), priv, priv', pk, chainId, reqs);
    assert Entries([], now') == [];
  }

  // ----- the manager -----

  lemma {:induction false} PlanErrorStays(s: LawfulSuite, existing: map<U64, SigningRecord>, priv: Scalar, pk: ByteString,
                                          chainId: ByteString, reqs: seq<SignRequest>, n: nat)
    requires n <= |reqs| && Plan(s, existing, priv, pk, chainId, reqs[..n]).Err?
    ensures Plan(s, existing, priv, pk, chainId, reqs) == Plan(s, existing, priv, pk, chainId, reqs[..n])
    decreases |reqs|
  {
    hide Signature, SetByteSlice, ScalarBytes;
    if n == |reqs| {
      assert reqs[..n] == reqs;
    } else {
      assert reqs[..|reqs| - 1][..n] == reqs[..n];
      PlanErrorStays(s, existing, priv, pk, chainId, reqs[..|reqs| - 1], n);
    }
  }

  /** The private key behind a public key: its name, then the key of that name, which
      must belong to the public key asked for. */
  function KeyFor(s: Suite, keyNames: map<ByteString, string>, keys: map<string, Scalar>, pk: ByteString): (r: Result<Scalar>)
    ensures r.Ok? <==> pk in keyNames && keyNames[pk] in keys && s.xOnlyPubKey(keys[keyNames[pk]]) == pk
    ensures r.Ok? ==> s.xOnlyPubKey(r.value) == pk && r.value == keys[keyNames[pk]]
  {
    if pk !in keyNames then Err(KeyNameNotFound)
    else if keyNames[pk] !in keys then Err(KeyNotUnlocked)
    else if s.xOnlyPubKey(keys[keyNames[pk]]) != pk then Err(KeyMismatch)
    else Ok(keys[keyNames[pk]])
  }

  class LocalEotsManager {
    const suite: LawfulSuite
    const es: EotsStore
    const backend: Backend
    const keyring: map<string, Scalar>
    var privateKeys: map<string, Scalar>

    constructor (suite: LawfulSuite, es: EotsStore, backend: Backend, keyring: map<string, Scalar>)
      ensures this.suite == suite && this.es == es && this.backend == backend && this.keyring == keyring
      ensures privateKeys == map[]
    {
      this.suite, this.es, this.backend, this.keyring := suite, es, backend, keyring;
      privateKeys := map[];
    }

    /** The test backend reads the keyring; the file backend needs the key to be unlocked. */
    function Key(pk: ByteString): (r: Result<Scalar>)
      reads this, es
      ensures backend.TestBackend? ==>
                (r.Ok? <==> pk in es.keyNames && es.keyNames[pk] in keyring && suite.xOnlyPubKey(keyring[es.keyNames[pk]]) == pk)
      ensures backend.FileBackend? ==>
                (r.Ok? <==> pk in es.keyNames && es.keyNames[pk] in privateKeys && suite.xOnlyPubKey(privateKeys[es.keyNames[pk]]) == pk)
      ensures r.Ok? ==> suite.xOnlyPubKey(r.value) == pk
    {
      KeyFor(suite, es.keyNames, if backend == TestBackend then keyring else privateKeys, pk)
    }

    /** Unlock: afterwards the file backend can sign with the key, if it matches. */
    method Unlock(pk: ByteString) returns (r: Result<()>)
      modifies this`privateKeys
      ensures r.Ok? <==> && pk in es.keyNames && es.keyNames[pk] in keyring && es.keyNames[pk] !in old(privateKeys)
      ensures r.Ok? ==> privateKeys == old(privateKeys)[es.keyNames[pk] := keyring[es.keyNames[pk]]]
      ensures r.Err? ==> privateKeys == old(privateKeys)
      ensures r.Ok? ==> (Key(pk).Ok? <==> suite.xOnlyPubKey(keyring[es.keyNames[pk]]) == pk)
    {
      if pk !in es.keyNames {
        return Err(KeyNameNotFound);
      }
      var name := es.keyNames[pk];
      if name !in keyring {
        return Err(KeyNotInKeyring);
      }
      if name in privateKeys {
        return Err(AlreadyUnlocked);
      }
      privateKeys := privateKeys[name := keyring[name]];
      r := Ok(());
    }

    /** SignEOTS. A slot on record is answered from the record, whether or not the key is at hand: the same message
        with its signature, another one with a refusal. A slot not on record needs the key, is signed with the
        slot's nonce, and is saved before the signature is returned. */
    method SignEOTS(eotsPk: ByteString, chainId: ByteString, msg: ByteString, height: U64, now: int, committed: bool)
      returns (r: Result<Scalar>)
      modifies es`signRecords
      ensures Outcome(es.signRecords, r)
              == SignOne(suite, old(es.signRecords), Key(eotsPk), eotsPk, chainId, SignRequest(msg, height), now, committed)
      ensures Extends(old(es.signRecords), es.signRecords)
      ensures r.Err? ==> es.signRecords == old(es.signRecords)
      ensures r.Ok? ==> var k := RecordKey(chainId, eotsPk, height);
                        k in es.signRecords && es.signRecords[k].msg == msg && SetByteSlice(es.signRecords[k].sig).0 == r.value
      ensures var k, was := RecordKey(chainId, eotsPk, height), old(es.signRecords);
              k in was ==> && es.signRecords == was
                           && r == if was[k].msg == msg then Ok(SetByteSlice(was[k].sig).0) else Err(DoubleSign)
      ensures var k, was := RecordKey(chainId, eotsPk, height), old(es.signRecords);
              k !in was && Key(eotsPk).Err? ==> r == Err(Key(eotsPk).error)
      ensures var k, was := RecordKey(chainId, eotsPk, height), old(es.signRecords);
              k !in was && Key(eotsPk).Ok? ==>
                var sig := Signature(suite, Key(eotsPk).value, chainId, SignRequest(msg, height));
                && (r.Ok? <==> sig.Some? && committed)
                && (r.Ok? ==> r == Ok(sig.value) && es.signRecords == was[k := SigningRecord(msg, ScalarBytes(sig.value), now)])
    {
      var found := es.GetSignRecord(eotsPk, chainId, height);
      if found.Some? {
        if found.value.msg == msg {
          var (x, _) := SetByteSlice(found.value.sig);
          return Ok(x);
        }
        return Err(DoubleSign);
      }
      var key := Key(eotsPk);
      if key.Err? {
        return Err(key.error);
      }
      var sig := Sign(key.value, chainId, SignRequest(msg, height));
      if sig.None? {
        return Err(SignFailed);
      }
      var saved := es.SaveSignRecord(height, chainId, msg, eotsPk, ScalarBytes(sig.value), now, committed);
      if saved.Err? {
        return Err(Database);
      }
      r := Ok(sig.value);
    }

    /** The loop of SignBatchEOTS over the requests. */
    method PlanBatch(existing: map<U64, SigningRecord>, priv: Scalar, eotsPk: ByteString, chainId: ByteString, reqs: seq<SignRequest>)
      returns (r: Result<Planned>)
      ensures r == Plan(suite, existing, priv, eotsPk, chainId, reqs)
    {
      hide Signature, SetByteSlice, ScalarBytes;
      var response: seq<SignResponse> := [];
      var toSave: seq<BatchSignRecord> := [];
      for i := 0 to |reqs|
        invariant Plan(suite, existing, priv, eotsPk, chainId, reqs[..i]) == Ok(Planned(response, toSave))
      {
        assert reqs[..i + 1][..i] == reqs[..i];
        var req := reqs[i];
        if req.height in existing {
          if existing[req.height].msg == req.msg {
            var x := SetByteSlice(existing[req.height].sig);
            response := response + [SignResponse(x.0, req.height)];
          }
        } else {
          var sig := Sign(priv, chainId, req);
          if sig.None? {
            PlanErrorStays(suite, existing, priv, eotsPk, chainId, reqs, i + 1);
            return Err(SignFailed);
          }
          toSave := toSave + [BatchSignRecord(req.height, chainId, req.msg, eotsPk, ScalarBytes(sig.value))];
          response := response + [SignResponse(sig.value, req.height)];
        }
      }
      assert reqs[..|reqs|] == reqs;
      r := Ok(Planned(response, toSave));
    }

    /** SignBatchEOTS */
    method SignBatchEOTS(eotsPk: ByteString, chainId: ByteString, reqs: seq<SignRequest>, now: int, committed: bool)
      returns (r: Result<seq<SignResponse>>)
      modifies es`signRecords
      ensures Outcome(es.signRecords, r)
              == SignBatch(suite, old(es.signRecords), Key(eotsPk), eotsPk, chainId, reqs, now, committed)
      ensures r.Err? ==> es.signRecords == old(es.signRecords)
      ensures !DistinctHeights(reqs) ==> r == Err(DuplicateHeight)
      ensures DistinctHeights(reqs) && Key(eotsPk).Err? ==> r == Err(Key(eotsPk).error)
    {
      hide Plan, RecordKey;
      var dup, _ := Validation.HasDuplicateHeights(Heights(reqs));
      if dup {
        return Err(DuplicateHeight);
      }
      assert DistinctHeights(reqs);
      var key := Key(eotsPk);
      if key.Err? {
        return Err(key.error);
      }
      var existing := es.GetSignRecordsBatch(eotsPk, chainId, Heights(reqs));
      var plan := PlanBatch(existing, key.value, eotsPk, chainId, reqs);
      if plan.Err? {
        return Err(plan.error);
      }
      if |plan.value.toSave| > 0 {
        PlanSavesOnlyMissing(suite, existing, key.value, eotsPk, chainId, reqs);
        SavesFresh(plan.value, es.signRecords, eotsPk, chainId, reqs, now);
        var saved := es.SaveSignRecordsBatch(plan.value.toSave, now, committed);
        if saved.Err? {
          return Err(Database);
        }
      } else {
        assert Entries(plan.value.toSave, now) == [];
      }
      r := Ok(plan.value.responses);
    }

    method Sign(priv: Scalar, chainId: ByteString, req: SignRequest) returns (sig: Option<Scalar>)
      ensures sig == Signature(suite, priv, chainId, req)
    {
      var privRand, _ := GenerateRandomness(suite, priv, chainId, req.height);
      sig := suite.eotsSign(priv, privRand, req.msg);
    }

    /** CreateRandomnessPairList without an interval, for the key of `fpPk`. */
    method PubRandList(fpPk: ByteString, chainId: ByteString, startHeight: U64, num: U32) returns (r: Result<seq<ByteString>>)
      ensures Key(fpPk).Err? <==> r.Err?
      ensures r.Err? ==> r == Err(Key(fpPk).error)
      ensures r.Ok? ==> r.value == PubRands(suite, Key(fpPk).value, chainId, startHeight, num)
    {
      r := CreateRandomnessPairList(suite, Key(fpPk), chainId, startHeight, num, None);
    }
  }
}
