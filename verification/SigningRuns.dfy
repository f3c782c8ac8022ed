/** Double-sign protection over whole runs. Signing calls run concurrently, each split into the
    transaction that reads, the computation of signatures, the transaction that saves if absent,
    and the return. No lock is assumed; a call may fail and the process may crash at any point;
    an operator may roll records back. */
module SigningRuns {
  import opened Bytes
  import opened Keys
  import opened Maps
  import opened Wrappers
  import opened Crypto
  import opened EotsStore
  import opened EotsManager

  /** A call of SignBatchEOTS, or of SignEOTS as the batch of its one request. */
  datatype Call = Call(pk: ByteString, chainId: ByteString, reqs: seq<SignRequest>)

  datatype Thread =
    | Started(call: Call)
    | HasRead(call: Call, existing: map<U64, SigningRecord>)
    | HasSigned(call: Call, plan: Planned)
    | HasSaved(call: Call, responses: seq<SignResponse>)

  /** A signature that left the manager. */
  datatype Returned = Returned(pk: ByteString, chainId: ByteString, height: U64, msg: ByteString, sig: Scalar)
  {
    function Key(): ByteString { RecordKey(chainId, pk, height) }
  }

  /** The cryptography, and which private keys the manager may come to use under a public key. */
  datatype Manager = Manager(suite: LawfulSuite, held: (ByteString, Scalar) -> bool)
  {
    /** The check before signing: the key at hand belongs to the public key asked for. */
    predicate Uses(pk: ByteString, priv: Scalar) {
      held(pk, priv) && suite.xOnlyPubKey(priv) == pk
    }
  }

  datatype RollbackOp = RollbackOp(chainId: ByteString, pk: ByteString, fromHeight: U64)

  datatype State = State(
    records: Records,
    threads: map<nat, Thread>,
    returned: set<Returned>,      // everything ever returned
    rollbacks: set<RollbackOp>)   // every rollback ever made

  datatype Step =
    | Invoke(t: nat, call: Call)
    | Read(t: nat)
    | Sign(t: nat, priv: Scalar)
    | Save(t: nat, now: int)
    | Return(t: nat)
    | Fail(t: nat)
    | Crash
    | RollBack(op: RollbackOp)

  /** The answers of a call: each response with the message of the request it answers. */
  ghost function Answers(call: Call, responses: seq<SignResponse>): set<Returned> {
    set q, r | q in call.reqs && r in responses && q.height == r.height
      :: Returned(call.pk, call.chainId, q.height, q.msg, r.signature)
  }

  const INIT: State := State(map[], map[], {}, {})

  /** One atomic step. A batch with repeated heights never gets past its validation. A key is used
      only if it belongs to the public key; no key is needed when every request is on record. */
  ghost predicate Next(m: Manager, st: State, st': State, step: Step) {
    match step
    case Invoke(t, call) =>
      t !in st.threads && st' == st.(threads := st.threads[t := Started(call)])
    case Read(t) =>
      && t in st.threads && st.threads[t].Started? && DistinctHeights(st.threads[t].call.reqs)
      && var call := st.threads[t].call;
         st' == st.(threads := st.threads[t := HasRead(call, Lookup(st.records, call.pk, call.chainId, Heights(call.reqs)))])
    case Sign(t, priv) =>
      && t in st.threads && st.threads[t].HasRead?
      && var (call, existing) := (st.threads[t].call, st.threads[t].existing);
         && (m.Uses(call.pk, priv) || forall q :: q in call.reqs ==> q.height in existing)
         && var plan := Plan(m.suite, existing, priv, call.pk, call.chainId, call.reqs);
            plan.Ok? && st' == st.(threads := st.threads[t := HasSigned(call, plan.value)])
    case Save(t, now) =>
      && t in st.threads && st.threads[t].HasSigned?
      && var (call, plan) := (st.threads[t].call, st.threads[t].plan);
         && Fresh(st.records, Entries(plan.toSave, now))
         && st' == st.(records := PutAll(st.records, Entries(plan.toSave, now)),
                       threads := st.threads[t := HasSaved(call, plan.responses)])
    case Return(t) =>
      && t in st.threads && st.threads[t].HasSaved?
      && st' == st.(threads := st.threads - {t},
                    returned := st.returned + Answers(st.threads[t].call, st.threads[t].responses))
    case Fail(t) =>
      st' == st.(threads := st.threads - {t})
    case Crash =>
      st' == st.(threads := map[])
    case RollBack(op) =>
      st' == st.(records := Rollback(st.records, op.chainId, op.pk, op.fromHeight), rollbacks := st.rollbacks + {op})
  }

  ghost predicate Steps(m: Manager, st: State, st': State) {
    exists step :: Next(m, st, st', step)
  }

  /** The states of a run, from the empty database on. */
  ghost predicate Run(m: Manager, run: seq<State>) {
    && run != [] && run[0] == INIT
    && forall i :: 0 <= i < |run| - 1 ==> Steps(m, run[i], run[i + 1])
  }

  // ----- invariant -----

  /** Some rollback took out the slot of this key. */
  ghost predicate Hit(rollbacks: set<RollbackOp>, key: ByteString) {
    exists op :: op in rollbacks && RolledBack(key, op.chainId, op.pk, op.fromHeight)
  }

  /** The record at a key was signed for that slot, by a key pair of its public key, with its nonce. */
  ghost predicate Genuine(m: Manager, key: ByteString, msg: ByteString, sig: ByteString) {
    exists chainId, pk, h: U64, priv: Scalar :: SignedBy(m, key, msg, sig, chainId, pk, h, priv)
  }

  ghost predicate SignedBy(m: Manager, key: ByteString, msg: ByteString, sig: ByteString,
                           chainId: ByteString, pk: ByteString, h: U64, priv: Scalar)
  {
    && key == RecordKey(chainId, pk, h)
    && m.Uses(pk, priv)
    && var x := Signature(m.suite, priv, chainId, SignRequest(msg, h));
       x.Some? && sig == ScalarBytes(x.value)
  }

  /** The bucket holds the answer at its slot. */
  ghost predicate OnRecord(records: Records, e: Returned) {
    e.Key() in records && records[e.Key()].msg == e.msg && SetByteSlice(records[e.Key()].sig).0 == e.sig
  }

  ghost predicate GenuineAnswer(m: Manager, e: Returned) {
    exists sig :: Genuine(m, e.Key(), e.msg, sig) && SetByteSlice(sig).0 == e.sig
  }

  ghost predicate AnswerOk(m: Manager, st: State, e: Returned) {
    GenuineAnswer(m, e) && (Hit(st.rollbacks, e.Key()) || OnRecord(st.records, e))
  }

  /** The record that will be put for the answer is among those to save. */
  ghost predicate ToBeSaved(m: Manager, e: Returned, toSave: seq<BatchSignRecord>) {
    BatchSignRecord(e.height, e.chainId, e.msg, e.pk, ScalarBytes(e.sig)) in toSave
  }

  ghost predicate ReadOk(m: Manager, st: State, k: ByteString, r: SigningRecord) {
    && Genuine(m, k, r.msg, r.sig)
    && (Hit(st.rollbacks, k) || (k in st.records && st.records[k] == r))
  }

  ghost predicate ThreadOk(m: Manager, st: State, th: Thread) {
    match th
    case Started(_) => true
    case HasRead(call, existing) =>
      && DistinctHeights(call.reqs)
      && forall h :: h in existing ==> ReadOk(m, st, RecordKey(call.chainId, call.pk, h), existing[h])
    case HasSigned(call, plan) =>
      && (forall e :: e in Answers(call, plan.responses) ==> AnswerOk(m, st, e) || ToBeSaved(m, e, plan.toSave))
      && (forall b :: b in plan.toSave ==> Genuine(m, KeyOf(b), b.msg, b.sig))
    case HasSaved(call, responses) =>
      forall e :: e in Answers(call, responses) ==> AnswerOk(m, st, e)
  }

  ghost predicate Inv(m: Manager, st: State) {
    && (forall k :: k in st.records ==> Genuine(m, k, st.records[k].msg, st.records[k].sig))
    && (forall t :: t in st.threads ==> ThreadOk(m, st, st.threads[t]))
    && (forall e :: e in st.returned ==> AnswerOk(m, st, e))
  }

  // ----- preservation -----

  /** Each slot that held a record still holds it or was rolled back; rollbacks are remembered. */
  ghost predicate Keeps(st: State, st': State) {
    && st.rollbacks <= st'.rollbacks
    && forall k :: k in st.records ==> Hit(st'.rollbacks, k) || (k in st'.records && st'.records[k] == st.records[k])
  }

  lemma KeepsThread(m: Manager, st: State, st': State, th: Thread)
    requires Keeps(st, st') && ThreadOk(m, st, th)
    ensures ThreadOk(m, st', th)
  {
    hide Genuine, SetByteSlice, RecordKey, RolledBack, Answers, Lookup, GenuineAnswer, ToBeSaved;
  }

  lemma KeepsAnswers(m: Manager, st: State, st': State)
    requires Keeps(st, st')
    ensures forall e :: AnswerOk(m, st, e) ==> AnswerOk(m, st', e)
  {
    hide Genuine, SetByteSlice, RecordKey, RolledBack, GenuineAnswer;
  }

  lemma ReadKeeps(m: Manager, st: State, call: Call)
    requires Inv(m, st) && DistinctHeights(call.reqs)
    ensures ThreadOk(m, st, HasRead(call, Lookup(st.records, call.pk, call.chainId, Heights(call.reqs))))
  {
    hide Genuine, RecordKey, Hit, AnswerOk;
  }

  /** What a plan saves is signed, for the slot it goes to, by the key used. */
  lemma {:induction false} PlanSignsGenuinely(m: Manager, existing: map<U64, SigningRecord>, priv: Scalar, pk: ByteString,
                                              chainId: ByteString, reqs: seq<SignRequest>)
    requires Plan(m.suite, existing, priv, pk, chainId, reqs).Ok?
    requires m.Uses(pk, priv) || forall q :: q in reqs ==> q.height in existing
    ensures forall b :: b in Plan(m.suite, existing, priv, pk, chainId, reqs).value.toSave ==> Genuine(m, KeyOf(b), b.msg, b.sig)
    decreases |reqs|
  {
    hide Signature, SetByteSlice, ScalarBytes, RecordKey;
    if reqs != [] {
      var n := |reqs| - 1;
      PlanSignsGenuinely(m, existing, priv, pk, chainId, reqs[..n]);
      var req := reqs[n];
      if req.height !in existing {
        var b := BatchSignRecord(req.height, chainId, req.msg, pk, ScalarBytes(Signature(m.suite, priv, chainId, req).value));
        assert req == SignRequest(b.msg, b.height);
        assert SignedBy(m, KeyOf(b), b.msg, b.sig, chainId, pk, b.height, priv);
      }
    }
  }

  lemma AnswerOrigin(call: Call, responses: seq<SignResponse>, e: Returned) returns (q: SignRequest, r: SignResponse)
    requires e in Answers(call, responses)
    ensures q in call.reqs && r in responses && q.height == r.height
    ensures e == Returned(call.pk, call.chainId, q.height, q.msg, r.signature)
  {
    q, r :| q in call.reqs && r in responses && q.height == r.height
            && e == Returned(call.pk, call.chainId, q.height, q.msg, r.signature);
  }

  /** The answer to a request is on record as read, or will be saved. */
  lemma AnswerKept(m: Manager, st: State, call: Call, existing: map<U64, SigningRecord>, priv: Scalar, plan: Planned,
                   q: SignRequest, sig: Scalar)
    requires ThreadOk(m, st, HasRead(call, existing)) && q in call.reqs
    requires SavesAllMissing(m.suite, plan, existing, priv, call.pk, call.chainId, call.reqs)
    requires Answer(m.suite, existing, priv, call.chainId, q) == Some(sig)
    ensures var e := Returned(call.pk, call.chainId, q.height, q.msg, sig);
            AnswerOk(m, st, e) || ToBeSaved(m, e, plan.toSave)
  {
    hide Signature, SetByteSlice, ScalarBytes, RecordKey, Hit, Genuine, DistinctHeights;
    if q.height in existing {
      assert ReadOk(m, st, RecordKey(call.chainId, call.pk, q.height), existing[q.height]);
    }
  }

  lemma SignKeeps(m: Manager, st: State, call: Call, existing: map<U64, SigningRecord>, priv: Scalar)
    requires ThreadOk(m, st, HasRead(call, existing))
    requires m.Uses(call.pk, priv) || forall q :: q in call.reqs ==> q.height in existing
    requires Plan(m.suite, existing, priv, call.pk, call.chainId, call.reqs).Ok?
    ensures ThreadOk(m, st, HasSigned(call, Plan(m.suite, existing, priv, call.pk, call.chainId, call.reqs).value))
  {
    hide Plan, Answer, Answers, AnswerOk, ToBeSaved, Genuine, SavesAllMissing, ReadOk;
    var plan := Plan(m.suite, existing, priv, call.pk, call.chainId, call.reqs).value;
    PlanAnswers(m.suite, existing, priv, call.pk, call.chainId, call.reqs);
    PlanSavesAllMissing(m.suite, existing, priv, call.pk, call.chainId, call.reqs);
    PlanSignsGenuinely(m, existing, priv, call.pk, call.chainId, call.reqs);
    forall e | e in Answers(call, plan.responses)
      ensures AnswerOk(m, st, e) || ToBeSaved(m, e, plan.toSave)
    {
      var q, r := AnswerOrigin(call, plan.responses, e);
      AnswerKept(m, st, call, existing, priv, plan, q, r.signature);
    }
  }

  lemma SaveExtends(st: State, es: seq<(ByteString, SigningRecord)>)
    requires Fresh(st.records, es)
    ensures Keeps(st, st.(records := PutAll(st.records, es)))
  {
    hide RolledBack, PutAll, Hit;
    forall k | k in st.records ensures k in PutAll(st.records, es) && PutAll(st.records, es)[k] == st.records[k] {
      PutAllElsewhere(st.records, es, k);
    }
  }

  lemma SavedAreGenuine(m: Manager, records: Records, toSave: seq<BatchSignRecord>, now: int, k: ByteString)
    requires Fresh(records, Entries(toSave, now)) && k in PutAll(records, Entries(toSave, now))
    requires k in records ==> Genuine(m, k, records[k].msg, records[k].sig)
    requires forall b :: b in toSave ==> Genuine(m, KeyOf(b), b.msg, b.sig)
    ensures var r := PutAll(records, Entries(toSave, now))[k]; Genuine(m, k, r.msg, r.sig)
  {
    hide Genuine, RecordKey, PutAll;
    var es := Entries(toSave, now);
    if i :| 0 <= i < |es| && es[i].0 == k {
      PutAllAt(records, es, i);
      assert toSave[i] in toSave;
    } else {
      PutAllElsewhere(records, es, k);
    }
  }

  lemma SavedIsOnRecord(m: Manager, st: State, toSave: seq<BatchSignRecord>, now: int, e: Returned)
    requires Fresh(st.records, Entries(toSave, now)) && ToBeSaved(m, e, toSave)
    requires forall b :: b in toSave ==> Genuine(m, KeyOf(b), b.msg, b.sig)
    ensures AnswerOk(m, st.(records := PutAll(st.records, Entries(toSave, now))), e)
  {
    hide Genuine, RecordKey, PutAll, SetByteSlice, ScalarBytes, Hit;
    var b := BatchSignRecord(e.height, e.chainId, e.msg, e.pk, ScalarBytes(e.sig));
    var i :| 0 <= i < |toSave| && toSave[i] == b;
    PutAllAt(st.records, Entries(toSave, now), i);
    assert SetByteSlice(b.sig).0 == e.sig;
    assert Genuine(m, e.Key(), e.msg, b.sig);
  }

  lemma SaveKeeps(m: Manager, st: State, call: Call, plan: Planned, now: int)
    requires Inv(m, st) && ThreadOk(m, st, HasSigned(call, plan))
    requires Fresh(st.records, Entries(plan.toSave, now))
    ensures var st' := st.(records := PutAll(st.records, Entries(plan.toSave, now)));
            && Keeps(st, st')
            && (forall k :: k in st'.records ==> Genuine(m, k, st'.records[k].msg, st'.records[k].sig))
            && ThreadOk(m, st', HasSaved(call, plan.responses))
  {
    hide Genuine, AnswerOk, ToBeSaved, PutAll, Fresh, Entries, Answers, KeyOf, Keeps;
    var st' := st.(records := PutAll(st.records, Entries(plan.toSave, now)));
    SaveExtends(st, Entries(plan.toSave, now));
    KeepsAnswers(m, st, st');
    forall k | k in st'.records ensures Genuine(m, k, st'.records[k].msg, st'.records[k].sig) {
      SavedAreGenuine(m, st.records, plan.toSave, now, k);
    }
    forall e | e in Answers(call, plan.responses) ensures AnswerOk(m, st', e) {
      if ToBeSaved(m, e, plan.toSave) {
        SavedIsOnRecord(m, st, plan.toSave, now, e);
      }
    }
  }

  lemma RollbackKeeps(m: Manager, st: State, op: RollbackOp)
    ensures Keeps(st, st.(records := Rollback(st.records, op.chainId, op.pk, op.fromHeight), rollbacks := st.rollbacks + {op}))
  {
  }

  lemma KeepsInv(m: Manager, st: State, st': State)
    requires Inv(m, st) && Keeps(st, st')
    requires forall k :: k in st'.records ==> Genuine(m, k, st'.records[k].msg, st'.records[k].sig)
    requires forall t :: t in st'.threads ==> ThreadOk(m, st', st'.threads[t]) || (t in st.threads && st'.threads[t] == st.threads[t])
    requires forall e :: e in st'.returned ==> AnswerOk(m, st', e) || e in st.returned
    ensures Inv(m, st')
  {
    hide Genuine, ThreadOk, AnswerOk;
    forall t | t in st'.threads ensures ThreadOk(m, st', st'.threads[t]) {
      if !ThreadOk(m, st', st'.threads[t]) {
        KeepsThread(m, st, st', st.threads[t]);
      }
    }
    KeepsAnswers(m, st, st');
  }

  lemma StartedIsOk(m: Manager, st: State, call: Call)
    ensures ThreadOk(m, st, Started(call))
  {
  }

  lemma ReturnKeeps(m: Manager, st: State, call: Call, responses: seq<SignResponse>)
    requires ThreadOk(m, st, HasSaved(call, responses))
    ensures forall e :: e in Answers(call, responses) ==> AnswerOk(m, st, e)
  {
    hide AnswerOk, Answers;
  }

  lemma InvStep(m: Manager, st: State, st': State, step: Step)
    requires Inv(m, st) && Next(m, st, st', step)
    ensures Inv(m, st')
  {
    hide Genuine, AnswerOk, ThreadOk, RolledBack, Plan, Lookup, Answers, Fresh, PutAll;
    match step
    case Invoke(t, call) =>
      StartedIsOk(m, st', call);
      KeepsInv(m, st, st');
    case Read(t) =>
      ReadKeeps(m, st, st.threads[t].call);
      KeepsThread(m, st, st', st'.threads[t]);
      KeepsInv(m, st, st');
    case Sign(t, priv) =>
      SignKeeps(m, st, st.threads[t].call, st.threads[t].existing, priv);
      KeepsThread(m, st, st', st'.threads[t]);
      KeepsInv(m, st, st');
    case Save(t, now) =>
      var th := st.threads[t];
      SaveKeeps(m, st, th.call, th.plan, now);
      var mid := st.(records := PutAll(st.records, Entries(th.plan.toSave, now)));
      KeepsThread(m, mid, st', st'.threads[t]);
      KeepsInv(m, st, st');
    case Return(t) =>
      ReturnKeeps(m, st, st.threads[t].call, st.threads[t].responses);
      KeepsAnswers(m, st, st');
      KeepsInv(m, st, st');
    case Fail(t) => KeepsInv(m, st, st');
    case Crash => KeepsInv(m, st, st');
    case RollBack(op) =>
      RollbackKeeps(m, st, op);
      KeepsInv(m, st, st');
  }

  lemma {:induction false} RunInv(m: Manager, run: seq<State>)
    requires Run(m, run)
    ensures Inv(m, run[|run| - 1])
    decreases |run|
  {
    hide Next, AnswerOk, ThreadOk, Genuine;
    if |run| > 1 {
      var n := |run| - 1;
      RunInv(m, run[..n]);
      assert Steps(m, run[n - 1], run[n]);
      var step :| Next(m, run[n - 1], run[n], step);
      InvStep(m, run[n - 1], run[n], step);
    }
  }

  // ----- the guarantees -----

  /** In every run, any two signatures ever returned for one public key, chain and height are
      equal and over the same message, unless a rollback took out that very slot. */
  lemma OneMessagePerSlot(m: Manager, run: seq<State>, e1: Returned, e2: Returned)
    requires Run(m, run)
    requires e1 in run[|run| - 1].returned && e2 in run[|run| - 1].returned
    requires e1.pk == e2.pk && e1.chainId == e2.chainId && e1.height == e2.height
    requires !Hit(run[|run| - 1].rollbacks, e1.Key())
    ensures e1.msg == e2.msg && e1.sig == e2.sig
  {
    hide Steps, RecordKey, SetByteSlice, Hit;
    RunInv(m, run);
    assert AnswerOk(m, run[|run| - 1], e1) && AnswerOk(m, run[|run| - 1], e2);
  }

  /** For votes, the one message is one block hash. */
  lemma OneBlockPerSlot(m: Manager, run: seq<State>, e1: Returned, e2: Returned, hash1: ByteString, hash2: ByteString)
    requires Run(m, run)
    requires e1 in run[|run| - 1].returned && e2 in run[|run| - 1].returned
    requires e1.pk == e2.pk && e1.chainId == e2.chainId && e1.height == e2.height
    requires !Hit(run[|run| - 1].rollbacks, e1.Key())
    requires e1.msg == MsgToSign([], e1.height, hash1) && e2.msg == MsgToSign([], e2.height, hash2)
    ensures hash1 == hash2
  {
    hide Steps, Hit;
    OneMessagePerSlot(m, run, e1, e2);
    MsgToSignInjective([], e1.height, hash1, e2.height, hash2);
  }

  /** In every run, rollbacks included, a signature returned for a 32-byte public key is made by
      a private key of that public key, with the nonce of the very slot it was asked for. */
  lemma ReturnedAreGenuine(m: Manager, run: seq<State>, e: Returned)
    requires Run(m, run) && e in run[|run| - 1].returned && |e.pk| == PK_LEN
    ensures exists priv: Scalar :: && m.Uses(e.pk, priv)
                                   && Signature(m.suite, priv, e.chainId, SignRequest(e.msg, e.height)) == Some(e.sig)
  {
    hide Steps, RecordKey, SetByteSlice, Signature, Hit;
    RunInv(m, run);
    assert AnswerOk(m, run[|run| - 1], e);
    var sig :| Genuine(m, e.Key(), e.msg, sig) && SetByteSlice(sig).0 == e.sig;
    var c, p, h: U64, priv: Scalar :| SignedBy(m, e.Key(), e.msg, sig, c, p, h, priv);
    RecordKeyInjective(e.chainId, e.pk, e.height, c, p, h);
  }

  /** No nonce input is ever spent on two messages: signatures returned under one public key whose
      HMAC inputs coincide, at whatever iterations, are over one message. */
  lemma NonceInputNeverReused(m: Manager, run: seq<State>, e1: Returned, e2: Returned, i1: U64, i2: U64)
    requires Run(m, run)
    requires e1 in run[|run| - 1].returned && e2 in run[|run| - 1].returned
    requires e1.pk == e2.pk
    requires NonceInput(e1.chainId, e1.height, i1) == NonceInput(e2.chainId, e2.height, i2)
    requires !Hit(run[|run| - 1].rollbacks, e1.Key())
    ensures e1.msg == e2.msg && e1.sig == e2.sig
  {
    hide Steps, Hit, NonceInput, RecordKey;
    NonceInputInjective(e1.chainId, e1.height, i1, e2.chainId, e2.height, i2);
    OneMessagePerSlot(m, run, e1, e2);
  }

  /** With 32-byte keys and prefix-free chain ids, a slot below every rollback of its own chain and
      key is never hit, so it keeps the whole-run guarantee. */
  lemma SlotsBelowRollbacksKeepGuarantee(m: Manager, run: seq<State>, e1: Returned, e2: Returned)
    requires Run(m, run)
    requires e1 in run[|run| - 1].returned && e2 in run[|run| - 1].returned
    requires e1.pk == e2.pk && e1.chainId == e2.chainId && e1.height == e2.height
    requires |e1.pk| == PK_LEN
    requires forall op :: op in run[|run| - 1].rollbacks ==>
               && |op.pk| == PK_LEN && PrefixFree(op.chainId, e1.chainId)
               && (op.chainId == e1.chainId && op.pk == e1.pk ==> e1.height < op.fromHeight)
    ensures e1.msg == e2.msg && e1.sig == e2.sig
  {
    hide Steps, RecordKey;
    forall op | op in run[|run| - 1].rollbacks
      ensures !RolledBack(e1.Key(), op.chainId, op.pk, op.fromHeight)
    {
      if RolledBack(e1.Key(), op.chainId, op.pk, op.fromHeight) {
        PrefixFreeExcludesForeign(op.chainId, op.pk, e1.chainId, e1.pk, e1.height);
        KeyHeight(e1.chainId, e1.pk, e1.height);
      }
    }
    OneMessagePerSlot(m, run, e1, e2);
  }

  lemma KeyHeight(chainId: ByteString, pk: ByteString, h: U64)
    ensures ExtractHeight(RecordKey(chainId, pk, h)) == Some(h)
  {
    assert RecordKey(chainId, pk, h) == (chainId + pk) + U64ToBE(h);
  }

  // ----- the manager's calls are runs -----

  /** The five steps of one call that nothing else interleaves with. */
  ghost function Uninterrupted(st: State, t: nat, call: Call, existing: map<U64, SigningRecord>, plan: Planned, now: int): seq<State> {
    var saved := st.(records := PutAll(st.records, Entries(plan.toSave, now)));
    [ st,
      st.(threads := st.threads[t := Started(call)]),
      st.(threads := st.threads[t := HasRead(call, existing)]),
      st.(threads := st.threads[t := HasSigned(call, plan)]),
      saved.(threads := st.threads[t := HasSaved(call, plan.responses)]),
      saved.(returned := st.returned + Answers(call, plan.responses)) ]
  }

  lemma UninterruptedReadAndSign(m: Manager, st: State, t: nat, call: Call, priv: Scalar, now: int)
    requires t !in st.threads && DistinctHeights(call.reqs)
    requires var existing := Lookup(st.records, call.pk, call.chainId, Heights(call.reqs));
             && (m.Uses(call.pk, priv) || forall q :: q in call.reqs ==> q.height in existing)
             && Plan(m.suite, existing, priv, call.pk, call.chainId, call.reqs).Ok?
    ensures var existing := Lookup(st.records, call.pk, call.chainId, Heights(call.reqs));
            var run := Uninterrupted(st, t, call, existing, Plan(m.suite, existing, priv, call.pk, call.chainId, call.reqs).value, now);
            Steps(m, run[0], run[1]) && Steps(m, run[1], run[2]) && Steps(m, run[2], run[3])
  {
    hide Plan, Answers, Lookup, Fresh, PutAll, Entries;
    var existing := Lookup(st.records, call.pk, call.chainId, Heights(call.reqs));
    var run := Uninterrupted(st, t, call, existing, Plan(m.suite, existing, priv, call.pk, call.chainId, call.reqs).value, now);
    assert Next(m, run[0], run[1], Invoke(t, call));
    assert Next(m, run[1], run[2], Read(t));
    assert Next(m, run[2], run[3], Sign(t, priv));
  }

  lemma UninterruptedSaveAndReturn(m: Manager, st: State, t: nat, call: Call, existing: map<U64, SigningRecord>, plan: Planned, now: int)
    requires t !in st.threads && Fresh(st.records, Entries(plan.toSave, now))
    ensures var run := Uninterrupted(st, t, call, existing, plan, now);
            Steps(m, run[3], run[4]) && Steps(m, run[4], run[5])
  {
    hide Answers, Fresh, PutAll, Entries;
    var run := Uninterrupted(st, t, call, existing, plan, now);
    assert run[5].threads == run[4].threads - {t};
    assert Next(m, run[3], run[4], Save(t, now));
    assert Next(m, run[4], run[5], Return(t));
  }

  lemma UninterruptedSteps(m: Manager, st: State, t: nat, call: Call, priv: Scalar, now: int)
    requires t !in st.threads && DistinctHeights(call.reqs)
    requires var existing := Lookup(st.records, call.pk, call.chainId, Heights(call.reqs));
             && (m.Uses(call.pk, priv) || forall q :: q in call.reqs ==> q.height in existing)
             && Plan(m.suite, existing, priv, call.pk, call.chainId, call.reqs).Ok?
    ensures var existing := Lookup(st.records, call.pk, call.chainId, Heights(call.reqs));
            var run := Uninterrupted(st, t, call, existing, Plan(m.suite, existing, priv, call.pk, call.chainId, call.reqs).value, now);
            forall i :: 0 <= i < 5 ==> Steps(m, run[i], run[i + 1])
  {
    hide Plan, Answers, Lookup, Fresh, PutAll, Entries, SavesOnlyMissing, Steps;
    var existing := Lookup(st.records, call.pk, call.chainId, Heights(call.reqs));
    var plan := Plan(m.suite, existing, priv, call.pk, call.chainId, call.reqs).value;
    PlanSavesOnlyMissing(m.suite, existing, priv, call.pk, call.chainId, call.reqs);
    SavesFresh(plan, st.records, call.pk, call.chainId, call.reqs, now);
    UninterruptedReadAndSign(m, st, t, call, priv, now);
    UninterruptedSaveAndReturn(m, st, t, call, existing, plan, now);
    var run := Uninterrupted(st, t, call, existing, plan, now);
    forall i | 0 <= i < 5 ensures Steps(m, run[i], run[i + 1]) {
      assert i == 0 || i == 1 || i == 2 || i == 3 || i == 4;
    }
  }

  /** A successful SignBatchEOTS is five steps of the machine that leave the bucket it leaves
      and return exactly its responses. */
  lemma BatchIsRun(m: Manager, st: State, t: nat, call: Call, priv: Scalar, now: int) returns (run: seq<State>)
    requires t !in st.threads && m.Uses(call.pk, priv)
    requires SignBatch(m.suite, st.records, Ok(priv), call.pk, call.chainId, call.reqs, now, true).result.Ok?
    ensures |run| == 6 && run[0] == st && forall i :: 0 <= i < 5 ==> Steps(m, run[i], run[i + 1])
    ensures var o := SignBatch(m.suite, st.records, Ok(priv), call.pk, call.chainId, call.reqs, now, true);
            run[5] == st.(records := o.records, returned := st.returned + Answers(call, o.result.value))
  {
    hide Plan, Lookup, Answers, Steps;
    UninterruptedSteps(m, st, t, call, priv, now);
    var existing := Lookup(st.records, call.pk, call.chainId, Heights(call.reqs));
    run := Uninterrupted(st, t, call, existing, Plan(m.suite, existing, priv, call.pk, call.chainId, call.reqs).value, now);
  }

  /** The request is on record, or it is not and the key at hand can sign it. */
  ghost predicate CanSignOne(s: LawfulSuite, records: Records, key: Result<Scalar>, pk: ByteString, chainId: ByteString, req: SignRequest) {
    var k := RecordKey(chainId, pk, req.height);
    if k in records then records[k].msg == req.msg
    else key.Ok? && Signature(s, key.value, chainId, req).Some?
  }

  lemma OneSucceedsIff(s: LawfulSuite, records: Records, key: Result<Scalar>, pk: ByteString, chainId: ByteString, req: SignRequest, now: int)
    ensures SignOne(s, records, key, pk, chainId, req, now, true).result.Ok? <==> CanSignOne(s, records, key, pk, chainId, req)
  {
    hide Signature, SetByteSlice, ScalarBytes, RecordKey;
  }

  /** Signing one request is the batch of that request. */
  lemma PlanOfOne(m: Manager, records: Records, pk: ByteString, chainId: ByteString, req: SignRequest,
                  key: Result<Scalar>, priv: Scalar, now: int)
    requires key.Ok? ==> priv == key.value
    requires SignOne(m.suite, records, key, pk, chainId, req, now, true).result.Ok?
    ensures var existing := Lookup(records, pk, chainId, Heights([req]));
            var plan := Plan(m.suite, existing, priv, pk, chainId, [req]);
            var o := SignOne(m.suite, records, key, pk, chainId, req, now, true);
            && (key.Err? ==> req.height in existing)
            && plan.Ok? && plan.value.responses == [SignResponse(o.result.value, req.height)]
            && PutAll(records, Entries(plan.value.toSave, now)) == o.records
  {
    hide Signature, SetByteSlice, ScalarBytes, RecordKey;
    var existing := Lookup(records, pk, chainId, Heights([req]));
    assert Heights([req])[0] == req.height;
    assert [req][..0] == [] && Plan(m.suite, existing, priv, pk, chainId, []) == Ok(Planned([], []));
    assert Entries([], now) == [];
    if req.height !in existing {
      var sig := ScalarBytes(SignOne(m.suite, records, key, pk, chainId, req, now, true).result.value);
      PutOneMore(records, [], BatchSignRecord(req.height, chainId, req.msg, pk, sig), now);
    }
  }

  lemma OneAnswer(pk: ByteString, chainId: ByteString, req: SignRequest, sig: Scalar)
    ensures Answers(Call(pk, chainId, [req]), [SignResponse(sig, req.height)])
            == {Returned(pk, chainId, req.height, req.msg, sig)}
  {
    assert req in [req] && SignResponse(sig, req.height) in [SignResponse(sig, req.height)];
  }

  /** A SignEOTS for which the request is on record, with or without a key at hand, or can be signed, is five steps
      of the machine too. */
  lemma SingleIsRun(m: Manager, st: State, t: nat, pk: ByteString, chainId: ByteString, req: SignRequest,
                    key: Result<Scalar>, now: int)
    returns (run: seq<State>)
    requires t !in st.threads && (key.Ok? ==> m.Uses(pk, key.value))
    requires CanSignOne(m.suite, st.records, key, pk, chainId, req)
    ensures SignOne(m.suite, st.records, key, pk, chainId, req, now, true).result.Ok?
    ensures |run| == 6 && run[0] == st && forall i :: 0 <= i < 5 ==> Steps(m, run[i], run[i + 1])
    ensures var o := SignOne(m.suite, st.records, key, pk, chainId, req, now, true);
            run[5] == st.(records := o.records,
                          returned := st.returned + {Returned(pk, chainId, req.height, req.msg, o.result.value)})
  {
    hide SignOne, CanSignOne, Plan, Lookup, PutAll, Entries, Answers, Steps;
    OneSucceedsIff(m.suite, st.records, key, pk, chainId, req, now);
    var call := Call(pk, chainId, [req]);
    var priv: Scalar := if key.Ok? then key.value else 0;
    var existing := Lookup(st.records, pk, chainId, Heights([req]));
    PlanOfOne(m, st.records, pk, chainId, req, key, priv, now);
    UninterruptedSteps(m, st, t, call, priv, now);
    OneAnswer(pk, chainId, req, SignOne(m.suite, st.records, key, pk, chainId, req, now, true).result.value);
    run := Uninterrupted(st, t, call, existing, Plan(m.suite, existing, priv, pk, chainId, [req]).value, now);
  }
}
