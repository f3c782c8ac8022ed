/** Sending a batch of messages, and sending it again without the ones the chain reports. */
module Resend {
  import opened Bytes
  import opened Lists
  import opened Wrappers

  /** How the chain answers one send: a transaction or none, or an error that may name a message
      index and may be one of the expected errors. */
  datatype Answer =
    | Sent(tx: Option<string>)
    | Failed(index: Option<nat>, expected: bool)

  /** What the caller sees: a transaction hash, none, or an empty response. */
  datatype Response = Transaction(hash: string) | NoResponse | EmptyResponse

  /** The answer is an expected error about one message of the batch, so it will be taken out. */
  predicate Reports(a: Answer) {
    a.Failed? && a.index.Some? && a.expected
  }

  /** BatchRetries: as many sends as messages, unless a smaller positive cap is set. */
  function BatchRetries(n: nat, cap: nat): (r: nat)
    ensures r <= n
    ensures r == n <==> cap == 0 || cap >= n
    ensures 0 < cap <= n ==> r == cap
  {
    if cap == 0 then n else if cap > n then n else cap
  }

  function Without<T>(s: seq<T>, i: nat): (r: seq<T>)
    ensures |r| == if i < |s| then |s| - 1 else |s|
  {
    if i < |s| then s[..i] + s[i + 1..] else s
  }

  /** RemoveMsgAtIndex, in place: shifts the tail down by one; an index outside changes nothing. */
  method RemoveMsgAtIndex<T>(msgs: array<T>, len: nat, index: int) returns (len': nat)
    requires len <= msgs.Length
    modifies msgs
    ensures len' <= msgs.Length
    ensures msgs[..len'] == if index < 0 then old(msgs[..len]) else Without(old(msgs[..len]), index)
  {
    if index < 0 || index >= len {
      return len;
    }
    forall i | index <= i < len - 1 {
      msgs[i] := msgs[i + 1];
    }
    len' := len - 1;
  }

  // ----- which messages are left -----

  /** Positions, in the original batch, of the messages left after some sends. */
  function Left(n: nat, answers: nat -> Answer, sends: nat): (pos: seq<nat>)
    ensures |pos| <= n
    ensures |pos| >= n - sends
  {
    if sends == 0 then seq(n, i => i) else
      var before := Left(n, answers, sends - 1);
      var a := answers(sends - 1);
      if Reports(a) then Without(before, a.index.value) else before
  }

  /** Send `i` names a message that is still in the batch, with an expected error. */
  predicate TakesOut(n: nat, answers: nat -> Answer, i: nat) {
    Reports(answers(i)) && answers(i).index.value < |Left(n, answers, i)|
  }

  /** The message that send `i` takes out is the one at position `d` of the original batch. */
  predicate ReportedAt(n: nat, answers: nat -> Answer, i: nat, d: nat) {
    TakesOut(n, answers, i) && Left(n, answers, i)[answers(i).index.value] == d
  }

  /** Some of the first sends reported the message at position `d`, with an expected error. */
  ghost predicate EverReported(n: nat, answers: nat -> Answer, sends: nat, d: nat) {
    exists i: nat :: i < sends && ReportedAt(n, answers, i, d)
  }

  lemma WithoutOne(pos: seq<nat>, r: nat, d: nat)
    requires Increasing(pos) && r < |pos|
    ensures Increasing(Without(pos, r))
    ensures d in Without(pos, r) <==> d in pos && d != pos[r]
  {
  }

  /** What is left keeps the original order. */
  lemma {:induction false} LeftIncreasing(n: nat, answers: nat -> Answer, sends: nat)
    ensures Increasing(Left(n, answers, sends))
    decreases sends
  {
    if sends > 0 {
      LeftIncreasing(n, answers, sends - 1);
      if TakesOut(n, answers, sends - 1) {
        WithoutOne(Left(n, answers, sends - 1), answers(sends - 1).index.value, 0);
      }
    }
  }

  /** A message is gone exactly if some send reported it, with an expected error. */
  lemma {:induction false} LeftUnlessReported(n: nat, answers: nat -> Answer, sends: nat, d: nat)
    ensures d in Left(n, answers, sends) <==> d < n && !EverReported(n, answers, sends, d)
    decreases sends
  {
    if sends == 0 {
      if d < n {
        assert Left(n, answers, 0)[d] == d;
      }
    } else {
      LeftUnlessReported(n, answers, sends - 1, d);
      LeftIncreasing(n, answers, sends - 1);
      assert EverReported(n, answers, sends, d)
        <==> EverReported(n, answers, sends - 1, d) || ReportedAt(n, answers, sends - 1, d);
      if TakesOut(n, answers, sends - 1) {
        WithoutOne(Left(n, answers, sends - 1), answers(sends - 1).index.value, d);
      }
    }
  }

  lemma LeftInRange(n: nat, answers: nat -> Answer, sends: nat)
    ensures forall a :: 0 <= a < |Left(n, answers, sends)| ==> Left(n, answers, sends)[a] < n
  {
  }

  /** The batch shrinks by one at every send if and only if every send takes a message out. */
  lemma {:induction false} FullyShrunk(n: nat, answers: nat -> Answer, sends: nat)
    requires sends <= n
    ensures |Left(n, answers, sends)| == n - sends <==> forall i: nat :: i < sends ==> TakesOut(n, answers, i)
    decreases sends
  {
    if sends > 0 {
      FullyShrunk(n, answers, sends - 1);
      var shrink := if TakesOut(n, answers, sends - 1) then 1 else 0;
      assert |Left(n, answers, sends)| == |Left(n, answers, sends - 1)| - shrink;
    }
  }

  /** The messages at the given positions. */
  function Gather<T>(msgs: seq<T>, pos: seq<nat>): (r: seq<T>)
    requires forall a :: 0 <= a < |pos| ==> pos[a] < |msgs|
    ensures |r| == |pos|
    ensures forall a :: 0 <= a < |pos| ==> r[a] == msgs[pos[a]]
  {
    seq(|pos|, a requires 0 <= a < |pos| => msgs[pos[a]])
  }

  /** The batch offered at a send: the original, in order, less what earlier sends reported. */
  ghost function Offered<T>(msgs: seq<T>, answers: nat -> Answer, send: nat): (r: seq<T>)
    ensures |r| >= |msgs| - send
  {
    LeftInRange(|msgs|, answers, send);
    Gather(msgs, Left(|msgs|, answers, send))
  }

  lemma OfferedNext<T>(msgs: seq<T>, answers: nat -> Answer, send: nat)
    requires Reports(answers(send))
    ensures Offered(msgs, answers, send + 1) == Without(Offered(msgs, answers, send), answers(send).index.value)
  {
  }

  /** reliablySendMsgsResendingOnMsgErr. It makes at most BatchRetries sends and never offers an empty
      batch; each send offers the original batch, in order, less the messages reported so far; every
      send but the last reported one; and the outcome is that of the last. */
  method SendResending<T>(batch: array<T>, n: nat, cap: nat, answers: nat -> Answer)
    returns (r: Result<Response>, sends: nat, offers: seq<seq<T>>)
    requires n <= batch.Length
    modifies batch
    ensures sends == |offers| <= BatchRetries(n, cap)
    ensures forall i :: 0 <= i < sends ==> offers[i] != [] && offers[i] == Offered(old(batch[..n]), answers, i)
    ensures forall i :: 0 <= i < sends - 1 ==> answers(i).Failed? && answers(i).index.Some? && answers(i).expected
    ensures r.Ok? && r.value.Transaction? ==> sends > 0 && answers(sends - 1) == Sent(Some(r.value.hash))
    ensures r == Ok(NoResponse) ==> sends > 0 && answers(sends - 1) == Sent(None)
    ensures r == Ok(EmptyResponse) ==>
              && 0 < sends == BatchRetries(n, cap)
              && answers(sends - 1).Failed? && answers(sends - 1).index.Some? && answers(sends - 1).expected
    ensures r.Err? ==> n == 0 || (sends > 0 && answers(sends - 1).Failed? && (answers(sends - 1).index.None? || !answers(sends - 1).expected))
  {
    hide Offered, Without, Left;
    ghost var msgs := batch[..n];
    var len: nat := n;
    var maxRetries := BatchRetries(n, cap);
    sends, offers := 0, [];
    AllOffered(msgs, answers);
    while sends < maxRetries
      invariant sends == |offers| <= maxRetries
      invariant len <= batch.Length && batch[..len] == Offered(msgs, answers, sends)
      invariant forall i :: 0 <= i < sends ==> offers[i] != [] && offers[i] == Offered(msgs, answers, i)
      invariant forall i :: 0 <= i < sends ==> Reports(answers(i))
    {
      offers := offers + [batch[..len]];
      var answer := answers(sends);
      sends := sends + 1;
      if answer.Failed? {
        if answer.index.Some? && answer.expected {
          OfferedNext(msgs, answers, sends - 1);
          len := RemoveMsgAtIndex(batch, len, answer.index.value);
          continue;
        }
        return Err(SubmissionFailed), sends, offers;
      }
      return Ok(if answer.tx.None? then NoResponse else Transaction(answer.tx.value)), sends, offers;
    }
    if sends > 0 {
      return Ok(EmptyResponse), sends, offers;
    }
    return Err(SubmissionFailed), sends, offers;
  }

  lemma AllOffered<T>(msgs: seq<T>, answers: nat -> Answer)
    ensures Offered(msgs, answers, 0) == msgs
  {
  }

  /** Whatever a send offers is the original batch in order, and it lacks a message exactly if an
      earlier send reported that message with an expected error. */
  lemma OfferIsBatchLessReported<T>(msgs: seq<T>, answers: nat -> Answer, send: nat)
    ensures exists pos: seq<nat> :: && Increasing(pos) && (forall a :: 0 <= a < |pos| ==> pos[a] < |msgs|)
                                    && Offered(msgs, answers, send) == Gather(msgs, pos)
                                    && forall d: nat :: d < |msgs| ==> (d in pos <==> !EverReported(|msgs|, answers, send, d))
  {
    var pos := Left(|msgs|, answers, send);
    LeftIncreasing(|msgs|, answers, send);
    LeftInRange(|msgs|, answers, send);
    forall d: nat | d < |msgs| ensures d in pos <==> !EverReported(|msgs|, answers, send, d)
    {
      LeftUnlessReported(|msgs|, answers, send, d);
    }
  }

  /** An empty response after the last allowed send means that every message was reported if and
      only if the cap does not cut the sends short and every send named a message still there. */
  lemma EmptyResponseMeansAllReported(n: nat, cap: nat, answers: nat -> Answer)
    requires n > 0
    ensures (forall d: nat :: d < n ==> EverReported(n, answers, BatchRetries(n, cap), d))
            <==> (cap == 0 || cap >= n) && forall i: nat :: i < BatchRetries(n, cap) ==> TakesOut(n, answers, i)
  {
    var sends := BatchRetries(n, cap);
    var pos := Left(n, answers, sends);
    FullyShrunk(n, answers, sends);
    LeftInRange(n, answers, sends);
    forall d: nat ensures d in pos <==> d < n && !EverReported(n, answers, sends, d) {
      LeftUnlessReported(n, answers, sends, d);
    }
    assert pos == [] <==> forall d: nat :: d < n ==> d !in pos by {
      if pos != [] {
        assert pos[0] in pos;
      }
    }
    assert pos == [] <==> sends == n && |pos| == n - sends;
  }

  /** With a cap of one, two messages and one reported, the response is empty but the other message was
      neither sent nor reported. */
  lemma CapCanHideAnUnsentMessage()
    ensures var answers := (i: nat) => Failed(Some(0), true);
            BatchRetries(2, 1) == 1 && Reports(answers(0)) && !EverReported(2, answers, 1, 1)
  {
  }
}
