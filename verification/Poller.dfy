/** The block poller: a height cursor that feeds a bounded channel. */
module Poller {
  import opened Bytes
  import opened Wrappers

  datatype Block = Block(height: U64, hash: ByteString)

  /** DetermineStartHeight over the answers of its queries. In automatic mode it starts above everything
      voted on or finalized and not below the activation height, and skips nothing else; only at the
      very end of the 64-bit range does the sum wrap and leave the activation height. */
  function StartHeight(auto: bool, fixed: U64, lastVoted: U64, highestVoted: U64, lastFinalized: U64, activation: U64): (h: U64)
    ensures auto ==> activation <= h
    ensures auto && lastVoted < MAX_U64 && highestVoted < MAX_U64 && lastFinalized < MAX_U64 ==>
              && lastVoted < h && highestVoted < h && lastFinalized < h
              && (h == activation || h == lastVoted + 1 || h == highestVoted + 1 || h == lastFinalized + 1)
    ensures auto && (lastVoted == MAX_U64 || highestVoted == MAX_U64 || lastFinalized == MAX_U64) ==> h == activation
    ensures !auto ==> h == fixed
  {
    if !auto then fixed else Max64(Add64(Max64(Max64(lastVoted, highestVoted), lastFinalized), 1), activation)
  }

  /** Blocks of consecutive heights from `from`. */
  predicate Consecutive(blocks: seq<Block>, from: int) {
    forall i :: 0 <= i < |blocks| ==> blocks[i].height == from + i
  }

  function HeightsOf(blocks: seq<Block>): (hs: seq<U64>)
    ensures |hs| == |blocks|
    ensures forall i :: 0 <= i < |blocks| ==> hs[i] == blocks[i].height
  {
    seq(|blocks|, i requires 0 <= i < |blocks| => blocks[i].height)
  }

  /** The failures in a row that the poller tolerates. */
  const MAX_FAILED_CYCLES: nat := 20

  /** What can happen while one block waits to be sent: the consumer takes some blocks, or the
      poller is stopped. */
  datatype SendEnv = SendEnv(taken: nat, stopped: bool)

  class ChainPoller {
    const capacity: nat
    var isStarted: bool
    var nextHeight: U64
    var blockChan: seq<Block>
    ghost var sent: seq<Block>       // everything enqueued since the start
    ghost var received: seq<Block>   // everything the consumer has taken since the start

    /** The channel is bounded and neither loses, duplicates nor reorders blocks. */
    ghost predicate Valid()
      reads this
    {
      capacity > 0 && |blockChan| <= capacity && sent == received + blockChan
    }

    constructor (bufferSize: nat)
      ensures nextHeight == 0 && blockChan == [] && sent == []
      ensures Valid() && !isStarted && capacity == if bufferSize > 0 then bufferSize else 100
    {
      capacity := if bufferSize > 0 then bufferSize else 100;
      isStarted, nextHeight, blockChan := false, 0, [];
      sent, received := [], [];
    }

    method SetStartHeight(height: U64) returns (r: Result<()>)
      requires Valid()
      modifies this
      ensures Valid()
      ensures r.Ok? <==> !old(isStarted)
      ensures r.Ok? ==> isStarted && nextHeight == height && blockChan == [] && sent == []
      ensures r.Err? ==> nextHeight == old(nextHeight) && blockChan == old(blockChan) && sent == old(sent) && isStarted
    {
      if isStarted {
        return Err(AlreadyStarted);
      }
      isStarted, nextHeight, blockChan := true, height, [];
      sent, received := [], [];
      r := Ok(());
    }

    /** TryNextBlock */
    method TryNextBlock() returns (r: Option<Block>)
      requires Valid()
      modifies this`blockChan, this`received
      ensures Valid()
      ensures r.Some? <==> isStarted && old(blockChan) != []
      ensures r.Some? ==> r.value == old(blockChan)[0] && blockChan == old(blockChan)[1..] && received == old(received) + [r.value]
      ensures r.None? ==> blockChan == old(blockChan) && received == old(received)
    {
      if !isStarted || blockChan == [] {
        return None;
      }
      r := Some(blockChan[0]);
      received := received + [blockChan[0]];
      blockChan := blockChan[1..];
    }

    /** getBatchBlocksFromPoller: the blocks at hand, at most a batch. */
    method NextBatch(batchSize: nat) returns (blocks: seq<Block>)
      requires Valid()
      modifies this`blockChan, this`received
      ensures Valid()
      ensures received == old(received) + blocks
      ensures blocks + blockChan == old(blockChan)
      ensures batchSize > 0 ==> |blocks| <= batchSize
      ensures isStarted ==> blockChan == [] || |blocks| == batchSize > 0
      ensures !isStarted ==> blocks == []
    {
      blocks := [];
      while true
        invariant Valid()
        invariant received == old(received) + blocks
        invariant blocks + blockChan == old(blockChan)
        invariant |blocks| < batchSize || batchSize == 0
        invariant !isStarted ==> blocks == []
        decreases |blockChan|
      {
        var block := TryNextBlock();
        if block.None? {
          return;
        }
        blocks := blocks + [block.value];
        if |blocks| == batchSize {
          return;
        }
      }
    }

    /** waitForActivation: repeats the query until it succeeds or the poller is stopped after `patience`
        attempts, then moves the cursor up to the activation height that the first successful query gave. */
    method WaitForActivation(answers: nat -> Result<U64>, patience: nat) returns (r: Result<U64>)
      requires Valid()
      modifies this`nextHeight
      ensures Valid()
      ensures forall i: nat :: IsFirstOk(answers, patience, i) ==> r == answers(i)
      ensures r.Ok? ==> exists i: nat :: IsFirstOk(answers, patience, i)
      ensures r.Ok? <==> exists i: nat :: i < patience && answers(i).Ok?
      ensures r.Ok? ==> nextHeight == Max64(old(nextHeight), r.value)
      ensures r.Err? ==> nextHeight == old(nextHeight)
    {
      for i := 0 to patience
        invariant nextHeight == old(nextHeight)
        invariant forall j: nat :: j < i ==> answers(j).Err?
      {
        var activated := answers(i);
        if activated.Ok? {
          assert IsFirstOk(answers, patience, i);
          if nextHeight < activated.value {
            nextHeight := activated.value;
          }
          return activated;
        }
      }
      r := Err(QueryFailed);
    }

    /** The consumer takes up to `n` blocks. */
    method Drain(n: nat)
      requires Valid()
      modifies this`blockChan, this`received
      ensures Valid() && |blockChan| == if n <= |old(blockChan)| then |old(blockChan)| - n else 0
    {
      var k := if n <= |blockChan| then n else |blockChan|;
      received := received + blockChan[..k];
      assert blockChan == blockChan[..k] + blockChan[k..];
      blockChan := blockChan[k..];
    }

    /** tryPollChain. A block is sent unless the poller is stopped, or the channel is full and the consumer takes
        nothing while it waits. `blocks` is what the block query returns: the latest block, or a range from the
        cursor on. Blocks are sent in order until one cannot be, and the cursor moves only if all were. */
    method TryPollChain(latest: U64, blocks: Result<seq<Block>>, env: nat -> SendEnv)
      returns (r: Result<()>, count: nat)
      requires Valid()
      modifies this`nextHeight, this`blockChan, this`sent, this`received
      ensures Valid()
      ensures old(nextHeight) > latest ==> r.Ok? && count == 0 && nextHeight == old(nextHeight)
      ensures old(nextHeight) <= latest && blocks.Err? ==> r.Err? && count == 0
      ensures count == 0 ==> sent == old(sent)
      ensures old(nextHeight) <= latest && blocks.Ok? ==>
                && count <= |blocks.value|
                && sent == old(sent) + blocks.value[..count]
                && (r.Ok? <==> count == |blocks.value|)
                && (forall i :: 0 <= i < count ==> !env(i).stopped)
                && (count < |blocks.value| ==> env(count).stopped || (env(count).taken == 0 && |blockChan| == capacity))
      ensures old(nextHeight) <= latest && r.Ok? ==>
                && blocks.Ok?
                && nextHeight == if blocks.value == [] then old(nextHeight) else Add64(blocks.value[|blocks.value| - 1].height, 1)
      ensures r.Err? ==> nextHeight == old(nextHeight)
    {
      if nextHeight > latest {
        return Ok(()), 0;
      }
      if blocks.Err? {
        return Err(blocks.error), 0;
      }
      var bs := blocks.value;
      if |bs| == 0 {
        return Ok(()), 0;
      }
      for i := 0 to |bs|
        invariant Valid()
        invariant sent == old(sent) + bs[..i]
        invariant nextHeight == old(nextHeight)
        invariant forall j :: 0 <= j < i ==> !env(j).stopped
      {
        Drain(env(i).taken);
        if env(i).stopped || |blockChan| >= capacity {
          return Err(QueryFailed), i;
        }
        sent := sent + [bs[i]];
        blockChan := blockChan + [bs[i]];
        assert bs[..i + 1] == bs[..i] + [bs[i]];
      }
      nextHeight := Add64(bs[|bs| - 1].height, 1);
      r, count := Ok(()), |bs|;
    }

    /** The loop of pollChain, for some ticks. On a chain that answers with consecutive blocks from
        the height asked for, it is a run of poll cycles; it gives up at the first tick that makes more
        than MAX_FAILED_CYCLES failures in a row. */
    method PollLoop(ticks: nat, latest: nat -> Result<U64>, ask: (nat, U64) -> Result<seq<Block>>, env: (nat, nat) -> SendEnv)
      returns (fatal: bool, cycles: seq<Cycle>, failed: seq<bool>)
      requires Valid() && sent == []
      requires forall t: nat, h: U64 :: ask(t, h).Ok? ==> Consecutive(ask(t, h).value, h) && h + |ask(t, h).value| < U64_LIMIT
      modifies this`nextHeight, this`blockChan, this`sent, this`received
      ensures Valid()
      ensures Polled(old(nextHeight), latest, ask, env, cycles, failed)
      ensures Progress(nextHeight, HeightsOf(sent)) == AfterCycles(old(nextHeight), cycles)
      ensures |cycles| <= ticks
      ensures !fatal ==> |cycles| == ticks
      ensures fatal <==> |failed| > MAX_FAILED_CYCLES && forall i :: |failed| - 1 - MAX_FAILED_CYCLES <= i < |failed| ==> failed[i]
    {
      hide HeightsOf, Polled, PolledAt, AfterCycles;
      var failedCycles := 0;
      cycles, failed := [], [];
      NothingPolled(nextHeight, latest, ask, env);
      for t := 0 to ticks
        invariant Valid() && |failed| == |cycles| == t
        invariant Polled(old(nextHeight), latest, ask, env, cycles, failed)
        invariant Progress(nextHeight, HeightsOf(sent)) == AfterCycles(old(nextHeight), cycles)
        invariant 0 <= failedCycles <= MAX_FAILED_CYCLES && failedCycles <= t
        invariant forall i :: t - failedCycles <= i < t ==> failed[i]
        invariant failedCycles < t ==> !failed[t - failedCycles - 1]
      {
        ghost var earlier, flags := cycles, failed;
        var ok, cycle := PollCycle(t, latest(t), ask, env);
        cycles := cycles + [cycle];
        failed := failed + [!ok];
        PolledOneMore(old(nextHeight), latest, ask, env, earlier, flags, cycle, !ok);
        failedCycles := if ok then 0 else failedCycles + 1;
        if failedCycles > MAX_FAILED_CYCLES {
          return true, cycles, failed;
        }
      }
      fatal := false;
    }

    /** pollCycle */
    method PollCycle(t: nat, tip: Result<U64>, ask: (nat, U64) -> Result<seq<Block>>, env: (nat, nat) -> SendEnv)
      returns (ok: bool, cycle: Cycle)
      requires Valid()
      requires forall h: U64 :: ask(t, h).Ok? ==> Consecutive(ask(t, h).value, h) && h + |ask(t, h).value| < U64_LIMIT
      modifies this`nextHeight, this`blockChan, this`sent, this`received
      ensures Valid()
      ensures PolledAt(old(nextHeight), tip, ask(t, old(nextHeight)), (i: nat) => env(t, i), cycle, !ok)
      ensures Progress(nextHeight, HeightsOf(sent)) == AfterCycle(old(Progress(nextHeight, HeightsOf(sent))), cycle)
    {
      hide HeightsOf;
      EmptyCycle(Progress(nextHeight, HeightsOf(sent)));
      cycle := Cycle(0, 0);
      if tip.Err? {
        return false, cycle;
      }
      ghost var before := sent;
      var next := nextHeight;
      var blocks := ask(t, next);
      var r, count := TryPollChain(tip.value, blocks, (i: nat) => env(t, i));
      ok := r.Ok?;
      if next <= tip.value && blocks.Ok? {
        cycle := Cycle(|blocks.value|, count);
        PollIsCycle(before, blocks.value, count, next);
      }
    }

    /** pollChain after SetStartHeight: wait for activation, then poll. Whatever cycles fail in the middle of sending,
        the heights enqueued are gap-free from the larger of the start and the activation height that the first
        successful query gave, and include every height below the cursor. */
    method PollChain(patience: nat, activation: nat -> Result<U64>, ticks: nat, latest: nat -> Result<U64>,
                     ask: (nat, U64) -> Result<seq<Block>>, env: (nat, nat) -> SendEnv)
      returns (activated: Result<U64>, fatal: bool, cycles: seq<Cycle>, failed: seq<bool>)
      requires Valid() && sent == []
      requires forall t: nat, h: U64 :: ask(t, h).Ok? ==> Consecutive(ask(t, h).value, h) && h + |ask(t, h).value| < U64_LIMIT
      modifies this`nextHeight, this`blockChan, this`sent, this`received
      ensures Valid()
      ensures forall i: nat :: IsFirstOk(activation, patience, i) ==>
                var start := Max64(old(nextHeight), activation(i).value);
                && activated == activation(i)
                && Polled(start, latest, ask, env, cycles, failed)
                && (fatal || |cycles| == ticks)
                && Progress(nextHeight, HeightsOf(sent)) == AfterCycles(start, cycles)
                && GapFree(start, Progress(nextHeight, HeightsOf(sent)))
      ensures (forall i: nat :: i < patience ==> activation(i).Err?) ==> activated.Err? && sent == [] && nextHeight == old(nextHeight)
    {
      hide GapFree, Polled, AfterCycles, HeightsOf;
      fatal, cycles, failed := false, [], [];
      activated := WaitForActivation(activation, patience);
      if activated.Ok? {
        var start := nextHeight;
        fatal, cycles, failed := PollLoop(ticks, latest, ask, env);
        PolledIsPossible(start, latest, ask, env, cycles, failed);
        EnqueuedIsGapFree(start, cycles);
      }
    }
  }

  /** The first of the answers, within the patience, that is not an error. */
  ghost predicate IsFirstOk(answers: nat -> Result<U64>, patience: nat, i: nat) {
    i < patience && answers(i).Ok? && forall j: nat :: j < i ==> answers(j).Err?
  }

  // ----- runs -----

  /** The cursor and the heights enqueued so far. */
  datatype Progress = Progress(next: int, sent: seq<int>)

  function Range(from: int, n: nat): (s: seq<int>)
    ensures |s| == n
    ensures forall i :: 0 <= i < n ==> s[i] == from + i
  {
    seq(n, i => from + i)
  }

  /** One poll cycle on a chain that answers with `asked` consecutive blocks, of which `sent` are
      enqueued before the cycle ends or fails. */
  datatype Cycle = Cycle(asked: nat, sent: nat)

  predicate Possible(c: Cycle) {
    c.sent <= c.asked
  }

  function AfterCycle(p: Progress, c: Cycle): Progress {
    Progress(if c.sent == c.asked then p.next + c.asked else p.next, p.sent + Range(p.next, c.sent))
  }

  function AfterCycles(start: int, cycles: seq<Cycle>): Progress {
    if cycles == [] then Progress(start, []) else
      AfterCycle(AfterCycles(start, cycles[..|cycles| - 1]), cycles[|cycles| - 1])
  }

  /** A poll of the class is a cycle of the run, given consecutive blocks from the cursor. */
  lemma PollIsCycle(before: seq<Block>, blocks: seq<Block>, j: nat, next: U64)
    requires j <= |blocks| && Consecutive(blocks, next)
    ensures var p := Progress(next, HeightsOf(before));
            && AfterCycle(p, Cycle(|blocks|, j)).sent == HeightsOf(before + blocks[..j])
            && (blocks != [] ==> AfterCycle(p, Cycle(|blocks|, |blocks|)).next == blocks[|blocks| - 1].height + 1)
  {
  }

  lemma EmptyCycle(p: Progress)
    ensures AfterCycle(p, Cycle(0, 0)) == p
  {
    assert p.sent + Range(p.next, 0) == p.sent;
  }

  /** One tick, with the cursor at `next`. An error of either query, or a block that could not be sent, is a failure;
      a block that could not be sent found the poller stopped or a consumer that took nothing. */
  ghost predicate PolledAt(next: int, tip: Result<U64>, blocks: Result<seq<Block>>, sends: nat -> SendEnv, c: Cycle, failed: bool) {
    if tip.Err? then c == Cycle(0, 0) && failed
    else if next > tip.value then c == Cycle(0, 0) && !failed
    else if blocks.Err? then c == Cycle(0, 0) && failed
    else
      && c.sent <= c.asked == |blocks.value|
      && (failed <==> c.sent < c.asked)
      && (forall i: nat :: i < c.sent ==> !sends(i).stopped)
      && (c.sent < c.asked ==> sends(c.sent).stopped || sends(c.sent).taken == 0)
  }

  /** Every tick is a poll at the cursor that the earlier ones left. */
  ghost predicate Polled(start: int, latest: nat -> Result<U64>, ask: (nat, U64) -> Result<seq<Block>>, env: (nat, nat) -> SendEnv,
                         cycles: seq<Cycle>, failed: seq<bool>)
  {
    && |failed| == |cycles|
    && forall t :: 0 <= t < |cycles| ==>
         var next := AfterCycles(start, cycles[..t]).next;
         && 0 <= next < U64_LIMIT
         && PolledAt(next, latest(t), ask(t, next), (i: nat) => env(t, i), cycles[t], failed[t])
  }

  lemma NothingPolled(start: int, latest: nat -> Result<U64>, ask: (nat, U64) -> Result<seq<Block>>, env: (nat, nat) -> SendEnv)
    ensures Polled(start, latest, ask, env, [], [])
    ensures AfterCycles(start, []) == Progress(start, []) && HeightsOf([]) == []
  {
  }

  lemma PolledOneMore(start: int, latest: nat -> Result<U64>, ask: (nat, U64) -> Result<seq<Block>>, env: (nat, nat) -> SendEnv,
                      cycles: seq<Cycle>, failed: seq<bool>, c: Cycle, f: bool)
    requires Polled(start, latest, ask, env, cycles, failed)
    requires var next := AfterCycles(start, cycles).next;
             && 0 <= next < U64_LIMIT
             && PolledAt(next, latest(|cycles|), ask(|cycles|, next), (i: nat) => env(|cycles|, i), c, f)
    ensures Polled(start, latest, ask, env, cycles + [c], failed + [f])
    ensures AfterCycles(start, cycles + [c]) == AfterCycle(AfterCycles(start, cycles), c)
  {
    hide PolledAt, AfterCycle;
    var cycles', failed' := cycles + [c], failed + [f];
    assert cycles'[..|cycles|] == cycles;
    forall t | 0 <= t < |cycles'|
      ensures var next := AfterCycles(start, cycles'[..t]).next;
              && 0 <= next < U64_LIMIT
              && PolledAt(next, latest(t), ask(t, next), (i: nat) => env(t, i), cycles'[t], failed'[t])
    {
      if t < |cycles| {
        assert cycles'[..t] == cycles[..t];
      }
    }
  }

  lemma PolledIsPossible(start: int, latest: nat -> Result<U64>, ask: (nat, U64) -> Result<seq<Block>>, env: (nat, nat) -> SendEnv,
                         cycles: seq<Cycle>, failed: seq<bool>)
    requires Polled(start, latest, ask, env, cycles, failed)
    ensures forall t :: 0 <= t < |cycles| ==> Possible(cycles[t])
  {
    hide AfterCycles;
  }

  /** A tick whose queries succeed with every block up to the tip, while the poller is not stopped and the consumer
      takes something before each send, leaves the cursor above the tip and is no failure. */
  lemma TickCatchesUp(start: int, latest: nat -> Result<U64>, ask: (nat, U64) -> Result<seq<Block>>, env: (nat, nat) -> SendEnv,
                      cycles: seq<Cycle>, failed: seq<bool>, t: nat)
    requires Polled(start, latest, ask, env, cycles, failed) && t < |cycles|
    requires latest(t).Ok?
    requires forall h: U64 :: h <= latest(t).value ==> ask(t, h).Ok? && |ask(t, h).value| == latest(t).value - h + 1
    requires forall i: nat :: !env(t, i).stopped && env(t, i).taken > 0
    ensures AfterCycles(start, cycles[..t + 1]).next > latest(t).value && !failed[t]
  {
    assert cycles[..t + 1][..t] == cycles[..t];
  }

  /** Exactly the heights from `start` up to, but not including, `end`. */
  ghost predicate Fills(sent: seq<int>, start: int, end: int) {
    forall h :: h in sent <==> start <= h < end
  }

  ghost predicate GapFree(start: int, p: Progress) {
    start <= p.next && exists end :: p.next <= end && Fills(p.sent, start, end)
  }

  /** The heights enqueued are exactly those from the start up to some height, whatever cycles fail
      in the middle of sending, and they include all heights below the cursor. */
  lemma {:induction false} EnqueuedIsGapFree(start: int, cycles: seq<Cycle>)
    requires forall i :: 0 <= i < |cycles| ==> Possible(cycles[i])
    ensures GapFree(start, AfterCycles(start, cycles))
    decreases |cycles|
  {
    if cycles == [] {
      assert Fills([], start, start);
    } else {
      var n := |cycles| - 1;
      EnqueuedIsGapFree(start, cycles[..n]);
      CycleKeepsGapFree(start, AfterCycles(start, cycles[..n]), cycles[n]);
    }
  }

  lemma CycleKeepsGapFree(start: int, p: Progress, c: Cycle)
    requires GapFree(start, p) && Possible(c)
    ensures GapFree(start, AfterCycle(p, c))
  {
    var end :| p.next <= end && Fills(p.sent, start, end);
    var end' := if p.next + c.sent > end then p.next + c.sent else end;
    var p' := AfterCycle(p, c);
    forall h ensures h in p'.sent <==> start <= h < end' {
      RangeMembers(p.next, c.sent, h);
      assert h in p'.sent <==> h in p.sent || h in Range(p.next, c.sent);
    }
    assert Fills(p'.sent, start, end');
  }

  lemma RangeMembers(from: int, n: nat, h: int)
    ensures h in Range(from, n) <==> from <= h < from + n
  {
    if from <= h < from + n {
      assert Range(from, n)[h - from] == h;
    }
  }

  /** The cycle failed after sending some of its blocks. */
  predicate FailsMidSend(c: Cycle) {
    0 < c.sent < c.asked
  }

  ghost predicate SomeMidSendFailure(cycles: seq<Cycle>) {
    exists i :: 0 <= i < |cycles| && FailsMidSend(cycles[i])
  }

  /** Nothing is sent after a cycle that failed in the middle of sending. */
  ghost predicate SilentAfterFailure(cycles: seq<Cycle>) {
    forall i, j :: 0 <= i < j < |cycles| && FailsMidSend(cycles[i]) ==> cycles[j].sent == 0
  }

  predicate NoRepeat(sent: seq<int>) {
    forall i, j :: 0 <= i < j < |sent| ==> sent[i] != sent[j]
  }

  lemma {:induction false} SilentIsInOrder(start: int, cycles: seq<Cycle>)
    requires forall i :: 0 <= i < |cycles| ==> Possible(cycles[i])
    requires SilentAfterFailure(cycles)
    ensures var p := AfterCycles(start, cycles);
            && p.sent == Range(start, |p.sent|)
            && p.next <= start + |p.sent|
            && (p.next < start + |p.sent| <==> SomeMidSendFailure(cycles))
    decreases |cycles|
  {
    if cycles != [] {
      var n := |cycles| - 1;
      var init := cycles[..n];
      assert forall i :: 0 <= i < n ==> init[i] == cycles[i];
      SilentIsInOrder(start, init);
      assert SomeMidSendFailure(cycles) <==> SomeMidSendFailure(init) || FailsMidSend(cycles[n]);
      if SomeMidSendFailure(init) {
        assert cycles[n].sent == 0;
      }
    }
  }

  lemma {:induction false} LoudRepeats(start: int, cycles: seq<Cycle>)
    requires forall i :: 0 <= i < |cycles| ==> Possible(cycles[i])
    requires !SilentAfterFailure(cycles)
    ensures !NoRepeat(AfterCycles(start, cycles).sent)
    decreases |cycles|
  {
    var n := |cycles| - 1;
    var init := cycles[..n];
    assert forall i :: 0 <= i < n ==> init[i] == cycles[i];
    var p, p' := AfterCycles(start, init), AfterCycles(start, cycles);
    if !SilentAfterFailure(init) {
      LoudRepeats(start, init);
      var i, j :| 0 <= i < j < |p.sent| && p.sent[i] == p.sent[j];
      assert p'.sent[i] == p'.sent[j];
    } else {
      SilentIsInOrder(start, init);
      EnqueuedIsGapFree(start, init);
      assert SomeMidSendFailure(init) && cycles[n].sent > 0;
      assert p'.sent[p.next - start] == p.next == p'.sent[|p.sent|];
    }
  }

  /** Every height is enqueued exactly once if and only if nothing is sent after a cycle that failed in
      the middle of sending, and then the heights come in ascending order without gap. */
  lemma EnqueuedOnceIff(start: int, cycles: seq<Cycle>)
    requires forall i :: 0 <= i < |cycles| ==> Possible(cycles[i])
    ensures NoRepeat(AfterCycles(start, cycles).sent) <==> SilentAfterFailure(cycles)
    ensures SilentAfterFailure(cycles) ==> AfterCycles(start, cycles).sent == Range(start, |AfterCycles(start, cycles).sent|)
  {
    if SilentAfterFailure(cycles) {
      SilentIsInOrder(start, cycles);
    } else {
      LoudRepeats(start, cycles);
    }
  }

  /** A cycle that sends two of three blocks and fails makes the next one send them again. */
  lemma FailureCanRepeatHeights()
    ensures AfterCycles(5, [Cycle(3, 2), Cycle(3, 3)]).sent == [5, 6, 5, 6, 7]
  {
  }
}
