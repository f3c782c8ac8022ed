/** The last voted height of a finality provider: in memory, in the database, and across restarts. */
module FpState {
  import opened Bytes
  import opened Wrappers

  /** The database bucket of finality providers, as far as the last voted height goes. */
  class FinalityProviderStore {
    var lastVoted: map<ByteString, U64>

    constructor ()
      ensures lastVoted == map[]
    {
      lastVoted := map[];
    }

    /** SetFpLastVotedHeight: the stored height only ever rises. */
    method SetFpLastVotedHeight(btcPk: ByteString, height: U64, committed: bool) returns (r: Result<()>)
      modifies this
      ensures r.Ok? <==> btcPk in old(lastVoted) && committed
      ensures r.Ok? ==> lastVoted == old(lastVoted)[btcPk := if old(lastVoted)[btcPk] < height then height else old(lastVoted)[btcPk]]
      ensures r.Err? ==> lastVoted == old(lastVoted)
    {
      if btcPk !in lastVoted {
        return Err(NotFound);
      }
      var stored := lastVoted[btcPk];
      if stored < height {
        stored := height;
      }
      if !committed {
        return Err(Database);
      }
      lastVoted := lastVoted[btcPk := stored];
      r := Ok(());
    }
  }

  class FpState {
    const btcPk: ByteString
    const s: FinalityProviderStore
    var lastVotedHeight: U64

    /** A (re)start reads the stored height. */
    constructor (btcPk: ByteString, s: FinalityProviderStore)
      requires btcPk in s.lastVoted
      ensures this.btcPk == btcPk && this.s == s && lastVotedHeight == s.lastVoted[btcPk]
    {
      this.btcPk, this.s := btcPk, s;
      lastVotedHeight := s.lastVoted[btcPk];
    }

    ghost function View(): (v: Heights)
      reads this, s
      requires btcPk in s.lastVoted
    {
      Heights(lastVotedHeight, s.lastVoted[btcPk])
    }

    /** SetLastVotedHeight: memory first, then the database. Afterwards memory is ahead of the
        database exactly if the write failed and the height is above the stored one. */
    method SetLastVotedHeight(height: U64, committed: bool) returns (r: Result<()>)
      modifies this, s
      ensures lastVotedHeight == height
      ensures r.Ok? <==> committed && btcPk in old(s.lastVoted)
      ensures s.lastVoted.Keys == old(s.lastVoted).Keys
      ensures btcPk in s.lastVoted ==> View() == After(old(View()), Set(height, committed))
      ensures btcPk in s.lastVoted ==> (lastVotedHeight <= s.lastVoted[btcPk] <==> committed || height <= old(s.lastVoted[btcPk]))
      ensures forall pk :: pk in s.lastVoted && pk != btcPk ==> s.lastVoted[pk] == old(s.lastVoted[pk])
    {
      lastVotedHeight := height;
      r := s.SetFpLastVotedHeight(btcPk, height, committed);
    }
  }

  // ----- runs -----

  datatype Heights = Heights(memory: U64, stored: U64)

  /** A vote or a reset sets the height; a restart loads the stored one. */
  datatype Op = Set(height: U64, committed: bool) | Restart

  function After(v: Heights, op: Op): Heights {
    match op
    case Set(h, committed) => Heights(h, if committed && v.stored < h then h else v.stored)
    case Restart => Heights(v.stored, v.stored)
  }

  function AfterAll(v: Heights, ops: seq<Op>): Heights {
    if ops == [] then v else After(AfterAll(v, ops[..|ops| - 1]), ops[|ops| - 1])
  }

  /** Over any run, resets and failed writes included, the stored height is the highest of the initial
      one and all heights whose write succeeded: it never decreases and misses none. */
  lemma {:induction false} StoredIsHighest(v: Heights, ops: seq<Op>)
    ensures var stored := AfterAll(v, ops).stored;
            && v.stored <= stored
            && (forall i :: 0 <= i < |ops| && ops[i].Set? && ops[i].committed ==> ops[i].height <= stored)
            && (stored == v.stored || exists i :: 0 <= i < |ops| && ops[i].Set? && ops[i].committed && ops[i].height == stored)
    decreases |ops|
  {
    if ops != [] {
      var n := |ops| - 1;
      StoredIsHighest(v, ops[..n]);
      forall i | 0 <= i < n ensures ops[..n][i] == ops[i] {
      }
    }
  }

  /** If every write succeeds, memory is never ahead of the database, at any point of the run, so a
      restart never resumes below the height in memory. */
  lemma RestartNeverResumesBelow(v: Heights, ops: seq<Op>)
    requires v.memory <= v.stored
    requires forall i :: 0 <= i < |ops| && ops[i].Set? ==> ops[i].committed
    ensures AfterAll(v, ops).memory <= AfterAll(v, ops).stored
    ensures AfterAll(v, ops).memory <= AfterAll(v, ops + [Restart]).memory
  {
    assert (ops + [Restart])[..|ops|] == ops;
  }

  /** A reset lowers the memory only: the next restart is back at the stored height. */
  lemma ResetIsUndoneByRestart(v: Heights, reset: U64)
    requires reset < v.stored
    ensures After(v, Set(reset, true)) == Heights(reset, v.stored)
    ensures AfterAll(v, [Set(reset, true), Restart]).memory == v.stored
  {
    var ops := [Set(reset, true), Restart];
    assert ops[..1] == [Set(reset, true)] && ops[..1][..0] == [];
    assert AfterAll(v, ops[..1]) == After(v, Set(reset, true));
  }
}
