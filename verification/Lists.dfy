/** Lists that are picked out of longer ones: which elements, how often and in which order. */
module Lists {
  import opened Wrappers

  predicate Increasing(pos: seq<nat>) {
    forall a, b :: 0 <= a < b < |pos| ==> pos[a] < pos[b]
  }

  ghost predicate PickedAt<T>(n: nat, pick: nat -> Option<T>, out: seq<T>, pos: seq<nat>) {
    && |pos| == |out| && Increasing(pos)
    && (forall a :: 0 <= a < |pos| ==> pos[a] < n && pick(pos[a]) == Some(out[a]))
    && (forall i: nat :: i < n && pick(i).Some? ==> i in pos)
  }

  /** `out` holds what is picked at the positions below `n`, each once and in order. */
  ghost predicate Picks<T>(n: nat, pick: nat -> Option<T>, out: seq<T>) {
    exists pos: seq<nat> :: PickedAt(n, pick, out, pos)
  }

  lemma PicksNothing<T>(pick: nat -> Option<T>)
    ensures Picks(0, pick, [])
  {
    assert PickedAt(0, pick, [], []);
  }

  lemma PicksOneMore<T>(n: nat, pick: nat -> Option<T>, out: seq<T>)
    requires Picks(n, pick, out)
    ensures Picks(n + 1, pick, if pick(n).Some? then out + [pick(n).value] else out)
  {
    var pos :| PickedAt(n, pick, out, pos);
    if pick(n).Some? {
      var pos' := pos + [n];
      forall i: nat | i < n + 1 && pick(i).Some? ensures i in pos' {
        if i == n {
          assert pos'[|pos|] == i;
        } else {
          assert i in pos;
        }
      }
      assert PickedAt(n + 1, pick, out + [pick(n).value], pos');
    } else {
      assert PickedAt(n + 1, pick, out, pos);
    }
  }

  /** Only what is picked below `n` matters. */
  lemma PicksSame<T>(n: nat, f: nat -> Option<T>, g: nat -> Option<T>, out: seq<T>)
    requires Picks(n, f, out) && forall i: nat :: i < n ==> f(i) == g(i)
    ensures Picks(n, g, out)
  {
    var pos :| PickedAt(n, f, out, pos);
    assert PickedAt(n, g, out, pos);
  }

  lemma PicksMembers<T>(n: nat, pick: nat -> Option<T>, out: seq<T>, x: T)
    requires Picks(n, pick, out)
    ensures x in out <==> exists i: nat :: i < n && pick(i) == Some(x)
  {
    var pos :| PickedAt(n, pick, out, pos);
    if i: nat :| i < n && pick(i) == Some(x) {
      var a :| 0 <= a < |pos| && pos[a] == i;
      assert out[a] == x;
    }
    if x in out {
      var a :| 0 <= a < |out| && out[a] == x;
      assert pick(pos[a]) == Some(x);
    }
  }

  /** Two elements in a row were picked at positions in that order. */
  lemma PicksInOrder<T>(n: nat, pick: nat -> Option<T>, out: seq<T>, a: nat, b: nat) returns (i: nat, j: nat)
    requires Picks(n, pick, out) && a < b < |out|
    ensures i < j < n && pick(i) == Some(out[a]) && pick(j) == Some(out[b])
  {
    var pos :| PickedAt(n, pick, out, pos);
    i, j := pos[a], pos[b];
  }

  lemma {:induction false} IncreasingUnique(p: seq<nat>, q: seq<nat>)
    requires Increasing(p) && Increasing(q) && forall i :: i in p <==> i in q
    ensures p == q
    decreases |p|
  {
    assert |p| > 0 ==> p[0] in p;
    assert |q| > 0 ==> q[0] in q;
    if |p| > 0 && |q| > 0 {
      var m, n := |p| - 1, |q| - 1;
      assert p[m] in q && q[n] in p;
      assert p[m] == q[n];
      assert forall i :: i in p[..m] <==> i in p && i != p[m];
      assert forall i :: i in q[..n] <==> i in q && i != q[n];
      IncreasingUnique(p[..m], q[..n]);
      assert p == p[..m] + [p[m]] && q == q[..n] + [q[n]];
    }
  }

  /** There is only one such list. */
  lemma PicksUnique<T>(n: nat, pick: nat -> Option<T>, out: seq<T>, out': seq<T>)
    requires Picks(n, pick, out) && Picks(n, pick, out')
    ensures out == out'
  {
    var pos :| PickedAt(n, pick, out, pos);
    var pos' :| PickedAt(n, pick, out', pos');
    forall i ensures i in pos <==> i in pos' {
    }
    IncreasingUnique(pos, pos');
  }
}
