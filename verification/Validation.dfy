/** Rejection of repeated heights. */
module Validation {
  import opened Bytes

  predicate NoDuplicates(heights: seq<U64>) {
    forall i, j :: 0 <= i < j < |heights| ==> heights[i] != heights[j]
  }

  /** HasDuplicateHeights: reports the first height that repeats an earlier one. */
  method HasDuplicateHeights(heights: seq<U64>) returns (dup: bool, height: U64)
    ensures dup <==> !NoDuplicates(heights)
    ensures dup ==> exists j :: 0 <= j < |heights| && heights[j] == height && height in heights[..j] && NoDuplicates(heights[..j])
    ensures !dup ==> height == 0
  {
    var seen: set<U64> := {};
    for i := 0 to |heights|
      invariant seen == set h | h in heights[..i]
      invariant NoDuplicates(heights[..i])
    {
      if heights[i] in seen {
        return true, heights[i];
      }
      seen := seen + {heights[i]};
      assert heights[..i + 1] == heights[..i] + [heights[i]];
    }
    assert heights[..|heights|] == heights;
    return false, 0;
  }
}
