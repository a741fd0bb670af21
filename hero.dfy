/** The hero banner's highlight split. */
module Hero {
  import opened Text

  /** `n` occurs in `h` starting at `k`. */
  predicate OccursAt(h: string, n: string, k: int) {
    0 <= k && k + |n| <= |h| && h[k..k + |n|] == n
  }

  /** `h.indexOf(n, from)` for `0 <= from`: the first occurrence at or after `from`, or -1. */
  function IndexOfFrom(h: string, n: string, from: nat): (r: int)
    ensures r == -1 || (from <= r && OccursAt(h, n, r))
    ensures forall k :: from <= k && (r == -1 || k < r) ==> !OccursAt(h, n, k)
    decreases |h| - from
  {
    if from + |n| > |h| then -1
    else if OccursAt(h, n, from) then from
    else IndexOfFrom(h, n, from + 1)
  }

  /** `h.indexOf(n)`. */
  function IndexOf(h: string, n: string): (r: int)
    ensures r == -1 <==> forall k :: !OccursAt(h, n, k)
    ensures r != -1 ==> OccursAt(h, n, r) && forall k :: k < r ==> !OccursAt(h, n, k)
  {
    IndexOfFrom(h, n, 0)
  }

  /** A case-insensitive occurrence, under ASCII lowering. */
  predicate MatchesAt(h: string, n: string, k: int) {
    OccursAt(Lower(h), Lower(n), k)
  }

  /**
   * `splitOnce(haystack, needle)`: `[pre, hit, post]` always concatenates back
   * to the haystack. Without a case-insensitive occurrence it is
   * `[haystack, "", ""]`; with one, `hit` is the first occurrence, equal to the
   * needle up to case and of its length, and none starts earlier.
   */
  function SplitOnce(haystack: string, needle: string): (r: (string, string, string))
    ensures r.0 + r.1 + r.2 == haystack
    ensures (forall k :: !MatchesAt(haystack, needle, k)) ==> r == (haystack, "", "")
    ensures (exists k :: MatchesAt(haystack, needle, k)) ==>
      && |r.1| == |needle|
      && Lower(r.1) == Lower(needle)
      && MatchesAt(haystack, needle, |r.0|)
      && forall k :: k < |r.0| ==> !MatchesAt(haystack, needle, k)
  {
    var i := IndexOf(Lower(haystack), Lower(needle));
    if i == -1 then (haystack, "", "")
    else
      LowerSlice(haystack, i, i + |needle|);
      assert MatchesAt(haystack, needle, i);
      assert haystack[..i] + haystack[i..i + |needle|] + haystack[i + |needle|..] == haystack;
      (haystack[..i], haystack[i..i + |needle|], haystack[i + |needle|..])
  }

  /** An empty needle matches at the very start: everything lands in `post`. */
  lemma SplitOnceEmptyNeedle(haystack: string)
    ensures SplitOnce(haystack, "") == ("", "", haystack)
  {
    assert MatchesAt(haystack, "", 0);
  }
}
