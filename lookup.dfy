/**
 * LINQ's `Enumerable.Single(source, predicate)`: the one element of a
 * collection that satisfies a predicate. It fails when no element matches
 * and when a second element matches. Elements are identified by position,
 * so the lookup yields an index.
 */
module Lookup {
  import opened Results

  /** The two ways `Single` throws. */
  datatype LookupError = NotFound | Ambiguous

  /** Position `k` is the only position of `s` whose element satisfies `p`. */
  ghost predicate UniqueAt<T>(s: seq<T>, p: T -> bool, k: int)
  {
    0 <= k < |s| && p(s[k]) && forall j :: 0 <= j < |s| && j != k ==> !p(s[j])
  }

  /** No element of `s` satisfies `p`. */
  ghost predicate NoneMatch<T>(s: seq<T>, p: T -> bool)
  {
    forall j :: 0 <= j < |s| ==> !p(s[j])
  }

  /** Two different positions of `s` satisfy `p`. */
  ghost predicate TwoMatch<T>(s: seq<T>, p: T -> bool)
  {
    exists i, j :: 0 <= i < j < |s| && p(s[i]) && p(s[j])
  }

  /**
   * Scans `s` in order, as `Single` does: the first match is remembered, a
   * second one is an error, and reaching the end without a match is one too.
   */
  function Single<T>(s: seq<T>, p: T -> bool): (r: Result<nat, LookupError>)
    ensures r.Ok? ==> UniqueAt(s, p, r.value)
    ensures forall k :: UniqueAt(s, p, k) ==> r == Ok(k)
    ensures r == Err(NotFound) <==> NoneMatch(s, p)
    ensures r == Err(Ambiguous) <==> TwoMatch(s, p)
    decreases |s|
  {
    if |s| == 0 then Err(NotFound)
    else
      var last := |s| - 1;
      var prefix := s[..last];
      assert forall j :: 0 <= j < last ==> prefix[j] == s[j];
      match Single(prefix, p)
      case Ok(i) =>
        if p(s[last]) then
          assert p(s[i]);
          Err(Ambiguous)
        else
          Ok(i)
      case Err(NotFound) =>
        if p(s[last]) then Ok(last) else Err(NotFound)
      case Err(Ambiguous) =>
        assert TwoMatch(s, p) by {
          var i, j :| 0 <= i < j < |prefix| && p(prefix[i]) && p(prefix[j]);
          assert p(s[i]) && p(s[j]);
        }
        Err(Ambiguous)
  }
}
