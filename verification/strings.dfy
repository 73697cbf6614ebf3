/** Substring search as performed by JavaScript's `String.prototype.indexOf`
    and `String.prototype.includes`: both scan for the first position at which
    the pattern occurs, and an empty pattern occurs at position 0. Positions
    count characters here, where JavaScript counts UTF-16 code units; the two
    agree on ASCII strings such as serialized URLs and host names. */
module Strings {

  /** The pattern `p` occurs in `s` starting at position `i`. */
  predicate OccursAt(s: string, p: string, i: int)
  {
    0 <= i && i + |p| <= |s| && s[i..i + |p|] == p
  }

  /** First occurrence of `p` in `s` at or after position `k`, or -1. */
  function IndexFrom(s: string, p: string, k: nat): (r: int)
    decreases |s| - k
    ensures r == -1 || (k <= r && OccursAt(s, p, r))
    ensures r == -1 <==> forall i :: k <= i ==> !OccursAt(s, p, i)
    ensures r != -1 ==> forall i :: k <= i < r ==> !OccursAt(s, p, i)
  {
    if k + |p| > |s| then -1
    else if s[k..k + |p|] == p then k
    else IndexFrom(s, p, k + 1)
  }

  /** `s.indexOf(p)`: the first position at which `p` occurs, or -1. */
  function IndexOf(s: string, p: string): (r: int)
    ensures r == -1 || 0 <= r <= |s| - |p|
    ensures r >= 0 ==> OccursAt(s, p, r) && forall i :: 0 <= i < r ==> !OccursAt(s, p, i)
    ensures r == -1 <==> forall i :: !OccursAt(s, p, i)
  {
    IndexFrom(s, p, 0)
  }

  /** `s.includes(p)`. */
  predicate Includes(s: string, p: string)
  {
    IndexOf(s, p) != -1
  }

  /** `includes` holds exactly when the pattern occurs somewhere, and then
      `indexOf` reports a non-negative position. */
  lemma IncludesIffOccurs(s: string, p: string)
    ensures Includes(s, p) <==> exists i :: OccursAt(s, p, i)
    ensures Includes(s, p) <==> IndexOf(s, p) > -1
  {
  }
}
