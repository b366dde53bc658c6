/**
 * The text the generators hand to the JSON parser: what
 * `re.search(r'\[.*\]', text, re.DOTALL)` (or the same with braces) matches,
 * or the whole text when there is no match.
 */
module Span {
  import opened Wrappers

  predicate IsFirst(s: string, c: char, f: nat) {
    f < |s| && s[f] == c && forall k :: 0 <= k < f ==> s[k] != c
  }

  predicate IsLast(s: string, c: char, l: nat) {
    l < |s| && s[l] == c && forall k :: l < k < |s| ==> s[k] != c
  }

  /** The index of the first `c` in `s`, if any. */
  function FirstIndex(s: string, c: char): (r: Option<nat>)
    ensures r.Some? ==> IsFirst(s, c, r.value)
    ensures r.None? ==> forall k :: 0 <= k < |s| ==> s[k] != c
  {
    if |s| == 0 then None
    else if s[0] == c then Some(0)
    else match FirstIndex(s[1..], c) {
      case None => None
      case Some(i) => Some(i + 1)
    }
  }

  /** The index of the last `c` in `s`, if any. */
  function LastIndex(s: string, c: char): (r: Option<nat>)
    ensures r.Some? ==> IsLast(s, c, r.value)
    ensures r.None? ==> forall k :: 0 <= k < |s| ==> s[k] != c
  {
    if |s| == 0 then None
    else if s[|s| - 1] == c then Some(|s| - 1)
    else LastIndex(s[..|s| - 1], c)
  }

  /** The pattern `open .* close` (with `.` matching newlines too) occurs in `s`. */
  predicate HasSpan(s: string, open: char, close: char) {
    exists i, j :: 0 <= i < j < |s| && s[i] == open && s[j] == close
  }

  /**
   * The leftmost match of the greedy pattern: a search tries start positions
   * left to right, so the match starts at the first `open` that has a `close`
   * after it (which is the first `open` of all, when any has one), and greedy
   * `.*` carries it to the last `close`. When the pattern occurs, the result
   * runs from the first `open` to the last `close` of `s`, both included, so
   * it starts with `open`, ends with `close` and is no longer than `s`;
   * otherwise it is `s` unchanged.
   */
  function Extract(s: string, open: char, close: char): (r: string)
    ensures HasSpan(s, open, close) ==>
      exists f: nat, l: nat :: f < l && IsFirst(s, open, f) && IsLast(s, close, l) && r == s[f..l + 1]
    ensures HasSpan(s, open, close) ==> 2 <= |r| <= |s| && r[0] == open && r[|r| - 1] == close
    ensures !HasSpan(s, open, close) ==> r == s
  {
    match (FirstIndex(s, open), LastIndex(s, close))
    case (Some(f), Some(l)) =>
      if f < l then
        assert HasSpan(s, open, close) by { assert s[f] == open && s[l] == close; }
        s[f..l + 1]
      else s
    case _ => s
  }
}
