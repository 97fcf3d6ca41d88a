/**
 * The one piece of JavaScript string semantics the interaction layer relies on:
 * `String.prototype.substring(start, end)`, which clamps both indices to
 * `[0, length]` and swaps them when `start > end`. In particular
 * `s.substring(0, -1)` is `""` rather than an error.
 */
module JsString {

  /** An index argument of `substring` clamped to `[0, len]`. */
  function ClampIndex(i: int, len: nat): (r: nat)
    ensures r <= len
    ensures 0 <= i <= len ==> r == i
    ensures i < 0 ==> r == 0
    ensures len < i ==> r == len
  {
    if i < 0 then 0 else if i > len then len else i
  }

  /** `s.substring(start, end)`. */
  function Substring(s: string, start: int, end: int): (r: string)
    ensures start == 0 ==> r <= s && |r| == ClampIndex(end, |s|)
  {
    var a := ClampIndex(start, |s|);
    var b := ClampIndex(end, |s|);
    if a <= b then s[a..b] else s[b..a]
  }

  /** The order of the two indices does not matter. */
  lemma SubstringSymmetric(s: string, start: int, end: int)
    ensures Substring(s, start, end) == Substring(s, end, start)
  {
  }
}
