/** The two `String.prototype` methods the core relies on, for the argument
    values that occur: `indexOf` of a one-character string and `substring`
    with integer arguments. Positions count characters of a Dafny `string`
    (Unicode characters), where ECMAScript counts UTF-16 code units; the two
    differ only after a character outside the Basic Multilingual Plane, and
    since `_` is never part of a surrogate pair the words split off at `_`
    are the same either way. */
module JsString {

  /** `s.indexOf(c)`: the first position of `c` in `s`, or -1 when absent. */
  function IndexOf(s: string, c: char): (r: int)
    ensures -1 <= r < |s|
    ensures r == -1 <==> c !in s
    ensures r >= 0 ==> s[r] == c && forall i :: 0 <= i < r ==> s[i] != c
  {
    if |s| == 0 then -1
    else if s[0] == c then 0
    else
      var k := IndexOf(s[1..], c);
      if k < 0 then -1 else k + 1
  }

  /** `s.includes(c)` for a one-character search string. */
  predicate Includes(s: string, c: char) {
    c in s
  }

  /** Argument normalisation of `substring`: clamp into `[0, len]`. */
  function Clamp(i: int, len: nat): (r: nat)
    ensures r <= len
    ensures 0 <= i <= len ==> r == i
  {
    if i < 0 then 0 else if i > len then len else i
  }

  /** `s.substring(start, end)`: both ends are clamped into the string and
      swapped when the first exceeds the second. */
  function Substring(s: string, start: int, end: int): (r: string)
    ensures 0 <= start <= end <= |s| ==> r == s[start..end]
    ensures 0 <= end <= start <= |s| ==> r == s[end..start]
    ensures 0 <= start <= |s| && end < 0 ==> r == s[..start]
    ensures 0 <= start <= |s| && |s| < end ==> r == s[start..]
    ensures start <= 0 && end <= 0 ==> r == ""
    ensures |s| <= start && |s| <= end ==> r == ""
    ensures start < 0 && 0 <= end <= |s| ==> r == s[..end]
    ensures |s| < start && 0 <= end <= |s| ==> r == s[end..]
    ensures (start <= 0 && |s| <= end) || (end <= 0 && |s| <= start) ==> r == s
    ensures |r| <= |s|
  {
    var a := Clamp(start, |s|);
    var b := Clamp(end, |s|);
    if a <= b then s[a..b] else s[b..a]
  }

  /** `s.substring(start)`: the suffix from `start`. */
  function SubstringFrom(s: string, start: int): string {
    Substring(s, start, |s|)
  }
}
