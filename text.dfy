/**
  The part of JavaScript's string handling the class registry relies on:
  `String.prototype.trim`, which strips ECMAScript WhiteSpace and
  LineTerminator code points from both ends of a string.
 */
module JsText {

  /** ECMAScript WhiteSpace (TAB, VT, FF, SP, NBSP, ZWNBSP and every code point
      of category Zs) and LineTerminator (LF, CR, LS, PS). */
  predicate IsTrimmable(c: char) {
    || c == '\t' || c == '\U{000B}' || c == '\U{000C}' || c == ' '
    || c == '\U{00A0}' || c == '\U{FEFF}' || c == '\U{1680}'
    || ('\U{2000}' <= c <= '\U{200A}')
    || c == '\U{202F}' || c == '\U{205F}' || c == '\U{3000}'
    || c == '\n' || c == '\r' || c == '\U{2028}' || c == '\U{2029}'
  }

  /** True when every code point of the string is trimmable (the empty string included). */
  predicate IsBlank(s: string) {
    forall i :: 0 <= i < |s| ==> IsTrimmable(s[i])
  }

  /** True when the string neither starts nor ends with a trimmable code point. */
  predicate IsTrimmed(s: string) {
    s == [] || (!IsTrimmable(s[0]) && !IsTrimmable(s[|s| - 1]))
  }

  /** The index of the first code point at or after `i` that is not
      trimmable, or `|s|` when there is none: everything skipped is trimmable. */
  function SkipForward(s: string, i: nat): (k: nat)
    requires i <= |s|
    ensures i <= k <= |s|
    ensures forall j :: i <= j < k ==> IsTrimmable(s[j])
    ensures k == |s| || !IsTrimmable(s[k])
    decreases |s| - i
  {
    if i < |s| && IsTrimmable(s[i]) then SkipForward(s, i + 1) else i
  }

  /** The index just past the last code point in `s[lo..e]` that is not
      trimmable, or `lo` when there is none: everything skipped is trimmable. */
  function SkipBackward(s: string, lo: nat, e: nat): (k: nat)
    requires lo <= e <= |s|
    ensures lo <= k <= e
    ensures forall j :: k <= j < e ==> IsTrimmable(s[j])
    ensures k == lo || !IsTrimmable(s[k - 1])
    decreases e - lo
  {
    if lo < e && IsTrimmable(s[e - 1]) then SkipBackward(s, lo, e - 1) else e
  }

  /** `s.trim()`: the part of `s` left after its leading whitespace (of
      length `k`) and its trailing whitespace are dropped. The result is
      trimmed, and it is empty exactly when `s` consists of trimmable code
      points only. */
  function Trim(s: string): (r: string)
    ensures var k := SkipForward(s, 0);
            && k + |r| <= |s| && r == s[k..k + |r|]
            && (forall i :: 0 <= i < k ==> IsTrimmable(s[i]))
            && (forall i :: k + |r| <= i < |s| ==> IsTrimmable(s[i]))
    ensures IsTrimmed(r)
    ensures r == [] <==> IsBlank(s)
  {
    var k := SkipForward(s, 0);
    var e := SkipBackward(s, k, |s|);
    assert e > k ==> s[k..e][0] == s[k] && s[k..e][e - k - 1] == s[e - 1];
    s[k..e]
  }

  /** A string that is already trimmed is left as it is. */
  lemma TrimmedIsFixed(s: string)
    requires IsTrimmed(s)
    ensures Trim(s) == s
  {
    assert SkipForward(s, 0) == 0;
  }

  /** Trimming twice is trimming once. */
  lemma TrimIdempotent(s: string)
    ensures Trim(Trim(s)) == Trim(s)
  {
    TrimmedIsFixed(Trim(s));
  }
}
