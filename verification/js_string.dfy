/**
 * The two pieces of JavaScript string semantics the score client relies on:
 * `String.prototype.trim` and the regular-expression class `\s`. Both use the
 * ECMAScript WhiteSpace and LineTerminator code points.
 */
module JsString {

  /** ECMAScript WhiteSpace (including the Unicode space separators) and LineTerminator. */
  predicate IsWhitespace(c: char)
  {
    || c == '\t' || c == '\n' || c == '\U{B}' || c == '\U{C}' || c == '\r' || c == ' '
    || c == '\U{A0}' || c == '\U{1680}' || ('\U{2000}' <= c <= '\U{200A}')
    || c == '\U{2028}' || c == '\U{2029}' || c == '\U{202F}' || c == '\U{205F}'
    || c == '\U{3000}' || c == '\U{FEFF}'
  }

  predicate AllWhitespace(s: string)
  {
    forall i :: 0 <= i < |s| ==> IsWhitespace(s[i])
  }

  /** Neither end of the string is whitespace. */
  predicate Trimmed(s: string)
  {
    s != [] ==> !IsWhitespace(s[0]) && !IsWhitespace(s[|s| - 1])
  }

  /** The first index at or after `i` that does not hold whitespace (or |s|). */
  function SkipLeading(s: string, i: nat): (k: nat)
    requires i <= |s|
    ensures i <= k <= |s|
    ensures forall j :: i <= j < k ==> IsWhitespace(s[j])
    ensures k < |s| ==> !IsWhitespace(s[k])
    decreases |s| - i
  {
    if i < |s| && IsWhitespace(s[i]) then SkipLeading(s, i + 1) else i
  }

  /** The end, between `lo` and `j`, of `s[lo..j]` without its trailing whitespace. */
  function SkipTrailing(s: string, lo: nat, j: nat): (k: nat)
    requires lo <= j <= |s|
    ensures lo <= k <= j
    ensures forall m :: k <= m < j ==> IsWhitespace(s[m])
    ensures k > lo ==> !IsWhitespace(s[k - 1])
    decreases j
  {
    if j > lo && IsWhitespace(s[j - 1]) then SkipTrailing(s, lo, j - 1) else j
  }

  /**
   * `s.trim()`: the middle slice of `s` that neither starts nor ends with
   * whitespace; everything cut off on either side is whitespace.
   */
  function Trim(s: string): (r: string)
    ensures Trimmed(r)
    ensures exists lo, hi :: (0 <= lo <= hi <= |s| && r == s[lo..hi]
      && AllWhitespace(s[..lo]) && AllWhitespace(s[hi..]))
    ensures r == [] <==> AllWhitespace(s)
  {
    var lo := SkipLeading(s, 0);
    var hi := SkipTrailing(s, lo, |s|);
    assert AllWhitespace(s[..lo]) by {
      forall i | 0 <= i < lo ensures IsWhitespace(s[..lo][i]) { assert s[..lo][i] == s[i]; }
    }
    assert AllWhitespace(s[hi..]) by {
      forall i | 0 <= i < |s| - hi ensures IsWhitespace(s[hi..][i]) { assert s[hi..][i] == s[hi + i]; }
    }
    assert hi == lo ==> lo == |s| ==> AllWhitespace(s);
    s[lo..hi]
  }

  /** A string with no whitespace at either end is its own trim. */
  lemma TrimOfTrimmed(t: string)
    requires Trimmed(t)
    ensures Trim(t) == t
  {
    if t != [] {
      assert SkipLeading(t, 0) == 0;
      assert SkipTrailing(t, 0, |t|) == |t|;
      assert t[0..|t|] == t;
    }
  }

  /** Trimming twice is trimming once (the game trims the name before the client trims it again). */
  lemma TrimIdempotent(s: string)
    ensures Trim(Trim(s)) == Trim(s)
  {
    TrimOfTrimmed(Trim(s));
  }
}
