/**
 The blank-title check of the todo page: a title is rejected when
 `String.prototype.trim` leaves nothing of it. JavaScript's trim strips, at
 both ends, every WhiteSpace and LineTerminator code point of the ECMAScript
 grammar; the predicate below lists exactly those.
 */
module Text {

  /** WhiteSpace (TAB, VT, FF, ZWNBSP and the Unicode "Zs" separators) or
      LineTerminator (LF, CR, LS, PS), as ECMAScript defines them. */
  predicate IsWhitespace(c: char) {
    var n := c as int;
    || n == 0x0009 || n == 0x000A || n == 0x000B || n == 0x000C || n == 0x000D
    || n == 0x0020 || n == 0x00A0 || n == 0x1680
    || (0x2000 <= n <= 0x200A)
    || n == 0x2028 || n == 0x2029 || n == 0x202F || n == 0x205F
    || n == 0x3000 || n == 0xFEFF
  }

  /** `s` with its leading whitespace removed: a suffix of `s` whose dropped
      part is all whitespace and which does not itself start with whitespace. */
  function TrimStart(s: string): (r: string)
    ensures |r| <= |s| && r == s[|s| - |r|..]
    ensures forall i :: 0 <= i < |s| - |r| ==> IsWhitespace(s[i])
    ensures r != [] ==> !IsWhitespace(r[0])
  {
    if s == [] || !IsWhitespace(s[0]) then s else TrimStart(s[1..])
  }

  /** `s` with its trailing whitespace removed: a prefix of `s` whose dropped
      part is all whitespace and which does not itself end with whitespace. */
  function TrimEnd(s: string): (r: string)
    ensures |r| <= |s| && r == s[..|r|]
    ensures forall i :: |r| <= i < |s| ==> IsWhitespace(s[i])
    ensures r != [] ==> !IsWhitespace(r[|r| - 1])
  {
    if s == [] || !IsWhitespace(s[|s| - 1]) then s else TrimEnd(s[..|s| - 1])
  }

  /** `r` is the slice of `s` that starts at `k`, and everything of `s`
      before and after that slice is whitespace. */
  predicate WhitespaceAround(s: string, r: string, k: int) {
    && 0 <= k && k + |r| <= |s|
    && (forall i :: 0 <= i < |r| ==> r[i] == s[k + i])
    && (forall i :: 0 <= i < k ==> IsWhitespace(s[i]))
    && (forall i :: k + |r| <= i < |s| ==> IsWhitespace(s[i]))
  }

  /** JavaScript's `s.trim()`. Its contract says the ends of the result are
      not whitespace; `TrimDropsOnlyWhitespace` says the result is a slice of
      `s` with only whitespace around it. */
  function Trim(s: string): (r: string)
    ensures |r| <= |s|
    ensures r != [] ==> !IsWhitespace(r[0]) && !IsWhitespace(r[|r| - 1])
  {
    TrimEnd(TrimStart(s))
  }

  /** `!s.trim()`: the trimmed string is the empty, falsy, string. That is
      so exactly when every character of `s` is whitespace; in particular ""
      is blank and a string holding any other character is not. */
  predicate IsBlank(s: string) {
    Trim(s) == []
  }

  /** What `s.trim()` returns is `s` less only whitespace: a slice of `s`
      with nothing but whitespace before and after it. Together with the
      contract of `Trim` (no whitespace at either end of the result), this
      fixes the result uniquely. */
  lemma TrimDropsOnlyWhitespace(s: string)
    ensures exists k :: WhitespaceAround(s, Trim(s), k)
  {
    var t := TrimStart(s);
    var r := TrimEnd(t);
    var k := |s| - |t|;
    assert r == Trim(s);
    assert t == s[k..] && r == t[..|r|];
    forall i | k + |r| <= i < |s| ensures IsWhitespace(s[i]) {
      assert s[i] == t[i - k];
    }
    assert WhitespaceAround(s, r, k);
  }

  /** A string is blank exactly when every one of its characters is
      whitespace; in particular "" is blank and any string holding a
      non-whitespace character is not. */
  lemma BlankIffAllWhitespace(s: string)
    ensures IsBlank(s) <==> forall i :: 0 <= i < |s| ==> IsWhitespace(s[i])
  {
  }

  /** A string whose first character is not whitespace is not blank. */
  lemma StartsNonBlank(s: string)
    requires s != [] && !IsWhitespace(s[0])
    ensures !IsBlank(s)
  {
    BlankIffAllWhitespace(s);
  }
}
