/** The parts of JavaScript's string semantics that the indentation
    normaliser relies on: the whitespace class shared by
    `String.prototype.trim` and the regular-expression escape `\s`, the
    length of the `^\s*` match, and `trim` itself. */
module JsStrings {

  /** ECMAScript WhiteSpace and LineTerminator code points: the set that
      `trim` strips and that `\s` matches (the line feed among them).
      Every one of them is a single UTF-16 code unit. */
  predicate IsWS(c: char)
    ensures IsWS(c) ==> (c as int) < 0x1_0000
  {
    c == '\t' || c == '\U{B}' || c == '\U{C}' || c == ' ' || c == '\U{A0}' ||
    c == '\U{1680}' || ('\U{2000}' <= c <= '\U{200A}') || c == '\U{202F}' ||
    c == '\U{205F}' || c == '\U{3000}' || c == '\U{FEFF}' ||
    c == '\n' || c == '\r' || c == '\U{2028}' || c == '\U{2029}'
  }

  /** Every character of `s` is whitespace (the empty string included). */
  predicate AllWS(s: string) {
    forall k :: 0 <= k < |s| ==> IsWS(s[k])
  }

  /** `s` neither starts nor ends with whitespace. */
  predicate Trimmed(s: string) {
    s == [] || (!IsWS(s[0]) && !IsWS(s[|s| - 1]))
  }

  /** Length of the match of the pattern `^\s*` on `s`: the longest whitespace prefix. */
  function LeadingWSLength(s: string): (n: nat)
    ensures n <= |s|
    ensures AllWS(s[..n])
    ensures n < |s| ==> !IsWS(s[n])
    decreases |s|
  {
    if s == [] || !IsWS(s[0]) then 0
    else
      var m := LeadingWSLength(s[1..]);
      assert s[..m + 1] == [s[0]] + s[1..][..m];
      m + 1
  }

  /** Length of the longest whitespace suffix of `s`. */
  function TrailingWSLength(s: string): (n: nat)
    ensures n <= |s|
    ensures AllWS(s[|s| - n..])
    ensures n < |s| ==> !IsWS(s[|s| - n - 1])
    decreases |s|
  {
    if s == [] || !IsWS(s[|s| - 1]) then 0
    else
      var init := s[..|s| - 1];
      var m := TrailingWSLength(init);
      assert s[|s| - (m + 1)..] == init[|init| - m..] + [s[|s| - 1]];
      m + 1
  }

  /** `String.prototype.trim`: whitespace removed from both ends. The
      result is the part of `s` between its whitespace prefix and its
      whitespace suffix, and it is empty exactly when `s` is all
      whitespace. */
  function Trim(s: string): (r: string)
    ensures |r| <= |s|
    ensures Trimmed(r)
    ensures var i := LeadingWSLength(s);
      i + |r| <= |s| && r == s[i..i + |r|] && AllWS(s[i + |r|..])
    ensures r == [] <==> AllWS(s)
  {
    var i := LeadingWSLength(s);
    var t := s[i..];
    var j := TrailingWSLength(t);
    assert t == [] ==> s[..i] == s;
    var r := t[..|t| - j];
    assert s[i + |r|..] == t[|t| - j..];
    assert t != [] ==> r[0] == t[0] == s[i];
    r
  }

  /** `Trim` is the identity on a string that is already trimmed. */
  lemma {:induction false} TrimTrimmed(s: string)
    requires Trimmed(s)
    ensures Trim(s) == s
  {
    assert LeadingWSLength(s) == 0;
    if s != [] {
      assert TrailingWSLength(s) == 0;
    }
  }

  /** `trim` is idempotent. */
  lemma TrimIdempotent(s: string)
    ensures Trim(Trim(s)) == Trim(s)
  {
    TrimTrimmed(Trim(s));
  }

}
