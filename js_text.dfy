/**
 * The two JavaScript string built-ins the script relies on:
 * `s.substring(0, end)` (the typing effect) and `s.trim()` (reading a card's title).
 */
module JsText {

  /** `s.substring(0, end)`: the end index is clamped into [0, |s|] before slicing. */
  function Substring0(s: string, end: int): (r: string)
    ensures |r| == if end < 0 then 0 else if end > |s| then |s| else end
    ensures r == s[..|r|]
  {
    if end <= 0 then "" else if end >= |s| then s else s[..end]
  }

  /**
   * The characters `trim()` removes: ECMAScript WhiteSpace (TAB, VT, FF, SPACE, NBSP,
   * ZWNBSP and every Zs code point) and LineTerminator (LF, CR, LS, PS).
   */
  predicate IsTrimmable(c: char) {
    || c == '\t' || c == '\U{B}' || c == '\U{C}' || c == ' ' || c == '\U{A0}' || c == '\U{FEFF}'
    || c == '\n' || c == '\r' || c == '\U{2028}' || c == '\U{2029}'
    || c == '\U{1680}' || ('\U{2000}' <= c <= '\U{200A}') || c == '\U{202F}' || c == '\U{205F}' || c == '\U{3000}'
  }

  /** The number of trimmable characters at the start of `s`. */
  function Leading(s: string): (n: nat)
    ensures n <= |s|
    ensures forall i :: 0 <= i < n ==> IsTrimmable(s[i])
    ensures n < |s| ==> !IsTrimmable(s[n])
  {
    if |s| == 0 || !IsTrimmable(s[0]) then 0 else 1 + Leading(s[1..])
  }

  /** The number of trimmable characters at the end of `s`. */
  function Trailing(s: string): (n: nat)
    ensures n <= |s|
    ensures forall i :: |s| - n <= i < |s| ==> IsTrimmable(s[i])
    ensures n < |s| ==> !IsTrimmable(s[|s| - 1 - n])
  {
    if |s| == 0 || !IsTrimmable(s[|s| - 1]) then 0 else 1 + Trailing(s[..|s| - 1])
  }

  /**
   * `s.trim()`: the longest infix of `s` that neither starts nor ends with a trimmable
   * character, obtained by dropping only trimmable characters on either side.
   */
  function Trim(s: string): (r: string)
    ensures Leading(s) + |r| <= |s|
    ensures s == s[..Leading(s)] + r + s[Leading(s) + |r|..]
    ensures forall i :: 0 <= i < |s| && (i < Leading(s) || i >= Leading(s) + |r|) ==> IsTrimmable(s[i])
    ensures |r| > 0 ==> !IsTrimmable(r[0]) && !IsTrimmable(r[|r| - 1])
  {
    var a := Leading(s);
    var rest := s[a..];
    var r := rest[..|rest| - Trailing(rest)];
    assert s[a..][..|r|] == r;
    assert s == s[..a] + r + s[a + |r|..] by {
      assert s[a..] == r + s[a + |r|..];
    }
    r
  }

  /** Trimming twice removes nothing more. */
  lemma TrimIdempotent(s: string)
    ensures Trim(Trim(s)) == Trim(s)
  {
  }
}
