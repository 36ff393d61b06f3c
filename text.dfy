/**
 * The string operations the setup screen relies on: ECMAScript's white space
 * and `String.prototype.trim`, which strips it from both ends of a name. The
 * functions are plain definitions; the lemmas after them state what they do.
 */
module Text {

  /** A code point that `trim` strips: ECMAScript's WhiteSpace (TAB, VT, FF, ZWNBSP and
      the space separators of Unicode category Zs) and LineTerminator (LF, CR, LS, PS). */
  predicate IsWhitespace(c: char)
  {
    c == '\t' || c == '\U{000B}' || c == '\U{000C}' || c == '\U{FEFF}'
    || c == ' ' || c == '\U{00A0}' || c == '\U{1680}' || ('\U{2000}' <= c <= '\U{200A}')
    || c == '\U{202F}' || c == '\U{205F}' || c == '\U{3000}'
    || c == '\n' || c == '\r' || c == '\U{2028}' || c == '\U{2029}'
  }

  predicate AllWhitespace(s: string)
  {
    forall i :: 0 <= i < |s| ==> IsWhitespace(s[i])
  }

  /** `s` with its leading white space removed. */
  function TrimStart(s: string): string
  {
    if s != [] && IsWhitespace(s[0]) then TrimStart(s[1..]) else s
  }

  /** `s` with its trailing white space removed. */
  function TrimEnd(s: string): string
  {
    if s != [] && IsWhitespace(s[|s| - 1]) then TrimEnd(s[..|s| - 1]) else s
  }

  /** `name.trim()`. */
  function Trim(s: string): string
  {
    TrimEnd(TrimStart(s))
  }

  /** `name.trim() === ''`. */
  predicate IsBlank(s: string)
  {
    Trim(s) == ""
  }

  /** Stripping the front leaves a suffix that starts with a non-white character, and
      everything cut off is white space. */
  lemma {:induction false} TrimStartCorrect(s: string)
    ensures var r := TrimStart(s);
      |r| <= |s| && r == s[|s| - |r|..] && AllWhitespace(s[..|s| - |r|])
      && (r != [] ==> !IsWhitespace(r[0]))
  {
    if s != [] && IsWhitespace(s[0]) {
      TrimStartCorrect(s[1..]);
      var r := TrimStart(s);
      assert s[..|s| - |r|] == [s[0]] + s[1..][..|s| - 1 - |r|];
    }
  }

  /** Stripping the back leaves a prefix that ends with a non-white character, and
      everything cut off is white space. */
  lemma {:induction false} TrimEndCorrect(s: string)
    ensures var r := TrimEnd(s);
      |r| <= |s| && r == s[..|r|] && AllWhitespace(s[|r|..])
      && (r != [] ==> !IsWhitespace(r[|r| - 1]))
  {
    if s != [] && IsWhitespace(s[|s| - 1]) {
      TrimEndCorrect(s[..|s| - 1]);
      var r := TrimEnd(s);
      assert s[|r|..] == s[..|s| - 1][|r|..] + [s[|s| - 1]];
    }
  }

  /** Trimming removes white space only, and only at the two ends: `s` is white space,
      then `Trim(s)`, then white space; a non-empty result starts and ends with a
      non-white character. */
  lemma TrimCorrect(s: string)
    ensures var a, r := |s| - |TrimStart(s)|, Trim(s);
      0 <= a && a + |r| <= |s| && s[a..a + |r|] == r
      && AllWhitespace(s[..a]) && AllWhitespace(s[a + |r|..])
      && (r != [] ==> !IsWhitespace(r[0]) && !IsWhitespace(r[|r| - 1]))
  {
    var t := TrimStart(s);
    TrimStartCorrect(s);
    TrimEndCorrect(t);
    var a, r := |s| - |t|, TrimEnd(t);
    assert s[a..a + |r|] == t[..|r|];
    assert t[|r|..] == s[a + |r|..];
    assert r != [] ==> r[0] == t[0];
  }

  /** A name is blank exactly when every one of its characters is white space. */
  lemma BlankIffAllWhitespace(s: string)
    ensures IsBlank(s) <==> AllWhitespace(s)
  {
    var t := TrimStart(s);
    TrimStartCorrect(s);
    TrimEndCorrect(t);
    if IsBlank(s) {
      assert t[0..] == t;
      assert s[..|s|] == s;
    }
  }

  /** Trimming twice is trimming once. */
  lemma TrimIdempotent(s: string)
    ensures Trim(Trim(s)) == Trim(s)
  {
    var r := Trim(s);
    TrimCorrect(s);
    assert TrimStart(r) == r;
    assert TrimEnd(r) == r;
  }

  /** Sample names: spaces around a name go, a name without them stays, and an empty
      or all-space name is blank. */
  lemma TrimExamples()
    ensures Trim(" B ") == "B" && Trim("A") == "A" && Trim("C") == "C" && Trim("D") == "D"
    ensures IsBlank("") && IsBlank(" \t ") && !IsBlank(" B ")
  {
  }
}
