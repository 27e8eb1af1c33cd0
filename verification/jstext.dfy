/** The part of ECMAScript string semantics the client relies on:
    `String.prototype.trim`, which removes leading and trailing white space and
    line terminators. */
module JsText {

  /** ECMAScript WhiteSpace (TAB, VT, FF, ZWNBSP and every Unicode "Space
      Separator") together with LineTerminator (LF, CR, LS, PS), i.e. exactly
      the code points that `trim` strips. */
  predicate IsJsWhitespace(c: char) {
    var n := c as int;
    || n == 0x09 || n == 0x0A || n == 0x0B || n == 0x0C || n == 0x0D
    || n == 0x20 || n == 0xA0 || n == 0x1680
    || (0x2000 <= n <= 0x200A)
    || n == 0x2028 || n == 0x2029 || n == 0x202F || n == 0x205F
    || n == 0x3000 || n == 0xFEFF
  }

  /** How many characters of white space `s` starts with: all of them are
      white space, and the next one, if any, is not. */
  function LeadingSpaces(s: string): (n: nat)
    ensures n <= |s|
    ensures forall i :: 0 <= i < n ==> IsJsWhitespace(s[i])
    ensures n < |s| ==> !IsJsWhitespace(s[n])
  {
    if s != [] && IsJsWhitespace(s[0]) then 1 + LeadingSpaces(s[1..]) else 0
  }

  /** How many characters of white space `s` ends with: all of them are white
      space, and the one before them, if any, is not. */
  function TrailingSpaces(s: string): (n: nat)
    ensures n <= |s|
    ensures forall i :: |s| - n <= i < |s| ==> IsJsWhitespace(s[i])
    ensures n < |s| ==> !IsJsWhitespace(s[|s| - 1 - n])
  {
    if s != [] && IsJsWhitespace(s[|s| - 1]) then 1 + TrailingSpaces(s[..|s| - 1]) else 0
  }

  /** `s` with its leading white space removed: a suffix of `s` that either is
      empty or starts with a non-white-space character, and everything cut off
      is white space. */
  function TrimStart(s: string): (r: string)
    ensures |r| <= |s| && r == s[|s| - |r|..]
    ensures forall i :: 0 <= i < |s| - |r| ==> IsJsWhitespace(s[i])
    ensures r != [] ==> !IsJsWhitespace(r[0])
  {
    s[LeadingSpaces(s)..]
  }

  /** `s` with its trailing white space removed: a prefix of `s` that either is
      empty or ends with a non-white-space character, and everything cut off
      is white space. */
  function TrimEnd(s: string): (r: string)
    ensures |r| <= |s| && r == s[..|r|]
    ensures forall i :: |r| <= i < |s| ==> IsJsWhitespace(s[i])
    ensures r != [] ==> !IsJsWhitespace(r[|r| - 1])
  {
    s[..|s| - TrailingSpaces(s)]
  }

  /** `s.trim()`: the piece of `s` that starts after its leading white space,
      with no white space at either end, and everything cut off on either side
      is white space. */
  function Trim(s: string): (r: string)
    ensures LeadingSpaces(s) + |r| <= |s|
    ensures r == s[LeadingSpaces(s)..LeadingSpaces(s) + |r|]
    ensures r != [] ==> !IsJsWhitespace(r[0]) && !IsJsWhitespace(r[|r| - 1])
    ensures forall i :: 0 <= i < LeadingSpaces(s) ==> IsJsWhitespace(s[i])
    ensures forall i :: LeadingSpaces(s) + |r| <= i < |s| ==> IsJsWhitespace(s[i])
  {
    var t := TrimStart(s);
    var r := TrimEnd(t);
    TrimmedPiece(s, t, r);
    r
  }

  /** Cutting a prefix `r` off a suffix `t` of `s`, where what `t` leaves of
      `s` and what `r` leaves of `t` are white space, leaves a piece of `s`
      surrounded only by white space. */
  lemma TrimmedPiece(s: string, t: string, r: string)
    requires |r| <= |t| <= |s| && t == s[|s| - |t|..] && r == t[..|r|]
    requires forall j :: |r| <= j < |t| ==> IsJsWhitespace(t[j])
    requires t != [] ==> !IsJsWhitespace(t[0])
    requires r != [] ==> !IsJsWhitespace(r[|r| - 1])
    ensures r == s[|s| - |t|..|s| - |t| + |r|]
    ensures r != [] ==> !IsJsWhitespace(r[0])
    ensures forall i :: |s| - |t| + |r| <= i < |s| ==> IsJsWhitespace(s[i])
  {
    var k := |s| - |t|;
    if r != [] {
      assert r[0] == t[0];
    }
    forall i | k + |r| <= i < |s|
      ensures IsJsWhitespace(s[i])
    {
      assert s[i] == t[i - k];
    }
  }

  /** The test `s.trim() === ''`. */
  predicate IsBlank(s: string) {
    Trim(s) == ""
  }

  /** A string trims to nothing exactly when every one of its characters is
      white space; in particular the empty string is blank. */
  lemma BlankIffAllWhitespace(s: string)
    ensures IsBlank(s) <==> forall i :: 0 <= i < |s| ==> IsJsWhitespace(s[i])
  {
    var t := TrimStart(s);
    var k := |s| - |t|;
    if IsBlank(s) {
      assert |t| == 0;
    } else {
      var r := Trim(s);
      assert r[0] == s[k];
    }
  }

  /** A string holding one character that is not white space is not blank. */
  lemma NonSpaceMeansNotBlank(s: string, i: nat)
    requires i < |s| && !IsJsWhitespace(s[i])
    ensures !IsBlank(s)
  {
    BlankIffAllWhitespace(s);
  }
}
