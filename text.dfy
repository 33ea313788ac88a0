/**
 * The string operations of JavaScript that the components rely on:
 * `String.prototype.trim`, the regular-expression class `\s`, ASCII case
 * mapping, and the decimal rendering of a non-negative integer.
 */
module Text {
  import opened Wrappers

  /**
   * One character of the ECMAScript WhiteSpace and LineTerminator sets.
   * `trim()` strips exactly these, and the regular-expression class `\s`
   * matches exactly these.
   */
  predicate IsWhitespace(c: char)
  {
    || c == '\t' || c == '\n' || c == '\U{B}' || c == '\U{C}' || c == '\r' || c == ' '
    || c == '\U{A0}' || c == '\U{1680}' || ('\U{2000}' <= c <= '\U{200A}')
    || c == '\U{2028}' || c == '\U{2029}' || c == '\U{202F}' || c == '\U{205F}'
    || c == '\U{3000}' || c == '\U{FEFF}'
  }

  /** The string holds nothing but whitespace (a falsy `trim()`). */
  predicate IsBlank(s: string)
  {
    forall i :: 0 <= i < |s| ==> IsWhitespace(s[i])
  }

  /** The index of the first character at or after `i` that is not whitespace, or `|s|`. */
  function SkipLeading(s: string, i: nat): (k: nat)
    requires i <= |s|
    ensures i <= k <= |s|
    ensures k == |s| || !IsWhitespace(s[k])
    decreases |s| - i
  {
    if i < |s| && IsWhitespace(s[i]) then SkipLeading(s, i + 1) else i
  }

  /** The index just past the last character before `j` that is not whitespace, or 0. */
  function SkipTrailing(s: string, j: nat): (k: nat)
    requires j <= |s|
    ensures k <= j
    ensures k == 0 || !IsWhitespace(s[k - 1])
  {
    if j > 0 && IsWhitespace(s[j - 1]) then SkipTrailing(s, j - 1) else j
  }

  /** Everything `SkipLeading` passes over is whitespace. */
  lemma {:induction false} SkipLeadingPassesWhitespace(s: string, i: nat)
    requires i <= |s|
    ensures forall k :: i <= k < SkipLeading(s, i) ==> IsWhitespace(s[k])
    decreases |s| - i
  {
    if i < |s| && IsWhitespace(s[i]) {
      SkipLeadingPassesWhitespace(s, i + 1);
    }
  }

  /** Everything `SkipTrailing` passes over is whitespace. */
  lemma {:induction false} SkipTrailingPassesWhitespace(s: string, j: nat)
    requires j <= |s|
    ensures forall k :: SkipTrailing(s, j) <= k < j ==> IsWhitespace(s[k])
  {
    if j > 0 && IsWhitespace(s[j - 1]) {
      SkipTrailingPassesWhitespace(s, j - 1);
    }
  }

  /** Leading whitespace removed. */
  function TrimStart(s: string): (r: string)
    ensures |r| <= |s| && r == s[|s| - |r|..]
    ensures r == [] || !IsWhitespace(r[0])
  {
    s[SkipLeading(s, 0)..]
  }

  /** Trailing whitespace removed. */
  function TrimEnd(s: string): (r: string)
    ensures |r| <= |s| && r == s[..|r|]
    ensures r == [] || !IsWhitespace(r[|r| - 1])
  {
    s[..SkipTrailing(s, |s|)]
  }

  /** `String.prototype.trim`. */
  function Trim(s: string): (r: string)
    ensures |r| <= |s|
    ensures r == [] || (!IsWhitespace(r[0]) && !IsWhitespace(r[|r| - 1]))
  {
    TrimEnd(TrimStart(s))
  }

  /**
   * `trim` removes exactly the leading and the trailing whitespace: what
   * remains is a contiguous part of `s`, and what was cut off on either
   * side is whitespace only.
   */
  lemma TrimRemovesOnlyEnds(s: string)
    ensures exists a, b :: 0 <= a <= b <= |s| && Trim(s) == s[a..b] && IsBlank(s[..a]) && IsBlank(s[b..])
  {
    var a := SkipLeading(s, 0);
    var t := s[a..];
    var k := SkipTrailing(t, |t|);
    SkipLeadingPassesWhitespace(s, 0);
    SkipTrailingPassesWhitespace(t, |t|);
    assert TrimStart(s) == t;
    assert TrimEnd(t) == t[..k];
    assert t[..k] == s[a..a + k];
    var head, tail := s[..a], s[a + k..];
    forall i | 0 <= i < |head| ensures IsWhitespace(head[i]) {
      assert head[i] == s[i];
    }
    forall i | 0 <= i < |tail| ensures IsWhitespace(tail[i]) {
      assert tail[i] == t[k + i];
    }
    assert 0 <= a <= a + k <= |s| && Trim(s) == s[a..a + k] && IsBlank(head) && IsBlank(tail);
  }

  /** `s.trim()` is empty exactly when `s` is blank. */
  lemma TrimEmptyIffBlank(s: string)
    ensures Trim(s) == [] <==> IsBlank(s)
  {
    var t := TrimStart(s);
    if Trim(s) == [] {
      SkipTrailingPassesWhitespace(t, |t|);
      assert t == [];
      SkipLeadingPassesWhitespace(s, 0);
    } else {
      var k := |s| - |t|;
      assert t[0] == s[k];
    }
  }

  /** A string with no whitespace at its ends is its own trimming. */
  lemma TrimUnchanged(s: string)
    requires s == [] || (!IsWhitespace(s[0]) && !IsWhitespace(s[|s| - 1]))
    ensures Trim(s) == s
  {
  }

  /** Trimming twice is trimming once. */
  lemma TrimIdempotent(s: string)
    ensures Trim(Trim(s)) == Trim(s)
  {
    TrimUnchanged(Trim(s));
  }

  /** `toLowerCase` on one character (ASCII letters only). */
  function LowerChar(c: char): (d: char)
    ensures 'A' <= c <= 'Z' ==> 'a' <= d <= 'z' && d as int == c as int + 32
    ensures !('A' <= c <= 'Z') ==> d == c
  {
    if 'A' <= c <= 'Z' then (c as int + 32) as char else c
  }

  /** `toUpperCase` on one character (ASCII letters only). */
  function UpperChar(c: char): (d: char)
    ensures 'a' <= c <= 'z' ==> 'A' <= d <= 'Z' && d as int + 32 == c as int
    ensures !('a' <= c <= 'z') ==> d == c
  {
    if 'a' <= c <= 'z' then (c as int - 32) as char else c
  }

  /** `String.prototype.toLowerCase`, character by character. */
  function ToLower(s: string): (r: string)
    ensures |r| == |s|
    ensures forall i :: 0 <= i < |s| ==> r[i] == LowerChar(s[i])
  {
    seq(|s|, i requires 0 <= i < |s| => LowerChar(s[i]))
  }

  /** Lower-casing a lower-cased string changes nothing. */
  lemma ToLowerIdempotent(s: string)
    ensures ToLower(ToLower(s)) == ToLower(s)
  {
  }

  /** A character is a decimal digit. */
  predicate IsDigit(c: char)
  {
    '0' <= c <= '9'
  }

  function DigitChar(d: nat): (c: char)
    requires d < 10
    ensures IsDigit(c)
  {
    ('0' as int + d) as char
  }

  /** The decimal rendering of a non-negative integer (`String(n)`, `${n}`). */
  function NatToString(n: nat): (s: string)
    ensures s != []
    ensures forall i :: 0 <= i < |s| ==> IsDigit(s[i])
  {
    if n < 10 then [DigitChar(n)] else NatToString(n / 10) + [DigitChar(n % 10)]
  }

  /** The number a string of decimal digits denotes. */
  function DigitsValue(s: string): nat
    requires forall i :: 0 <= i < |s| ==> IsDigit(s[i])
  {
    if s == [] then 0
    else DigitsValue(s[..|s| - 1]) * 10 + DigitValue(s[|s| - 1])
  }

  function DigitValue(c: char): (d: nat)
    requires IsDigit(c)
    ensures d < 10 && DigitChar(d) == c
  {
    c as int - '0' as int
  }

  /** Reading the rendering back gives the number: the rendering is injective. */
  lemma {:induction false} NatToStringRoundTrip(n: nat)
    ensures DigitsValue(NatToString(n)) == n
  {
    if n >= 10 {
      NatToStringRoundTrip(n / 10);
      var s := NatToString(n);
      assert s[..|s| - 1] == NatToString(n / 10);
    }
  }

  lemma NatToStringInjective(m: nat, n: nat)
    requires NatToString(m) == NatToString(n)
    ensures m == n
  {
    NatToStringRoundTrip(m);
    NatToStringRoundTrip(n);
  }

  /** `message || fallback` for an optional server message: a missing or empty message gives the fallback. */
  function OrDefault(message: Option<string>, fallback: string): string
  {
    if message.Some? && message.value != "" then message.value else fallback
  }
}
