/**
 * The string primitives of JavaScript that the application relies on, over Dafny strings:
 * whitespace, `trim`, case mapping, the default `sort` order, `String(n)` and `parseInt`.
 */
module Text {
  import opened Wrappers

  /**
   * JavaScript's whitespace as `\s`, `trim` and `parseInt` know it: the WhiteSpace and
   * LineTerminator characters of ECMAScript (section 12.2 and 12.3 of ECMA-262). These are
   * tab, vertical tab, form feed, space, no-break space, the byte order mark, the other space
   * separators of Unicode (U+1680, U+2000 to U+200A, U+202F, U+205F, U+3000), line feed,
   * carriage return and the line and paragraph separators.
   */
  predicate IsSpace(c: char) {
    c == ' ' || c == '\t' || c == '\n' || c == '\r' || c == '\U{B}' || c == '\U{C}'
    || c == '\U{A0}' || c == '\U{FEFF}' || c == '\U{1680}' || ('\U{2000}' <= c <= '\U{200A}')
    || c == '\U{2028}' || c == '\U{2029}' || c == '\U{202F}' || c == '\U{205F}' || c == '\U{3000}'
  }

  /** The number of whitespace characters `s` starts with. */
  function LeadingSpaces(s: string): (n: nat)
    ensures n <= |s|
    ensures forall k :: 0 <= k < n ==> IsSpace(s[k])
    ensures n < |s| ==> !IsSpace(s[n])
  {
    if s != [] && IsSpace(s[0]) then
      var n := LeadingSpaces(s[1..]);
      assert forall k :: 1 <= k < n + 1 ==> s[k] == s[1..][k - 1];
      n + 1
    else 0
  }

  /** The number of whitespace characters `s` ends with. */
  function TrailingSpaces(s: string): (n: nat)
    ensures n <= |s|
    ensures forall k :: |s| - n <= k < |s| ==> IsSpace(s[k])
    ensures n < |s| ==> !IsSpace(s[|s| - n - 1])
  {
    if s != [] && IsSpace(s[|s| - 1]) then
      var n := TrailingSpaces(s[..|s| - 1]);
      assert forall k :: |s| - 1 - n <= k < |s| - 1 ==> s[k] == s[..|s| - 1][k];
      n + 1
    else 0
  }

  /** `String.prototype.trimStart` */
  function TrimStart(s: string): (r: string)
    ensures |r| <= |s| && r == s[|s| - |r|..]
    ensures r == [] || !IsSpace(r[0])
    ensures forall k :: 0 <= k < |s| - |r| ==> IsSpace(s[k])
  {
    s[LeadingSpaces(s)..]
  }

  /** `String.prototype.trim`: the slice of `s` left after dropping the whitespace at both ends. */
  function Trim(s: string): (r: string)
    ensures r == [] || (!IsSpace(r[0]) && !IsSpace(r[|r| - 1]))
    ensures r == [] <==> forall k :: 0 <= k < |s| ==> IsSpace(s[k])
    ensures var i := |s| - |TrimStart(s)|;
      && i + |r| <= |s| && r == s[i..i + |r|]
      && (forall k :: 0 <= k < i ==> IsSpace(s[k]))
      && (forall k :: i + |r| <= k < |s| ==> IsSpace(s[k]))
  {
    var t := s[LeadingSpaces(s)..];
    TrimmedSlice(s);
    t[..|t| - TrailingSpaces(t)]
  }

  /** What is left between the leading and the trailing whitespace. */
  lemma TrimmedSlice(s: string)
    ensures var i := LeadingSpaces(s);
            var t := s[i..];
            var r := t[..|t| - TrailingSpaces(t)];
            && (r == [] || (!IsSpace(r[0]) && !IsSpace(r[|r| - 1])))
            && (r == [] <==> forall k :: 0 <= k < |s| ==> IsSpace(s[k]))
            && i + |r| <= |s| && r == s[i..i + |r|]
            && (forall k :: i + |r| <= k < |s| ==> IsSpace(s[k]))
  {
    TrimmedEnds(s);
    TrimmedPlace(s);
    TrimmedEmpty(s);
  }

  /** The trimmed text neither starts nor ends with whitespace. */
  lemma TrimmedEnds(s: string)
    ensures var t := s[LeadingSpaces(s)..];
            var r := t[..|t| - TrailingSpaces(t)];
            r == [] || (!IsSpace(r[0]) && !IsSpace(r[|r| - 1]))
  {
    var i := LeadingSpaces(s);
    var t := s[i..];
    var n := TrailingSpaces(t);
    var r := t[..|t| - n];
    if r != [] {
      assert r[0] == t[0] == s[i];
      assert r[|r| - 1] == t[|t| - n - 1];
    }
  }

  /** The trimmed text is the slice from the first non-space on, followed only by
      whitespace. */
  lemma TrimmedPlace(s: string)
    ensures var i := LeadingSpaces(s);
            var t := s[i..];
            var r := t[..|t| - TrailingSpaces(t)];
            && i + |r| <= |s| && r == s[i..i + |r|]
            && (forall k :: i + |r| <= k < |s| ==> IsSpace(s[k]))
  {
    var i := LeadingSpaces(s);
    var t := s[i..];
    var n := TrailingSpaces(t);
    var r := t[..|t| - n];
    assert r == s[i..i + |r|];
    forall k | i + |r| <= k < |s| ensures IsSpace(s[k]) {
      assert s[k] == t[k - i];
    }
  }

  /** The trimmed text is empty exactly when the text is all whitespace. */
  lemma TrimmedEmpty(s: string)
    ensures var t := s[LeadingSpaces(s)..];
            var r := t[..|t| - TrailingSpaces(t)];
            r == [] <==> forall k :: 0 <= k < |s| ==> IsSpace(s[k])
  {
    var i := LeadingSpaces(s);
    var t := s[i..];
    var n := TrailingSpaces(t);
    if i < |s| {
      assert t[0] == s[i] && !IsSpace(t[0]);
      assert n < |t|;
    }
  }

  lemma TrimIdempotent(s: string)
    ensures Trim(Trim(s)) == Trim(s)
  {
    var t := Trim(s);
    assert LeadingSpaces(t) == 0;
    assert TrailingSpaces(t) == 0;
    assert t[0..] == t && t[..|t|] == t;
  }

  /** `toLowerCase` on one character: only ASCII letters are mapped. */
  function LowerChar(c: char): char {
    if 'A' <= c <= 'Z' then (c as int + 32) as char else c
  }

  /** `toUpperCase` on one character: ASCII letters, and the two non-ASCII letters whose
      upper case is a single ASCII letter (U+017F long s and U+0131 dotless i). */
  function UpperChar(c: char): char {
    if 'a' <= c <= 'z' then (c as int - 32) as char
    else if c == '\U{17F}' then 'S'
    else if c == '\U{131}' then 'I'
    else c
  }

  function ToLower(s: string): (r: string)
    ensures |r| == |s| && forall k :: 0 <= k < |s| ==> r[k] == LowerChar(s[k])
  {
    seq(|s|, k requires 0 <= k < |s| => LowerChar(s[k]))
  }

  function ToUpper(s: string): (r: string)
    ensures |r| == |s| && forall k :: 0 <= k < |s| ==> r[k] == UpperChar(s[k])
  {
    seq(|s|, k requires 0 <= k < |s| => UpperChar(s[k]))
  }

  predicate IsAscii(s: string) {
    forall k :: 0 <= k < |s| ==> s[k] as int < 128
  }

  lemma ToLowerIdempotent(s: string)
    ensures ToLower(ToLower(s)) == ToLower(s)
  {
  }

  lemma ToUpperIdempotent(s: string)
    ensures ToUpper(ToUpper(s)) == ToUpper(s)
  {
  }

  // ---------------------------------------------------------------------------------------
  // The order of `Array.prototype.sort()` without a comparator: lexicographic by character.

  predicate LexLess(a: string, b: string) {
    if a == [] then b != []
    else if b == [] then false
    else if a[0] != b[0] then a[0] < b[0]
    else LexLess(a[1..], b[1..])
  }

  lemma {:induction false} LexIrreflexive(a: string)
    ensures !LexLess(a, a)
  {
    if a != [] {
      LexIrreflexive(a[1..]);
    }
  }

  lemma {:induction false} LexAsymmetric(a: string, b: string)
    requires LexLess(a, b)
    ensures !LexLess(b, a)
  {
    if a != [] && b != [] && a[0] == b[0] {
      LexAsymmetric(a[1..], b[1..]);
    }
  }

  lemma {:induction false} LexTransitive(a: string, b: string, c: string)
    requires LexLess(a, b) && LexLess(b, c)
    ensures LexLess(a, c)
  {
    if a != [] && a[0] == b[0] && b[0] == c[0] {
      LexTransitive(a[1..], b[1..], c[1..]);
    }
  }

  lemma {:induction false} LexTotal(a: string, b: string)
    requires a != b
    ensures LexLess(a, b) || LexLess(b, a)
  {
    if a != [] && b != [] && a[0] == b[0] {
      assert a == [a[0]] + a[1..] && b == [b[0]] + b[1..];
      LexTotal(a[1..], b[1..]);
    }
  }

  // ---------------------------------------------------------------------------------------
  // `String(n)` for integers, and `parseInt`.

  predicate IsDecimalDigit(c: char) {
    '0' <= c <= '9'
  }

  function DigitChar(d: nat): (c: char)
    requires d < 10
    ensures IsDecimalDigit(c) && DigitValue(c) == d
  {
    ('0' as int + d) as char
  }

  /** `String(n)` for a non-negative integer: its decimal digits, most significant first. */
  function NatToString(n: nat): (r: string)
    ensures r != [] && forall k :: 0 <= k < |r| ==> IsDecimalDigit(r[k])
  {
    if n < 10 then [DigitChar(n)] else NatToString(n / 10) + [DigitChar(n % 10)]
  }

  /** `String(i)` for any integer. */
  function IntToString(i: int): (r: string)
    ensures r != []
    ensures i < 0 <==> r[0] == '-'
    ensures i >= 0 ==> IsDecimalDigit(r[0])
    ensures forall k :: 0 < k < |r| ==> IsDecimalDigit(r[k])
  {
    if i < 0 then "-" + NatToString(-i) else NatToString(i)
  }

  /** The value of `c` as a digit in a radix up to 36; 36 when `c` is no digit at all. */
  function DigitValue(c: char): (v: nat)
    ensures v <= 36
  {
    if '0' <= c <= '9' then c as int - '0' as int
    else if 'a' <= c <= 'z' then c as int - 'a' as int + 10
    else if 'A' <= c <= 'Z' then c as int - 'A' as int + 10
    else 36
  }

  /** The length of the longest prefix of `s` made of digits of radix `base`. */
  function DigitRun(s: string, base: nat): (n: nat)
    ensures n <= |s|
    ensures forall k :: 0 <= k < n ==> DigitValue(s[k]) < base
    ensures n < |s| ==> DigitValue(s[n]) >= base
  {
    if s != [] && DigitValue(s[0]) < base then 1 + DigitRun(s[1..], base) else 0
  }

  /** The number written by the digits `s` in radix `base`. */
  function DigitsValue(s: string, base: nat): nat
    requires forall k :: 0 <= k < |s| ==> DigitValue(s[k]) < base
  {
    if s == [] then 0 else DigitsValue(s[..|s| - 1], base) * base + DigitValue(s[|s| - 1])
  }

  /** The radix argument of `parseInt`: absent, 10 or 16. */
  datatype Radix = Auto | Base10 | Base16

  /**
   * `parseInt(s, radix)` as ECMAScript defines it: leading whitespace is skipped, one sign is
   * accepted, a `0x`/`0X` prefix switches to radix 16 unless the radix is 10, and the longest
   * prefix of digits is read. `None` stands for `NaN` (no digit at all).
   */
  function JsParseInt(s: string, radix: Radix): Option<int> {
    ParseSigned(TrimStart(s), radix)
  }

  /** The optional sign, then the digits. */
  function ParseSigned(t: string, radix: Radix): Option<int> {
    if t != [] && t[0] == '-' then
      match ParseMagnitude(t[1..], radix)
      case Some(v) => Some(-v)
      case None => None
    else if t != [] && t[0] == '+' then ParseMagnitude(t[1..], radix)
    else ParseMagnitude(t, radix)
  }

  /** The optional `0x` prefix, then the longest run of digits of the radix. */
  function ParseMagnitude(u: string, radix: Radix): Option<int> {
    var hexPrefix := radix != Base10 && |u| >= 2 && u[0] == '0' && (u[1] == 'x' || u[1] == 'X');
    var base := if hexPrefix || radix == Base16 then 16 else 10;
    var digits := if hexPrefix then u[2..] else u;
    var n := DigitRun(digits, base);
    if n == 0 then None else Some(DigitsValue(digits[..n], base))
  }

  lemma {:induction false} NatToStringValue(n: nat)
    ensures DigitsValue(NatToString(n), 10) == n
  {
    var r := NatToString(n);
    if n >= 10 {
      NatToStringValue(n / 10);
      assert r[..|r| - 1] == NatToString(n / 10);
    }
  }

  /** A non-empty run of decimal digits, read with radix 10 or without a radix, is the
      number it writes: there is no `0x` prefix to skip. */
  lemma {:induction false} ParseDigitRun(s: string, radix: Radix)
    requires radix != Base16 && s != [] && forall k :: 0 <= k < |s| ==> IsDecimalDigit(s[k])
    ensures forall k :: 0 <= k < |s| ==> DigitValue(s[k]) < 10
    ensures ParseMagnitude(s, radix) == Some(DigitsValue(s, 10))
  {
    assert !(|s| >= 2 && s[0] == '0' && (s[1] == 'x' || s[1] == 'X'));
    DigitRunAll(s, 10);
    assert s[..|s|] == s;
  }

  /** Nothing to skip in front of a digit or a sign. */
  lemma {:induction false} TrimStartNoSpace(s: string)
    requires s != [] && !IsSpace(s[0])
    ensures TrimStart(s) == s
  {
    assert LeadingSpaces(s) == 0;
    assert s[0..] == s;
  }

  /** `parseInt` of a non-empty run of decimal digits is the number it writes. */
  lemma {:induction false} ParseDigits(s: string, radix: Radix)
    requires radix != Base16 && s != [] && forall k :: 0 <= k < |s| ==> IsDecimalDigit(s[k])
    ensures forall k :: 0 <= k < |s| ==> DigitValue(s[k]) < 10
    ensures JsParseInt(s, radix) == Some(DigitsValue(s, 10))
  {
    TrimStartNoSpace(s);
    ParseDigitRun(s, radix);
  }

  /** `parseInt` of a minus sign followed by a non-empty run of decimal digits is the
      negated number. */
  lemma {:induction false} ParseNegativeDigits(s: string, radix: Radix)
    requires radix != Base16 && s != [] && forall k :: 0 <= k < |s| ==> IsDecimalDigit(s[k])
    ensures forall k :: 0 <= k < |s| ==> DigitValue(s[k]) < 10
    ensures JsParseInt("-" + s, radix) == Some(-(DigitsValue(s, 10) as int))
  {
    assert forall k :: 0 <= k < |s| ==> DigitValue(s[k]) < 10 by {
      ParseDigitRun(s, radix);
    }
    var v: int := DigitsValue(s, 10);
    assert JsParseInt("-" + s, radix) == Some(-v) by {
      ParseDigitRun(s, radix);
      ParseMinus(s, radix, v);
    }
  }

  /** A minus sign in front negates the magnitude read after it. */
  lemma {:induction false} ParseMinus(s: string, radix: Radix, v: int)
    requires ParseMagnitude(s, radix) == Some(v)
    ensures JsParseInt("-" + s, radix) == Some(-v)
  {
    var t := "-" + s;
    assert t[0] == '-' && t[1..] == s;
    TrimStartNoSpace(t);
  }

  /** `parseInt(String(n), 10)` and `parseInt(String(n))` give `n` back for every
      non-negative integer. */
  lemma {:induction false} ParseIntOfString(n: nat, radix: Radix)
    requires radix != Base16
    ensures JsParseInt(NatToString(n), radix) == Some(n)
  {
    ParseDigits(NatToString(n), radix);
    NatToStringValue(n);
  }

  /** `parseInt(String(i))` gives `i` back for every integer, negative ones included. */
  lemma {:induction false} ParseIntOfInt(i: int, radix: Radix)
    requires radix != Base16
    ensures JsParseInt(IntToString(i), radix) == Some(i)
  {
    if i >= 0 {
      assert IntToString(i) == NatToString(i);
      ParseIntOfString(i, radix);
    } else {
      var digits := NatToString(-i);
      assert IntToString(i) == "-" + digits;
      assert JsParseInt("-" + digits, radix) == Some(-(DigitsValue(digits, 10) as int)) by {
        ParseNegativeDigits(digits, radix);
      }
      NatToStringValue(-i);
    }
  }

  lemma {:induction false} DigitRunAll(s: string, base: nat)
    requires forall k :: 0 <= k < |s| ==> DigitValue(s[k]) < base
    ensures DigitRun(s, base) == |s|
  {
    if s != [] {
      DigitRunAll(s[1..], base);
    }
  }

  /** `s.substr(start, len)`: at most `len` characters from `start`, fewer at the end. */
  function Substr(s: string, start: nat, len: nat): (r: string)
    ensures |r| <= len
    ensures start + len <= |s| ==> r == s[start..start + len]
  {
    var b := if start < |s| then start else |s|;
    var e := if start + len < |s| then start + len else |s|;
    s[b..e]
  }

  /** `parseInt(c.substr(start, 2), 16)`: the byte written by two hex digits. */
  function HexPair(c: string, start: nat): Option<int> {
    JsParseInt(Substr(c, start, 2), Base16)
  }

  predicate IsHexDigit(c: char) {
    ('0' <= c <= '9') || ('a' <= c <= 'f') || ('A' <= c <= 'F')
  }

  /** The byte written by two hex digits. */
  function HexByte(x: char, y: char): int {
    16 * DigitValue(x) + DigitValue(y)
  }

  lemma HexDigitValue(c: char)
    requires IsHexDigit(c)
    ensures DigitValue(c) < 16 && !IsSpace(c) && c != '-' && c != '+' && c != 'x' && c != 'X'
  {
  }

  lemma ParseHexPair(x: char, y: char)
    requires IsHexDigit(x) && IsHexDigit(y)
    ensures JsParseInt([x, y], Base16) == Some(HexByte(x, y))
  {
    HexDigitValue(x);
    HexDigitValue(y);
    var s := [x, y];
    assert TrimStart(s) == s;
    DigitRunAll(s, 16);
    assert s[..2] == s;
    assert s[..1] == [x] && [x][..0] == [];
    assert DigitsValue(s, 16) == DigitsValue([x], 16) * 16 + DigitValue(y);
    assert DigitsValue([x], 16) == DigitValue(x);
  }

  /** Two hex digits at `i` read as one byte. */
  lemma HexPairAt(c: string, i: nat)
    requires i + 2 <= |c| && IsHexDigit(c[i]) && IsHexDigit(c[i + 1])
    ensures HexPair(c, i) == Some(HexByte(c[i], c[i + 1]))
  {
    assert Substr(c, i, 2) == [c[i], c[i + 1]];
    ParseHexPair(c[i], c[i + 1]);
  }

}
