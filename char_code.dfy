/** `getTokenCharCode`: the character code a character-class token stands for, or
    `None` where the source yields `NaN` (a shorthand class, an incomplete
    `\c`, `\u` or `\x`, a lone backslash). */
module CharCode {
  import opened Syntax
  import opened Lexer

  /** `^c[A-Za-z]$` */
  predicate IsControlEscape(t: string)
  {
    |t| == 2 && t[0] == 'c' && IsAsciiLetter(t[1])
  }

  predicate AllHex(s: string) { forall k :: 0 <= k < |s| ==> IsHexDigit(s[k]) }
  predicate AllOctal(s: string) { forall k :: 0 <= k < |s| ==> IsOctalDigit(s[k]) }

  /** `^(?:x[\dA-Fa-f]{2}|u[\dA-Fa-f]{4})$` */
  predicate IsHexEscape(t: string)
  {
    ((|t| == 3 && t[0] == 'x') || (|t| == 5 && t[0] == 'u')) && AllHex(t[1..])
  }

  /** `^(?:[0-3][0-7]{0,2}|[4-7][0-7]?)$`: an octal code up to 377. */
  predicate IsOctalEscape(t: string)
  {
    1 <= |t| && AllOctal(t) && (if t[0] <= '3' then |t| <= 3 else |t| <= 2)
  }

  function HexDigitValue(c: char): (r: nat)
    requires IsHexDigit(c)
    ensures r < 16
  {
    if IsDigit(c) then c as nat - '0' as nat
    else if 'A' <= c <= 'F' then c as nat - 'A' as nat + 10
    else c as nat - 'a' as nat + 10
  }

  /** `parseInt(s, 16)` */
  function HexValue(s: string): nat
    requires AllHex(s)
  {
    if s == [] then 0 else HexValue(s[..|s| - 1]) * 16 + HexDigitValue(s[|s| - 1])
  }

  /** `parseInt(s, 8)` */
  function OctalValue(s: string): nat
    requires AllOctal(s)
  {
    if s == [] then 0 else OctalValue(s[..|s| - 1]) * 8 + (s[|s| - 1] as nat - '0' as nat)
  }

  /** `'ABCDEFGHIJKLMNOPQRSTUVWXYZ'.indexOf(c.toUpperCase()) + 1` */
  function ControlCode(c: char): nat
    requires IsAsciiLetter(c)
  {
    if 'A' <= c <= 'Z' then c as nat - 'A' as nat + 1 else c as nat - 'a' as nat + 1
  }

  /** A single escaped character: the six control escapes, or the
      character itself. */
  function SingleEscapeCode(c: char): nat
  {
    match c
    case 'b' => 8
    case 'f' => 12
    case 'n' => 10
    case 'r' => 13
    case 't' => 9
    case 'v' => 11
    case _ => c as nat
  }

  /** The escape bodies the decoder has a branch for. */
  predicate IsDecodedEscape(t: string)
  {
    IsControlEscape(t) || IsHexEscape(t) || IsOctalEscape(t) || |t| == 1
  }

  function EscapeCode(t: string): Option<nat>
    requires IsDecodedEscape(t)
  {
    if IsControlEscape(t) then Some(ControlCode(t[1]))
    else if IsHexEscape(t) then Some(HexValue(t[1..]))
    else if IsOctalEscape(t) then Some(OctalValue(t))
    else if t[0] in "cuxDdSsWw" then None
    else Some(SingleEscapeCode(t[0]))
  }

  /** An escape whose body matches a branch is decoded; anything else that
      is not a lone backslash is read by its first character. */
  function GetTokenCharCode(token: string): Option<nat>
  {
    if |token| > 1 && token[0] == '\\' && IsDecodedEscape(token[1..]) then EscapeCode(token[1..])
    else if token != "\\" && token != [] then Some(token[0] as nat)
    else None
  }

  // ---------------------------------------------------------------------
  // Bounds
  // ---------------------------------------------------------------------

  function Pow(b: nat, n: nat): nat
  {
    if n == 0 then 1 else b * Pow(b, n - 1)
  }

  lemma {:induction false} HexValueBound(s: string)
    requires AllHex(s)
    ensures HexValue(s) < Pow(16, |s|)
  {
    if s != [] {
      var p := s[..|s| - 1];
      HexValueBound(p);
      assert HexValue(s) <= (Pow(16, |p|) - 1) * 16 + 15;
    }
  }

  /** `\cX` decodes to 1..26, whichever case the letter is in. */
  lemma ControlCodeRange(token: string)
    requires |token| == 3 && token[0] == '\\' && token[1] == 'c' && IsAsciiLetter(token[2])
    ensures GetTokenCharCode(token).Some?
    ensures 1 <= GetTokenCharCode(token).value <= 26
  {
    assert IsControlEscape(token[1..]);
  }

  /** `\xHH` decodes to 0..255 and `\uHHHH` to 0..65535. */
  lemma HexCodeRange(token: string)
    requires |token| > 1 && token[0] == '\\' && IsHexEscape(token[1..])
    ensures GetTokenCharCode(token).Some?
    ensures token[1] == 'x' ==> GetTokenCharCode(token).value <= 255
    ensures token[1] == 'u' ==> GetTokenCharCode(token).value <= 65535
  {
    var t := token[1..];
    HexValueBound(t[1..]);
    assert !IsControlEscape(t);
    assert Pow(16, 2) == 256;
    assert Pow(16, 4) == 65536;
  }

  /** An octal escape decodes to at most 255 (`\377`). */
  lemma OctalCodeRange(token: string)
    requires |token| > 1 && token[0] == '\\' && IsOctalEscape(token[1..])
    ensures GetTokenCharCode(token).Some?
    ensures GetTokenCharCode(token).value <= 255
  {
    var t := token[1..];
    assert !IsControlEscape(t) && !IsHexEscape(t);
    var v0 := t[0] as nat - '0' as nat;
    assert OctalValue(t[..1]) == v0 by { assert t[..1][..0] == []; }
    if |t| >= 2 {
      var v1 := t[1] as nat - '0' as nat;
      assert t[..2][..1] == t[..1];
      assert OctalValue(t[..2]) == v0 * 8 + v1;
      if |t| == 3 {
        assert t[..3] == t && t[..3][..2] == t[..2];
        assert OctalValue(t) == (v0 * 8 + v1) * 8 + (t[2] as nat - '0' as nat);
      } else {
        assert t[..2] == t;
      }
    } else {
      assert t[..1] == t;
    }
  }

  /** The tokens the source maps to `NaN`. */
  lemma NoCodeTokens(c: char)
    requires c in "cuxDdSsWw"
    ensures GetTokenCharCode("\\") == None
    ensures GetTokenCharCode(['\\', c]) == None
  {
    var t := ['\\', c][1..];
    assert t == [c];
    assert !IsOctalEscape(t);
  }

  /** `\b \f \n \r \t \v` decode to backspace, form feed, line feed,
      carriage return, tab and vertical tab. */
  lemma SingleLetterCodes(c: char)
    requires c in "bfnrtv"
    ensures var code := GetTokenCharCode(['\\', c]);
            && (c == 'b' ==> code == Some(8))
            && (c == 'f' ==> code == Some(12))
            && (c == 'n' ==> code == Some(10))
            && (c == 'r' ==> code == Some(13))
            && (c == 't' ==> code == Some(9))
            && (c == 'v' ==> code == Some(11))
  {
    var t := ['\\', c][1..];
    assert t == [c];
    assert !IsControlEscape(t) && !IsHexEscape(t) && !IsOctalEscape(t);
  }

  // ---------------------------------------------------------------------
  // Inverse: encoding a character code as a hexadecimal escape decodes back
  // ---------------------------------------------------------------------

  function HexDigitChar(d: nat): (c: char)
    requires d < 16
    ensures IsHexDigit(c) && HexDigitValue(c) == d
  {
    if d < 10 then ('0' as nat + d) as char else ('A' as nat + d - 10) as char
  }

  /** The `width` lowest hexadecimal digits of `n`, most significant first. */
  function HexDigits(n: nat, width: nat): (s: string)
    ensures |s| == width && AllHex(s)
  {
    if width == 0 then [] else HexDigits(n / 16, width - 1) + [HexDigitChar(n % 16)]
  }

  lemma {:induction false} HexDigitsValue(n: nat, width: nat)
    requires n < Pow(16, width)
    ensures HexValue(HexDigits(n, width)) == n
  {
    if width > 0 {
      var s := HexDigits(n, width);
      assert s[..|s| - 1] == HexDigits(n / 16, width - 1);
      HexDigitsValue(n / 16, width - 1);
    }
  }

  /** `\xHH` and `\uHHHH` round-trip every code they can spell. */
  lemma HexEscapeRoundTrip(n: nat)
    requires n <= 65535
    ensures n <= 255 ==> GetTokenCharCode("\\x" + HexDigits(n, 2)) == Some(n)
    ensures GetTokenCharCode("\\u" + HexDigits(n, 4)) == Some(n)
  {
    assert Pow(16, 2) == 256 && Pow(16, 4) == 65536;
    HexDigitsValue(n, 4);
    var u := "\\u" + HexDigits(n, 4);
    assert u[1..][1..] == HexDigits(n, 4);
    assert IsHexEscape(u[1..]) && !IsControlEscape(u[1..]);
    if n <= 255 {
      HexDigitsValue(n, 2);
      var x := "\\x" + HexDigits(n, 2);
      assert x[1..][1..] == HexDigits(n, 2);
      assert IsHexEscape(x[1..]) && !IsControlEscape(x[1..]);
    }
  }
}
