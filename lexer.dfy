/** The two lexical grammars of regex-colorizer.js, written as first-match
    scanners over the pattern's characters: `regexToken` for the whole pattern and
    `charClassToken` for the interior of a character class, plus the split of
    a class token into opening, content and closing (`charClassParts`).
    Every scanner takes a position and returns where its token ends. */
module Lexer {
  import opened Syntax

  predicate IsDigit(c: char) { '0' <= c <= '9' }
  predicate IsOctalDigit(c: char) { '0' <= c <= '7' }
  predicate IsHexDigit(c: char) { IsDigit(c) || 'A' <= c <= 'F' || 'a' <= c <= 'f' }
  predicate IsAsciiLetter(c: char) { 'A' <= c <= 'Z' || 'a' <= c <= 'z' }
  /** `[A-Za-z_]`, the first character of a capture name. */
  predicate IsNameStart(c: char) { IsAsciiLetter(c) || c == '_' }
  /** `\w` */
  predicate IsWordChar(c: char) { IsNameStart(c) || IsDigit(c) }
  /** The characters a literal run `[^.?*+^${[()|\\]+` may not contain. */
  predicate IsSpecial(c: char) { c in ".?*+^${[()|\\" }

  predicate AllDigits(s: string) { forall k :: 0 <= k < |s| ==> IsDigit(s[k]) }

  // ---------------------------------------------------------------------
  // Runs
  // ---------------------------------------------------------------------

  /** End of the maximal run of digits from `i` (`\d*`). */
  function DigitRunEnd(s: string, i: nat): (r: nat)
    requires i <= |s|
    ensures i <= r <= |s| && AllDigits(s[i..r]) && (r < |s| ==> !IsDigit(s[r]))
    decreases |s| - i
  {
    if i < |s| && IsDigit(s[i]) then DigitRunEnd(s, i + 1) else i
  }

  /** End of at most `max` octal digits from `i` (`[0-7]{0,max}`, greedy). */
  function OctalRunEnd(s: string, i: nat, max: nat): (r: nat)
    requires i <= |s|
    ensures i <= r <= |s| && r <= i + max
    ensures forall k :: i <= k < r ==> IsOctalDigit(s[k])
    ensures r < i + max && r < |s| ==> !IsOctalDigit(s[r])
    decreases max
  {
    if max > 0 && i < |s| && IsOctalDigit(s[i]) then OctalRunEnd(s, i + 1, max - 1) else i
  }

  /** End of the maximal run of word characters from `i` (`\w*`). */
  function WordRunEnd(s: string, i: nat): (r: nat)
    requires i <= |s|
    ensures i <= r <= |s| && (forall k :: i <= k < r ==> IsWordChar(s[k]))
    ensures r < |s| ==> !IsWordChar(s[r])
    decreases |s| - i
  {
    if i < |s| && IsWordChar(s[i]) then WordRunEnd(s, i + 1) else i
  }

  /** `n` hexadecimal digits stand at `i`. */
  predicate HexAt(s: string, i: nat, n: nat)
  {
    i + n <= |s| && forall k :: i <= k < i + n ==> IsHexDigit(s[k])
  }

  /** `[A-Za-z_]\w*>` from `i`: the end after the `>`, if it is there. */
  function NameEnd(s: string, i: nat): (r: Option<nat>)
    requires i <= |s|
    ensures r.Some? ==> i + 2 <= r.value <= |s| && s[r.value - 1] == '>' && IsNameStart(s[i])
  {
    if i < |s| && IsNameStart(s[i]) then
      var e := WordRunEnd(s, i + 1);
      if e < |s| && s[e] == '>' then Some(e + 1) else None
    else None
  }

  // ---------------------------------------------------------------------
  // Top-level grammar (regexToken)
  // ---------------------------------------------------------------------

  /** Inside a class: `(?:[^\\\]]+|\\.?)*` from `i`; stops at an unescaped
      `]` or at the end. A backslash takes the next character with it. */
  function ClassBodyEnd(s: string, i: nat): (r: nat)
    requires i <= |s|
    ensures i <= r <= |s| && (r < |s| ==> s[r] == ']')
    decreases |s| - i
  {
    if i == |s| then i
    else if s[i] == ']' then i
    else if s[i] == '\\' then (if i + 1 < |s| then ClassBodyEnd(s, i + 2) else |s|)
    else ClassBodyEnd(s, i + 1)
  }

  /** End of `\[\^?` at `i`. */
  function ClassOpeningEnd(s: string, i: nat): (r: nat)
    requires i < |s| && s[i] == '['
    ensures i + 1 <= r <= i + 2 && r <= |s|
  {
    if i + 1 < |s| && s[i + 1] == '^' then i + 2 else i + 1
  }

  /** `\[\^?(?:[^\\\]]+|\\.?)*]?`: a class, tolerating a missing `]`. */
  function ClassEnd(s: string, i: nat): (r: nat)
    requires i < |s| && s[i] == '['
    ensures i < r <= |s|
  {
    var e := ClassBodyEnd(s, ClassOpeningEnd(s, i));
    if e < |s| then e + 1 else e
  }

  /** `\\(?:0(?:[0-3][0-7]{0,2}|[4-7][0-7]?)?|[1-9]\d*|x[\dA-Fa-f]{2}|
      u[\dA-Fa-f]{4}|c[A-Za-z]|k<[A-Za-z_]\w*>|.?)` at `i`. */
  function EscapeEnd(s: string, i: nat): (r: nat)
    requires i < |s| && s[i] == '\\'
    ensures i < r <= |s|
  {
    var p := i + 1;
    if p == |s| then p
    else
      var c := s[p];
      if c == '0' then
        (if p + 1 < |s| && '0' <= s[p + 1] <= '3' then OctalRunEnd(s, p + 2, 2)
         else if p + 1 < |s| && '4' <= s[p + 1] <= '7' then OctalRunEnd(s, p + 2, 1)
         else p + 1)
      else if '1' <= c <= '9' then DigitRunEnd(s, p + 1)
      else if c == 'x' && HexAt(s, p + 1, 2) then p + 3
      else if c == 'u' && HexAt(s, p + 1, 4) then p + 5
      else if c == 'c' && p + 1 < |s| && IsAsciiLetter(s[p + 1]) then p + 2
      else if c == 'k' && p + 1 < |s| && s[p + 1] == '<' && NameEnd(s, p + 2).Some? then NameEnd(s, p + 2).value
      else p + 1
  }

  /** `\((?:\?(?:<(?:[=!]|[A-Za-z_]\w*>)|[:=!]?))?` at `i`: `(`, `(?`,
      `(?:`, `(?=`, `(?!`, `(?<=`, `(?<!` or `(?<name>`. */
  function GroupEnd(s: string, i: nat): (r: nat)
    requires i < |s| && s[i] == '('
    ensures i < r <= |s|
  {
    if i + 1 < |s| && s[i + 1] == '?' then
      var q := i + 2;
      if q < |s| && s[q] == '<' then
        if q + 1 < |s| && (s[q + 1] == '=' || s[q + 1] == '!') then q + 2
        else if NameEnd(s, q + 1).Some? then NameEnd(s, q + 1).value
        else q
      else if q < |s| && s[q] in ":=!" then q + 1
      else q
    else i + 1
  }

  /** `\{\d+(?:,\d*)?\}` at `i`, if it is there. */
  function IntervalEnd(s: string, i: nat): (r: Option<nat>)
    requires i < |s| && s[i] == '{'
    ensures r.Some? ==> i + 3 <= r.value <= |s| && s[r.value - 1] == '}'
  {
    var d := DigitRunEnd(s, i + 1);
    if d == i + 1 then None
    else
      var e := if d < |s| && s[d] == ',' then DigitRunEnd(s, d + 1) else d;
      if e < |s| && s[e] == '}' then Some(e + 1) else None
  }

  /** `(?:[?*+]|\{\d+(?:,\d*)?\})\??` at `i`, if it is there. */
  function QuantifierEnd(s: string, i: nat): (r: Option<nat>)
    requires i < |s|
    ensures r.Some? ==> i < r.value <= |s|
  {
    var body := if s[i] in "?*+" then Some(i + 1)
                else if s[i] == '{' then IntervalEnd(s, i)
                else None;
    match body
    case None => None
    case Some(e) => Some(if e < |s| && s[e] == '?' then e + 1 else e)
  }

  /** `[^.?*+^${[()|\\]+` from `i`. */
  function LiteralRunEnd(s: string, i: nat): (r: nat)
    requires i <= |s|
    ensures i <= r <= |s| && (forall k :: i <= k < r ==> !IsSpecial(s[k]))
    ensures r < |s| ==> IsSpecial(s[r])
    decreases |s| - i
  {
    if i < |s| && !IsSpecial(s[i]) then LiteralRunEnd(s, i + 1) else i
  }

  /** The end of the token that `regexToken` matches at `i`: the first
      alternative that matches wins; the final `.` (flag `s`) matches any
      single character, so every position starts a non-empty token. */
  function TokenEnd(s: string, i: nat): (r: nat)
    requires i < |s|
    ensures i < r <= |s|
  {
    var c := s[i];
    if c == '[' then ClassEnd(s, i)
    else if c == '\\' then EscapeEnd(s, i)
    else if c == '(' then GroupEnd(s, i)
    else if QuantifierEnd(s, i).Some? then QuantifierEnd(s, i).value
    else if !IsSpecial(c) then LiteralRunEnd(s, i)
    else i + 1
  }

  /** The tokens `pattern.matchAll(regexToken)` yields from position `i`. */
  function Tokens(s: string, i: nat): seq<string>
    requires i <= |s|
    decreases |s| - i
  {
    if i == |s| then [] else [s[i..TokenEnd(s, i)]] + Tokens(s, TokenEnd(s, i))
  }

  function Concat(ts: seq<string>): string
  {
    if ts == [] then [] else ts[0] + Concat(ts[1..])
  }

  /** Tokenisation covers the pattern: the tokens are non-empty and their
      concatenation, in order, is the rest of the pattern. */
  lemma {:induction false} TokensCover(s: string, i: nat)
    requires i <= |s|
    ensures Concat(Tokens(s, i)) == s[i..]
    ensures forall k :: 0 <= k < |Tokens(s, i)| ==> Tokens(s, i)[k] != []
    decreases |s| - i
  {
    if i < |s| {
      var e := TokenEnd(s, i);
      TokensCover(s, e);
      var ts := Tokens(s, i);
      assert ts[1..] == Tokens(s, e);
      SliceSplit(s, i, e);
    }
  }

  // ---------------------------------------------------------------------
  // Class tokens and their split (charClassParts)
  // ---------------------------------------------------------------------

  /** The length of `\[\^?` at the start of a class token. */
  function OpeningLength(v: string): (r: nat)
    requires |v| >= 1 && v[0] == '['
    ensures 1 <= r <= 2 && r <= |v|
  {
    ClassOpeningEnd(v, 0)
  }

  /** `charClassParts` matches `v`: opening, content, then `]` or nothing. */
  predicate IsClassToken(v: string)
  {
    |v| >= 1 && v[0] == '[' && ClassBodyEnd(v, OpeningLength(v)) >= |v| - 1
  }

  /** The three named groups of `charClassParts` on a class token. */
  function SplitClass(v: string): (r: (string, string, string))
    requires IsClassToken(v)
    ensures r.0 + r.1 + r.2 == v
    ensures r.0 == "[" || r.0 == "[^"
    ensures r.2 == "" || r.2 == "]"
  {
    var b := OpeningLength(v);
    var e := ClassBodyEnd(v, b);
    assert v == v[..b] + v[b..e] + v[e..];
    (v[..b], v[b..e], v[e..])
  }

  /** Scanning a class body inside a token gives what scanning it inside the
      whole pattern gave. */
  lemma {:induction false} ClassBodyEndSlice(s: string, i: nat, j: nat, k: nat)
    requires i <= k <= j <= |s|
    requires ClassBodyEnd(s, k) <= j && (ClassBodyEnd(s, k) < j || j == |s|)
    ensures ClassBodyEnd(s[i..j], k - i) == ClassBodyEnd(s, k) - i
    decreases |s| - k
  {
    var t := s[i..j];
    if k == |s| {
    } else if s[k] == ']' {
      assert t[k - i] == ']';
    } else if s[k] == '\\' {
      assert t[k - i] == '\\';
      if k + 1 < |s| {
        ClassBodyEndSlice(s, i, j, k + 2);
      }
    } else {
      assert t[k - i] == s[k];
      ClassBodyEndSlice(s, i, j, k + 1);
    }
  }

  /** Any `[` token of the top-level grammar splits as in `charClassParts`. */
  lemma ClassTokenSplits(s: string, i: nat)
    requires i < |s| && s[i] == '['
    ensures IsClassToken(s[i..ClassEnd(s, i)])
  {
    var j := ClassEnd(s, i);
    var v := s[i..j];
    var b := ClassOpeningEnd(s, i);
    assert OpeningLength(v) == b - i;
    ClassBodyEndSlice(s, i, j, b);
  }

  // ---------------------------------------------------------------------
  // Class-interior grammar (charClassToken)
  // ---------------------------------------------------------------------

  /** `\\(?:[0-3][0-7]{0,2}|[4-7][0-7]?|x[\dA-Fa-f]{2}|u[\dA-Fa-f]{4}|c[A-Za-z]|.?)` at `i`. */
  function ClassEscapeEnd(s: string, i: nat): (r: nat)
    requires i < |s| && s[i] == '\\'
    ensures i < r <= |s|
  {
    var p := i + 1;
    if p == |s| then p
    else
      var c := s[p];
      if '0' <= c <= '3' then OctalRunEnd(s, p + 1, 2)
      else if '4' <= c <= '7' then OctalRunEnd(s, p + 1, 1)
      else if c == 'x' && HexAt(s, p + 1, 2) then p + 3
      else if c == 'u' && HexAt(s, p + 1, 4) then p + 5
      else if c == 'c' && p + 1 < |s| && IsAsciiLetter(s[p + 1]) then p + 2
      else p + 1
  }

  /** `[^\\-]+` from `i`. */
  function ClassRunEnd(s: string, i: nat): (r: nat)
    requires i <= |s|
    ensures i <= r <= |s| && (forall k :: i <= k < r ==> s[k] != '\\' && s[k] != '-')
    decreases |s| - i
  {
    if i < |s| && s[i] != '\\' && s[i] != '-' then ClassRunEnd(s, i + 1) else i
  }

  /** The end of the token `charClassToken` matches at `i`: a literal run, a
      lone `-` or an escape. */
  function ClassTokenEnd(s: string, i: nat): (r: nat)
    requires i < |s|
    ensures i < r <= |s|
  {
    if s[i] == '-' then i + 1
    else if s[i] == '\\' then ClassEscapeEnd(s, i)
    else ClassRunEnd(s, i)
  }

  /** The tokens `content.matchAll(charClassToken)` yields from position `i`. */
  function ClassTokens(s: string, i: nat): seq<string>
    requires i <= |s|
    decreases |s| - i
  {
    if i == |s| then [] else [s[i..ClassTokenEnd(s, i)]] + ClassTokens(s, ClassTokenEnd(s, i))
  }

  lemma {:induction false} ClassTokensCover(s: string, i: nat)
    requires i <= |s|
    ensures Concat(ClassTokens(s, i)) == s[i..]
    ensures forall k :: 0 <= k < |ClassTokens(s, i)| ==> ClassTokens(s, i)[k] != []
    decreases |s| - i
  {
    if i < |s| {
      var e := ClassTokenEnd(s, i);
      ClassTokensCover(s, e);
      var ts := ClassTokens(s, i);
      assert ts[1..] == ClassTokens(s, e);
      SliceSplit(s, i, e);
    }
  }

  // ---------------------------------------------------------------------
  // What the main walk relies on about each token
  // ---------------------------------------------------------------------

  /** `(?<name>` */
  predicate IsNamedGroupToken(m: string)
  {
    |m| >= 5 && m[..3] == "(?<" && IsNameStart(m[3]) && m[|m| - 1] == '>'
    && forall k :: 4 <= k < |m| - 1 ==> IsWordChar(m[k])
  }

  /** The group openings the grammar produces. */
  predicate IsGroupToken(m: string)
  {
    m == "(" || m == "(?" || m == "(?:" || m == "(?=" || m == "(?!"
    || m == "(?<=" || m == "(?<!" || IsNamedGroupToken(m)
  }

  /** The shape of a token that the classification of regex-colorizer.js
      takes for granted: a class splits, a group opening is one of the
      openings, `)` stands alone, and `\` followed by 1-9 is all digits. */
  predicate IsLexeme(m: string)
  {
    m != []
    && (m[0] == '[' ==> IsClassToken(m))
    && (m[0] == '(' ==> IsGroupToken(m))
    && (m[0] == ')' ==> m == ")")
    && (m[0] == '\\' && |m| > 1 && '1' <= m[1] <= '9' ==> AllDigits(m[1..]))
  }

  lemma GroupTokenAt(s: string, i: nat)
    requires i < |s| && s[i] == '('
    ensures IsGroupToken(s[i..GroupEnd(s, i)])
  {
    var r := GroupEnd(s, i);
    var m := s[i..r];
    if i + 1 < |s| && s[i + 1] == '?' {
      var q := i + 2;
      if q < |s| && s[q] == '<' {
        if q + 1 < |s| && (s[q + 1] == '=' || s[q + 1] == '!') {
          assert m == ['(', '?', '<', s[q + 1]];
        } else if NameEnd(s, q + 1).Some? {
          assert m[..3] == "(?<";
          assert m[3] == s[q + 1];
          forall k | 4 <= k < |m| - 1
            ensures IsWordChar(m[k])
          {
            assert m[k] == s[i + k];
          }
          assert IsNamedGroupToken(m);
        } else {
          assert m == "(?";
        }
      } else if q < |s| && s[q] in ":=!" {
        assert m == ['(', '?', s[q]];
      } else {
        assert m == "(?";
      }
    } else {
      assert m == "(";
    }
  }

  /** Every token of the top-level grammar has the shape the walk assumes. */
  lemma LexemeAt(s: string, i: nat)
    requires i < |s|
    ensures IsLexeme(s[i..TokenEnd(s, i)])
  {
    var r := TokenEnd(s, i);
    var m := s[i..r];
    if s[i] == '[' {
      ClassTokenSplits(s, i);
    } else if s[i] == '(' {
      GroupTokenAt(s, i);
    } else if s[i] == '\\' {
      if |m| > 1 && '1' <= m[1] <= '9' {
        assert m[1..] == s[i + 1..r];
        assert forall k :: 0 <= k < |m[1..]| ==> m[1..][k] == s[i + 1 + k];
      }
    } else if s[i] == ')' {
      assert QuantifierEnd(s, i).None?;
    }
  }

  // ---------------------------------------------------------------------
  // The alternatives of regexToken
  // ---------------------------------------------------------------------

  /** `\\(?:0(?:[0-3][0-7]{0,2}|[4-7][0-7]?)?|[1-9]\d*|x[\dA-Fa-f]{2}|
      u[\dA-Fa-f]{4}|c[A-Za-z]|k<[A-Za-z_]\w*>|.?)`: a lone backslash, a
      backslash and any one character, or one of the longer escapes. */
  predicate IsEscapeShape(m: string)
  {
    |m| >= 1 && m[0] == '\\'
    && (|m| <= 2
        || (m[1] == '0' && |m| >= 3
            && (('0' <= m[2] <= '3' && |m| <= 5) || ('4' <= m[2] <= '7' && |m| <= 4))
            && forall k :: 3 <= k < |m| ==> IsOctalDigit(m[k]))
        || ('1' <= m[1] <= '9' && AllDigits(m[2..]))
        || (m[1] == 'x' && |m| == 4 && IsHexDigit(m[2]) && IsHexDigit(m[3]))
        || (m[1] == 'u' && |m| == 6 && forall k :: 2 <= k < 6 ==> IsHexDigit(m[k]))
        || (m[1] == 'c' && |m| == 3 && IsAsciiLetter(m[2]))
        || (m[1] == 'k' && |m| >= 5 && m[2] == '<' && IsNameStart(m[3]) && m[|m| - 1] == '>'
            && forall k :: 4 <= k < |m| - 1 ==> IsWordChar(m[k])))
  }

  /** `\{\d+(?:,\d*)?\}`: braces around digits with at most one comma, which
      is not the first character inside. */
  predicate IsIntervalShape(t: string)
  {
    |t| >= 3 && t[0] == '{' && t[|t| - 1] == '}' && IsDigit(t[1])
    && (forall k :: 1 <= k < |t| - 1 ==> IsDigit(t[k]) || t[k] == ',')
    && (forall k, l :: 1 <= k < l < |t| - 1 && t[k] == ',' ==> t[l] != ',')
  }

  /** `(?:[?*+]|\{\d+(?:,\d*)?\})\??` */
  predicate IsQuantifierShape(m: string)
  {
    var body := if |m| >= 2 && m[|m| - 1] == '?' && (|m| > 2 || m[0] in "?*+") then m[..|m| - 1] else m;
    (|body| == 1 && body[0] in "?*+") || IsIntervalShape(body)
  }

  /** The alternatives of `regexToken`, in its order: a class, an escape, a
      group opening, a quantifier, a run of non-special characters, or any
      single character. */
  predicate IsRegexToken(m: string)
  {
    (m != [] && m[0] == '[' && IsClassToken(m))
    || IsEscapeShape(m)
    || IsGroupToken(m)
    || IsQuantifierShape(m)
    || (m != [] && forall k :: 0 <= k < |m| ==> !IsSpecial(m[k]))
    || |m| == 1
  }

  lemma EscapeShapeAt(s: string, i: nat)
    requires i < |s| && s[i] == '\\'
    ensures IsEscapeShape(s[i..EscapeEnd(s, i)])
  {
    var r := EscapeEnd(s, i);
    var m := s[i..r];
    var p := i + 1;
    if p < |s| && |m| > 2 {
      var c := s[p];
      assert m[1] == c;
      if c == '0' {
        forall k | 3 <= k < |m|
          ensures IsOctalDigit(m[k])
        {
          assert m[k] == s[i + k];
        }
      } else if '1' <= c <= '9' {
        assert m[2..] == s[p + 1..r];
      } else if c == 'x' && HexAt(s, p + 1, 2) {
        assert m[2] == s[p + 1] && m[3] == s[p + 2];
      } else if c == 'u' && HexAt(s, p + 1, 4) {
        forall k | 2 <= k < 6
          ensures IsHexDigit(m[k])
        {
          assert m[k] == s[i + k];
        }
      } else if c == 'c' && p + 1 < |s| && IsAsciiLetter(s[p + 1]) {
      } else {
        assert c == 'k' && s[p + 1] == '<' && NameEnd(s, p + 2).Some?;
        assert m[2] == '<' && m[3] == s[p + 2];
        forall k | 4 <= k < |m| - 1
          ensures IsWordChar(m[k])
        {
          assert m[k] == s[i + k];
        }
      }
    }
  }

  lemma IntervalShapeAt(s: string, i: nat)
    requires i < |s| && s[i] == '{' && IntervalEnd(s, i).Some?
    ensures IsIntervalShape(s[i..IntervalEnd(s, i).value])
  {
    var t := s[i..IntervalEnd(s, i).value];
    var d := DigitRunEnd(s, i + 1);
    var e := if d < |s| && s[d] == ',' then DigitRunEnd(s, d + 1) else d;
    assert IntervalEnd(s, i).value == e + 1;
    assert t[1] == s[i + 1] && s[i + 1..d][0] == s[i + 1];
    forall k | 1 <= k < |t| - 1
      ensures IsDigit(t[k]) || t[k] == ','
      ensures t[k] == ',' ==> i + k == d
    {
      assert t[k] == s[i + k];
      if i + k < d {
        assert s[i + 1..d][i + k - (i + 1)] == s[i + k];
      } else if i + k > d {
        assert s[d + 1..e][i + k - (d + 1)] == s[i + k];
      }
    }
  }

  lemma QuantifierShapeAt(s: string, i: nat)
    requires i < |s| && QuantifierEnd(s, i).Some?
    ensures IsQuantifierShape(s[i..QuantifierEnd(s, i).value])
  {
    var m := s[i..QuantifierEnd(s, i).value];
    var e := if s[i] in "?*+" then i + 1 else IntervalEnd(s, i).value;
    if s[i] !in "?*+" {
      IntervalShapeAt(s, i);
    }
    var b := s[i..e];
    if |m| > |b| {
      assert m[..|m| - 1] == b;
      assert m[|m| - 1] == '?';
    } else {
      assert m == b;
      if s[i] !in "?*+" {
        assert b[|b| - 1] == '}';
      }
    }
  }

  /** Every token the scanner cuts is one of the alternatives of the
      top-level grammar. */
  lemma TokenShapeAt(s: string, i: nat)
    requires i < |s|
    ensures IsRegexToken(s[i..TokenEnd(s, i)])
  {
    var m := s[i..TokenEnd(s, i)];
    var c := s[i];
    if c == '[' {
      ClassTokenSplits(s, i);
    } else if c == '\\' {
      EscapeShapeAt(s, i);
    } else if c == '(' {
      GroupTokenAt(s, i);
    } else if QuantifierEnd(s, i).Some? {
      QuantifierShapeAt(s, i);
    } else if !IsSpecial(c) {
      forall k | 0 <= k < |m|
        ensures !IsSpecial(m[k])
      {
        assert m[k] == s[i + k];
      }
    }
  }
}
