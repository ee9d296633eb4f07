/** `parseCharClass`: the walk over the interior of one character class that
    decides, from the `rangeable`, `charCode` and `type` of the previous
    token, whether each `-` is a literal, a range or an invalid range. */
module CharClass {
  import opened Syntax
  import opened Lexer
  import opened CharCode

  /** The `lastToken` of the class walk; `charCode` is `None` where the
      source has `undefined` or `NaN`, so every comparison with it fails. */
  datatype ClassContext = ClassContext(rangeable: bool, charCode: Option<nat>, kind: TokenType)

  const ClassStart := ClassContext(false, None, Initial)

  /** `/^\\[dsw]$/i` */
  predicate IsShorthandClass(m: string)
  {
    |m| == 2 && m[0] == '\\' && m[1] in "dDsSwW"
  }

  /** `/^\\[cux]$/` */
  predicate IsIncompleteEscape(m: string)
  {
    |m| == 2 && m[0] == '\\' && m[1] in "cux"
  }

  /** The three ways a hyphen between `last` and `next` fails to make a
      range: a reversed pair of codes, or a shorthand class on either side. */
  predicate IsInvalidRange(last: ClassContext, next: string)
  {
    var n := GetTokenCharCode(next);
    (n.Some? && last.charCode.Some? && last.charCode.value > n.value)
    || last.kind == ShortClass
    || IsShorthandClass(next)
  }

  /** The context after a token that does not itself form a range. */
  function After(last: ClassContext, code: Option<nat>, kind: TokenType): ClassContext
  {
    ClassContext(last.kind != RangeHyphen, code, kind)
  }

  /** One token of the class body: its span and the next context. `next`
      is the token that follows, if any; `closed` says whether the class
      has its `]`. */
  function ClassStep(last: ClassContext, m: string, next: Option<string>, closed: bool): (Span, ClassContext)
    requires m != []
  {
    if m[0] == '\\' then
      if IsIncompleteEscape(m) then (Span(m, Error(IncompleteToken)), After(last, None, Untyped))
      else if IsShorthandClass(m) then (Span(m, Metasequence), After(last, None, ShortClass))
      else if m == "\\" then (Span(m, Error(IncompleteToken)), last)
      else (Span(m, Metasequence), After(last, GetTokenCharCode(m), Untyped))
    else if m == "-" then
      if last.rangeable then
        match next
        case Some(n) =>
          (Span(m, if IsInvalidRange(last, n) then Error(InvalidRange) else Range),
           ClassContext(false, None, RangeHyphen))
        case None => (Span(m, if closed then Plain else Range), last)
      else (Span(m, Plain), After(last, None, Untyped))
    else
      (Span(m, Plain), ClassContext(|m| > 1 || last.kind != RangeHyphen, Some(m[|m| - 1] as nat), Untyped))
  }

  /** The token after the one ending at `e`, found by scanning on from `e`. */
  function NextClassToken(content: string, e: nat): Option<string>
    requires e <= |content|
  {
    if e < |content| then Some(content[e..ClassTokenEnd(content, e)]) else None
  }

  /** The spans of the class body from `pos` on. */
  function ClassFold(content: string, pos: nat, last: ClassContext, closed: bool): seq<Span>
    requires pos <= |content|
    decreases |content| - pos
  {
    if pos == |content| then []
    else
      var e := ClassTokenEnd(content, pos);
      var step := ClassStep(last, content[pos..e], NextClassToken(content, e), closed);
      [step.0] + ClassFold(content, e, step.1, closed)
  }

  /** What `parseCharClass` produces for a class token. */
  function ClassSpans(value: string): seq<Span>
    requires IsClassToken(value)
  {
    var (opening, content, closing) := SplitClass(value);
    var body := ClassFold(content, 0, ClassStart, closing != "");
    if closing != "" then [Span(opening, CharClassBoundary)] + body + [Span(closing, CharClassBoundary)]
    else [Span(opening, Error(UnclosedClass))] + body
  }

  /** One pass of the `parseCharClass` loop: the span of the token
      `content[pos..e]` and the `lastToken` after it. A hyphen looks ahead
      at the token that follows it. */
  method ClassTokenStep(content: string, pos: nat, e: nat, lastToken: ClassContext, closed: bool)
    returns (span: Span, last: ClassContext)
    requires pos < e <= |content|
    ensures (span, last) == ClassStep(lastToken, content[pos..e], NextClassToken(content, e), closed)
  {
    var m := content[pos..e];
    last := lastToken;
    if m[0] == '\\' {
      if IsIncompleteEscape(m) {
        span := Span(m, Error(IncompleteToken));
        last := ClassContext(lastToken.kind != RangeHyphen, None, Untyped);
      } else if IsShorthandClass(m) {
        span := Span(m, Metasequence);
        last := ClassContext(lastToken.kind != RangeHyphen, None, ShortClass);
      } else if m == "\\" {
        span := Span(m, Error(IncompleteToken));
      } else {
        span := Span(m, Metasequence);
        last := ClassContext(lastToken.kind != RangeHyphen, GetTokenCharCode(m), Untyped);
      }
    } else if m == "-" {
      if lastToken.rangeable {
        if e < |content| {
          var nextToken := content[e..ClassTokenEnd(content, e)];
          var nextCode := GetTokenCharCode(nextToken);
          if (nextCode.Some? && lastToken.charCode.Some? && lastToken.charCode.value > nextCode.value)
             || lastToken.kind == ShortClass || IsShorthandClass(nextToken) {
            span := Span("-", Error(InvalidRange));
          } else {
            span := Span("-", Range);
          }
          last := ClassContext(false, None, RangeHyphen);
        } else if closed {
          span := Span("-", Plain);
        } else {
          span := Span("-", Range);
        }
      } else {
        span := Span("-", Plain);
        last := ClassContext(lastToken.kind != RangeHyphen, None, Untyped);
      }
    } else {
      span := Span(m, Plain);
      last := ClassContext(|m| > 1 || lastToken.kind != RangeHyphen, Some(m[|m| - 1] as nat), Untyped);
    }
  }

  /** Emitting the span of the token at `pos` moves it from the fold still
      to come onto the spans already produced. */
  lemma FoldMore(done: seq<Span>, content: string, pos: nat, last: ClassContext, closed: bool)
    requires pos < |content|
    ensures var e := ClassTokenEnd(content, pos);
            var step := ClassStep(last, content[pos..e], NextClassToken(content, e), closed);
            done + ClassFold(content, pos, last, closed) == (done + [step.0]) + ClassFold(content, e, step.1, closed)
  {
    var e := ClassTokenEnd(content, pos);
    var step := ClassStep(last, content[pos..e], NextClassToken(content, e), closed);
    Assoc(done, [step.0], ClassFold(content, e, step.1, closed));
  }

  /** regex-colorizer.js `parseCharClass`, over spans instead of markup. */
  method ParseCharClass(value: string) returns (spans: seq<Span>)
    requires IsClassToken(value)
    ensures spans == ClassSpans(value)
  {
    var (opening, content, closing) := SplitClass(value);
    var closed := closing != "";
    var output: seq<Span> := [];
    var lastToken := ClassStart;
    var pos := 0;
    while pos < |content|
      invariant pos <= |content|
      invariant output + ClassFold(content, pos, lastToken, closed) == ClassFold(content, 0, ClassStart, closed)
      decreases |content| - pos
    {
      var e := ClassTokenEnd(content, pos);
      var span, last' := ClassTokenStep(content, pos, e, lastToken, closed);
      FoldMore(output, content, pos, lastToken, closed);
      output, lastToken, pos := output + [span], last', e;
    }
    assert ClassFold(content, pos, lastToken, closed) == [];
    if closed {
      spans := [Span(opening, CharClassBoundary)] + output + [Span(closing, CharClassBoundary)];
    } else {
      spans := [Span(opening, Error(UnclosedClass))] + output;
    }
  }

  // ---------------------------------------------------------------------
  // Properties
  // ---------------------------------------------------------------------

  /** Each step's span shows its token's own text. */
  lemma ClassStepText(last: ClassContext, m: string, next: Option<string>, closed: bool)
    requires m != []
    ensures ClassStep(last, m, next, closed).0.text == m
  {
  }

  /** The body spans are the class tokens of the content, one per token, in
      order; hence they cover the content exactly. */
  lemma {:induction false} ClassFoldTokens(content: string, pos: nat, last: ClassContext, closed: bool)
    requires pos <= |content|
    ensures |ClassFold(content, pos, last, closed)| == |ClassTokens(content, pos)|
    ensures forall k :: 0 <= k < |ClassTokens(content, pos)| ==>
              ClassFold(content, pos, last, closed)[k].text == ClassTokens(content, pos)[k]
    ensures SpansText(ClassFold(content, pos, last, closed)) == content[pos..]
    decreases |content| - pos
  {
    if pos < |content| {
      var e := ClassTokenEnd(content, pos);
      var m := content[pos..e];
      var step := ClassStep(last, m, NextClassToken(content, e), closed);
      ClassStepText(last, m, NextClassToken(content, e), closed);
      ClassFoldTokens(content, e, step.1, closed);
      var spans := ClassFold(content, pos, last, closed);
      var rest := ClassFold(content, e, step.1, closed);
      var toks := ClassTokens(content, pos);
      assert spans == [step.0] + rest;
      assert toks == [m] + ClassTokens(content, e);
      forall k | 0 <= k < |toks|
        ensures spans[k].text == toks[k]
      {
        if k > 0 {
          assert spans[k] == rest[k - 1];
        }
      }
      SliceSplit(content, pos, e);
    }
  }

  /** The spans of a class cover its token exactly: opening, body, closing. */
  lemma ClassSpansCover(value: string)
    requires IsClassToken(value)
    ensures SpansText(ClassSpans(value)) == value
  {
    var (opening, content, closing) := SplitClass(value);
    var body := ClassFold(content, 0, ClassStart, closing != "");
    ClassFoldTokens(content, 0, ClassStart, closing != "");
    assert content[0..] == content;
    SpansTextAppend([Span(opening, CharClassBoundary)], body);
    SpansTextAppend([Span(opening, Error(UnclosedClass))], body);
    SpansTextAppend([Span(opening, CharClassBoundary)] + body, [Span(closing, CharClassBoundary)]);
  }

  /** An unclosed class has its opening marked "Unclosed character class";
      a closed one has both brackets shown as boundaries. */
  lemma ClassBoundaries(value: string)
    requires IsClassToken(value)
    ensures var parts := SplitClass(value);
            var spans := ClassSpans(value);
            |spans| >= 1
            && spans[0] == Span(parts.0, if parts.2 == "" then Error(UnclosedClass) else CharClassBoundary)
            && (parts.2 != "" ==> spans[|spans| - 1] == Span("]", CharClassBoundary))
            && (parts.2 == "" <==> value[|value| - 1] != ']' || ClassBodyEnd(value, OpeningLength(value)) == |value|)
  {
  }

  /** The hyphen rule. A `-` is an invalid range exactly when the previous
      token is rangeable, a next token exists, and the pair is reversed or
      has a shorthand class on either side; it is a literal when the previous
      token is not rangeable or when it ends a closed class; otherwise it is
      a range (including a trailing `-` of an unclosed class). */
  lemma HyphenRule(content: string, pos: nat, last: ClassContext, closed: bool)
    requires pos < |content| && content[pos] == '-'
    ensures var sp := ClassFold(content, pos, last, closed)[0];
            var next := NextClassToken(content, pos + 1);
            sp.text == "-"
            && (sp.style == Error(InvalidRange) <==> last.rangeable && next.Some? && IsInvalidRange(last, next.value))
            && (sp.style == Plain <==> !last.rangeable || (next.None? && closed))
            && (sp.style == Range <==> last.rangeable && ((next.Some? && !IsInvalidRange(last, next.value)) || (next.None? && !closed)))
  {
    assert ClassTokenEnd(content, pos) == pos + 1;
    assert content[pos..pos + 1] == "-";
  }

  /** A `-` right after the opening bracket is a literal. */
  lemma LeadingHyphenIsLiteral(value: string)
    requires IsClassToken(value)
    requires var parts := SplitClass(value); |parts.1| > 0 && parts.1[0] == '-'
    ensures ClassSpans(value)[1] == Span("-", Plain)
  {
    var (opening, content, closing) := SplitClass(value);
    HyphenRule(content, 0, ClassStart, closing != "");
    var body := ClassFold(content, 0, ClassStart, closing != "");
    assert ClassSpans(value)[1] == body[0];
  }

  /** One unfolding of the fold at a token `t` followed by `next`. */
  lemma FoldAt(c: string, pos: nat, t: string, next: Option<string>, last: ClassContext, closed: bool)
    requires pos < |c| && t != [] && ClassTokenEnd(c, pos) == pos + |t| && c[pos..pos + |t|] == t
    requires NextClassToken(c, pos + |t|) == next
    ensures var step := ClassStep(last, t, next, closed);
            ClassFold(c, pos, last, closed) == [step.0] + ClassFold(c, pos + |t|, step.1, closed)
  {
    var e := ClassTokenEnd(c, pos);
    var step := ClassStep(last, c[pos..e], NextClassToken(c, e), closed);
    assert ClassFold(c, pos, last, closed) == [step.0] + ClassFold(c, e, step.1, closed);
    assert step == ClassStep(last, t, next, closed);
  }

  /** A class body of exactly three tokens folds into their three spans. */
  lemma FoldOfThree(t0: string, t1: string, t2: string, closed: bool)
    requires t0 != [] && t1 != [] && t2 != []
    requires var c := t0 + t1 + t2;
             ClassTokenEnd(c, 0) == |t0| && ClassTokenEnd(c, |t0|) == |t0| + |t1|
             && ClassTokenEnd(c, |t0| + |t1|) == |c|
    ensures var s0 := ClassStep(ClassStart, t0, Some(t1), closed);
            var s1 := ClassStep(s0.1, t1, Some(t2), closed);
            var s2 := ClassStep(s1.1, t2, None, closed);
            ClassFold(t0 + t1 + t2, 0, ClassStart, closed) == [s0.0, s1.0, s2.0]
  {
    var c := t0 + t1 + t2;
    var i, j := |t0|, |t0| + |t1|;
    ThreeParts(t0, t1, t2);
    assert NextClassToken(c, i) == Some(t1);
    assert NextClassToken(c, j) == Some(t2);
    assert NextClassToken(c, |c|) == None;
    var s0 := ClassStep(ClassStart, t0, Some(t1), closed);
    var s1 := ClassStep(s0.1, t1, Some(t2), closed);
    var s2 := ClassStep(s1.1, t2, None, closed);
    assert ClassFold(c, |c|, s2.1, closed) == [];
    assert j + |t2| == |c| && c[j..j + |t2|] == t2;
    FoldAt(c, j, t2, None, s1.1, closed);
    assert i + |t1| == j && c[i..i + |t1|] == t1 && ClassTokenEnd(c, i) == i + |t1|;
    FoldAt(c, i, t1, Some(t2), s0.1, closed);
    FoldAt(c, 0, t0, Some(t1), ClassStart, closed);
    assert [s0.0] + ([s1.0] + ([s2.0] + [])) == [s0.0, s1.0, s2.0];
  }

  /** `[c]` is a closed class token with content `c` when `c` does not
      start with `^` and the scan of its body stops at the final `]`. */
  lemma ClosedClass(c: string)
    requires c != [] && c[0] != '^'
    requires ClassBodyEnd(['['] + c + [']'], 1) == |c| + 1
    ensures IsClassToken(['['] + c + [']'])
    ensures ClassSpans(['['] + c + [']'])
            == [Span("[", CharClassBoundary)] + ClassFold(c, 0, ClassStart, true) + [Span("]", CharClassBoundary)]
  {
    var v := ['['] + c + [']'];
    assert v[..1] == "[" && v[1..|v| - 1] == c && v[|v| - 1..] == "]";
    assert OpeningLength(v) == 1;
    assert SplitClass(v) == ("[", c, "]");
  }

  lemma ShorthandStep(last: ClassContext, m: string, next: Option<string>, closed: bool)
    requires IsShorthandClass(m)
    ensures ClassStep(last, m, next, closed) == (Span(m, Metasequence), After(last, None, ShortClass))
  {
  }

  lemma LiteralStep(last: ClassContext, m: string, next: Option<string>, closed: bool)
    requires |m| == 1 && m[0] !in "\\-"
    ensures ClassStep(last, m, next, closed)
            == (Span(m, Plain), ClassContext(last.kind != RangeHyphen, Some(m[0] as nat), Untyped))
  {
  }

  lemma HyphenStep(last: ClassContext, next: string, closed: bool)
    requires last.rangeable
    ensures ClassStep(last, "-", Some(next), closed)
            == (Span("-", if IsInvalidRange(last, next) then Error(InvalidRange) else Range),
                ClassContext(false, None, RangeHyphen))
  {
  }

  lemma LiteralPairTokens(a: char, b: char)
    requires a !in "\\-]^" && b !in "\\-]"
    ensures var c := [a] + "-" + [b];
            ClassBodyEnd(['['] + c + [']'], 1) == |c| + 1
            && ClassTokenEnd(c, 0) == 1 && ClassTokenEnd(c, 1) == 2 && ClassTokenEnd(c, 2) == 3
  {
    var c := [a] + "-" + [b];
    var v := ['['] + c + [']'];
    assert ClassBodyEnd(v, 4) == 4 && ClassBodyEnd(v, 3) == 4 && ClassBodyEnd(v, 2) == 4;
  }

  lemma ShorthandStartTokens(d: char, b: char)
    requires d in "dDsSwW" && b !in "\\-]"
    ensures var c := ['\\', d] + "-" + [b];
            ClassBodyEnd(['['] + c + [']'], 1) == |c| + 1
            && ClassTokenEnd(c, 0) == 2 && ClassTokenEnd(c, 2) == 3 && ClassTokenEnd(c, 3) == 4
  {
    var c := ['\\', d] + "-" + [b];
    var v := ['['] + c + [']'];
    assert ClassBodyEnd(v, 5) == 5 && ClassBodyEnd(v, 4) == 5 && ClassBodyEnd(v, 3) == 5;
  }

  lemma ShorthandEndTokens(a: char, d: char)
    requires d in "dDsSwW" && a !in "\\-]^"
    ensures var c := [a] + "-" + ['\\', d];
            ClassBodyEnd(['['] + c + [']'], 1) == |c| + 1
            && ClassTokenEnd(c, 0) == 1 && ClassTokenEnd(c, 1) == 2 && ClassTokenEnd(c, 2) == 4
  {
    var c := [a] + "-" + ['\\', d];
    var v := ['['] + c + [']'];
    assert ClassBodyEnd(v, 5) == 5 && ClassBodyEnd(v, 3) == 5 && ClassBodyEnd(v, 2) == 5;
  }

  /** `[a-b]` with two plain characters: the hyphen is a range exactly when
      the pair is in order (`[a-z]` is valid, `[z-a]` is not). */
  lemma LiteralPairRange(a: char, b: char)
    requires a !in "\\-]^" && b !in "\\-]"
    ensures IsClassToken(['['] + ([a] + "-" + [b]) + [']'])
    ensures ClassSpans(['['] + ([a] + "-" + [b]) + [']'])
         == [Span("[", CharClassBoundary)]
            + [Span([a], Plain), Span("-", if a > b then Error(InvalidRange) else Range), Span([b], Plain)]
            + [Span("]", CharClassBoundary)]
  {
    var c := [a] + "-" + [b];
    LiteralPairTokens(a, b);
    ClosedClass(c);
    FoldOfThree([a], "-", [b], true);
    LiteralStep(ClassStart, [a], Some("-"), true);
    var s0 := ClassStep(ClassStart, [a], Some("-"), true);
    HyphenStep(s0.1, [b], true);
    assert GetTokenCharCode([b]) == Some(b as nat);
    LiteralStep(ClassStep(s0.1, "-", Some([b]), true).1, [b], None, true);
  }

  /** A shorthand class cannot start a range: in `[\d-b]` the hyphen is an
      invalid range whatever `b` is. */
  lemma ShorthandStartsNoRange(d: char, b: char)
    requires d in "dDsSwW" && b !in "\\-]"
    ensures IsClassToken(['['] + (['\\', d] + "-" + [b]) + [']'])
    ensures ClassSpans(['['] + (['\\', d] + "-" + [b]) + [']'])
         == [Span("[", CharClassBoundary)]
            + [Span(['\\', d], Metasequence), Span("-", Error(InvalidRange)), Span([b], Plain)]
            + [Span("]", CharClassBoundary)]
  {
    var c := ['\\', d] + "-" + [b];
    ShorthandStartTokens(d, b);
    ClosedClass(c);
    FoldOfThree(['\\', d], "-", [b], true);
    ShorthandStep(ClassStart, ['\\', d], Some("-"), true);
    var s0 := ClassStep(ClassStart, ['\\', d], Some("-"), true);
    HyphenStep(s0.1, [b], true);
    LiteralStep(ClassStep(s0.1, "-", Some([b]), true).1, [b], None, true);
  }

  /** Nor can it end one: in `[a-\d]` the hyphen is an invalid range. */
  lemma ShorthandEndsNoRange(a: char, d: char)
    requires d in "dDsSwW" && a !in "\\-]^"
    ensures IsClassToken(['['] + ([a] + "-" + ['\\', d]) + [']'])
    ensures ClassSpans(['['] + ([a] + "-" + ['\\', d]) + [']'])
         == [Span("[", CharClassBoundary)]
            + [Span([a], Plain), Span("-", Error(InvalidRange)), Span(['\\', d], Metasequence)]
            + [Span("]", CharClassBoundary)]
  {
    var c := [a] + "-" + ['\\', d];
    ShorthandEndTokens(a, d);
    ClosedClass(c);
    FoldOfThree([a], "-", ['\\', d], true);
    LiteralStep(ClassStart, [a], Some("-"), true);
    var s0 := ClassStep(ClassStart, [a], Some("-"), true);
    HyphenStep(s0.1, ['\\', d], true);
    ShorthandStep(ClassStep(s0.1, "-", Some(['\\', d]), true).1, ['\\', d], None, true);
  }
}
