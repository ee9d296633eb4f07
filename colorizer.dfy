/** `colorizeText`: the single pass over the tokens of a pattern that keeps
    the stack of open groups, the number of capturing groups opened so far,
    the cyclic group-style depth and the context of the previous token, and
    that finally marks every group left open as an error. */
module Colorizer {
  import opened Syntax
  import opened Lexer
  import opened Html
  import opened CharCode
  import opened CharClass

  /** The `lastToken` of the main walk. `groupDepth` is set only by a group
      closing, so that a quantifier after it takes the group's style. */
  datatype Context = Context(quantifiable: bool, kind: TokenType, groupDepth: Option<int>)

  /** A context object built with only `quantifiable`. */
  function Plainly(quantifiable: bool): Context
  {
    Context(quantifiable, Untyped, None)
  }

  const Start := Context(false, Initial, None)

  /** An `openGroups` entry: the position of the opening's span in the
      output, and its text with entities expanded, as the source stores it. */
  datatype OpenGroup = OpenGroup(index: nat, opening: string)

  /** Everything the walk carries from one token to the next. */
  datatype State = State(output: seq<Piece>, captures: nat, depth: int, open: seq<OpenGroup>, last: Context)

  const Init := State([], 0, 0, [], Start)

  function NextDepth(d: int): int { if d == 5 then 1 else d + 1 }
  function PrevDepth(d: int): int { if d == 1 then 5 else d - 1 }

  /** `/^\(\?<?[=!]/`: a lookahead or lookbehind opening. */
  predicate IsLookaroundOpening(s: string)
  {
    (|s| >= 3 && s[..2] == "(?" && s[2] in "=!") || (|s| >= 4 && s[..3] == "(?<" && s[3] in "=!")
  }

  /** `/^\(\?<[a-z_]/i`: a named capture opening. */
  predicate IsNamedCaptureOpening(m: string)
  {
    |m| >= 4 && m[..3] == "(?<" && IsNameStart(m[3])
  }

  /** A plain `(` or a named group counts as a capturing group. */
  predicate IsCapturingOpening(m: string)
  {
    |m| == 1 || IsNamedCaptureOpening(m)
  }

  /** `quantifier`: the whole token is `(?:[?*+]|\{\d+(?:,\d*)?\})\??`. */
  predicate IsQuantifierToken(m: string)
  {
    m != [] && QuantifierEnd(m, 0) == Some(|m|)
  }

  // ---------------------------------------------------------------------
  // Decimal numbers
  // ---------------------------------------------------------------------

  function DigitValue(c: char): nat
    requires IsDigit(c)
  {
    c as nat - '0' as nat
  }

  function DigitChar(d: nat): (c: char)
    requires d < 10
    ensures IsDigit(c) && DigitValue(c) == d
  {
    ('0' as nat + d) as char
  }

  /** The number a run of digits spells (`+digits`, without the float
      rounding of long runs). */
  function DecimalValue(s: string): nat
    requires AllDigits(s)
  {
    if s == [] then 0 else DecimalValue(s[..|s| - 1]) * 10 + DigitValue(s[|s| - 1])
  }

  /** `${n}` for a positive number; empty for 0. */
  function Decimal(n: nat): string
  {
    if n == 0 then [] else Decimal(n / 10) + [DigitChar(n % 10)]
  }

  /** Digits without a leading zero print back as themselves. */
  lemma {:induction false} DecimalRoundTrip(s: string)
    requires AllDigits(s) && (s != [] ==> s[0] != '0')
    ensures Decimal(DecimalValue(s)) == s
  {
    if s != [] {
      var p := s[..|s| - 1];
      assert AllDigits(p);
      DecimalRoundTrip(p);
      var v := DecimalValue(s);
      assert v == DecimalValue(p) * 10 + DigitValue(s[|s| - 1]);
      if p == [] {
        assert v == DigitValue(s[0]) && v != 0;
      } else {
        assert DecimalValue(p) != 0;
      }
      assert v / 10 == DecimalValue(p) && v % 10 == DigitValue(s[|s| - 1]);
      assert DigitChar(v % 10) == s[|s| - 1];
    }
  }

  // ---------------------------------------------------------------------
  // `\NN`: backreference, octal escape or literal digits
  // ---------------------------------------------------------------------

  /** The digit-dropping loop: while the number exceeds the capturing groups
      opened so far, move its last digit to the front of the literal digits. */
  function DropDigits(num: nat, captures: nat, digits: string): (nat, string)
    decreases num
  {
    if num > captures then DropDigits(num / 10, captures, [DigitChar(num % 10)] + digits)
    else (num, digits)
  }

  /** The loop stops at a number within the capture count, the digits it
      moved are exactly the ones dropped from the number, and the number it
      stopped at is the longest prefix within the count. */
  lemma {:induction false} DropDigitsSpec(num: nat, captures: nat, digits: string)
    ensures var (n, rest) := DropDigits(num, captures, digits);
            n <= captures
            && Decimal(n) + rest == Decimal(num) + digits
            && |rest| >= |digits| && (num > captures ==> |rest| > |digits|)
            && (|rest| > |digits| ==> IsDigit(rest[0]) && n * 10 + DigitValue(rest[0]) > captures)
    decreases num
  {
    if num > captures {
      var d := [DigitChar(num % 10)];
      DropDigitsSpec(num / 10, captures, d + digits);
      var (n, rest) := DropDigits(num / 10, captures, d + digits);
      assert Decimal(num) == Decimal(num / 10) + d;
      if |rest| == |d + digits| {
        assert num / 10 <= captures;
        assert n == num / 10 && rest == d + digits;
      }
    }
  }

  /** A piece of unstyled text, if there is any. */
  function PlainText(s: string): seq<Piece>
  {
    if s == [] then [] else [Single(Span(s, Plain))]
  }

  /** The end of the octal escape `[0-3][0-7]{0,2}|[4-7][0-7]?` after `\`. */
  function OctalEscapeEnd(m: string): nat
    requires |m| >= 2
  {
    OctalRunEnd(m, 2, if m[1] <= '3' then 2 else 1)
  }

  /** How `\` followed by digits 1-9... is shown, given the capturing groups
      opened before it. */
  function NumericEscape(m: string, captures: nat): seq<Piece>
    requires |m| >= 2 && m[0] == '\\' && '1' <= m[1] <= '9' && AllDigits(m[1..])
  {
    var (num, rest) := DropDigits(DecimalValue(m[1..]), captures, "");
    if num > 0 then [Single(Span("\\" + Decimal(num), Backref))] + PlainText(rest)
    else if m[1] in "89" then [Single(Span(m[..2], EscapedLiteral))] + PlainText(m[2..])
    else [Single(Span(m[..OctalEscapeEnd(m)], Metasequence))] + PlainText(m[OctalEscapeEnd(m)..])
  }

  // ---------------------------------------------------------------------
  // Interval quantifiers
  // ---------------------------------------------------------------------

  /** `/^\{(\d+)(?:,(\d*))?/`: the lower bound, and the upper bound when
      digits follow the comma (an empty upper bound is falsy in the source). */
  datatype Bounds = Bounds(lo: nat, hi: Option<nat>)

  function Interval(m: string): Option<Bounds>
  {
    if |m| >= 2 && m[0] == '{' && DigitRunEnd(m, 1) > 1 then
      var d := DigitRunEnd(m, 1);
      var hi := if d < |m| && m[d] == ',' && DigitRunEnd(m, d + 1) > d + 1
                then Some(DecimalValue(m[d + 1..DigitRunEnd(m, d + 1)])) else None;
      Some(Bounds(DecimalValue(m[1..d]), hi))
    else None
  }

  /** The depth a quantifier or alternator shown after `last` takes. */
  function DepthOr0(last: Context): int
  {
    match last.groupDepth
    case Some(d) => d
    case None => 0
  }

  function QuantifierStyle(last: Context, m: string): Style
  {
    if !last.quantifiable then Error(Unquantifiable)
    else match Interval(m)
      case Some(b) =>
        if b.lo > 65535 || (b.hi.Some? && b.hi.value > 65535) then Error(IntervalOverflow)
        else if b.hi.Some? && b.lo > b.hi.value then Error(IntervalReversed)
        else Quantifier(DepthOr0(last))
      case None => Quantifier(DepthOr0(last))
  }

  // ---------------------------------------------------------------------
  // One token
  // ---------------------------------------------------------------------

  function One(text: string, style: Style): seq<Piece>
  {
    [Single(Span(text, style))]
  }

  function Emit(st: State, pieces: seq<Piece>, last: Context): State
  {
    st.(output := st.output + pieces, last := last)
  }

  function OpenGroupStep(st: State, m: string): State
  {
    if |m| == 2 then Emit(st, One(m, Error(InvalidGroupType)), Plainly(false))
    else
      var depth := NextDepth(st.depth);
      State(st.output + One(m, Group(depth)),
            if IsCapturingOpening(m) then st.captures + 1 else st.captures,
            depth,
            st.open + [OpenGroup(|st.output|, ExpandEntities(m))],
            Plainly(false))
  }

  function CloseGroupStep(st: State): State
  {
    if st.open == [] then Emit(st, One(")", Error(UnbalancedRightParen)), Plainly(false))
    else
      var top := st.open[|st.open| - 1];
      State(st.output + One(")", Group(st.depth)), st.captures, PrevDepth(st.depth),
            st.open[..|st.open| - 1],
            Context(!IsLookaroundOpening(CollapseEntities(top.opening)), Untyped, Some(st.depth)))
  }

  function EscapeStep(st: State, m: string): State
    requires IsLexeme(m) && m[0] == '\\'
  {
    if |m| > 1 && '1' <= m[1] <= '9' then Emit(st, NumericEscape(m, st.captures), Plainly(true))
    else if |m| > 2 && m[1] == 'k' then Emit(st, One(m, Backref), Plainly(true))
    else if |m| > 1 && m[1] in "0bBcdDfnrsStuvwWx" then
      if m == "\\c" || m == "\\u" || m == "\\x" then Emit(st, One(m, Error(IncompleteToken)), Plainly(false))
      else if m[1] in "bB" then Emit(st, One(m, Metasequence), Plainly(false))
      else Emit(st, One(m, Metasequence), Plainly(true))
    else if m == "\\" then st.(output := st.output + One(m, Error(IncompleteToken)))
    else Emit(st, One(m, EscapedLiteral), Plainly(true))
  }

  /** An alternator at the very start, or right after another alternator
      outside any group, empties an alternative. */
  predicate IsEmptyAlternative(st: State)
  {
    st.last.kind == Initial || (st.last.kind == Alternator && st.open == [])
  }

  function AlternatorStep(st: State): State
  {
    var style := if IsEmptyAlternative(st) then Error(ImproperEmptyAlternative)
                 else AlternatorStyle(if st.open != [] then st.depth else 0);
    Emit(st, One("|", style), Context(false, Alternator, None))
  }

  /** One iteration of the main loop. */
  function Step(st: State, m: string): State
    requires IsLexeme(m)
  {
    var c := m[0];
    if c == '[' then Emit(st, [CharClass(ClassSpans(m))], Plainly(true))
    else if c == '(' then OpenGroupStep(st, m)
    else if c == ')' then CloseGroupStep(st)
    else if c == '\\' then EscapeStep(st, m)
    else if IsQuantifierToken(m) then Emit(st, One(m, QuantifierStyle(st.last, m)), Plainly(false))
    else if m == "|" then AlternatorStep(st)
    else if m == "^" || m == "$" then Emit(st, One(m, Metasequence), Plainly(false))
    else if m == "." then Emit(st, One(m, Metasequence), Plainly(true))
    else Emit(st, One(m, Plain), Plainly(true))
  }

  /** The main loop over the tokens from `pos`. */
  function Run(s: string, pos: nat, st: State): State
    requires pos <= |s|
    decreases |s| - pos
  {
    if pos == |s| then st
    else
      var e := TokenEnd(s, pos);
      LexemeAt(s, pos);
      Run(s, e, Step(st, s[pos..e]))
  }

  // ---------------------------------------------------------------------
  // Invariant of the walk
  // ---------------------------------------------------------------------

  /** The style of nesting `level` (0 for the outermost group): the levels
      cycle through the five group styles. */
  function Cycle(level: nat): (d: int)
    ensures 1 <= d <= 5
  {
    level % 5 + 1
  }

  lemma CycleSteps(level: nat)
    ensures NextDepth(Cycle(level)) == Cycle(level + 1)
    ensures PrevDepth(Cycle(level + 1)) == Cycle(level)
  {
  }

  /** An `openGroups` entry at nesting `level` points at the span of a group
      opening, shown in the style of its level, whose expanded text it
      stores. */
  predicate WellPlaced(out: seq<Piece>, g: OpenGroup, level: nat)
  {
    g.index < |out| && out[g.index].Single?
    && out[g.index].span.style == Group(Cycle(level))
    && IsGroupToken(out[g.index].span.text) && |out[g.index].span.text| != 2
    && g.opening == ExpandEntities(out[g.index].span.text)
  }

  predicate AllPlaced(out: seq<Piece>, open: seq<OpenGroup>)
  {
    forall k :: 0 <= k < |open| ==> WellPlaced(out, open[k], k)
  }

  predicate Ordered(open: seq<OpenGroup>)
  {
    forall k, l :: 0 <= k < l < |open| ==> open[k].index < open[l].index
  }

  /** The depths the walk shows: 1..5 on groups, 0..5 on quantifiers and
      alternators; it never produces an unclosed-group span itself. */
  predicate DepthInRange(p: Piece)
  {
    p.Single? ==>
      match p.span.style
      case AlternatorStyle(d) => 0 <= d <= 5
      case Quantifier(d) => 0 <= d <= 5
      case Group(d) => 1 <= d <= 5
      case UnclosedGroup(_) => false
      case _ => true
  }

  predicate AllInRange(out: seq<Piece>)
  {
    forall k :: 0 <= k < |out| ==> DepthInRange(out[k])
  }

  /** The style depth after `open` groups: the style of the innermost open
      group, or 0 before the first group and 5 after a top-level one closes. */
  predicate DepthMatches(depth: int, open: nat)
  {
    if open == 0 then depth == 0 || depth == 5 else depth == Cycle(open - 1)
  }

  /** The span of a capturing group opening. */
  predicate IsCaptureSpan(p: Piece)
  {
    p.Single? && p.span.style.Group? && p.span.text != [] && p.span.text[0] == '('
    && IsCapturingOpening(p.span.text)
  }

  /** The capturing group openings among `out`. */
  function CaptureCount(out: seq<Piece>): nat
  {
    if out == [] then 0
    else CaptureCount(out[..|out| - 1]) + (if IsCaptureSpan(out[|out| - 1]) then 1 else 0)
  }

  lemma {:induction false} CaptureCountAppend(a: seq<Piece>, b: seq<Piece>)
    ensures CaptureCount(a + b) == CaptureCount(a) + CaptureCount(b)
    decreases |b|
  {
    if b != [] {
      var b' := b[..|b| - 1];
      assert (a + b)[..|a + b| - 1] == a + b';
      CaptureCountAppend(a, b');
    } else {
      assert a + b == a;
    }
  }

  lemma CaptureCountOne(p: Piece)
    ensures CaptureCount([p]) == if IsCaptureSpan(p) then 1 else 0
  {
    assert [p][..0] == [];
  }

  /** What the walk keeps: the style depth follows the nesting level, every
      open group points at its opening, the openings are in output order,
      and the capture count is the number of capturing openings shown so
      far. */
  predicate Inv(st: State)
  {
    DepthMatches(st.depth, |st.open|)
    && (st.last.groupDepth.Some? ==> 1 <= st.last.groupDepth.value <= 5)
    && AllPlaced(st.output, st.open)
    && Ordered(st.open)
    && AllInRange(st.output)
    && st.captures == CaptureCount(st.output)
  }

  lemma AppendKeeps(out: seq<Piece>, pieces: seq<Piece>, open: seq<OpenGroup>)
    requires AllPlaced(out, open) && AllInRange(out) && AllInRange(pieces)
    ensures AllPlaced(out + pieces, open) && AllInRange(out + pieces)
    ensures CaptureCount(out + pieces) == CaptureCount(out) + CaptureCount(pieces)
  {
    var all := out + pieces;
    forall k | 0 <= k < |open|
      ensures WellPlaced(all, open[k], k)
    {
      assert WellPlaced(out, open[k], k);
      assert all[open[k].index] == out[open[k].index];
    }
    forall k | 0 <= k < |all|
      ensures DepthInRange(all[k])
    {
      if k < |out| {
        assert all[k] == out[k];
      } else {
        assert all[k] == pieces[k - |out|];
      }
    }
    CaptureCountAppend(out, pieces);
  }

  lemma EmitInv(st: State, pieces: seq<Piece>, last: Context)
    requires Inv(st)
    requires AllInRange(pieces) && CaptureCount(pieces) == 0
    requires last.groupDepth.Some? ==> 1 <= last.groupDepth.value <= 5
    ensures Inv(Emit(st, pieces, last))
  {
    AppendKeeps(st.output, pieces, st.open);
  }

  lemma EmitOneInv(st: State, m: string, style: Style, last: Context)
    requires Inv(st)
    requires DepthInRange(Single(Span(m, style))) && !style.Group?
    requires last.groupDepth.Some? ==> 1 <= last.groupDepth.value <= 5
    ensures Inv(Emit(st, One(m, style), last))
  {
    CaptureCountOne(Single(Span(m, style)));
    EmitInv(st, One(m, style), last);
  }

  lemma NumericEscapePieces(m: string, captures: nat)
    requires |m| >= 2 && m[0] == '\\' && '1' <= m[1] <= '9' && AllDigits(m[1..])
    ensures AllInRange(NumericEscape(m, captures))
    ensures CaptureCount(NumericEscape(m, captures)) == 0
  {
    var ps := NumericEscape(m, captures);
    var head := [ps[0]];
    assert ps == head + ps[1..];
    CaptureCountOne(ps[0]);
    if |ps| > 1 {
      assert ps[1..] == [ps[1]];
      CaptureCountOne(ps[1]);
    }
    CaptureCountAppend(head, ps[1..]);
  }

  /** Pushing a group whose opening is the newly shown span keeps every
      open group placed and the stack in output order. */
  lemma PushPlaced(out: seq<Piece>, open: seq<OpenGroup>, p: Piece, g: OpenGroup)
    requires AllPlaced(out, open) && Ordered(open)
    requires g.index == |out| && WellPlaced(out + [p], g, |open|)
    ensures AllPlaced(out + [p], open + [g]) && Ordered(open + [g])
  {
    var out', open' := out + [p], open + [g];
    forall k | 0 <= k < |open'|
      ensures WellPlaced(out', open'[k], k)
    {
      if k < |open| {
        assert open'[k] == open[k];
        assert out'[open[k].index] == out[open[k].index];
      }
    }
    forall k, l | 0 <= k < l < |open'|
      ensures open'[k].index < open'[l].index
    {
      if l < |open| {
        assert open'[k] == open[k] && open'[l] == open[l];
      } else {
        assert open'[k] == open[k] && WellPlaced(out, open[k], k);
      }
    }
  }

  /** Popping the innermost group keeps the rest placed and ordered. */
  lemma PopPlaced(out: seq<Piece>, open: seq<OpenGroup>, p: Piece)
    requires AllPlaced(out, open) && Ordered(open) && open != []
    ensures AllPlaced(out + [p], open[..|open| - 1]) && Ordered(open[..|open| - 1])
  {
    var out', open' := out + [p], open[..|open| - 1];
    forall k | 0 <= k < |open'|
      ensures WellPlaced(out', open'[k], k)
    {
      assert open'[k] == open[k] && WellPlaced(out, open[k], k);
      assert out'[open[k].index] == out[open[k].index];
    }
  }

  lemma OpenGroupInv(st: State, m: string)
    requires Inv(st) && m != [] && m[0] == '(' && IsGroupToken(m)
    ensures Inv(OpenGroupStep(st, m))
  {
    if |m| != 2 {
      var level := |st.open|;
      var d := NextDepth(st.depth);
      var p := Single(Span(m, Group(d)));
      var g := OpenGroup(|st.output|, ExpandEntities(m));
      if level > 0 {
        CycleSteps(level - 1);
      }
      assert d == Cycle(level);
      assert WellPlaced(st.output + [p], g, level);
      PushPlaced(st.output, st.open, p, g);
      AppendKeeps(st.output, [p], st.open);
      CaptureCountOne(p);
      assert OpenGroupStep(st, m)
        == State(st.output + [p], if IsCapturingOpening(m) then st.captures + 1 else st.captures,
                 d, st.open + [g], Plainly(false));
    } else {
      EmitOneInv(st, m, Error(InvalidGroupType), Plainly(false));
    }
  }

  lemma CloseGroupInv(st: State)
    requires Inv(st)
    ensures Inv(CloseGroupStep(st))
  {
    if st.open == [] {
      EmitOneInv(st, ")", Error(UnbalancedRightParen), Plainly(false));
    } else {
      var level := |st.open| - 1;
      var p := Single(Span(")", Group(st.depth)));
      if level > 0 {
        CycleSteps(level - 1);
      }
      PopPlaced(st.output, st.open, p);
      AppendKeeps(st.output, [p], st.open);
      CaptureCountOne(p);
      var top := st.open[level];
      assert CloseGroupStep(st)
        == State(st.output + [p], st.captures, PrevDepth(st.depth), st.open[..level],
                 Context(!IsLookaroundOpening(CollapseEntities(top.opening)), Untyped, Some(st.depth)));
    }
  }

  lemma EscapeInv(st: State, m: string)
    requires Inv(st) && IsLexeme(m) && m[0] == '\\'
    ensures Inv(EscapeStep(st, m))
  {
    if |m| > 1 && '1' <= m[1] <= '9' {
      NumericEscapePieces(m, st.captures);
      EmitInv(st, NumericEscape(m, st.captures), Plainly(true));
    } else if |m| > 2 && m[1] == 'k' {
      EmitOneInv(st, m, Backref, Plainly(true));
    } else if |m| > 1 && m[1] in "0bBcdDfnrsStuvwWx" {
      if m == "\\c" || m == "\\u" || m == "\\x" {
        EmitOneInv(st, m, Error(IncompleteToken), Plainly(false));
      } else if m[1] in "bB" {
        EmitOneInv(st, m, Metasequence, Plainly(false));
      } else {
        EmitOneInv(st, m, Metasequence, Plainly(true));
      }
    } else if m == "\\" {
      EmitOneInv(st, m, Error(IncompleteToken), st.last);
      assert EscapeStep(st, m) == Emit(st, One(m, Error(IncompleteToken)), st.last);
    } else {
      EmitOneInv(st, m, EscapedLiteral, Plainly(true));
    }
  }

  lemma OtherInv(st: State, m: string)
    requires Inv(st) && IsLexeme(m) && m[0] !in "[()\\"
    ensures Inv(Step(st, m))
  {
    if IsQuantifierToken(m) {
      QuantifierStep(st, m);
      EmitOneInv(st, m, QuantifierStyle(st.last, m), Plainly(false));
    } else if m == "|" {
      var style := if IsEmptyAlternative(st) then Error(ImproperEmptyAlternative)
                   else AlternatorStyle(if st.open != [] then st.depth else 0);
      EmitOneInv(st, "|", style, Context(false, Alternator, None));
      assert Step(st, m) == AlternatorStep(st);
    } else if m == "^" || m == "$" {
      EmitOneInv(st, m, Metasequence, Plainly(false));
    } else if m == "." {
      EmitOneInv(st, m, Metasequence, Plainly(true));
    } else {
      EmitOneInv(st, m, Plain, Plainly(true));
    }
  }

  /** Every step keeps the invariant. */
  lemma StepInv(st: State, m: string)
    requires Inv(st) && IsLexeme(m)
    ensures Inv(Step(st, m))
  {
    var c := m[0];
    if c == '[' {
      assert DepthInRange(CharClass(ClassSpans(m)));
      CaptureCountOne(CharClass(ClassSpans(m)));
      EmitInv(st, [CharClass(ClassSpans(m))], Plainly(true));
    } else if c == '(' {
      OpenGroupInv(st, m);
      assert Step(st, m) == OpenGroupStep(st, m);
    } else if c == ')' {
      CloseGroupInv(st);
      assert Step(st, m) == CloseGroupStep(st);
    } else if c == '\\' {
      EscapeInv(st, m);
      assert Step(st, m) == EscapeStep(st, m);
    } else {
      OtherInv(st, m);
    }
  }

  lemma {:induction false} RunInv(s: string, pos: nat, st: State)
    requires pos <= |s| && Inv(st)
    ensures Inv(Run(s, pos, st))
    decreases |s| - pos
  {
    if pos < |s| {
      var e := TokenEnd(s, pos);
      LexemeAt(s, pos);
      StepInv(st, s[pos..e]);
      RunInv(s, e, Step(st, s[pos..e]));
    }
  }

  // ---------------------------------------------------------------------
  // Coverage
  // ---------------------------------------------------------------------

  lemma OneText(t: string, style: Style)
    ensures Text(One(t, style)) == t
  {
    assert One(t, style)[1..] == [];
  }

  lemma PlainTextText(t: string)
    ensures Text(PlainText(t)) == t
  {
    if t != [] {
      OneText(t, Plain);
    }
  }

  lemma HeadTailText(head: Span, tail: string)
    ensures Text([Single(head)] + PlainText(tail)) == head.text + tail
  {
    TextAppend([Single(head)], PlainText(tail));
    OneText(head.text, head.style);
    PlainTextText(tail);
  }

  /** `\num` followed by the dropped digits, or the octal escape followed by
      literal digits, spell the token again. */
  lemma NumericEscapeCover(m: string, captures: nat)
    requires |m| >= 2 && m[0] == '\\' && '1' <= m[1] <= '9' && AllDigits(m[1..])
    ensures Text(NumericEscape(m, captures)) == m
  {
    var (num, rest) := DropDigits(DecimalValue(m[1..]), captures, "");
    if num > 0 {
      DropDigitsSpec(DecimalValue(m[1..]), captures, "");
      DecimalRoundTrip(m[1..]);
      assert Decimal(num) + rest == m[1..];
      HeadTailText(Span("\\" + Decimal(num), Backref), rest);
      Assoc("\\", Decimal(num), rest);
      SplitAt(m, 1);
      assert m[..1] == "\\";
    } else if m[1] in "89" {
      HeadTailText(Span(m[..2], EscapedLiteral), m[2..]);
      SplitAt(m, 2);
    } else {
      var e := OctalEscapeEnd(m);
      HeadTailText(Span(m[..e], Metasequence), m[e..]);
      SplitAt(m, e);
    }
  }

  lemma AppendOneText(out: seq<Piece>, m: string, style: Style)
    ensures out <= out + One(m, style)
    ensures Text(out + One(m, style)) == Text(out) + m
  {
    TextAppend(out, One(m, style));
    OneText(m, style);
  }

  lemma OpenGroupCover(st: State, m: string)
    ensures st.output <= OpenGroupStep(st, m).output
    ensures Text(OpenGroupStep(st, m).output) == Text(st.output) + m
  {
    if |m| == 2 {
      AppendOneText(st.output, m, Error(InvalidGroupType));
    } else {
      AppendOneText(st.output, m, Group(NextDepth(st.depth)));
    }
  }

  lemma CloseGroupCover(st: State)
    ensures st.output <= CloseGroupStep(st).output
    ensures Text(CloseGroupStep(st).output) == Text(st.output) + ")"
  {
    if st.open == [] {
      AppendOneText(st.output, ")", Error(UnbalancedRightParen));
    } else {
      AppendOneText(st.output, ")", Group(st.depth));
    }
  }

  lemma EscapeCover(st: State, m: string)
    requires IsLexeme(m) && m[0] == '\\'
    ensures st.output <= EscapeStep(st, m).output
    ensures Text(EscapeStep(st, m).output) == Text(st.output) + m
  {
    if |m| > 1 && '1' <= m[1] <= '9' {
      NumericEscapeCover(m, st.captures);
      TextAppend(st.output, NumericEscape(m, st.captures));
    } else if |m| > 2 && m[1] == 'k' {
      AppendOneText(st.output, m, Backref);
    } else if |m| > 1 && m[1] in "0bBcdDfnrsStuvwWx" {
      if m == "\\c" || m == "\\u" || m == "\\x" {
        AppendOneText(st.output, m, Error(IncompleteToken));
      } else {
        AppendOneText(st.output, m, Metasequence);
      }
    } else if m == "\\" {
      AppendOneText(st.output, m, Error(IncompleteToken));
    } else {
      AppendOneText(st.output, m, EscapedLiteral);
    }
  }

  lemma AlternatorCover(st: State)
    ensures st.output <= AlternatorStep(st).output
    ensures Text(AlternatorStep(st).output) == Text(st.output) + "|"
  {
    var style := if IsEmptyAlternative(st) then Error(ImproperEmptyAlternative)
                 else AlternatorStyle(if st.open != [] then st.depth else 0);
    AppendOneText(st.output, "|", style);
  }

  /** Each step only appends to the output, and what it appends spells
      exactly its token. */
  lemma ClassCover(out: seq<Piece>, m: string)
    requires IsLexeme(m) && m[0] == '['
    ensures var added := [CharClass(ClassSpans(m))];
            out <= out + added && Text(out + added) == Text(out) + m
  {
    var added := [CharClass(ClassSpans(m))];
    ClassSpansCover(m);
    TextAppend(out, added);
    assert added[1..] == [];
  }

  lemma StepCover(st: State, m: string)
    requires IsLexeme(m)
    ensures st.output <= Step(st, m).output
    ensures Text(Step(st, m).output) == Text(st.output) + m
  {
    var c := m[0];
    if c == '[' {
      ClassCover(st.output, m);
    } else if c == '(' {
      assert Step(st, m) == OpenGroupStep(st, m);
      OpenGroupCover(st, m);
    } else if c == ')' {
      assert Step(st, m) == CloseGroupStep(st);
      CloseGroupCover(st);
    } else if c == '\\' {
      assert Step(st, m) == EscapeStep(st, m);
      EscapeCover(st, m);
    } else if IsQuantifierToken(m) {
      QuantifierStep(st, m);
      AppendOneText(st.output, m, QuantifierStyle(st.last, m));
    } else if m == "|" {
      assert Step(st, m) == AlternatorStep(st);
      AlternatorCover(st);
    } else if m == "^" || m == "$" || m == "." {
      AppendOneText(st.output, m, Metasequence);
    } else {
      AppendOneText(st.output, m, Plain);
    }
  }

  /** The walk covers the pattern: the output spells the input again. */
  lemma {:induction false} RunCover(s: string, pos: nat, st: State)
    requires pos <= |s|
    ensures Text(Run(s, pos, st).output) == Text(st.output) + s[pos..]
    decreases |s| - pos
  {
    if pos < |s| {
      var e := TokenEnd(s, pos);
      var m := s[pos..e];
      LexemeAt(s, pos);
      var st' := Step(st, m);
      assert Run(s, pos, st) == Run(s, e, st');
      StepCover(st, m);
      RunCover(s, e, st');
      SliceSplit(s, pos, e);
      Assoc(Text(st.output), m, s[e..]);
    }
  }

  // ---------------------------------------------------------------------
  // Unclosed groups
  // ---------------------------------------------------------------------

  /** A group opening re-marked as unclosed; the error markup goes inside
      the group tag, where the recorded offset points. */
  function Unclosed(p: Piece): (r: Piece)
    ensures PieceText(r) == PieceText(p)
  {
    match p
    case Single(Span(t, Group(d))) => Single(Span(t, UnclosedGroup(d)))
    case _ => p
  }

  predicate IsOpenIndex(groups: seq<OpenGroup>, i: nat)
  {
    exists k :: 0 <= k < |groups| && groups[k].index == i
  }

  /** Every recorded opening lies within the output. */
  predicate PatchPre(out: seq<Piece>, gs: seq<OpenGroup>)
  {
    forall k :: 0 <= k < |gs| ==> gs[k].index < |out|
  }

  /** The patch loop: each group still open at the end has its opening
      marked as unclosed, in the order they were opened. */
  function Patch(out: seq<Piece>, groups: seq<OpenGroup>): seq<Piece>
    requires PatchPre(out, groups)
    decreases |groups|
  {
    if groups == [] then out
    else
      var i := groups[0].index;
      Patch(out[i := Unclosed(out[i])], groups[1..])
  }

  /** The patch re-marks exactly the recorded openings, keeps everything
      else, and leaves the text alone. */
  lemma {:induction false} PatchSpec(out: seq<Piece>, groups: seq<OpenGroup>)
    requires PatchPre(out, groups)
    ensures |Patch(out, groups)| == |out|
    ensures forall i :: 0 <= i < |out| ==>
              Patch(out, groups)[i] == (if IsOpenIndex(groups, i) then Unclosed(out[i]) else out[i])
    ensures Text(Patch(out, groups)) == Text(out)
    decreases |groups|
  {
    if groups != [] {
      var j := groups[0].index;
      var out' := out[j := Unclosed(out[j])];
      var rest := groups[1..];
      assert forall k :: 0 <= k < |rest| ==> rest[k] == groups[k + 1];
      PatchSpec(out', rest);
      TextUpdate(out, j, Unclosed(out[j]));
      forall i | 0 <= i < |out|
        ensures Patch(out, groups)[i] == (if IsOpenIndex(groups, i) then Unclosed(out[i]) else out[i])
      {
        if IsOpenIndex(rest, i) {
          var k :| 0 <= k < |rest| && rest[k].index == i;
          assert groups[k + 1].index == i;
        } else if i == j {
          assert groups[0].index == i;
        }
      }
    }
  }

  /** colorizeText: the walk over the whole pattern, then the patch. */
  function Colorized(s: string): seq<Piece>
  {
    var st := Run(s, 0, Init);
    RunInv(s, 0, Init);
    Patch(st.output, st.open)
  }

  /** The colorized output spells the pattern again: no character is lost,
      duplicated or reordered. */
  lemma ColorizedCover(s: string)
    ensures Text(Colorized(s)) == s
  {
    var st := Run(s, 0, Init);
    RunInv(s, 0, Init);
    RunCover(s, 0, Init);
    PatchSpec(st.output, st.open);
  }

  /** The patch marks exactly the openings of the groups left open: each
      becomes an unclosed-group span with its level's style and text. */
  lemma PatchMarks(out: seq<Piece>, open: seq<OpenGroup>)
    requires AllPlaced(out, open) && AllInRange(out)
    ensures PatchPre(out, open)
    ensures |Patch(out, open)| == |out|
    ensures forall i :: 0 <= i < |out| ==>
              (Patch(out, open)[i].Single? && Patch(out, open)[i].span.style.UnclosedGroup?
               <==> IsOpenIndex(open, i))
    ensures forall k :: 0 <= k < |open| ==>
              Patch(out, open)[open[k].index]
                == Single(Span(out[open[k].index].span.text, UnclosedGroup(Cycle(k))))
  {
    forall k | 0 <= k < |open|
      ensures open[k].index < |out|
    {
      assert WellPlaced(out, open[k], k);
    }
    PatchSpec(out, open);
    var p := Patch(out, open);
    forall i | 0 <= i < |out|
      ensures p[i].Single? && p[i].span.style.UnclosedGroup? <==> IsOpenIndex(open, i)
    {
      if IsOpenIndex(open, i) {
        var k :| 0 <= k < |open| && open[k].index == i;
        assert WellPlaced(out, open[k], k);
      } else {
        assert DepthInRange(out[i]);
      }
    }
    forall k | 0 <= k < |open|
      ensures p[open[k].index] == Single(Span(out[open[k].index].span.text, UnclosedGroup(Cycle(k))))
    {
      assert WellPlaced(out, open[k], k);
      assert IsOpenIndex(open, open[k].index);
    }
  }

  /** A span of the colorized pattern is shown as an unclosed group exactly
      when it is the opening of a group no `)` closed; the k-th such opening
      keeps its text and the style of nesting level k. */
  lemma ColorizedUnclosed(s: string)
    ensures var st := Run(s, 0, Init);
            var out := Colorized(s);
            |out| == |st.output|
            && (forall i :: 0 <= i < |out| ==>
                  (out[i].Single? && out[i].span.style.UnclosedGroup? <==> IsOpenIndex(st.open, i)))
            && (forall k :: 0 <= k < |st.open| ==>
                  st.open[k].index < |out| && st.output[st.open[k].index].Single?
                  && IsGroupToken(st.output[st.open[k].index].span.text)
                  && out[st.open[k].index]
                     == Single(Span(st.output[st.open[k].index].span.text, UnclosedGroup(Cycle(k)))))
            && (st.open == [] ==> out == st.output)
  {
    var st := Run(s, 0, Init);
    RunInv(s, 0, Init);
    PatchMarks(st.output, st.open);
    forall k | 0 <= k < |st.open|
      ensures WellPlaced(st.output, st.open[k], k)
    {
    }
  }

  // ---------------------------------------------------------------------
  // Groups
  // ---------------------------------------------------------------------

  /** Group openings hold no `&`, so collapsing the stored opening gives the
      token back. */
  lemma GroupTokenNoAmp(t: string)
    requires IsGroupToken(t)
    ensures '&' !in t
    ensures CollapseEntities(ExpandEntities(t)) == t
  {
    if IsNamedGroupToken(t) {
      forall k | 0 <= k < |t|
        ensures t[k] != '&'
      {
        if k < 3 {
          assert t[..3][k] == t[k];
        }
      }
    }
    CollapseExpand(t);
  }

  /** A group opening pushes exactly one entry, pointing at its own span;
      only `(` and `(?<name>` count as capturing groups; the opening shows the
      style of its nesting level. The bare `(?` is an error and changes
      neither the stack, the count nor the depth. */
  lemma GroupOpening(st: State, m: string)
    requires Inv(st) && IsLexeme(m) && m[0] == '('
    ensures var st' := Step(st, m);
            if m == "(?" then
              st'.output == st.output + One(m, Error(InvalidGroupType))
              && st'.open == st.open && st'.captures == st.captures && st'.depth == st.depth
              && !st'.last.quantifiable
            else
              st'.output == st.output + One(m, Group(Cycle(|st.open|)))
              && st'.open == st.open + [OpenGroup(|st.output|, ExpandEntities(m))]
              && st'.captures == st.captures + (if m == "(" || IsNamedGroupToken(m) then 1 else 0)
              && !st'.last.quantifiable
  {
    if m != "(?" {
      if |st.open| > 0 {
        CycleSteps(|st.open| - 1);
      }
      assert IsNamedCaptureOpening(m) <==> IsNamedGroupToken(m) by {
        if IsNamedCaptureOpening(m) {
          assert m[3] != '=' && m[3] != '!';
        }
      }
    }
  }

  /** A `)` with nothing open is an error and pops nothing. Otherwise it pops
      the innermost group, takes the style of that group's opening, and the
      group can be quantified unless it is a lookaround; a quantifier after
      it takes the group's style. */
  lemma GroupClosing(st: State)
    requires Inv(st)
    ensures var st' := Step(st, ")");
            if st.open == [] then
              st'.output == st.output + One(")", Error(UnbalancedRightParen))
              && st'.open == [] && st'.depth == st.depth && !st'.last.quantifiable
            else
              var top := st.output[st.open[|st.open| - 1].index];
              top.Single?
              && st'.output == st.output + One(")", top.span.style)
              && st'.open == st.open[..|st.open| - 1]
              && (st'.last.quantifiable <==> !IsLookaroundOpening(top.span.text))
              && st'.last.groupDepth == Some(Cycle(|st.open| - 1))
              && DepthMatches(st'.depth, |st'.open|)
  {
    if st.open != [] {
      var k := |st.open| - 1;
      assert WellPlaced(st.output, st.open[k], k);
      GroupTokenNoAmp(st.output[st.open[k].index].span.text);
      CloseGroupInv(st);
    }
  }

  /** An opening followed directly by `)`: the stack, the count of open
      groups and the style depth of the next sibling are as before. */
  lemma EmptyGroup(st: State, m: string)
    requires Inv(st) && IsLexeme(m) && m[0] == '(' && m != "(?"
    ensures var st' := Step(Step(st, m), ")");
            st'.open == st.open
            && st'.output == st.output + One(m, Group(Cycle(|st.open|))) + One(")", Group(Cycle(|st.open|)))
  {
    GroupOpening(st, m);
    StepInv(st, m);
    var s1 := Step(st, m);
    assert s1.output[s1.open[|s1.open| - 1].index] == Single(Span(m, Group(Cycle(|st.open|))));
    GroupClosing(s1);
  }

  // ---------------------------------------------------------------------
  // Numeric escapes
  // ---------------------------------------------------------------------

  /** Printing a number and reading it back gives the number. */
  lemma {:induction false} DecimalValueOf(n: nat)
    ensures AllDigits(Decimal(n)) && DecimalValue(Decimal(n)) == n
    ensures n > 0 ==> Decimal(n) != [] && DigitValue(Decimal(n)[0]) <= n && Decimal(n)[0] != '0'
    decreases n
  {
    if n > 0 {
      DecimalValueOf(n / 10);
      var d := Decimal(n);
      assert d[..|d| - 1] == Decimal(n / 10);
      if n / 10 > 0 {
        assert d[0] == Decimal(n / 10)[0];
      }
    }
  }

  /** `\N...` is a backreference exactly when its first digit is within the
      number of capturing groups opened before it. It then refers to the
      longest prefix of the digits whose value is within that number. */
  lemma NumericBackref(m: string, captures: nat)
    requires |m| >= 2 && m[0] == '\\' && '1' <= m[1] <= '9' && AllDigits(m[1..])
    ensures var head := NumericEscape(m, captures)[0].span;
            NumericEscape(m, captures)[0].Single?
            && (head.style == Backref <==> DigitValue(m[1]) <= captures)
            && (head.style == Backref ==>
                  |head.text| >= 2 && head.text <= m && AllDigits(head.text[1..])
                  && 1 <= DecimalValue(head.text[1..]) <= captures
                  && (|head.text| < |m| ==> DecimalValue(m[1..|head.text| + 1]) > captures))
  {
    var digits := m[1..];
    var (n, rest) := DropDigits(DecimalValue(digits), captures, "");
    DropDigitsSpec(DecimalValue(digits), captures, "");
    DecimalRoundTrip(digits);
    assert Decimal(n) + rest == digits;
    if n > 0 {
      BackrefPrefix(m, captures, n, rest);
      assert NumericEscape(m, captures)[0] == Single(Span("\\" + Decimal(n), Backref));
    } else {
      assert rest == digits;
    }
  }

  lemma BackrefPrefix(m: string, captures: nat, n: nat, rest: string)
    requires |m| >= 2 && m[0] == '\\' && '1' <= m[1] <= '9' && AllDigits(m[1..])
    requires 0 < n <= captures && Decimal(n) + rest == m[1..]
    requires rest != [] ==> IsDigit(rest[0]) && n * 10 + DigitValue(rest[0]) > captures
    ensures var t := "\\" + Decimal(n);
            t <= m && AllDigits(t[1..]) && DecimalValue(t[1..]) == n
            && DigitValue(m[1]) <= n
            && (|t| < |m| ==> DecimalValue(m[1..|t| + 1]) > captures)
  {
    DecimalValueOf(n);
    var d := Decimal(n);
    var t := "\\" + d;
    assert m == t + rest by {
      SplitAt(m, 1);
      assert m[..1] == "\\";
      Assoc("\\", d, rest);
    }
    assert t[1..] == d;
    assert m[1] == d[0];
    if rest != [] {
      var pre := m[1..|t| + 1];
      assert pre == d + [rest[0]] by {
        SliceOfSuffix(m, 1, |t| + 1);
        PrefixOneMore(d, rest);
      }
      assert pre[..|pre| - 1] == d;
    }
  }

  /** The octal escape after `\` is the longest one the digits allow. */
  lemma OctalHead(m: string)
    requires |m| >= 2 && m[0] == '\\' && '1' <= m[1] <= '7'
    ensures var e := OctalEscapeEnd(m);
            2 <= e <= |m| && IsOctalEscape(m[1..e])
            && (e < |m| ==> !IsOctalEscape(m[1..e + 1]))
  {
    var e := OctalEscapeEnd(m);
    var max := if m[1] <= '3' then 2 else 1;
    var o := m[1..e];
    assert AllOctal(o) by {
      forall k | 0 <= k < |o|
        ensures IsOctalDigit(o[k])
      {
        assert o[k] == m[k + 1];
      }
    }
    if e < |m| {
      var o' := m[1..e + 1];
      if e < 2 + max {
        assert o'[|o'| - 1] == m[e];
        assert !IsOctalDigit(o'[|o'| - 1]);
      }
    }
  }

  /** Without a backreference, `\8` and `\9` are escaped literals and any
      other is the longest octal escape (at most three digits, at most 377)
      followed by literal digits. */
  lemma NumericOctal(m: string, captures: nat)
    requires |m| >= 2 && m[0] == '\\' && '1' <= m[1] <= '9' && AllDigits(m[1..])
    requires captures < DigitValue(m[1])
    ensures var ps := NumericEscape(m, captures);
            var head := ps[0].span;
            ps[0].Single? && |head.text| >= 2 && head.text <= m
            && (m[1] in "89" ==> head == Span(m[..2], EscapedLiteral))
            && (m[1] !in "89" ==>
                  head.style == Metasequence && IsOctalEscape(head.text[1..])
                  && (|head.text| < |m| ==> !IsOctalEscape(m[1..|head.text| + 1])))
  {
    NumericBackref(m, captures);
    var (n, rest) := DropDigits(DecimalValue(m[1..]), captures, "");
    assert n == 0;
    if m[1] !in "89" {
      var e := OctalEscapeEnd(m);
      OctalHead(m);
      assert m[..e][1..] == m[1..e];
    }
  }

  /** The escape splits into one styled span and, if digits remain, one run
      of literal digits; together they spell the token. */
  lemma NumericEscapeShape(m: string, captures: nat)
    requires |m| >= 2 && m[0] == '\\' && '1' <= m[1] <= '9' && AllDigits(m[1..])
    ensures var ps := NumericEscape(m, captures);
            ps[0].Single? && 2 <= |ps[0].span.text| <= |m|
            && ps == [ps[0]] + PlainText(m[|ps[0].span.text|..])
  {
    var ps := NumericEscape(m, captures);
    NumericEscapeCover(m, captures);
    var head := ps[0].span;
    if DigitValue(m[1]) <= captures {
      NumericBackref(m, captures);
    } else {
      NumericOctal(m, captures);
    }
    var tail := ps[1..];
    assert ps == [ps[0]] + tail;
    TextAppend([ps[0]], tail);
    OneText(head.text, head.style);
    assert head.text <= m;
    assert Text(tail) == m[|head.text|..];
    if tail != [] {
      assert tail == [Single(Span(tail[0].span.text, Plain))];
      OneText(tail[0].span.text, Plain);
    }
  }

  // ---------------------------------------------------------------------
  // Quantifiers
  // ---------------------------------------------------------------------

  /** The tokens after which a quantifier is an error: a group opening, a
      quantifier, `|`, `^`, `$`, `\b`, `\B` and an incomplete `\c`, `\u` or
      `\x`. The start of the pattern and a closed lookaround are the others. */
  predicate LeavesUnquantifiable(m: string)
    requires m != []
  {
    m[0] == '(' || IsQuantifierToken(m) || m == "|" || m == "^" || m == "$"
    || (|m| >= 2 && m[0] == '\\' && m[1] in "bB")
    || m == "\\c" || m == "\\u" || m == "\\x"
  }

  /** For every token but `)` (see GroupClosing) and a lone trailing `\`
      (which leaves the context as it was), the next token can be quantified
      exactly when the token is not one of the above. */
  lemma QuantifiableAfter(st: State, m: string)
    requires IsLexeme(m) && m != ")" && m != "\\"
    ensures Step(st, m).last.quantifiable <==> !LeavesUnquantifiable(m)
  {
  }

  /** A quantifier token is emitted with its quantifier style. */
  lemma QuantifierStep(st: State, m: string)
    requires IsLexeme(m) && IsQuantifierToken(m)
    ensures Step(st, m) == Emit(st, One(m, QuantifierStyle(st.last, m)), Plainly(false))
  {
    assert m[0] in "*+?{";
  }

  /** A quantifier after a token that cannot be repeated is an error. */
  lemma QuantifierUnquantifiable(st: State, m: string)
    requires IsLexeme(m) && IsQuantifierToken(m) && !st.last.quantifiable
    ensures Step(st, m).output == st.output + One(m, Error(Unquantifiable))
    ensures !Step(st, m).last.quantifiable
  {
    QuantifierStep(st, m);
  }

  /** `?`, `*` and `+` (lazy or not) right after a closed group that is not a
      lookaround take the group's style. */
  /** An interval quantifier with a bound over 65535. */
  predicate IntervalOverflows(q: string)
  {
    Interval(q).Some?
    && (Interval(q).value.lo > 65535
        || (Interval(q).value.hi.Some? && Interval(q).value.hi.value > 65535))
  }

  /** An interval quantifier whose lower bound is above its upper bound. */
  predicate IntervalIsReversed(q: string)
  {
    Interval(q).Some? && Interval(q).value.hi.Some? && Interval(q).value.lo > Interval(q).value.hi.value
  }

  /** Any quantifier right after a group that is not a lookaround takes the
      style of that group, unless it is an interval out of range or
      reversed. */
  lemma QuantifiedGroup(st: State, q: string)
    requires Inv(st) && st.open != []
    requires !IsLookaroundOpening(st.output[st.open[|st.open| - 1].index].span.text)
    requires IsLexeme(q) && IsQuantifierToken(q)
    ensures var st' := Step(Step(st, ")"), q);
            st'.output == Step(st, ")").output
                          + One(q, if IntervalOverflows(q) then Error(IntervalOverflow)
                                   else if IntervalIsReversed(q) then Error(IntervalReversed)
                                   else Quantifier(Cycle(|st.open| - 1)))
  {
    GroupClosing(st);
    var closed := Step(st, ")");
    QuantifierStep(closed, q);
    assert closed.last.quantifiable && DepthOr0(closed.last) == Cycle(|st.open| - 1);
  }

  lemma {:induction false} DigitRunAt(s: string, i: nat, j: nat)
    requires i <= j <= |s| && AllDigits(s[i..j]) && (j < |s| ==> !IsDigit(s[j]))
    ensures DigitRunEnd(s, i) == j
    decreases j - i
  {
    if i < j {
      assert s[i..j][0] == s[i];
      assert s[i + 1..j] == s[i..j][1..];
      DigitRunAt(s, i + 1, j);
    }
  }

  lemma IntervalAt(m: string, lo: string, hi: string)
    requires lo != [] && AllDigits(lo) && AllDigits(hi)
    requires |m| >= |lo| + |hi| + 3 && m[0] == '{'
    requires m[1..1 + |lo|] == lo && m[1 + |lo|] == ','
    requires m[2 + |lo|..2 + |lo| + |hi|] == hi && m[2 + |lo| + |hi|] == '}'
    ensures Interval(m) == Some(Bounds(DecimalValue(lo), if hi == [] then None else Some(DecimalValue(hi))))
  {
    DigitRunAt(m, 1, 1 + |lo|);
    DigitRunAt(m, 2 + |lo|, 2 + |lo| + |hi|);
  }

  lemma IntervalParts(m: string, lo: string, hi: string, tail: string)
    requires m == "{" + lo + "," + hi + "}" + tail
    ensures |m| >= |lo| + |hi| + 3 && m[0] == '{'
    ensures m[1..1 + |lo|] == lo && m[1 + |lo|] == ','
    ensures m[2 + |lo|..2 + |lo| + |hi|] == hi && m[2 + |lo| + |hi|] == '}'
  {
    assert m[1..1 + |lo|] == lo;
    assert m[2 + |lo|..2 + |lo| + |hi|] == hi;
  }

  /** `{lo,hi}` (with or without a trailing `?`) reads as its two bounds; an
      empty upper bound reads as none. */
  lemma IntervalBounds(lo: string, hi: string, tail: string)
    requires lo != [] && AllDigits(lo) && AllDigits(hi)
    ensures Interval("{" + lo + "," + hi + "}" + tail)
            == Some(Bounds(DecimalValue(lo), if hi == [] then None else Some(DecimalValue(hi))))
  {
    var m := "{" + lo + "," + hi + "}" + tail;
    IntervalParts(m, lo, hi, tail);
    IntervalAt(m, lo, hi);
  }

  /** `{n}` reads as a lower bound only. */
  lemma IntervalExact(n: string, tail: string)
    requires n != [] && AllDigits(n)
    ensures Interval("{" + n + "}" + tail) == Some(Bounds(DecimalValue(n), None))
  {
    var m := "{" + n + "}" + tail;
    assert m[1..1 + |n|] == n;
    assert m[1 + |n|] == '}';
    DigitRunAt(m, 1, 1 + |n|);
  }

  /** After a token that can be repeated, an interval with a bound over
      65535 is an overflow error, one with its lower bound above its upper
      bound is reversed, and any other takes the style of the previous
      group (or none). */
  lemma IntervalRule(st: State, lo: string, hi: string, tail: string)
    requires lo != [] && AllDigits(lo) && AllDigits(hi) && st.last.quantifiable
    requires var m := "{" + lo + "," + hi + "}" + tail; IsLexeme(m) && IsQuantifierToken(m)
    ensures var m := "{" + lo + "," + hi + "}" + tail;
            var a, b := DecimalValue(lo), DecimalValue(hi);
            Step(st, m).output == st.output + One(m,
              if a > 65535 || (hi != [] && b > 65535) then Error(IntervalOverflow)
              else if hi != [] && a > b then Error(IntervalReversed)
              else Quantifier(DepthOr0(st.last)))
  {
    var m := "{" + lo + "," + hi + "}" + tail;
    QuantifierStep(st, m);
    IntervalBounds(lo, hi, tail);
    var a, b := DecimalValue(lo), DecimalValue(hi);
    assert QuantifierStyle(st.last, m) ==
      if a > 65535 || (hi != [] && b > 65535) then Error(IntervalOverflow)
      else if hi != [] && a > b then Error(IntervalReversed)
      else Quantifier(DepthOr0(st.last));
  }

  /** After a token that can be repeated, `{n}` with `n` over 65535 is an
      overflow error, and any other takes the style of the previous group
      (or none). */
  lemma IntervalExactRule(st: State, n: string, tail: string)
    requires n != [] && AllDigits(n) && st.last.quantifiable
    requires var m := "{" + n + "}" + tail; IsLexeme(m) && IsQuantifierToken(m)
    ensures var m := "{" + n + "}" + tail;
            Step(st, m).output == st.output + One(m,
              if DecimalValue(n) > 65535 then Error(IntervalOverflow) else Quantifier(DepthOr0(st.last)))
  {
    var m := "{" + n + "}" + tail;
    QuantifierStep(st, m);
    IntervalExact(n, tail);
    assert QuantifierStyle(st.last, m) ==
      if DecimalValue(n) > 65535 then Error(IntervalOverflow) else Quantifier(DepthOr0(st.last));
  }

  // ---------------------------------------------------------------------
  // Alternators
  // ---------------------------------------------------------------------

  lemma EscapeKind(st: State, m: string)
    requires IsLexeme(m) && m[0] == '\\' && m != "\\"
    ensures EscapeStep(st, m).last.kind == Untyped
  {
  }

  lemma GroupKinds(st: State, m: string)
    requires m != [] && m[0] == '('
    ensures OpenGroupStep(st, m).last.kind == Untyped
    ensures CloseGroupStep(st).last.kind == Untyped
  {
  }

  /** Only the start of the pattern has no previous token, and the previous
      token is an alternator exactly after `|`. */
  lemma KindAfter(st: State, m: string)
    requires IsLexeme(m) && m != "\\"
    ensures Step(st, m).last.kind != Initial
    ensures Step(st, m).last.kind == Alternator <==> m == "|"
  {
    var c := m[0];
    var st' := Step(st, m);
    if c == '[' {
      assert st'.last == Plainly(true);
    } else if c == '(' {
      GroupKinds(st, m);
      assert st' == OpenGroupStep(st, m);
    } else if c == ')' {
      GroupKinds(st, "(");
      assert st' == CloseGroupStep(st);
    } else if c == '\\' {
      EscapeKind(st, m);
      assert st' == EscapeStep(st, m);
    } else if IsQuantifierToken(m) {
      QuantifierStep(st, m);
    } else if m == "|" {
      assert st' == AlternatorStep(st);
    } else {
      assert st'.last.kind == Untyped;
    }
    assert c != '|' ==> m != "|";
  }

  /** `|` empties an alternative, and is an error, exactly when it is the
      first token or follows another `|` outside any group. Otherwise it
      takes the style of the innermost open group, or none at top level. */
  lemma AlternatorRule(st: State)
    requires Inv(st)
    ensures Step(st, "|").output == st.output + One("|",
              if st.last.kind == Initial || (st.last.kind == Alternator && st.open == [])
              then Error(ImproperEmptyAlternative)
              else AlternatorStyle(if st.open == [] then 0 else Cycle(|st.open| - 1)))
    ensures Step(st, "|").last.kind == Alternator
  {
    assert IsLexeme("|") && !IsQuantifierToken("|");
  }

  /** The walk only appends to the output. */
  lemma {:induction false} RunExtends(s: string, pos: nat, st: State)
    requires pos <= |s|
    ensures st.output <= Run(s, pos, st).output
    decreases |s| - pos
  {
    if pos < |s| {
      var e := TokenEnd(s, pos);
      LexemeAt(s, pos);
      var st' := Step(st, s[pos..e]);
      StepCover(st, s[pos..e]);
      RunExtends(s, e, st');
    }
  }

  /** A pattern starting with `|` shows that `|` as an error. */
  lemma LeadingAlternator(s: string)
    requires s != [] && s[0] == '|'
    ensures Colorized(s) != [] && Colorized(s)[0] == Single(Span("|", Error(ImproperEmptyAlternative)))
  {
    var e := TokenEnd(s, 0);
    LexemeAt(s, 0);
    assert s[0..e] == "|";
    var st1 := Step(Init, "|");
    assert st1.output == One("|", Error(ImproperEmptyAlternative));
    assert Run(s, 0, Init) == Run(s, e, st1);
    RunExtends(s, e, st1);
    var st := Run(s, 0, Init);
    RunInv(s, 0, Init);
    PatchSpec(st.output, st.open);
  }

  // ---------------------------------------------------------------------
  // The patch on the markup
  // ---------------------------------------------------------------------

  /** `to.group.openingTagLength` */
  const OpeningTagLength := 14

  /** What each patch adds to the markup: the length of an empty
      unclosed-group error tag, which the source computes each round. */
  const PatchGrowth := 45

  lemma ErrorTagLength()
    ensures |ErrorHtml("", UnbalancedLeftParen)| == PatchGrowth
  {
  }

  lemma {:induction false} PatchSnoc(out: seq<Piece>, gs: seq<OpenGroup>, g: OpenGroup)
    requires PatchPre(out, gs)
    requires g.index < |out|
    ensures |Patch(out, gs)| == |out|
    ensures Patch(out, gs + [g]) == Patch(out, gs)[g.index := Unclosed(Patch(out, gs)[g.index])]
    decreases |gs|
  {
    PatchSpec(out, gs);
    if gs != [] {
      var i := gs[0].index;
      var out' := out[i := Unclosed(out[i])];
      assert (gs + [g])[1..] == gs[1..] + [g];
      assert forall k :: 0 <= k < |gs[1..]| ==> gs[1..][k] == gs[k + 1];
      PatchSnoc(out', gs[1..], g);
    } else {
      assert [g][1..] == [];
    }
  }

  /** Marking an opening `<b class="gN">t</b>` as unclosed puts the error
      markup around `t`, inside the group tag. */
  lemma UnclosedMarkup(t: string, d: int)
    ensures RenderPiece(Unclosed(Single(Span(t, Group(d)))))
            == GroupOpeningTag(d) + ErrorHtml(ExpandEntities(t), UnbalancedLeftParen) + "</b>"
    ensures |RenderPiece(Unclosed(Single(Span(t, Group(d)))))|
            == |RenderPiece(Single(Span(t, Group(d))))| + PatchGrowth
  {
  }

  /** Patching openings that all lie before `i` grows the markup before `i`
      by one error tag each and leaves the pieces from `i` on alone. */
  lemma {:induction false} PatchPrefix(out: seq<Piece>, gs: seq<OpenGroup>, i: nat)
    requires i <= |out| && Ordered(gs)
    requires forall k :: 0 <= k < |gs| ==> gs[k].index < i
    requires forall k :: 0 <= k < |gs| ==> out[gs[k].index].Single? && out[gs[k].index].span.style.Group?
    ensures |Patch(out, gs)| == |out|
    ensures |Render(Patch(out, gs)[..i])| == |Render(out[..i])| + |gs| * PatchGrowth
    ensures Patch(out, gs)[i..] == out[i..]
    decreases |gs|
  {
    if gs != [] {
      var gs' := gs[..|gs| - 1];
      var g := gs[|gs| - 1];
      assert gs == gs' + [g];
      PatchPrefix(out, gs', i);
      PatchSnoc(out, gs', g);
      var q := Patch(out, gs');
      var j := g.index;
      assert q[j] == out[j] by {
        PatchSpec(out, gs');
        assert !IsOpenIndex(gs', j);
      }
      var q' := q[j := Unclosed(q[j])];
      assert Patch(out, gs) == q';
      var u := q[..i];
      assert q'[..i] == u[j := Unclosed(u[j])];
      UnclosedGrowth(u, j);
      MulSucc(|gs'|, PatchGrowth);
      assert q'[i..] == q[i..];
    } else {
      assert Patch(out, gs) == out;
    }
  }

  /** Marking one group opening as unclosed adds one error tag. */
  lemma UnclosedGrowth(u: seq<Piece>, j: nat)
    requires j < |u| && u[j].Single? && u[j].span.style.Group?
    ensures |Render(u[j := Unclosed(u[j])])| == |Render(u)| + PatchGrowth
  {
    var u' := u[j := Unclosed(u[j])];
    RenderAround(u, j);
    RenderAround(u', j);
    assert u[..j] == u'[..j];
    assert u[j + 1..] == u'[j + 1..];
    UnclosedMarkup(u[j].span.text, u[j].span.style.depth);
  }

  lemma MulSucc(n: nat, g: nat)
    ensures (n + 1) * g == n * g + g
  {
  }

  lemma Regroup(a: string, b: string, e: string, f: string, c: string)
    ensures a + (b + e + f) + c == a + b + e + (f + c)
  {
  }

  /** Replacing the middle part `o` of `a + tag + o + close` by `e`. */
  lemma SpliceText(a: string, tag: string, o: string, close: string, e: string)
    ensures var h := a + tag + o + close;
            var x := |a| + |tag|;
            x + |o| <= |h| && h[..x] + e + h[x + |o|..] == a + tag + e + close
  {
    var h := a + tag + o + close;
    var x := |a| + |tag|;
    assert h[..x] == a + tag;
    assert h[x + |o|..] == close;
  }

  /** `after` is `before` with the text `o` at offset `x` replaced by the
      error markup of an unclosed group. */
  predicate Spliced(before: string, x: nat, o: string, after: string)
  {
    x + |o| <= |before|
    && before[..x] + ErrorHtml(o, UnbalancedLeftParen) + before[x + |o|..] == after
  }

  /** One round of the patch loop on the markup: cutting the opening's text
      at its offset and putting the error markup in its place gives the
      markup of the pieces with that opening marked as unclosed. */
  lemma SpliceGroup(p: seq<Piece>, i: nat, t: string, d: int, x: nat, o: string)
    requires i < |p| && p[i] == Single(Span(t, Group(d)))
    requires x == |Render(p[..i])| + OpeningTagLength && o == ExpandEntities(t)
    ensures Spliced(Render(p), x, o, Render(p[i := Unclosed(p[i])]))
  {
    var a := Render(p[..i]);
    var c := Render(p[i + 1..]);
    var tag := GroupOpeningTag(d);
    var e := ErrorHtml(o, UnbalancedLeftParen);
    var p' := p[i := Unclosed(p[i])];
    assert Render(p) == a + tag + o + ("</b>" + c) by {
      RenderAround(p, i);
      assert RenderPiece(p[i]) == tag + o + "</b>";
      Regroup(a, tag, o, "</b>", c);
    }
    GroupOpeningTagLength(d);
    SpliceText(a, tag, o, "</b>" + c, e);
    assert Render(p') == a + tag + e + ("</b>" + c) by {
      RenderAround(p', i);
      assert p'[..i] == p[..i] && p'[i + 1..] == p[i + 1..];
      UnclosedMarkup(t, d);
      Regroup(a, tag, e, "</b>", c);
    }
  }

  lemma PlacedBounds(out: seq<Piece>, open: seq<OpenGroup>)
    requires AllPlaced(out, open)
    ensures PatchPre(out, open)
  {
    forall k | 0 <= k < |open|
      ensures open[k].index < |out|
    {
      assert WellPlaced(out, open[k], k);
    }
  }

  /** The groups opened before the j-th lie before it and are all shown as
      group openings. */
  lemma EarlierGroups(out: seq<Piece>, open: seq<OpenGroup>, j: nat)
    requires AllPlaced(out, open) && Ordered(open) && j < |open|
    ensures var done := open[..j];
            forall k :: 0 <= k < |done| ==>
              done[k].index < open[j].index
              && out[done[k].index].Single? && out[done[k].index].span.style.Group?
  {
    var done := open[..j];
    forall k | 0 <= k < |done|
      ensures done[k].index < open[j].index
      ensures out[done[k].index].Single? && out[done[k].index].span.style.Group?
    {
      assert done[k] == open[k];
      assert WellPlaced(out, open[k], k);
    }
  }

  /** Before the j-th round, the j-th opening is still a group opening,
      the markup before it has grown by one error tag per earlier round, and
      the round marks it as unclosed. */
  lemma PatchRoundPieces(out: seq<Piece>, open: seq<OpenGroup>, j: nat)
    requires AllPlaced(out, open) && Ordered(open) && j < |open| && PatchPre(out, open)
    ensures PatchPre(out, open[..j]) && PatchPre(out, open[..j + 1])
    ensures var p := Patch(out, open[..j]);
            var i := open[j].index;
            var t := out[i].span.text;
            i < |p| == |out| && out[i].Single?
            && p[i] == Single(Span(t, Group(Cycle(j))))
            && |Render(p[..i])| == |Render(out[..i])| + j * PatchGrowth
            && Patch(out, open[..j + 1]) == p[i := Unclosed(p[i])]
            && open[j].opening == ExpandEntities(t)
  {
    var i := open[j].index;
    var done := open[..j];
    assert WellPlaced(out, open[j], j);
    assert open[..j + 1] == done + [open[j]];
    EarlierGroups(out, open, j);
    PatchPrefix(out, done, i);
    var p := Patch(out, done);
    assert p[i..][0] == out[i..][0];
    PatchSnoc(out, done, open[j]);
  }

  /** One round of the patch loop on the markup of the walk: the offset the
      source computes (the recorded offset plus what earlier rounds added)
      is where the j-th open group's text is, and splicing the error markup
      in there marks that group as unclosed. */
  lemma PatchRound(out: seq<Piece>, open: seq<OpenGroup>, j: nat, x: nat)
    requires AllPlaced(out, open) && Ordered(open) && j < |open| && PatchPre(out, open)
    requires open[j].index <= |out| && x == |Render(out[..open[j].index])| + OpeningTagLength + j * PatchGrowth
    ensures PatchPre(out, open[..j]) && PatchPre(out, open[..j + 1])
    ensures Spliced(Render(Patch(out, open[..j])), x, open[j].opening, Render(Patch(out, open[..j + 1])))
  {
    PatchRoundPieces(out, open, j);
    var p := Patch(out, open[..j]);
    var i := open[j].index;
    SpliceGroup(p, i, out[i].span.text, Cycle(j), x, open[j].opening);
    assert Render(Patch(out, open[..j + 1])) == Render(p[i := Unclosed(p[i])]);
  }

  // ---------------------------------------------------------------------
  // The main loop
  // ---------------------------------------------------------------------

  /** The offsets the source records for the open groups: just past the
      opening tag of each group's span in the markup. */
  predicate Offsets(pieces: seq<Piece>, open: seq<OpenGroup>, offsets: seq<OpenGroup>)
  {
    |offsets| == |open|
    && forall k :: 0 <= k < |open| ==>
         open[k].index <= |pieces|
         && offsets[k] == OpenGroup(|Render(pieces[..open[k].index])| + OpeningTagLength, open[k].opening)
  }

  lemma OffsetsExtend(pieces: seq<Piece>, added: seq<Piece>, open: seq<OpenGroup>, offsets: seq<OpenGroup>)
    requires Offsets(pieces, open, offsets)
    ensures Offsets(pieces + added, open, offsets)
  {
    forall k | 0 <= k < |open|
      ensures (pieces + added)[..open[k].index] == pieces[..open[k].index]
    {
    }
  }

  lemma OffsetsPush(pieces: seq<Piece>, open: seq<OpenGroup>, offsets: seq<OpenGroup>, opening: string)
    requires Offsets(pieces, open, offsets)
    ensures Offsets(pieces, open + [OpenGroup(|pieces|, opening)],
                    offsets + [OpenGroup(|Render(pieces)| + OpeningTagLength, opening)])
  {
    assert pieces[..|pieces|] == pieces;
  }

  lemma OffsetsPop(pieces: seq<Piece>, open: seq<OpenGroup>, offsets: seq<OpenGroup>)
    requires Offsets(pieces, open, offsets) && open != []
    ensures Offsets(pieces, open[..|open| - 1], offsets[..|offsets| - 1])
  {
  }

  /** The `\N...` branch: the digit-dropping loop, then the backreference,
      the escaped `8`/`9` or the octal escape, each followed by the literal
      digits left over. */
  method ResolveNumericEscape(m: string, capturingGroupCount: nat) returns (added: seq<Piece>)
    requires |m| >= 2 && m[0] == '\\' && '1' <= m[1] <= '9' && AllDigits(m[1..])
    ensures added == NumericEscape(m, capturingGroupCount)
  {
    var nonBackrefDigits := "";
    var num: nat := DecimalValue(m[1..]);
    while num > capturingGroupCount
      invariant DropDigits(num, capturingGroupCount, nonBackrefDigits)
                == DropDigits(DecimalValue(m[1..]), capturingGroupCount, "")
      decreases num
    {
      nonBackrefDigits := [DigitChar(num % 10)] + nonBackrefDigits;
      num := num / 10;
    }
    if num > 0 {
      added := [Single(Span("\\" + Decimal(num), Backref))] + PlainText(nonBackrefDigits);
    } else if m[1] in "89" {
      added := [Single(Span(m[..2], EscapedLiteral))] + PlainText(m[2..]);
    } else {
      var escapedNum := OctalEscapeEnd(m);
      added := [Single(Span(m[..escapedNum], Metasequence))] + PlainText(m[escapedNum..]);
    }
  }

  /** The escape branch: what it shows, and the context it leaves (a lone
      trailing `\` leaves the context as it was). */
  method EscapeToken(m: string, capturingGroupCount: nat, lastToken: Context, ghost st: State)
    returns (added: seq<Piece>, last: Context)
    requires IsLexeme(m) && m[0] == '\\'
    requires st.captures == capturingGroupCount && st.last == lastToken
    ensures EscapeStep(st, m) == st.(output := st.output + added, last := last)
  {
    if |m| > 1 && '1' <= m[1] <= '9' {
      added := ResolveNumericEscape(m, capturingGroupCount);
      last := Plainly(true);
    } else if |m| > 2 && m[1] == 'k' {
      added := One(m, Backref);
      last := Plainly(true);
    } else if |m| > 1 && m[1] in "0bBcdDfnrsStuvwWx" {
      if m == "\\c" || m == "\\u" || m == "\\x" {
        added := One(m, Error(IncompleteToken));
        last := Plainly(false);
      } else if m[1] in "bB" {
        added := One(m, Metasequence);
        last := Plainly(false);
      } else {
        added := One(m, Metasequence);
        last := Plainly(true);
      }
    } else if m == "\\" {
      added := One(m, Error(IncompleteToken));
      last := lastToken;
    } else {
      added := One(m, EscapedLiteral);
      last := Plainly(true);
    }
  }

  /** The branches for a quantifier, `|`, `^`, `$`, `.` and a literal run. */
  method OtherToken(m: string, groupStyleDepth: int, hasOpenGroups: bool, lastToken: Context, ghost st: State)
    returns (added: seq<Piece>, last: Context)
    requires IsLexeme(m) && m[0] !in "[()\\"
    requires st.depth == groupStyleDepth && hasOpenGroups == (st.open != []) && st.last == lastToken
    ensures Step(st, m) == st.(output := st.output + added, last := last)
  {
    if IsQuantifierToken(m) {
      if lastToken.quantifiable {
        var interval := Interval(m);
        if interval.Some? && (interval.value.lo > 65535
                              || (interval.value.hi.Some? && interval.value.hi.value > 65535)) {
          added := One(m, Error(IntervalOverflow));
        } else if interval.Some? && interval.value.hi.Some? && interval.value.lo > interval.value.hi.value {
          added := One(m, Error(IntervalReversed));
        } else {
          added := One(m, Quantifier(DepthOr0(lastToken)));
        }
      } else {
        added := One(m, Error(Unquantifiable));
      }
      last := Plainly(false);
    } else if m == "|" {
      if lastToken.kind == Initial || (lastToken.kind == Alternator && !hasOpenGroups) {
        added := One(m, Error(ImproperEmptyAlternative));
      } else {
        added := One(m, AlternatorStyle(if hasOpenGroups then groupStyleDepth else 0));
      }
      last := Context(false, Alternator, None);
    } else if m == "^" || m == "$" {
      added := One(m, Metasequence);
      last := Plainly(false);
    } else if m == "." {
      added := One(m, Metasequence);
      last := Plainly(true);
    } else {
      added := One(m, Plain);
      last := Plainly(true);
    }
  }

  /** A round of the patch loop in terms of the recorded offsets. */
  lemma MarkRound(pieces: seq<Piece>, groups: seq<OpenGroup>, openGroups: seq<OpenGroup>, j: nat)
    requires AllPlaced(pieces, groups) && Ordered(groups) && Offsets(pieces, groups, openGroups)
    requires j < |groups|
    ensures PatchPre(pieces, groups[..j]) && PatchPre(pieces, groups[..j + 1])
    ensures Spliced(Render(Patch(pieces, groups[..j])), openGroups[j].index + j * PatchGrowth,
                    openGroups[j].opening, Render(Patch(pieces, groups[..j + 1])))
  {
    assert openGroups[j] == OpenGroup(|Render(pieces[..groups[j].index])| + OpeningTagLength, groups[j].opening);
    PlacedBounds(pieces, groups);
    PatchRound(pieces, groups, j, openGroups[j].index + j * PatchGrowth);
  }

  /** The `(` branch: an empty `(?` is an error; any other opening bumps the
      capture count when it captures, steps the depth and records where its
      text starts in the markup. */
  method OpenGroupToken(m: string, capturingGroupCount: nat, groupStyleDepth: int,
                        openGroups: seq<OpenGroup>, outputLength: nat, ghost st: State)
    returns (added: seq<Piece>, count: nat, depth: int, offsets: seq<OpenGroup>, ghost open: seq<OpenGroup>)
    requires IsLexeme(m) && m[0] == '('
    requires st.captures == capturingGroupCount && st.depth == groupStyleDepth
    requires Offsets(st.output, st.open, openGroups) && outputLength == |Render(st.output)|
    ensures OpenGroupStep(st, m) == State(st.output + added, count, depth, open, Plainly(false))
    ensures Offsets(st.output + added, open, offsets)
  {
    count, depth, offsets, open := capturingGroupCount, groupStyleDepth, openGroups, st.open;
    if |m| == 2 {
      added := One(m, Error(InvalidGroupType));
    } else {
      if IsCapturingOpening(m) {
        count := count + 1;
      }
      depth := if groupStyleDepth == 5 then 1 else groupStyleDepth + 1;
      OffsetsPush(st.output, st.open, openGroups, ExpandEntities(m));
      offsets := openGroups + [OpenGroup(outputLength + OpeningTagLength, ExpandEntities(m))];
      open := st.open + [OpenGroup(|st.output|, ExpandEntities(m))];
      added := One(m, Group(depth));
    }
    OffsetsExtend(st.output, added, open, offsets);
  }

  /** The `)` branch: with no open group it is an error; otherwise it takes
      the style of its opening, pops it and is quantifiable unless the
      opening was a lookaround. */
  method CloseGroupToken(groupStyleDepth: int, openGroups: seq<OpenGroup>, lastToken: Context, ghost st: State)
    returns (added: seq<Piece>, depth: int, offsets: seq<OpenGroup>, last: Context, ghost open: seq<OpenGroup>)
    requires st.depth == groupStyleDepth && Offsets(st.output, st.open, openGroups) && st.last == lastToken
    ensures CloseGroupStep(st) == State(st.output + added, st.captures, depth, open, last)
    ensures Offsets(st.output + added, open, offsets)
  {
    if openGroups == [] {
      added := One(")", Error(UnbalancedRightParen));
      depth, offsets, last, open := groupStyleDepth, openGroups, Plainly(false), st.open;
    } else {
      added := One(")", Group(groupStyleDepth));
      var top := openGroups[|openGroups| - 1];
      last := Context(!IsLookaroundOpening(CollapseEntities(top.opening)), Untyped, Some(groupStyleDepth));
      depth := if groupStyleDepth == 1 then 5 else groupStyleDepth - 1;
      OffsetsPop(st.output, st.open, openGroups);
      offsets := openGroups[..|openGroups| - 1];
      open := st.open[..|st.open| - 1];
    }
    OffsetsExtend(st.output, added, open, offsets);
  }

  /** The patch loop: for each group left open, in opening order, cut its
      opening text out of the markup at its recorded offset plus what
      earlier rounds added, and put the error markup in its place. */
  method MarkUnclosed(html: string, openGroups: seq<OpenGroup>, ghost pieces: seq<Piece>, ghost groups: seq<OpenGroup>)
    returns (output: string)
    requires html == Render(pieces)
    requires AllPlaced(pieces, groups) && Ordered(groups) && Offsets(pieces, groups, openGroups)
    ensures PatchPre(pieces, groups) && output == Render(Patch(pieces, groups))
  {
    PlacedBounds(pieces, groups);
    output := html;
    var numCharsAdded := 0;
    var j := 0;
    assert groups[..0] == [];
    while j < |openGroups|
      invariant j <= |openGroups| == |groups|
      invariant output == Render(Patch(pieces, groups[..j]))
      invariant numCharsAdded == j * PatchGrowth
    {
      MarkRound(pieces, groups, openGroups, j);
      var errorIndex := openGroups[j].index + numCharsAdded;
      assert Spliced(output, errorIndex, openGroups[j].opening, Render(Patch(pieces, groups[..j + 1])));
      output := output[..errorIndex] + ErrorHtml(openGroups[j].opening, UnbalancedLeftParen)
                + output[errorIndex + |openGroups[j].opening|..];
      ErrorTagLength();
      numCharsAdded := numCharsAdded + |ErrorHtml("", UnbalancedLeftParen)|;
      j := j + 1;
    }
    assert groups[..j] == groups;
  }

  /** colorizeText: one pass over the tokens building the markup, then the
      patch loop over the groups left open, then line breaks. The result is
      the markup of the colorized pattern. */
  method ColorizeText(pattern: string) returns (html: string)
    ensures html == LineBreaks(Render(Colorized(pattern)))
  {
    var output := "";
    var capturingGroupCount: nat := 0;
    var groupStyleDepth := 0;
    var openGroups: seq<OpenGroup> := [];
    var lastToken := Start;
    ghost var pieces: seq<Piece> := [];
    ghost var groups: seq<OpenGroup> := [];
    var pos := 0;
    while pos < |pattern|
      invariant pos <= |pattern|
      invariant output == Render(pieces)
      invariant Inv(State(pieces, capturingGroupCount, groupStyleDepth, groups, lastToken))
      invariant Run(pattern, pos, State(pieces, capturingGroupCount, groupStyleDepth, groups, lastToken))
                == Run(pattern, 0, Init)
      invariant Offsets(pieces, groups, openGroups)
      decreases |pattern| - pos
    {
      var e := TokenEnd(pattern, pos);
      var m := pattern[pos..e];
      LexemeAt(pattern, pos);
      ghost var st := State(pieces, capturingGroupCount, groupStyleDepth, groups, lastToken);
      assert Run(pattern, pos, st) == Run(pattern, e, Step(st, m));
      StepInv(st, m);
      var added: seq<Piece>;
      if m[0] == '[' {
        var spans := ParseCharClass(m);
        added := [CharClass(spans)];
        lastToken := Plainly(true);
        OffsetsExtend(pieces, added, groups, openGroups);
      } else if m[0] == '(' {
        added, capturingGroupCount, groupStyleDepth, openGroups, groups :=
          OpenGroupToken(m, capturingGroupCount, groupStyleDepth, openGroups, |output|, st);
        lastToken := Plainly(false);
      } else if m[0] == ')' {
        added, groupStyleDepth, openGroups, lastToken, groups :=
          CloseGroupToken(groupStyleDepth, openGroups, lastToken, st);
      } else if m[0] == '\\' {
        added, lastToken := EscapeToken(m, capturingGroupCount, lastToken, st);
        OffsetsExtend(pieces, added, groups, openGroups);
      } else {
        added, lastToken := OtherToken(m, groupStyleDepth, openGroups != [], lastToken, st);
        OffsetsExtend(pieces, added, groups, openGroups);
      }
      RenderAppend(pieces, added);
      output := output + Render(added);
      pieces := pieces + added;
      assert State(pieces, capturingGroupCount, groupStyleDepth, groups, lastToken) == Step(st, m);
      pos := e;
    }
    output := MarkUnclosed(output, openGroups, pieces, groups);
    html := LineBreaks(output);
  }
}
