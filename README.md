# Regex Colorizer in Dafny

Regex Colorizer turns a JavaScript regular expression pattern into HTML that
highlights its syntax. Each token gets a style: group openings and closings
take one of five cycling group colours, quantifiers and alternators take the
colour of the group they belong to, and character classes are highlighted
inside their `<i>` wrapper. Constructs that are unsupported or wrong are shown
as errors with a title that explains the problem.

This project models the core of `regex-colorizer.js`:

- **Lexer** (`lexer.dfy`): the two token grammars, written as first-match
  scanners over the pattern's characters:
  - the main token grammar, with the pattern's alternatives tried in order;
  - the character-class interior grammar;
  - the split of a class into opening, body and closing.
- **CharCode** (`char_code.dfy`): `getTokenCharCode`, the decoder from a class
  token to an optional character code. `NaN` is `None`.
- **Html** (`html.dfy`):
  - `expandEntities` and `collapseEntities`;
  - the `to.*` markup helpers, with the source's exact tags and messages;
  - `to.group.openingTagLength`;
  - the final `\r?\n` to `<br>` replacement.
- **CharClass** (`char_class.dfy`): `parseCharClass`. It is a method with the
  source's loop. It is proved equal to `ClassSpans`, a fold over the class
  tokens in which each `-` looks ahead at the token after it.
- **Colorizer** (`colorizer.dfy`): `colorizeText`.
  - `ColorizeText` is a method with the source's loop and state: the HTML
    string `output`, `capturingGroupCount`, the cyclic `groupStyleDepth`, the
    `openGroups` stack of HTML offsets and `lastToken`.
  - The `\N...` case runs the source's digit-dropping loop.
  - At the end, the patch loop uses `numCharsAdded` to shift each recorded
    offset. It splices the error markup into the string.
  - The method is proved to produce the rendering of `Colorized(pattern)`.
    `Colorized` walks the tokens over abstract styled spans (`Step`, `Run`),
    then marks the groups left open (`Patch`).
  - Every colorizer property below is proved about that walk.

The abstract output is a sequence of pieces. A piece is one styled span of
pattern text, or a whole character class made of such spans. `Render` turns
the pieces into the source's markup.

## Model

| member | source | states |
|---|---|---|
| Lexer.TokenEnd | regex-colorizer.js:17 | every token of the main grammar is non-empty and stays inside the pattern |
| Lexer.TokensCover | regex-colorizer.js:17 | the tokens of the main grammar are non-empty and contiguous, and their concatenation is the whole rest of the pattern |
| Lexer.LexemeAt | regex-colorizer.js:17 | every token the scanner cuts is non-empty; one starting with `[` is a whole class token, one starting with `(` a whole group opening, one starting with `)` is that character alone, and one starting with a backslash and a non-zero digit is followed only by digits |
| Lexer.TokenShapeAt | regex-colorizer.js:17 | every token the scanner cuts has the shape of one of the grammar's alternatives: a class; a lone backslash or a backslash and one character; an octal escape `\0` with up to two more octal digits, the first limited to 0-3 when two follow; a backslash, a non-zero digit and digits; `\x` with two hex digits; `\u` with four; `\c` with a letter; `\k<name>`; a group opening; a quantifier `?`, `*`, `+` or an interval with at most one comma, each optionally followed by `?`; a run of non-special characters; or a single character |
| Lexer.ClassTokenSplits | regex-colorizer.js:17-19 | every `[` token the main grammar cuts splits into an opening, a body and a closing as the class-parts grammar demands |
| Lexer.SplitClass | regex-colorizer.js:19 | the opening is `[` or `[^`, the closing is `]` or empty, and the three parts concatenate to the token |
| Lexer.ClassTokensCover | regex-colorizer.js:18 | the class-interior tokens are non-empty and concatenate to the class body |
| Lexer.ClassBodyEndSlice | regex-colorizer.js:19 | the end of a class body found within a slice is the end found in the whole pattern, shifted |
| CharCode.ControlCodeRange | regex-colorizer.js:91-94 | `\cX` for a letter X has a code between 1 and 26 |
| CharCode.HexCodeRange | regex-colorizer.js:95-98 | `\xHH` has a code of at most 255 and `\uHHHH` one of at most 65535 |
| CharCode.HexEscapeRoundTrip | regex-colorizer.js:95-98 | writing a code as `\xHH` (for codes up to 255) or `\uHHHH` and decoding it gives the code back |
| CharCode.OctalCodeRange | regex-colorizer.js:99-102 | a one- to three-digit octal escape has a code of at most 255 (`\377`) |
| CharCode.NoCodeTokens | regex-colorizer.js:103-106 | `\c`, `\u`, `\x`, the shorthand classes `\d\D\s\S\w\W` and a lone `\` have no code (`NaN`) |
| CharCode.SingleLetterCodes | regex-colorizer.js:107-117 | `\b \f \n \r \t \v` decode to 8, 12, 10, 13, 9 and 11 |
| Html.CollapseExpand | regex-colorizer.js:68-79 | collapsing the entities of an expanded string gives the string back when it has no `&` |
| Html.GroupOpeningTagLength | regex-colorizer.js:55-61 | the opening tag of a group is 14 characters long at every depth, the constant the recorded offsets add |
| Html.RenderAppend | regex-colorizer.js:46-60 | the markup of two runs of pieces is the concatenation of their markups, as the source's `output +=` builds it |
| Html.LineBreaksSpec | regex-colorizer.js:474 | no line feed is left after the `<br>` replacement, and text without line feeds is unchanged |
| CharClass.ClassTokenStep | regex-colorizer.js:144-235 | one loop iteration of `parseCharClass`, with all its branches, yields exactly the span and `lastToken` of the specification fold |
| CharClass.ParseCharClass | regex-colorizer.js:134-244 | the loop over the class tokens with its `lastToken` produces exactly the spans of the specification fold, wrapped in the boundaries or the unclosed-class error |
| CharClass.ClassStepText | regex-colorizer.js:144-235 | each class token is shown with its own text |
| CharClass.ClassFoldTokens | regex-colorizer.js:142-236 | the class body yields one span per token, each spelling its token, and together they spell the body |
| CharClass.ClassSpansCover | regex-colorizer.js:134-244 | the spans of a class spell the class token exactly |
| CharClass.ClassBoundaries | regex-colorizer.js:238-242 | a closed class starts and ends with boundary spans; an unclosed one starts with its opening as an "Unclosed character class" error, and a class is unclosed exactly when the grammar found no `]` |
| CharClass.HyphenRule | regex-colorizer.js:187-227 | a `-` is an invalid range exactly when the previous token is rangeable, a next token exists, and the codes are reversed or a shorthand class is on either side; it is literal exactly when the previous token is not rangeable or it ends a closed class; otherwise it is a range |
| CharClass.LeadingHyphenIsLiteral | regex-colorizer.js:221-226 | a `-` at the start of a class body is a literal |
| CharClass.ClosedClass | regex-colorizer.js:238-239 | a closed class is its boundaries around the fold of its body |
| CharClass.LiteralPairRange | regex-colorizer.js:187-210 | in `[a-b]`, the hyphen is a range when `a <= b` and an invalid range when `a > b` |
| CharClass.ShorthandStartsNoRange | regex-colorizer.js:164-173 | in `[\d-b]`, the hyphen after a shorthand class is an invalid range |
| CharClass.ShorthandEndsNoRange | regex-colorizer.js:196-202 | in `[a-\d]`, the hyphen before a shorthand class is an invalid range |
| Colorizer.ColorizeText | regex-colorizer.js:255-475 | the token loop, the patch loop and the line-break replacement produce the markup of the colorized pattern |
| Colorizer.OpenGroupToken | regex-colorizer.js:278-300 | the group-opening branch makes exactly the walk's step: `(?` is an error that changes nothing; any other opening bumps the capture count when it captures, steps the depth, and records the offset of its text (output length plus 14) |
| Colorizer.CloseGroupToken | regex-colorizer.js:302-321 | the group-closing branch makes exactly the walk's step: with no open group it is an error; otherwise it takes the group's style, pops the stack, steps the depth back and remembers whether the group was a lookaround |
| Colorizer.EscapeToken | regex-colorizer.js:323-405 | the escape branch makes exactly the walk's step for backreferences, named backreferences, metasequences, a trailing `\` and escaped literals |
| Colorizer.OtherToken | regex-colorizer.js:406-459 | the branches for quantifiers, alternators, anchors, `.` and literal runs make exactly the walk's step |
| Colorizer.ResolveNumericEscape | regex-colorizer.js:325-356 | the digit-dropping loop and the branches after it give exactly the specification's split of `\N...` |
| Colorizer.MarkUnclosed | regex-colorizer.js:462-472 | splicing the error markup at each recorded offset plus `numCharsAdded`, in opening order, gives the markup of the output with every open group marked unclosed |
| Colorizer.MarkRound | regex-colorizer.js:464-471 | one round of the patch loop replaces exactly the recorded opening text, at its offset shifted by earlier rounds, with its error markup |
| Colorizer.PatchRound | regex-colorizer.js:464-471 | the same splice stated over the abstract output: marking the next open group is the string splice at its shifted offset |
| Colorizer.PatchPrefix | regex-colorizer.js:464-471 | marking groups that all lie before a point adds a fixed number of characters per group before that point and changes nothing after it |
| Colorizer.SpliceGroup | regex-colorizer.js:465-470 | replacing a group's text, inside its tag, with the error markup is exactly the string splice at the text's offset |
| Colorizer.UnclosedMarkup | regex-colorizer.js:466-470 | an unclosed group is shown as the error markup inside the group tag, and is longer by the error tag's length |
| Colorizer.ErrorTagLength | regex-colorizer.js:471 | `numCharsAdded` grows by the length of the empty error markup each round |
| Colorizer.PatchSpec | regex-colorizer.js:462-472 | the patch marks exactly the recorded openings, keeps every other piece, and leaves the text unchanged |
| Colorizer.PatchMarks | regex-colorizer.js:462-472 | after the patch, a piece is an unclosed-group error exactly when it is a recorded opening, and the k-th open group keeps its text in the style of nesting level k |
| Colorizer.ColorizedUnclosed | regex-colorizer.js:462-472 | in the final output, the unclosed-group errors are exactly the group openings still on the stack after the walk, each in the style of its nesting level; when every group was closed the output is the walk's output unchanged |
| Colorizer.ColorizedCover | regex-colorizer.js:255-475 | the colorized output spells the pattern exactly |
| Colorizer.RunCover | regex-colorizer.js:265-460 | the walk from any point appends output that spells the rest of the pattern |
| Colorizer.StepCover | regex-colorizer.js:267-459 | each token's output extends the output so far and spells the token |
| Colorizer.RunExtends | regex-colorizer.js:265-460 | the walk only ever appends to the output |
| Colorizer.RunInv | regex-colorizer.js:255-460 | the walk keeps its invariant: the depth is 0 or 5 with no open group and otherwise the style of the innermost level (1..5); each stack entry points at its opening's span; the entries are in output order; every depth shown is 0..5; the capture count is the number of capturing openings shown so far |
| Colorizer.StepInv | regex-colorizer.js:267-459 | every token keeps that invariant |
| Colorizer.OpenGroupInv | regex-colorizer.js:278-300 | a group opening keeps the invariant |
| Colorizer.CloseGroupInv | regex-colorizer.js:302-321 | a group closing keeps the invariant |
| Colorizer.EscapeInv | regex-colorizer.js:323-405 | an escape keeps the invariant |
| Colorizer.OtherInv | regex-colorizer.js:406-459 | quantifiers, alternators, anchors, `.` and literals keep the invariant |
| Colorizer.PushPlaced | regex-colorizer.js:291-294 | pushing the newly shown opening keeps every stack entry placed and in order |
| Colorizer.PopPlaced | regex-colorizer.js:320 | popping the innermost group keeps the rest placed and in order |
| Colorizer.CycleSteps | regex-colorizer.js:288 | stepping the depth forward (5 to 1) from the style of one level gives the next level's style, and stepping back (1 to 5) undoes it |
| Colorizer.GroupOpening | regex-colorizer.js:278-300 | `(?` is an invalid-group-type error that leaves stack, count and depth alone; any other opening pushes exactly one entry, is shown in its level's style, and increments the capture count exactly for `(` and `(?<name>` |
| Colorizer.GroupClosing | regex-colorizer.js:302-321 | `)` with an empty stack is an unbalanced error that pops nothing; otherwise it takes its opening's style, pops exactly one entry, and is quantifiable exactly when its opening was not a lookaround |
| Colorizer.EmptyGroup | regex-colorizer.js:278-321 | an opening followed by its closing leaves the stack as it was, with both shown in the same style |
| Colorizer.GroupTokenNoAmp | regex-colorizer.js:291-315 | a stored opening collapses back to its own text, so the lookaround test reads the real opening |
| Colorizer.OffsetsPush | regex-colorizer.js:291-294 | the offset the source records, the output length plus the tag length, is the position of the opening's text in the markup |
| Colorizer.OffsetsPop | regex-colorizer.js:320 | popping the stack keeps the offsets matched to their openings |
| Colorizer.DropDigitsSpec | regex-colorizer.js:335-341 | the digit-dropping loop ends with a number within the capture count; that number followed by the dropped digits spells the original; and the number is the longest such prefix |
| Colorizer.DecimalRoundTrip | regex-colorizer.js:336-343 | reading a digit string without a leading zero as a number and writing it back gives the same text |
| Colorizer.NumericBackref | regex-colorizer.js:325-344 | `\N...` starts with a backreference exactly when its first digit is within the capture count; the backreference is the longest prefix of the token whose number is within the count |
| Colorizer.NumericOctal | regex-colorizer.js:342-356 | with no backreference, `\8` and `\9` are escaped literals, and any other `\N...` starts with its longest octal escape |
| Colorizer.NumericEscapeShape | regex-colorizer.js:342-356 | `\N...` is shown as one styled head followed by the remaining digits as plain text |
| Colorizer.NumericEscapeCover | regex-colorizer.js:342-356 | the pieces of `\N...` spell the token exactly |
| Colorizer.QuantifiableAfter | regex-colorizer.js:271-459 | after any token but `)` and a trailing `\`, the next token is quantifiable exactly when the token is not a group opening, quantifier, alternator, `^`, `$`, `\b`, `\B` or an incomplete `\c`, `\u` or `\x` |
| Colorizer.QuantifierUnquantifiable | regex-colorizer.js:407-425 | a quantifier after an unquantifiable token is an unquantifiable error and leaves the next token unquantifiable |
| Colorizer.QuantifiedGroup | regex-colorizer.js:314-318 | any quantifier right after a non-lookaround group closes takes that group's style, unless it is an interval with a bound over 65535 (an overflow error) or with its lower bound above its upper bound (a reversed-interval error) |
| Colorizer.IntervalBounds | regex-colorizer.js:409 | `{lo,hi}` reads as its two bounds, with an empty upper bound read as none |
| Colorizer.IntervalExact | regex-colorizer.js:409 | `{n}` reads as a lower bound only |
| Colorizer.IntervalRule | regex-colorizer.js:407-419 | after a quantifiable token, an interval `{n,}` or `{n,m}` with a bound over 65535 is an overflow error; one with its lower bound above its upper bound is reversed; any other takes the previous group's depth, or 0 |
| Colorizer.IntervalExactRule | regex-colorizer.js:407-419 | after a quantifiable token, an interval `{n}` is an overflow error exactly when n is over 65535, and otherwise takes the previous group's depth, or 0 |
| Colorizer.KindAfter | regex-colorizer.js:260-263 | only the start of the pattern has the initial type, and the previous token is an alternator exactly after an alternator |
| Colorizer.AlternatorRule | regex-colorizer.js:427-440 | An alternator is an empty-alternative error exactly at the start or right after another alternator outside any group; otherwise it takes the current depth inside a group, or 0 |
| Colorizer.LeadingAlternator | regex-colorizer.js:428-432 | a pattern that starts with an alternator shows it as an empty-alternative error |

## Left out

- `colorizeAll` and `addStyleSheet` (regex-colorizer.js:481-516) are not modelled: they query and write the DOM and inject a stylesheet.
- Gruntfile.js is not part of this model: it is build configuration.
- The JavaScript regular expression engine is not modelled. The grammars of lines 17-20 and the inline tests are written as scanners and predicates over the pattern's characters.
- Patterns are sequences of Dafny characters, which are Unicode scalar values, not UTF-16 code units. A lone surrogate cannot appear, and a character outside the Basic Multilingual Plane counts as one character with its full code point. The source's `charCodeAt` sees two code units there.
- Colorizer.DropDigitsSpec: numbers are unbounded naturals, while `+m.slice(1)` and `/\d$/.exec(num)` (regex-colorizer.js:336-340) work on floating-point numbers. This differs from the source in three ways:
  - Runs longer than about 15 digits lose precision in the source.
  - From 1e21 upwards, `String(num)` uses exponent notation, so `/\d$/` reads the last digit of the exponent. The source's output then no longer spells the pattern, although `Colorizer.ColorizedCover` states that the model's output does.
  - From about 309 digits, `+m.slice(1)` is `Infinity`. `/\d$/.exec(num)` at line 338 then returns null, and taking `[0]` of it throws a `TypeError`. So the source's `colorizeText` raises an exception where the model returns markup.
- Colorizer.ColorizedCover: holds of the model for every pattern, but of the source only while every escaped digit run that is dropped back to a smaller number stays below 1e21 (see the line above).
- Colorizer.NumericBackref: capturing groups are counted only before the escape, as this version of the code does (regex-colorizer.js:327). The whole-pattern count that the comment at regex-colorizer.js:333-334 describes for flags `u` and `v` is not part of this code.
- Flags `u` and `v` are not modelled, because the source does not support them (regex-colorizer.js:8-9, 331-334).
- Unique capture names are not checked, because the source leaves this as a TODO (regex-colorizer.js:284).
- `\k<name>` is not resolved against the names that exist, because the source leaves this as a TODO (regex-colorizer.js:362-365). It is always shown as a backreference.
- `Render` expands entities in the text of every span. The source calls `expandEntities` only where the text can hold `&` or `<`. The other texts never contain either character, so the markup is the same.
- `lastToken.charCode` in a class holds a code or none. `undefined` and `NaN` are both none, so every comparison with them is false, as in the source.
