/** HTML entities and the markup the colorizer produces for each styled span
    (the `to.*` helpers of regex-colorizer.js). */
module Html {
  import opened Syntax

  /** `s.replace(/c/g, r)` for a one-character pattern. */
  function ReplaceChar(s: string, c: char, r: string): string
  {
    if s == [] then []
    else (if s[0] == c then r else [s[0]]) + ReplaceChar(s[1..], c, r)
  }

  /** `s.replace(/pat/g, r)` for a literal pattern: occurrences are replaced
      left to right and never overlap. */
  function ReplaceText(s: string, pat: string, r: string): string
    requires pat != []
    decreases |s|
  {
    if |s| < |pat| then s
    else if s[..|pat|] == pat then r + ReplaceText(s[|pat|..], pat, r)
    else [s[0]] + ReplaceText(s[1..], pat, r)
  }

  function ExpandEntities(s: string): string
  {
    ReplaceChar(ReplaceChar(s, '&', "&amp;"), '<', "&lt;")
  }

  function CollapseEntities(s: string): string
  {
    ReplaceText(ReplaceText(s, "&amp;", "&"), "&lt;", "<")
  }

  lemma {:induction false} ReplaceAbsent(s: string, c: char, r: string)
    requires c !in s
    ensures ReplaceChar(s, c, r) == s
  {
    if s != [] {
      ReplaceAbsent(s[1..], c, r);
    }
  }

  /** A first character that cannot start the pattern is copied unchanged. */
  lemma ReplaceTextSkip(s: string, pat: string, r: string)
    requires pat != [] && s != [] && s[0] != pat[0]
    ensures ReplaceText(s, pat, r) == [s[0]] + ReplaceText(s[1..], pat, r)
  {
    if |s| < |pat| {
      assert |s[1..]| < |pat|;
    } else {
      assert s[..|pat|][0] == s[0];
    }
  }

  /** `<` escaped as `&lt;`, as the second replacement of ExpandEntities does. */
  function EscapeLess(s: string): string
  {
    ReplaceChar(s, '<', "&lt;")
  }

  lemma {:induction false} EscapeLessHasNoAmp(s: string)
    requires '&' !in s
    ensures ReplaceText(EscapeLess(s), "&amp;", "&") == EscapeLess(s)
  {
    if s != [] {
      var rest := EscapeLess(s[1..]);
      EscapeLessHasNoAmp(s[1..]);
      if s[0] == '<' {
        var e := EscapeLess(s);
        assert e == "&lt;" + rest;
        if |e| < 5 {
        } else {
          assert e[..5][1] == 'l';
          assert e[1..] == "lt;" + rest;
          ReplaceTextSkip(e[1..], "&amp;", "&");
          assert e[1..][1..] == "t;" + rest;
          ReplaceTextSkip(e[1..][1..], "&amp;", "&");
          assert e[1..][1..][1..] == ";" + rest;
          ReplaceTextSkip(e[1..][1..][1..], "&amp;", "&");
          assert e[1..][1..][1..][1..] == rest;
        }
      } else {
        ReplaceTextSkip(EscapeLess(s), "&amp;", "&");
        assert EscapeLess(s)[1..] == rest;
      }
    }
  }

  lemma {:induction false} CollapseEscapeLess(s: string)
    requires '&' !in s
    ensures ReplaceText(EscapeLess(s), "&lt;", "<") == s
  {
    if s != [] {
      var rest := EscapeLess(s[1..]);
      CollapseEscapeLess(s[1..]);
      var e := EscapeLess(s);
      if s[0] == '<' {
        assert e == "&lt;" + rest;
        assert e[..4] == "&lt;" && e[4..] == rest;
      } else {
        assert e == [s[0]] + rest;
        ReplaceTextSkip(e, "&lt;", "<");
        assert e[1..] == rest;
      }
    }
  }

  /** Collapsing undoes expanding for text without `&`; group openings are
      stored expanded and collapsed again for the lookaround test. */
  lemma CollapseExpand(s: string)
    requires '&' !in s
    ensures CollapseEntities(ExpandEntities(s)) == s
  {
    ReplaceAbsent(s, '&', "&amp;");
    EscapeLessHasNoAmp(s);
    CollapseEscapeLess(s);
  }

  // ---------------------------------------------------------------------
  // Markup
  // ---------------------------------------------------------------------

  function ErrorMessage(k: ErrorKind): string
  {
    match k
    case UnclosedClass => "Unclosed character class"
    case IncompleteToken => "Incomplete regex token"
    case InvalidRange => "Reversed or invalid range"
    case InvalidGroupType => "Invalid or unsupported group type"
    case UnbalancedLeftParen => "Unclosed grouping"
    case UnbalancedRightParen => "No matching opening parenthesis"
    case IntervalOverflow => "Interval quantifier cannot use value over 65,535"
    case IntervalReversed => "Interval quantifier range is reversed"
    case Unquantifiable => "Quantifiers must be preceded by a token that can be repeated"
    case ImproperEmptyAlternative => "Empty alternative effectively truncates the regex here"
  }

  /** The digit of a style depth; depths are 0..5 in every reachable state. */
  function DepthDigit(d: int): char
  {
    if 0 <= d <= 9 then ('0' as int + d) as char else '0'
  }

  /** `<b>` with the class of a depth, or none for depth 0 (to.alternator, to.quantifier). */
  function DepthTag(s: string, d: int): string
  {
    (if d != 0 then "<b class=\"g" + [DepthDigit(d)] + "\">" else "<b>") + s + "</b>"
  }

  function GroupOpeningTag(d: int): string
  {
    "<b class=\"g" + [DepthDigit(d)] + "\">"
  }

  /** to.group */
  function GroupHtml(s: string, d: int): string
  {
    GroupOpeningTag(d) + s + "</b>"
  }

  /** to.error */
  function ErrorHtml(s: string, k: ErrorKind): string
  {
    "<b class=\"err\" title=\"" + ErrorMessage(k) + "\">" + s + "</b>"
  }

  function RenderSpan(sp: Span): string
  {
    var t := ExpandEntities(sp.text);
    match sp.style
    case Plain => t
    case AlternatorStyle(d) => DepthTag(t, d)
    case Backref => "<b class=\"bref\">" + t + "</b>"
    case CharClassBoundary => "<span>" + t + "</span>"
    case Error(k) => ErrorHtml(t, k)
    case EscapedLiteral => "<span>" + t + "</span>"
    case Group(d) => GroupHtml(t, d)
    case UnclosedGroup(d) => GroupHtml(ErrorHtml(t, UnbalancedLeftParen), d)
    case Metasequence => "<b>" + t + "</b>"
    case Quantifier(d) => DepthTag(t, d)
    case Range => "<u>" + t + "</u>"
  }

  function RenderSpans(spans: seq<Span>): string
  {
    if spans == [] then [] else RenderSpan(spans[0]) + RenderSpans(spans[1..])
  }

  /** to.charClass wraps the markup of a whole class. */
  function RenderPiece(p: Piece): string
  {
    match p
    case Single(sp) => RenderSpan(sp)
    case CharClass(parts) => "<i>" + RenderSpans(parts) + "</i>"
  }

  function Render(pieces: seq<Piece>): string
  {
    if pieces == [] then [] else RenderPiece(pieces[0]) + Render(pieces[1..])
  }

  /** `to.group.openingTagLength`: the opening tag of a group is always 14
      characters, whatever its depth. */
  lemma GroupOpeningTagLength(d: int)
    ensures |GroupOpeningTag(d)| == 14
  {
  }

  lemma {:induction false} RenderAppend(a: seq<Piece>, b: seq<Piece>)
    ensures Render(a + b) == Render(a) + Render(b)
  {
    if a == [] {
      assert a + b == b;
    } else {
      assert (a + b)[1..] == a[1..] + b;
      RenderAppend(a[1..], b);
      Assoc(RenderPiece(a[0]), Render(a[1..]), Render(b));
    }
  }

  /** The markup of a sequence around one of its pieces. */
  lemma RenderAround(out: seq<Piece>, i: nat)
    requires i < |out|
    ensures Render(out) == Render(out[..i]) + RenderPiece(out[i]) + Render(out[i + 1..])
  {
    SplitAround(out, i);
    RenderAppend(out[..i], [out[i]] + out[i + 1..]);
    RenderAppend([out[i]], out[i + 1..]);
    assert Render([out[i]]) == RenderPiece(out[i]) by {
      assert [out[i]][1..] == [];
    }
    Assoc(Render(out[..i]), RenderPiece(out[i]), Render(out[i + 1..]));
  }

  // ---------------------------------------------------------------------
  // Line breaks
  // ---------------------------------------------------------------------

  /** `s.replace(/\r?\n/g, '<br>')`: each line feed, with the carriage
      return before it if there is one, becomes `<br>`. */
  function LineBreaks(s: string): string
  {
    if s == [] then []
    else if |s| >= 2 && s[0] == '\r' && s[1] == '\n' then "<br>" + LineBreaks(s[2..])
    else if s[0] == '\n' then "<br>" + LineBreaks(s[1..])
    else [s[0]] + LineBreaks(s[1..])
  }

  /** No line feed survives, and text without line feeds is left alone. */
  lemma {:induction false} LineBreaksSpec(s: string)
    ensures '\n' !in LineBreaks(s)
    ensures '\n' !in s ==> LineBreaks(s) == s
    decreases |s|
  {
    if s != [] {
      if |s| >= 2 && s[0] == '\r' && s[1] == '\n' {
        LineBreaksSpec(s[2..]);
      } else {
        LineBreaksSpec(s[1..]);
        if '\n' !in s {
          assert s == [s[0]] + s[1..];
        }
      }
    }
  }
}
