/** Shared vocabulary of the colorizer: the abstract output (styled spans of
    pattern text) and the small enumerations threaded through both walks. */
module Syntax {

  datatype Option<T> = None | Some(value: T)

  /** `type` of regex-colorizer.js. `Initial` is `type.NONE`, which only the
      context before the first token carries; `Untyped` is the `undefined`
      type of every context object built without a `type` field. */
  datatype TokenType = Initial | RangeHyphen | ShortClass | Alternator | Untyped

  /** The diagnostics of the `error` table. */
  datatype ErrorKind =
    | UnclosedClass
    | IncompleteToken
    | InvalidRange
    | InvalidGroupType
    | UnbalancedLeftParen
    | UnbalancedRightParen
    | IntervalOverflow
    | IntervalReversed
    | Unquantifiable
    | ImproperEmptyAlternative

  /** One style per `to.*` helper. `UnclosedGroup` is a group opening whose
      text was later wrapped in an "Unclosed grouping" error. */
  datatype Style =
    | Plain
    | AlternatorStyle(depth: int)
    | Backref
    | CharClassBoundary
    | Error(kind: ErrorKind)
    | EscapedLiteral
    | Group(depth: int)
    | UnclosedGroup(depth: int)
    | Metasequence
    | Quantifier(depth: int)
    | Range

  /** A piece of the pattern's own text with the style it is shown in. */
  datatype Span = Span(text: string, style: Style)

  /** Top-level output: a styled span, or a whole character class whose
      interior spans are shown together. */
  datatype Piece = Single(span: Span) | CharClass(parts: seq<Span>)

  /** The pattern text a sequence of spans stands for. */
  function SpansText(spans: seq<Span>): string
  {
    if spans == [] then [] else spans[0].text + SpansText(spans[1..])
  }

  function PieceText(p: Piece): string
  {
    match p
    case Single(s) => s.text
    case CharClass(parts) => SpansText(parts)
  }

  /** The pattern text a sequence of pieces stands for. */
  function Text(pieces: seq<Piece>): string
  {
    if pieces == [] then [] else PieceText(pieces[0]) + Text(pieces[1..])
  }

  lemma Assoc<T>(a: seq<T>, b: seq<T>, c: seq<T>)
    ensures (a + b) + c == a + (b + c)
  {
  }

  /** A suffix is the slice up to `j` followed by the rest. */
  lemma SliceSplit<T>(s: seq<T>, i: nat, j: nat)
    requires i <= j <= |s|
    ensures s[i..] == s[i..j] + s[j..]
  {
  }

  lemma SplitAt<T>(s: seq<T>, k: nat)
    requires k <= |s|
    ensures s[..k] + s[k..] == s
  {
  }

  /** The prefix of `a + b` one element longer than `a`. */
  lemma PrefixOneMore<T>(a: seq<T>, b: seq<T>)
    requires b != []
    ensures (a + b)[..|a| + 1] == a + [b[0]]
  {
  }

  /** A slice of a suffix is a slice of the whole. */
  lemma SliceOfSuffix<T>(s: seq<T>, i: nat, j: nat)
    requires i <= j <= |s|
    ensures s[i..][..j - i] == s[i..j]
  {
  }

  /** The three parts of a concatenation of three. */
  lemma ThreeParts<T>(a: seq<T>, b: seq<T>, c: seq<T>)
    ensures var s := a + b + c;
            s[0..|a|] == a && s[|a|..|a| + |b|] == b && s[|a| + |b|..|s|] == c
  {
    var s := a + b + c;
    assert s[0..|a|] == a;
    assert s[|a|..|a| + |b|] == b;
    assert s[|a| + |b|..|s|] == c;
  }

  /** A sequence is what comes before an element, the element, and what
      comes after it. */
  lemma SplitAround<T>(s: seq<T>, i: nat)
    requires i < |s|
    ensures s == s[..i] + ([s[i]] + s[i + 1..])
  {
  }

  lemma {:induction false} SpansTextAppend(a: seq<Span>, b: seq<Span>)
    ensures SpansText(a + b) == SpansText(a) + SpansText(b)
  {
    if a == [] {
      assert a + b == b;
    } else {
      assert (a + b)[1..] == a[1..] + b;
      SpansTextAppend(a[1..], b);
      Assoc(a[0].text, SpansText(a[1..]), SpansText(b));
    }
  }

  lemma {:induction false} TextAppend(a: seq<Piece>, b: seq<Piece>)
    ensures Text(a + b) == Text(a) + Text(b)
  {
    if a == [] {
      assert a + b == b;
    } else {
      assert (a + b)[1..] == a[1..] + b;
      TextAppend(a[1..], b);
      Assoc(PieceText(a[0]), Text(a[1..]), Text(b));
    }
  }

  lemma {:induction false} TextUpdate(out: seq<Piece>, i: nat, p: Piece)
    requires i < |out| && PieceText(p) == PieceText(out[i])
    ensures Text(out[i := p]) == Text(out)
  {
    assert out == out[..i] + [out[i]] + out[i + 1..];
    assert out[i := p] == out[..i] + [p] + out[i + 1..];
    TextAppend(out[..i] + [out[i]], out[i + 1..]);
    TextAppend(out[..i] + [p], out[i + 1..]);
    TextAppend(out[..i], [out[i]]);
    TextAppend(out[..i], [p]);
    assert Text([p]) == PieceText(p) by { assert [p][..0] == []; }
    assert Text([out[i]]) == PieceText(out[i]) by { assert [out[i]][..0] == []; }
  }
}
