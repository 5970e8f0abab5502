/** The command-line grammar of the shell: how a line is scanned, by positions, and which lines there are. */
module Grammar {

  /** isspace in the C locale */
  predicate IsSpace(c: char) {
    c == ' ' || 9 <= c as int <= 13
  }

  predicate IsEol(c: char) {
    c == '\n' || c == '\0'
  }

  // ----- the line by positions -----

  // Where an argument stands in the line: from start up to, not including, end.
  datatype Span = Span(start: nat, end: nat)

  datatype Scan = Spans(spans: seq<Span>) | UnclosedQuote | NoSpaceAfterQuote {
    function PrependAll(more: seq<Span>): Scan {
      if Spans? then Spans(more + spans) else this
    }
  }

  /** The first quote, white space, or other character from position p on. */
  function QuoteEnd(text: string, p: nat): (e: nat)
    requires p <= |text|
    ensures p <= e <= |text|
    decreases |text| - p
  {
    if p == |text| || text[p] == '"' then p else QuoteEnd(text, p + 1)
  }

  function WordEnd(text: string, p: nat): (e: nat)
    requires p <= |text|
    ensures p <= e <= |text|
    decreases |text| - p
  {
    if p == |text| || IsSpace(text[p]) then p else WordEnd(text, p + 1)
  }

  function GapEnd(text: string, p: nat): (e: nat)
    requires p <= |text|
    ensures p <= e <= |text|
    decreases |text| - p
  {
    if p == |text| || !IsSpace(text[p]) then p else GapEnd(text, p + 1)
  }

  /** A quote at position e ends an argument properly. */
  predicate ClosedAt(text: string, e: nat) {
    e < |text| && (e + 1 < |text| ==> IsSpace(text[e + 1]))
  }

  /** Where the arguments from position p on stand. */
  function ScanFrom(text: string, p: nat): Scan
    decreases |text| - p
  {
    if p >= |text| then
      Spans([])
    else if text[p] == '"' then
      var e := QuoteEnd(text, p + 1);
      if ClosedAt(text, e) then ScanFrom(text, GapEnd(text, e + 1)).PrependAll([Span(p + 1, e)])
      else if e == |text| then UnclosedQuote else NoSpaceAfterQuote
    else if IsSpace(text[p]) then
      ScanFrom(text, GapEnd(text, p + 1))
    else
      var e := WordEnd(text, p + 1);
      ScanFrom(text, GapEnd(text, e)).PrependAll([Span(p, e)])
  }

  /** How many arguments begin from position p on, whether they are well formed or not. */
  function Begun(text: string, p: nat): nat
    decreases |text| - p
  {
    if p >= |text| then
      0
    else if text[p] == '"' then
      var e := QuoteEnd(text, p + 1);
      if ClosedAt(text, e) then 1 + Begun(text, GapEnd(text, e + 1)) else 1
    else if IsSpace(text[p]) then
      Begun(text, GapEnd(text, p + 1))
    else
      1 + Begun(text, GapEnd(text, WordEnd(text, p + 1)))
  }

  /** The spans lie between from and limit. */
  ghost predicate Inside(spans: seq<Span>, from: nat, limit: nat) {
    forall i :: 0 <= i < |spans| ==> from <= spans[i].start <= spans[i].end <= limit
  }

  function Texts(line: seq<char>, spans: seq<Span>): (tokens: seq<string>)
    requires forall i :: 0 <= i < |spans| ==> spans[i].start <= spans[i].end <= |line|
    ensures |tokens| == |spans|
  {
    seq(|spans|, i requires 0 <= i < |spans| => line[spans[i].start..spans[i].end])
  }

  lemma {:induction false} ScanIsInside(text: string, p: nat)
    requires p <= |text| && ScanFrom(text, p).Spans?
    ensures Inside(ScanFrom(text, p).spans, p, |text|) && Begun(text, p) == |ScanFrom(text, p).spans|
    decreases |text| - p
  {
    if p < |text| {
      if text[p] == '"' {
        ScanIsInside(text, GapEnd(text, QuoteEnd(text, p + 1) + 1));
      } else if IsSpace(text[p]) {
        ScanIsInside(text, GapEnd(text, p + 1));
      } else {
        ScanIsInside(text, GapEnd(text, WordEnd(text, p + 1)));
      }
    }
  }

  // ----- the grammar, declaratively -----

  // One argument of a line and the white space before it.
  datatype Piece = Piece(gap: string, quoted: bool, text: string) {
    function Written(): string {
      if quoted then ['"'] + text + ['"'] else text
    }

    /** A quoted argument is anything without a quote; a bare one is not empty, has no white space
        and does not begin with a quote. */
    ghost predicate Valid() {
      && AllSpaces(gap)
      && (if quoted then '"' !in text
          else text != "" && text[0] != '"' && forall i :: 0 <= i < |text| ==> !White(text[i]))
    }
  }

  /** What separates arguments: space, tab, newline, vertical tab, form feed and carriage return. */
  predicate White(c: char) {
    c == ' ' || c == '\t' || c == '\n' || c == '\U{0B}' || c == '\U{0C}' || c == '\r'
  }

  ghost predicate AllSpaces(s: string) {
    forall i :: 0 <= i < |s| ==> White(s[i])
  }

  function Write(pieces: seq<Piece>, tail: string): string {
    if pieces == [] then tail
    else pieces[0].gap + (pieces[0].Written() + Write(pieces[1..], tail))
  }

  function TextsOf(pieces: seq<Piece>): seq<string> {
    seq(|pieces|, i requires 0 <= i < |pieces| => pieces[i].text)
  }

  /** Pieces and trailing space that make up a line: white space between any two arguments. */
  ghost predicate ValidLine(pieces: seq<Piece>, tail: string) {
    && AllSpaces(tail)
    && (forall i :: 0 <= i < |pieces| ==> pieces[i].Valid())
    && (forall i :: 1 <= i < |pieces| ==> pieces[i].gap != "")
  }

  // ----- where the scans stop -----

  lemma {:induction false} QuoteEndAt(text: string, p: nat, e: nat)
    requires p <= e <= |text| && (forall k :: p <= k < e ==> text[k] != '"')
    requires e < |text| ==> text[e] == '"'
    ensures QuoteEnd(text, p) == e
    decreases e - p
  {
    if p < e {
      QuoteEndAt(text, p + 1, e);
    }
  }

  lemma {:induction false} WordEndAt(text: string, p: nat, e: nat)
    requires p <= e <= |text| && (forall k :: p <= k < e ==> !IsSpace(text[k]))
    requires e < |text| ==> IsSpace(text[e])
    ensures WordEnd(text, p) == e
    decreases e - p
  {
    if p < e {
      WordEndAt(text, p + 1, e);
    }
  }

  lemma {:induction false} GapEndAt(text: string, p: nat, e: nat)
    requires p <= e <= |text| && (forall k :: p <= k < e ==> IsSpace(text[k]))
    requires e < |text| ==> !IsSpace(text[e])
    ensures GapEnd(text, p) == e
    decreases e - p
  {
    if p < e {
      GapEndAt(text, p + 1, e);
    }
  }

  lemma {:induction false} QuoteEndStops(text: string, p: nat)
    requires p <= |text|
    ensures forall k :: p <= k < QuoteEnd(text, p) ==> text[k] != '"'
    ensures QuoteEnd(text, p) < |text| ==> text[QuoteEnd(text, p)] == '"'
    decreases |text| - p
  {
    if p < |text| && text[p] != '"' {
      QuoteEndStops(text, p + 1);
    }
  }

  lemma {:induction false} WordEndStops(text: string, p: nat)
    requires p <= |text|
    ensures forall k :: p <= k < WordEnd(text, p) ==> !IsSpace(text[k])
    ensures WordEnd(text, p) < |text| ==> IsSpace(text[WordEnd(text, p)])
    decreases |text| - p
  {
    if p < |text| && !IsSpace(text[p]) {
      WordEndStops(text, p + 1);
    }
  }

  lemma {:induction false} GapEndStops(text: string, p: nat)
    requires p <= |text|
    ensures forall k :: p <= k < GapEnd(text, p) ==> IsSpace(text[k])
    ensures GapEnd(text, p) < |text| ==> !IsSpace(text[GapEnd(text, p)])
    decreases |text| - p
  {
    if p < |text| && IsSpace(text[p]) {
      GapEndStops(text, p + 1);
    }
  }

  /** White space in front of an argument does not matter. */
  lemma SkipGap(text: string, p: nat)
    requires p <= |text|
    ensures ScanFrom(text, p) == ScanFrom(text, GapEnd(text, p))
  {
  }

  // ----- the scan accepts every line of the grammar -----

  lemma Split(text: string, p: nat, a: string, b: string)
    requires p <= |text| && text[p..] == a + b
    ensures p + |a| <= |text| && text[p + |a|..] == b
    ensures forall k :: 0 <= k < |a| ==> text[p + k] == a[k]
  {
    forall k | 0 <= k < |a| ensures text[p + k] == a[k] {
      assert text[p..][k] == (a + b)[k];
    }
    forall k | 0 <= k < |b| ensures text[p + |a| + k] == b[k] {
      assert text[p..][|a| + k] == (a + b)[|a| + k];
    }
  }

  /** What the scan makes of the arguments of a line. */
  ghost predicate Accepts(text: string, p: nat, tokens: seq<string>) {
    && p <= |text| && ScanFrom(text, p).Spans?
    && Inside(ScanFrom(text, p).spans, p, |text|)
    && Texts(text, ScanFrom(text, p).spans) == tokens
  }

  // One argument, as the scan has it.
  lemma QuotedInLine(text: string, p: nat, e: nat, next: nat)
    requires p < |text| && text[p] == '"' && e == QuoteEnd(text, p + 1) && ClosedAt(text, e)
    requires next == GapEnd(text, e + 1)
    ensures ScanFrom(text, p) == ScanFrom(text, next).PrependAll([Span(p + 1, e)])
    ensures Begun(text, p) == 1 + Begun(text, next)
  {
  }

  lemma BareInLine(text: string, p: nat, e: nat, next: nat)
    requires p < |text| && text[p] != '"' && !IsSpace(text[p]) && e == WordEnd(text, p + 1)
    requires next == GapEnd(text, e)
    ensures ScanFrom(text, p) == ScanFrom(text, next).PrependAll([Span(p, e)])
    ensures Begun(text, p) == 1 + Begun(text, next)
  {
  }

  /** From position p on the scan finds the span, and then what it finds from `next` on. */
  ghost predicate FindsFirst(text: string, p: nat, next: nat, span: Span)
    requires p <= |text| && next <= |text|
  {
    ScanFrom(text, p) == ScanFrom(text, next).PrependAll([span])
  }

  lemma AcceptsPrepend(text: string, p: nat, next: nat, span: Span, t: string, tokens: seq<string>)
    requires p <= next && Accepts(text, next, tokens) && FindsFirst(text, p, next, span)
    requires p <= span.start <= span.end <= next && text[span.start..span.end] == t
    ensures Accepts(text, p, [t] + tokens)
  {
    TextsPrepend(text, span, ScanFrom(text, next).spans);
  }

  lemma QuotedScan(text: string, p: nat, e: nat)
    requires p < e < |text| && text[p] == '"' && text[e] == '"' && ClosedAt(text, e)
    requires forall k :: p + 1 <= k < e ==> text[k] != '"'
    ensures FindsFirst(text, p, e + 1, Span(p + 1, e))
  {
    QuoteEndAt(text, p + 1, e);
    SkipGap(text, e + 1);
    QuotedInLine(text, p, e, GapEnd(text, e + 1));
  }

  lemma BareScan(text: string, p: nat, e: nat)
    requires p < e <= |text| && text[p] != '"' && (e < |text| ==> IsSpace(text[e]))
    requires forall k :: p <= k < e ==> !IsSpace(text[k])
    ensures FindsFirst(text, p, e, Span(p, e))
  {
    WordEndAt(text, p + 1, e);
    SkipGap(text, e);
    BareInLine(text, p, e, GapEnd(text, e));
  }

  /** The text t stands at position p. */
  ghost predicate StandsAt(text: string, p: nat, t: string) {
    p + |t| <= |text| && text[p..p + |t|] == t
  }

  lemma StandsAtIs(text: string, p: nat, t: string)
    requires p + |t| <= |text| && forall k :: 0 <= k < |t| ==> text[p + k] == t[k]
    ensures StandsAt(text, p, t)
    ensures forall k :: p <= k < p + |t| ==> text[k] == t[k - p]
  {
    forall k | p <= k < p + |t| ensures text[k] == t[k - p] {
      assert text[p + (k - p)] == t[k - p];
    }
  }

  lemma QuotedIsFound(text: string, p: nat, t: string, e: nat)
    requires e == p + 1 + |t| < |text| && text[p] == '"' && text[e] == '"' && '"' !in t && ClosedAt(text, e)
    requires forall k :: 0 <= k < |t| ==> text[p + 1 + k] == t[k]
    ensures StandsAt(text, p + 1, t) && FindsFirst(text, p, e + 1, Span(p + 1, e))
  {
    StandsAtIs(text, p + 1, t);
    QuotedScan(text, p, e);
  }

  lemma AcceptsQuoted(text: string, p: nat, t: string, tokens: seq<string>)
    requires p + |t| + 2 <= |text| && text[p] == '"' && text[p + 1 + |t|] == '"' && '"' !in t
    requires forall k :: 0 <= k < |t| ==> text[p + 1 + k] == t[k]
    requires p + |t| + 2 < |text| ==> IsSpace(text[p + |t| + 2])
    requires Accepts(text, p + |t| + 2, tokens)
    ensures Accepts(text, p, [t] + tokens)
  {
    var e := p + 1 + |t|;
    QuotedIsFound(text, p, t, e);
    AcceptsPrepend(text, p, e + 1, Span(p + 1, e), t, tokens);
  }

  lemma AcceptsBare(text: string, p: nat, t: string, tokens: seq<string>)
    requires p + |t| <= |text| && t != "" && t[0] != '"'
    requires forall k :: 0 <= k < |t| ==> text[p + k] == t[k] && !IsSpace(t[k])
    requires p + |t| < |text| ==> IsSpace(text[p + |t|])
    requires Accepts(text, p + |t|, tokens)
    ensures Accepts(text, p, [t] + tokens)
  {
    var e := p + |t|;
    StandsAtIs(text, p, t);
    BareScan(text, p, e);
    AcceptsPrepend(text, p, e, Span(p, e), t, tokens);
  }

  lemma TextsPrepend(text: string, span: Span, spans: seq<Span>)
    requires span.start <= span.end <= |text| && Inside(spans, 0, |text|)
    ensures Inside([span] + spans, 0, |text|)
    ensures Texts(text, [span] + spans) == [text[span.start..span.end]] + Texts(text, spans)
  {
  }

  lemma {:induction false} AcceptsGrammar(text: string, p: nat, pieces: seq<Piece>, tail: string)
    requires p <= |text| && ValidLine(pieces, tail) && text[p..] == Write(pieces, tail)
    ensures Accepts(text, p, TextsOf(pieces))
    decreases |pieces|
  {
    if pieces == [] {
      AcceptsTail(text, p, tail);
    } else {
      var r := CutFirst(text, p, pieces, tail);
      RestBeginsWithSpace(pieces, tail);
      AcceptsGrammar(text, r, pieces[1..], tail);
      AcceptsOneMore(text, p, r, pieces, tail);
    }
  }

  lemma AcceptsOneMore(text: string, p: nat, r: nat, pieces: seq<Piece>, tail: string)
    requires p <= |text| && pieces != [] && ValidLine(pieces, tail)
    requires text[p..] == pieces[0].gap + (pieces[0].Written() + Write(pieces[1..], tail))
    requires r == p + |pieces[0].gap| + |pieces[0].Written()| && Accepts(text, r, TextsOf(pieces[1..]))
    ensures Accepts(text, p, TextsOf(pieces))
  {
    RestBeginsWithSpace(pieces, tail);
    AcceptsCons(text, p, pieces[0], Write(pieces[1..], tail), TextsOf(pieces[1..]));
    TextsOfCons(pieces);
  }

  lemma TextsOfCons(pieces: seq<Piece>)
    requires pieces != []
    ensures TextsOf(pieces) == [pieces[0].text] + TextsOf(pieces[1..])
  {
  }

  /** Where the first piece begins and ends. */
  lemma Behind(text: string, p: nat, first: Piece, rest: string) returns (q: nat, r: nat)
    requires p <= |text| && text[p..] == first.gap + (first.Written() + rest)
    ensures q == p + |first.gap| <= |text| && forall k :: 0 <= k < |first.gap| ==> text[p + k] == first.gap[k]
    ensures text[q..] == first.Written() + rest
    ensures r == q + |first.Written()| <= |text| && text[r..] == rest
  {
    q := p + |first.gap|;
    r := q + |first.Written()|;
    Split(text, p, first.gap, first.Written() + rest);
    Split(text, q, first.Written(), rest);
  }

  lemma CutFirst(text: string, p: nat, pieces: seq<Piece>, tail: string) returns (r: nat)
    requires pieces != [] && p <= |text| && text[p..] == Write(pieces, tail)
    ensures var first, rest := pieces[0], Write(pieces[1..], tail);
      && text[p..] == first.gap + (first.Written() + rest)
      && r == p + |first.gap| + |first.Written()| <= |text| && text[r..] == rest
  {
    var q;
    q, r := Behind(text, p, pieces[0], Write(pieces[1..], tail));
  }

  lemma RestBegins(text: string, r: nat, rest: string)
    requires r <= |text| && text[r..] == rest && (rest == "" || IsSpace(rest[0]))
    ensures r < |text| ==> IsSpace(text[r])
  {
    assert r < |text| ==> text[r] == text[r..][0];
  }

  lemma AcceptsWritten(text: string, q: nat, first: Piece, rest: string, tokens: seq<string>)
    requires first.Valid() && (rest == "" || IsSpace(rest[0]))
    requires q <= |text| && text[q..] == first.Written() + rest
    requires Accepts(text, q + |first.Written()|, tokens)
    ensures Accepts(text, q, [first.text] + tokens)
  {
    var r := q + |first.Written()|;
    Split(text, q, first.Written(), rest);
    RestBegins(text, r, rest);
    AcceptsPiece(text, q, first, tokens);
  }

  lemma WrittenBegins(text: string, q: nat, first: Piece, rest: string)
    requires first.Valid() && q <= |text| && text[q..] == first.Written() + rest
    ensures q < |text| && !IsSpace(text[q])
  {
    Split(text, q, first.Written(), rest);
    assert text[q + 0] == first.Written()[0];
  }

  lemma AcceptsFirst(text: string, p: nat, q: nat, first: Piece, rest: string, tokens: seq<string>)
    requires first.Valid() && (rest == "" || IsSpace(rest[0]))
    requires q == p + |first.gap| <= |text| && forall k :: 0 <= k < |first.gap| ==> text[p + k] == first.gap[k]
    requires text[q..] == first.Written() + rest
    requires Accepts(text, q + |first.Written()|, tokens)
    ensures Accepts(text, p, [first.text] + tokens)
  {
    WrittenBegins(text, q, first, rest);
    AcceptsWritten(text, q, first, rest, tokens);
    AcceptsGap(text, p, first.gap, [first.text] + tokens);
  }

  lemma AcceptsCons(text: string, p: nat, first: Piece, rest: string, tokens: seq<string>)
    requires first.Valid() && (rest == "" || IsSpace(rest[0]))
    requires p <= |text| && text[p..] == first.gap + (first.Written() + rest)
    requires Accepts(text, p + |first.gap| + |first.Written()|, tokens)
    ensures Accepts(text, p, [first.text] + tokens)
  {
    var q, r := Behind(text, p, first, rest);
    AcceptsFirst(text, p, q, first, rest, tokens);
  }

  lemma AcceptsTail(text: string, p: nat, tail: string)
    requires p <= |text| && text[p..] == tail && AllSpaces(tail)
    ensures Accepts(text, p, [])
  {
    forall k | p <= k < |text| ensures IsSpace(text[k]) {
      assert text[k] == text[p..][k - p];
    }
    GapEndAt(text, p, |text|);
    SkipGap(text, p);
  }

  lemma RestBeginsWithSpace(pieces: seq<Piece>, tail: string)
    requires ValidLine(pieces, tail) && pieces != []
    ensures var rest := Write(pieces[1..], tail); rest == "" || IsSpace(rest[0])
    ensures ValidLine(pieces[1..], tail) && pieces[0].Valid()
  {
    if |pieces| > 1 {
      assert pieces[1..][0] == pieces[1] && pieces[1].Valid() && pieces[1].gap != "";
    }
  }

  lemma AcceptsPiece(text: string, q: nat, piece: Piece, tokens: seq<string>)
    requires piece.Valid() && q + |piece.Written()| <= |text|
    requires forall k :: 0 <= k < |piece.Written()| ==> text[q + k] == piece.Written()[k]
    requires q + |piece.Written()| < |text| ==> IsSpace(text[q + |piece.Written()|])
    requires Accepts(text, q + |piece.Written()|, tokens)
    ensures Accepts(text, q, [piece.text] + tokens)
    ensures !IsSpace(text[q])
  {
    var w, t := piece.Written(), piece.text;
    assert text[q + 0] == w[0];
    if piece.quoted {
      assert text[q + (|t| + 1)] == w[|t| + 1];
      forall k | 0 <= k < |t| ensures text[q + 1 + k] == t[k] {
        assert text[q + (1 + k)] == w[1 + k];
      }
      AcceptsQuoted(text, q, t, tokens);
    } else {
      AcceptsBare(text, q, t, tokens);
    }
  }

  lemma AcceptsGap(text: string, p: nat, gap: string, tokens: seq<string>)
    requires p + |gap| < |text| && AllSpaces(gap) && !IsSpace(text[p + |gap|])
    requires forall k :: 0 <= k < |gap| ==> text[p + k] == gap[k]
    requires Accepts(text, p + |gap|, tokens)
    ensures Accepts(text, p, tokens)
  {
    forall k | p <= k < p + |gap| ensures IsSpace(text[k]) {
      assert text[p + (k - p)] == gap[k - p];
    }
    GapEndAt(text, p, p + |gap|);
    SkipGap(text, p);
  }

  // ----- the grammar explains every line that the scan accepts -----

  /** The pieces that the spans from position p on come from. */
  lemma {:induction false} Explain(text: string, p: nat) returns (pieces: seq<Piece>, tail: string)
    requires p <= |text| && ScanFrom(text, p).Spans?
    ensures ValidLine(pieces, tail) && text[p..] == Write(pieces, tail)
    ensures pieces != [] && (p == |text| || IsSpace(text[p])) ==> pieces[0].gap != ""
    decreases |text| - p
  {
    var q := GapEnd(text, p);
    GapEndStops(text, p);
    SkipGap(text, p);
    if q == |text| {
      pieces, tail := [], text[p..];
    } else {
      var e, piece := FirstPiece(text, p, q);
      pieces, tail := Explain(text, e);
      Glue(text, p, q, e);
      pieces := PrependPiece(piece, pieces, tail);
    }
  }

  lemma Glue(text: string, p: nat, q: nat, e: nat)
    requires p <= q <= e <= |text|
    ensures text[p..] == text[p..q] + (text[q..e] + text[e..])
  {
  }

  lemma FirstPiece(text: string, p: nat, q: nat) returns (e: nat, piece: Piece)
    requires p <= q < |text| && !IsSpace(text[q]) && ScanFrom(text, q).Spans?
    requires forall k :: p <= k < q ==> IsSpace(text[k])
    ensures q < e <= |text| && (e < |text| ==> IsSpace(text[e])) && ScanFrom(text, e).Spans?
    ensures piece.Valid() && piece.gap == text[p..q] && piece.Written() == text[q..e]
  {
    if text[q] == '"' {
      e, piece := FirstQuoted(text, p, q);
    } else {
      e, piece := FirstBare(text, p, q);
    }
  }

  lemma QuotedScans(text: string, q: nat, c: nat)
    requires q < |text| && text[q] == '"' && ScanFrom(text, q).Spans? && c == QuoteEnd(text, q + 1)
    ensures q < c < |text| && text[c] == '"' && (c + 1 < |text| ==> IsSpace(text[c + 1]))
    ensures forall k :: q + 1 <= k < c ==> text[k] != '"'
    ensures ScanFrom(text, c + 1).Spans?
  {
    QuoteEndStops(text, q + 1);
    SkipGap(text, c + 1);
  }

  lemma FirstQuoted(text: string, p: nat, q: nat) returns (e: nat, piece: Piece)
    requires p <= q < |text| && text[q] == '"' && ScanFrom(text, q).Spans?
    requires forall k :: p <= k < q ==> IsSpace(text[k])
    ensures q < e <= |text| && (e < |text| ==> IsSpace(text[e])) && ScanFrom(text, e).Spans?
    ensures piece.Valid() && piece.gap == text[p..q] && piece.Written() == text[q..e]
  {
    var c := QuoteEnd(text, q + 1);
    e := c + 1;
    QuotedScans(text, q, c);
    piece := QuotedPiece(text, p, q, c);
  }

  lemma FirstBare(text: string, p: nat, q: nat) returns (e: nat, piece: Piece)
    requires p <= q < |text| && text[q] != '"' && !IsSpace(text[q]) && ScanFrom(text, q).Spans?
    requires forall k :: p <= k < q ==> IsSpace(text[k])
    ensures q < e <= |text| && (e < |text| ==> IsSpace(text[e])) && ScanFrom(text, e).Spans?
    ensures piece.Valid() && piece.gap == text[p..q] && piece.Written() == text[q..e]
  {
    e := WordEnd(text, q + 1);
    WordEndStops(text, q + 1);
    assert ScanFrom(text, e).Spans? by {
      SkipGap(text, e);
    }
    piece := BarePiece(text, p, q, e);
  }

  lemma QuotedPiece(text: string, p: nat, q: nat, c: nat) returns (piece: Piece)
    requires p <= q < c < |text| && text[q] == '"' && text[c] == '"'
    requires forall k :: p <= k < q ==> IsSpace(text[k])
    requires forall k :: q + 1 <= k < c ==> text[k] != '"'
    ensures piece.Valid() && piece.gap == text[p..q] && piece.Written() == text[q..c + 1]
  {
    piece := Piece(text[p..q], true, text[q + 1..c]);
    QuotedSlice(text, q, c);
    assert '"' !in text[q + 1..c];
  }

  lemma QuotedSlice(text: string, q: nat, c: nat)
    requires q < c < |text| && text[q] == '"' && text[c] == '"'
    ensures ['"'] + text[q + 1..c] + ['"'] == text[q..c + 1]
  {
  }

  lemma BarePiece(text: string, p: nat, q: nat, e: nat) returns (piece: Piece)
    requires p <= q < e <= |text| && text[q] != '"'
    requires forall k :: p <= k < q ==> IsSpace(text[k])
    requires forall k :: q <= k < e ==> !IsSpace(text[k])
    ensures piece.Valid() && piece.gap == text[p..q] && piece.Written() == text[q..e]
  {
    piece := Piece(text[p..q], false, text[q..e]);
  }

  lemma PrependPiece(piece: Piece, more: seq<Piece>, tail: string) returns (pieces: seq<Piece>)
    requires ValidLine(more, tail) && piece.Valid() && (more != [] ==> more[0].gap != "")
    ensures ValidLine(pieces, tail) && pieces != [] && pieces[0] == piece
    ensures Write(pieces, tail) == piece.gap + (piece.Written() + Write(more, tail))
  {
    pieces := [piece] + more;
    assert pieces[1..] == more;
  }

  // ----- the tokens of a line -----

  datatype Result = Tokens(args: seq<string>) | Malformed

  /** The arguments of a line without its newline. */
  function Tokenize(text: string): Result {
    if ScanFrom(text, 0).Spans? then
      ScanIsInside(text, 0);
      Tokens(Texts(text, ScanFrom(text, 0).spans))
    else
      Malformed
  }

  /** The scan yields these arguments exactly when the grammar derives the line from them. */
  lemma TokenizeIsTheGrammar(text: string, args: seq<string>)
    ensures Tokenize(text) == Tokens(args) <==>
              exists pieces, tail :: ValidLine(pieces, tail) && text == Write(pieces, tail) && args == TextsOf(pieces)
  {
    if Tokenize(text) == Tokens(args) {
      var pieces, tail := ExplainLine(text);
      assert ValidLine(pieces, tail) && text == Write(pieces, tail) && args == TextsOf(pieces);
    }
    forall pieces, tail | ValidLine(pieces, tail) && text == Write(pieces, tail) && args == TextsOf(pieces)
      ensures Tokenize(text) == Tokens(args)
    {
      WrittenIsAccepted(pieces, tail);
    }
  }

  lemma ExplainLine(text: string) returns (pieces: seq<Piece>, tail: string)
    requires Tokenize(text).Tokens?
    ensures ValidLine(pieces, tail) && text == Write(pieces, tail) && Tokenize(text) == Tokens(TextsOf(pieces))
  {
    assert text[0..] == text;
    pieces, tail := Explain(text, 0);
    WrittenIsAccepted(pieces, tail);
  }

  /** The tokenizer fails exactly on the lines that the grammar does not derive. */
  lemma MalformedMeansNoDerivation(text: string)
    ensures Tokenize(text).Malformed? <==>
              forall pieces, tail :: ValidLine(pieces, tail) ==> text != Write(pieces, tail)
  {
    forall pieces, tail | ValidLine(pieces, tail) && text == Write(pieces, tail) ensures Tokenize(text).Tokens? {
      TokenizeIsTheGrammar(text, TextsOf(pieces));
    }
    if Tokenize(text).Tokens? {
      TokenizeIsTheGrammar(text, Tokenize(text).args);
    }
  }

  lemma LiterallyWhite(c: char)
    ensures c in " \t\n\U{0B}\U{0C}\r" <==> White(c)
  {
    var all := " \t\n\U{0B}\U{0C}\r";
    assert all[0] == ' ' && all[1] == '\t' && all[2] == '\n';
    assert all[3] == '\U{0B}' && all[4] == '\U{0C}' && all[5] == '\r';
  }

  /** Two words come apart at any gap of spaces, tabs, newlines, vertical tabs, form feeds and carriage returns, and
      nowhere else. */
  lemma WordsComeApart(a: string, gap: string, b: string)
    requires a != "" && a[0] != '"' && forall k :: 0 <= k < |a| ==> a[k] !in " \t\n\U{0B}\U{0C}\r"
    requires b != "" && b[0] != '"' && forall k :: 0 <= k < |b| ==> b[k] !in " \t\n\U{0B}\U{0C}\r"
    requires gap != "" && forall k :: 0 <= k < |gap| ==> gap[k] in " \t\n\U{0B}\U{0C}\r"
    ensures Tokenize(a + gap + b) == Tokens([a, b])
  {
    forall c: char ensures c in " \t\n\U{0B}\U{0C}\r" <==> White(c) {
      LiterallyWhite(c);
    }
    TwoPieces(a, gap, b);
  }

  lemma TwoPieces(a: string, gap: string, b: string)
    requires Piece("", false, a).Valid() && Piece(gap, false, b).Valid() && gap != ""
    ensures Tokenize(a + gap + b) == Tokens([a, b])
  {
    var pieces := [Piece("", false, a), Piece(gap, false, b)];
    assert Write(pieces[1..], "") == gap + (b + Write(pieces[1..][1..], "")) == gap + b;
    assert Write(pieces, "") == "" + (a + (gap + b)) == a + gap + b;
    WrittenIsAccepted(pieces, "");
    assert TextsOf(pieces) == [a, b];
  }

  /** Quoting every argument and joining with spaces. */
  function QuoteAll(args: seq<string>): string {
    if args == [] then "" else " " + ((['"'] + args[0] + ['"']) + QuoteAll(args[1..]))
  }

  /** Any list of arguments without quotes survives being quoted, joined and split again. */
  lemma QuoteRoundTrip(args: seq<string>)
    requires forall i :: 0 <= i < |args| ==> '"' !in args[i]
    ensures Tokenize(QuoteAll(args)) == Tokens(args)
  {
    var pieces := Quoted(args);
    QuotedPieces(args, pieces);
    QuotedIsValid(args);
    WrittenIsAccepted(pieces, "");
  }

  function Quoted(args: seq<string>): seq<Piece> {
    seq(|args|, i requires 0 <= i < |args| => Piece(" ", true, args[i]))
  }

  lemma QuotedIsValid(args: seq<string>)
    requires forall i :: 0 <= i < |args| ==> '"' !in args[i]
    ensures ValidLine(Quoted(args), "") && TextsOf(Quoted(args)) == args
  {
  }

  lemma WrittenIsAccepted(pieces: seq<Piece>, tail: string)
    requires ValidLine(pieces, tail)
    ensures Tokenize(Write(pieces, tail)) == Tokens(TextsOf(pieces))
  {
    var text := Write(pieces, tail);
    assert text[0..] == text;
    AcceptsGrammar(text, 0, pieces, tail);
  }

  lemma {:induction false} QuotedPieces(args: seq<string>, pieces: seq<Piece>)
    requires |pieces| == |args|
    requires forall i :: 0 <= i < |args| ==> pieces[i] == Piece(" ", true, args[i])
    ensures Write(pieces, "") == QuoteAll(args)
  {
    if args != [] {
      QuotedPieces(args[1..], pieces[1..]);
    }
  }
}
