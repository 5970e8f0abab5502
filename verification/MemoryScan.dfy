/** What interpret_line reads: not a line, but the memory that holds it. After a bare argument the scan steps over
    the character that ended it, also when that is the end of the line. */
module MemoryScan {
  import opened Grammar

  // The scan stays within the memory, or runs over its end.
  datatype Reading = Within(scan: Scan) | Overrun {
    function PrependAll(more: seq<Span>): Reading {
      if Within? then Within(scan.PrependAll(more)) else this
    }
  }

  /** Where the three inner loops stop: at an end of line at the latest. */
  function QuoteStop(mem: seq<char>, p: nat): (e: nat)
    requires p <= |mem|
    ensures p <= e <= |mem| && (e < |mem| ==> IsEol(mem[e]) || mem[e] == '"')
    decreases |mem| - p
  {
    if p == |mem| || IsEol(mem[p]) || mem[p] == '"' then p else QuoteStop(mem, p + 1)
  }

  function WordStop(mem: seq<char>, p: nat): (e: nat)
    requires p <= |mem|
    ensures p <= e <= |mem| && (e < |mem| ==> IsEol(mem[e]) || IsSpace(mem[e]))
    decreases |mem| - p
  {
    if p == |mem| || IsEol(mem[p]) || IsSpace(mem[p]) then p else WordStop(mem, p + 1)
  }

  function GapStop(mem: seq<char>, p: nat): (e: nat)
    requires p <= |mem|
    ensures p <= e <= |mem| && (e < |mem| ==> IsEol(mem[e]) || !IsSpace(mem[e]))
    decreases |mem| - p
  {
    if p == |mem| || IsEol(mem[p]) || !IsSpace(mem[p]) then p else GapStop(mem, p + 1)
  }

  predicate Separates(c: char) {
    IsEol(c) || IsSpace(c)
  }

  function ScanMemory(mem: seq<char>, p: nat): Reading
    decreases |mem| - p
  {
    if p >= |mem| then
      Overrun
    else if IsEol(mem[p]) then
      Within(Spans([]))
    else if mem[p] == '"' then
      var e := QuoteStop(mem, p + 1);
      if e == |mem| then Overrun
      else if IsEol(mem[e]) then Within(UnclosedQuote)
      else if e + 1 == |mem| then Overrun
      else if !Separates(mem[e + 1]) then Within(NoSpaceAfterQuote)
      else ScanMemory(mem, GapStop(mem, e + 1)).PrependAll([Span(p + 1, e)])
    else if IsSpace(mem[p]) then
      ScanMemory(mem, GapStop(mem, p + 1))
    else
      var e := WordStop(mem, p + 1);
      if e == |mem| then Overrun
      else ScanMemory(mem, GapStop(mem, e + 1)).PrependAll([Span(p, e)])
  }

  /** How many arguments the scan begins from position p on, and stores a pointer to. */
  function BegunIn(mem: seq<char>, p: nat): nat
    decreases |mem| - p
  {
    if p >= |mem| || IsEol(mem[p]) then
      0
    else if mem[p] == '"' then
      var e := QuoteStop(mem, p + 1);
      if e + 1 >= |mem| || IsEol(mem[e]) || !Separates(mem[e + 1]) then 1
      else 1 + BegunIn(mem, GapStop(mem, e + 1))
    else if IsSpace(mem[p]) then
      BegunIn(mem, GapStop(mem, p + 1))
    else
      var e := WordStop(mem, p + 1);
      if e == |mem| then 1 else 1 + BegunIn(mem, GapStop(mem, e + 1))
  }

  /** The arguments stand in the memory, in order and apart, each with a character behind it. */
  lemma {:induction false} BegunAreSpans(mem: seq<char>, p: nat)
    requires ScanMemory(mem, p).Within? && ScanMemory(mem, p).scan.Spans?
    ensures BegunIn(mem, p) == |ScanMemory(mem, p).scan.spans|
    decreases |mem| - p
  {
    if !IsEol(mem[p]) {
      if mem[p] == '"' {
        BegunAreSpans(mem, GapStop(mem, QuoteStop(mem, p + 1) + 1));
      } else if IsSpace(mem[p]) {
        BegunAreSpans(mem, GapStop(mem, p + 1));
      } else {
        BegunAreSpans(mem, GapStop(mem, WordStop(mem, p + 1) + 1));
      }
    }
  }

  // ----- memory that holds a line -----

  /** The line `text`, a newline or a NUL, and anything behind that. */
  ghost predicate HoldsLine(mem: seq<char>, text: string) {
    && |text| < |mem| && (mem[|text|] == '\n' || mem[|text|] == '\0')
    && forall k :: 0 <= k < |text| ==> mem[k] == text[k] && text[k] != '\n' && text[k] != '\0'
  }

  /** The last argument is a bare one and ends where the line does: a quoted one ends before its closing quote. */
  ghost predicate EndsBare(text: string, p: nat) {
    var s := ScanFrom(text, p);
    s.Spans? && s.spans != [] && s.spans[|s.spans| - 1].end == |text|
  }

  /** From position p on there is nothing but white space up to an end of line. */
  ghost predicate BlankFrom(mem: seq<char>, p: nat)
    requires p <= |mem|
  {
    GapStop(mem, p) < |mem| && IsEol(mem[GapStop(mem, p)])
  }

  lemma {:induction false} StopsInLine(mem: seq<char>, text: string, p: nat)
    requires HoldsLine(mem, text) && p <= |text|
    ensures QuoteStop(mem, p) == QuoteEnd(text, p) && WordStop(mem, p) == WordEnd(text, p)
    ensures GapStop(mem, p) == GapEnd(text, p)
    decreases |text| - p
  {
    if p < |text| {
      StopsInLine(mem, text, p + 1);
    }
  }

  /** What comes behind a line whose last argument is bare. */
  function Behind(mem: seq<char>, text: string): Reading
    requires |text| < |mem|
  {
    ScanMemory(mem, GapStop(mem, |text| + 1))
  }

  /** The scan of the line, and of what is behind it when the line ends in a bare argument. */
  ghost function LineAndBehind(mem: seq<char>, text: string, p: nat): Reading
    requires |text| < |mem|
  {
    if EndsBare(text, p) then Behind(mem, text).PrependAll(ScanFrom(text, p).spans) else Within(ScanFrom(text, p))
  }

  lemma PrependOne(mem: seq<char>, text: string, p: nat, next: nat, span: Span)
    requires |text| < |mem| && ScanFrom(text, p) == ScanFrom(text, next).PrependAll([span])
    requires ScanFrom(text, next) == Spans([]) ==> span.end < |text|
    ensures LineAndBehind(mem, text, next).PrependAll([span]) == LineAndBehind(mem, text, p)
  {
    var rest := ScanFrom(text, next);
    if rest.Spans? {
      assert rest.spans != [] ==> ([span] + rest.spans)[|rest.spans|] == rest.spans[|rest.spans| - 1];
      if EndsBare(text, next) {
        PrependTwice(Behind(mem, text), rest.spans, span);
      }
    }
  }

  lemma PrependTwice(r: Reading, spans: seq<Span>, span: Span)
    ensures r.PrependAll(spans).PrependAll([span]) == r.PrependAll([span] + spans)
  {
    if r.Within? && r.scan.Spans? {
      assert [span] + (spans + r.scan.spans) == ([span] + spans) + r.scan.spans;
    }
  }

  // One argument, as the memory has it.
  lemma QuotedInMemory(mem: seq<char>, p: nat, e: nat, next: nat)
    requires p < |mem| && mem[p] == '"' && e == QuoteStop(mem, p + 1) && e + 1 < |mem| && !IsEol(mem[e])
    requires Separates(mem[e + 1]) && next == GapStop(mem, e + 1)
    ensures ScanMemory(mem, p) == ScanMemory(mem, next).PrependAll([Span(p + 1, e)])
    ensures BegunIn(mem, p) == 1 + BegunIn(mem, next)
  {
  }

  lemma BareInMemory(mem: seq<char>, p: nat, e: nat, next: nat)
    requires p < |mem| && mem[p] != '"' && !Separates(mem[p]) && e == WordStop(mem, p + 1) < |mem|
    requires next == GapStop(mem, e + 1)
    ensures ScanMemory(mem, p) == ScanMemory(mem, next).PrependAll([Span(p, e)])
    ensures BegunIn(mem, p) == 1 + BegunIn(mem, next)
  {
  }

  lemma {:induction false} ScanOfLine(mem: seq<char>, text: string, p: nat)
    requires HoldsLine(mem, text) && p <= |text|
    ensures ScanMemory(mem, p) == LineAndBehind(mem, text, p)
    decreases |text| - p, 1
  {
    if p < |text| {
      if text[p] == '"' {
        ScanOfQuoted(mem, text, p, QuoteEnd(text, p + 1));
      } else if IsSpace(text[p]) {
        ScanOfGap(mem, text, p, GapEnd(text, p + 1));
      } else {
        StopsInLine(mem, text, p + 1);
        ScanOfBare(mem, text, p, WordEnd(text, p + 1));
      }
    }
  }

  lemma {:induction false} ScanOfGap(mem: seq<char>, text: string, p: nat, next: nat)
    requires HoldsLine(mem, text) && p < |text| && text[p] != '"' && IsSpace(text[p]) && next == GapEnd(text, p + 1)
    ensures ScanMemory(mem, p) == LineAndBehind(mem, text, p)
    decreases |text| - p, 0
  {
    StopsInLine(mem, text, p + 1);
    ScanOfLine(mem, text, next);
    assert ScanMemory(mem, p) == ScanMemory(mem, next) && ScanFrom(text, p) == ScanFrom(text, next);
  }

  lemma {:induction false} ScanOfQuoted(mem: seq<char>, text: string, p: nat, e: nat)
    requires HoldsLine(mem, text) && p < |text| && text[p] == '"' && e == QuoteEnd(text, p + 1)
    ensures ScanMemory(mem, p) == LineAndBehind(mem, text, p)
    decreases |text| - p, 0
  {
    StopsInLine(mem, text, p + 1);
    if ClosedAt(text, e) {
      var next := GapEnd(text, e + 1);
      CloseInMemory(mem, text, e);
      QuotedInMemory(mem, p, e, next);
      QuotedInLine(text, p, e, next);
      ScanOfLine(mem, text, next);
      PrependOne(mem, text, p, next, Span(p + 1, e));
    } else {
      MalformedInMemory(mem, text, p, e);
    }
  }

  lemma CloseInMemory(mem: seq<char>, text: string, e: nat)
    requires HoldsLine(mem, text) && ClosedAt(text, e)
    ensures e + 1 < |mem| && !IsEol(mem[e]) && Separates(mem[e + 1])
    ensures GapStop(mem, e + 1) == GapEnd(text, e + 1)
  {
    StopsInLine(mem, text, e + 1);
  }

  lemma MalformedInMemory(mem: seq<char>, text: string, p: nat, e: nat)
    requires HoldsLine(mem, text) && p < |text| && text[p] == '"' && !ClosedAt(text, e)
    requires e == QuoteEnd(text, p + 1) == QuoteStop(mem, p + 1)
    ensures ScanMemory(mem, p) == LineAndBehind(mem, text, p)
  {
  }

  lemma {:induction false} ScanOfBare(mem: seq<char>, text: string, p: nat, e: nat)
    requires HoldsLine(mem, text) && p < |text| && text[p] != '"' && !IsSpace(text[p])
    requires e == WordEnd(text, p + 1) == WordStop(mem, p + 1)
    ensures ScanMemory(mem, p) == LineAndBehind(mem, text, p)
    decreases |text| - p, 0
  {
    if e == |text| {
      LastBare(mem, text, p);
    } else {
      var next := GapEnd(text, e + 1);
      BareInBoth(mem, text, p, e, next);
      ScanOfLine(mem, text, next);
      PrependOne(mem, text, p, next, Span(p, e));
    }
  }

  lemma BareInBoth(mem: seq<char>, text: string, p: nat, e: nat, next: nat)
    requires HoldsLine(mem, text) && p < |text| && text[p] != '"' && !IsSpace(text[p])
    requires e == WordEnd(text, p + 1) == WordStop(mem, p + 1) < |text| && next == GapEnd(text, e + 1)
    ensures ScanMemory(mem, p) == ScanMemory(mem, next).PrependAll([Span(p, e)])
    ensures ScanFrom(text, p) == ScanFrom(text, next).PrependAll([Span(p, e)])
    ensures BegunIn(mem, p) == 1 + BegunIn(mem, next) && Begun(text, p) == 1 + Begun(text, next)
  {
    assert mem[e] == text[e];
    StopsInLine(mem, text, e + 1);
    BareInMemory(mem, p, e, next);
    BareInLine(text, p, e, next);
  }

  lemma LastBare(mem: seq<char>, text: string, p: nat)
    requires HoldsLine(mem, text) && p < |text| && text[p] != '"' && !IsSpace(text[p])
    requires |text| == WordEnd(text, p + 1) == WordStop(mem, p + 1)
    ensures ScanMemory(mem, p) == LineAndBehind(mem, text, p)
  {
    BareInMemory(mem, p, |text|, GapStop(mem, |text| + 1));
    BareInLine(text, p, |text|, |text|);
    assert [Span(p, |text|)] + [] == [Span(p, |text|)];
  }

  /** Where something begins, the scan finds something. */
  lemma SomethingBegins(mem: seq<char>, p: nat)
    requires p <= |mem| && (p < |mem| ==> !IsEol(mem[p]) && !IsSpace(mem[p]))
    ensures ScanMemory(mem, p) != Within(Spans([]))
  {
  }

  /** The memory reads as the line if and only if the line is malformed, or does not end in a bare argument, or has
      nothing but white space behind its end up to another one. */
  lemma ReadsAsTheLine(mem: seq<char>, text: string)
    requires HoldsLine(mem, text)
    ensures ScanMemory(mem, 0) == Within(ScanFrom(text, 0)) <==>
            !EndsBare(text, 0) || BlankFrom(mem, |text| + 1)
  {
    ScanOfLine(mem, text, 0);
    if EndsBare(text, 0) {
      var g := GapStop(mem, |text| + 1);
      if !BlankFrom(mem, |text| + 1) {
        SomethingBegins(mem, g);
      }
    }
  }

  /** fgets leaves a newline and a NUL behind a complete line, and such a line is read as it is. */
  lemma CompleteLine(mem: seq<char>, text: string)
    requires HoldsLine(mem, text) && |text| + 1 < |mem| && mem[|text| + 1] == '\0'
    ensures ScanMemory(mem, 0) == Within(ScanFrom(text, 0)) && BlankFrom(mem, |text| + 1)
  {
    ReadsAsTheLine(mem, text);
  }

  // ----- room for the arguments -----

  lemma {:induction false} BegunOfMalformed(mem: seq<char>, text: string, p: nat)
    requires HoldsLine(mem, text) && p <= |text| && !ScanFrom(text, p).Spans?
    ensures BegunIn(mem, p) == Begun(text, p)
    decreases |text| - p
  {
    StopsInLine(mem, text, p + 1);
    if text[p] == '"' {
      var e := QuoteEnd(text, p + 1);
      BegunOfMalformedQuoted(mem, text, p, e);
      if ClosedAt(text, e) {
        BegunOfMalformed(mem, text, GapEnd(text, e + 1));
      }
    } else if IsSpace(text[p]) {
      BegunOfMalformed(mem, text, GapEnd(text, p + 1));
    } else {
      BegunOfMalformedBare(mem, text, p, WordEnd(text, p + 1));
      BegunOfMalformed(mem, text, GapEnd(text, WordEnd(text, p + 1)));
    }
  }

  lemma BegunOfMalformedQuoted(mem: seq<char>, text: string, p: nat, e: nat)
    requires HoldsLine(mem, text) && p < |text| && text[p] == '"'
    requires e == QuoteEnd(text, p + 1) == QuoteStop(mem, p + 1) && !ScanFrom(text, p).Spans?
    ensures if ClosedAt(text, e) then
              && !ScanFrom(text, GapEnd(text, e + 1)).Spans?
              && BegunIn(mem, p) == 1 + BegunIn(mem, GapEnd(text, e + 1))
              && Begun(text, p) == 1 + Begun(text, GapEnd(text, e + 1))
            else
              BegunIn(mem, p) == Begun(text, p)
  {
    if ClosedAt(text, e) {
      StopsInLine(mem, text, e + 1);
      QuotedInMemory(mem, p, e, GapEnd(text, e + 1));
      QuotedInLine(text, p, e, GapEnd(text, e + 1));
    }
  }

  lemma BegunOfMalformedBare(mem: seq<char>, text: string, p: nat, e: nat)
    requires HoldsLine(mem, text) && p < |text| && text[p] != '"' && !IsSpace(text[p])
    requires e == WordEnd(text, p + 1) == WordStop(mem, p + 1) && !ScanFrom(text, p).Spans?
    ensures e < |text| && !ScanFrom(text, GapEnd(text, e)).Spans?
    ensures BegunIn(mem, p) == 1 + BegunIn(mem, GapEnd(text, e)) && Begun(text, p) == 1 + Begun(text, GapEnd(text, e))
  {
    if e == |text| {
      BareInLine(text, p, e, e);
    } else {
      BareInBoth(mem, text, p, e, GapEnd(text, e));
    }
  }

  // How a call of interpret_line ends. The program tests neither the size of the buffer nor that of args; the last
  // case is an access outside of one of them.
  datatype Outcome = Success | Failure | OutOfBounds

  function Expected(mem: seq<char>, room: nat): Outcome {
    match ScanMemory(mem, 0)
    case Overrun => OutOfBounds
    case Within(Spans(spans)) => if |spans| < room then Success else OutOfBounds
    case Within(_) => if BegunIn(mem, 0) <= room then Failure else OutOfBounds
  }

  /** All accesses stay in bounds if and only if the scan ends within the memory, and args has room for a pointer to
      each argument that begins and, unless the scan fails, for the final NULL. */
  lemma BoundsAreKept(mem: seq<char>, room: nat)
    ensures Expected(mem, room) != OutOfBounds <==>
            var r := ScanMemory(mem, 0);
            r.Within? && BegunIn(mem, 0) + (if r.scan.Spans? then 1 else 0) <= room
  {
    var r := ScanMemory(mem, 0);
    if r.Within? && r.scan.Spans? {
      BegunAreSpans(mem, 0);
    }
  }

  /** What a line takes in args: a pointer for each argument that begins, and the final NULL unless it is malformed. */
  function Stores(text: string): nat {
    Begun(text, 0) + if ScanFrom(text, 0).Spans? then 1 else 0
  }

  /** On a line that the memory reads as, every access stays in bounds if and only if args has room for the stores;
      and then the outcome is that of the line. */
  lemma LineOutcome(mem: seq<char>, text: string, room: nat)
    requires HoldsLine(mem, text) && (EndsBare(text, 0) ==> BlankFrom(mem, |text| + 1))
    ensures Expected(mem, room) != OutOfBounds <==> Stores(text) <= room
    ensures Stores(text) <= room ==> (Expected(mem, room) == Success <==> Tokenize(text).Tokens?)
  {
    ReadsAsTheLine(mem, text);
    BoundsAreKept(mem, room);
    if ScanFrom(text, 0).Spans? {
      ScanIsInside(text, 0);
      BegunAreSpans(mem, 0);
    } else {
      BegunOfMalformed(mem, text, 0);
    }
  }

  /** The arguments that the call yields are exactly those of the line, or it fails as the line does, if and only if
      the line is malformed, or does not end in a bare argument, or has nothing but white space behind its end up to
      another one. */
  lemma SameAsTheLine(mem: seq<char>, text: string, room: nat)
    requires HoldsLine(mem, text) && Stores(text) <= room
    ensures (ScanMemory(mem, 0) == Within(ScanFrom(text, 0)) &&
             Expected(mem, room) == if Tokenize(text).Tokens? then Success else Failure) <==>
            Tokenize(text).Malformed? || !EndsBare(text, 0) || BlankFrom(mem, |text| + 1)
  {
    ReadsAsTheLine(mem, text);
    if EndsBare(text, 0) ==> BlankFrom(mem, |text| + 1) {
      LineOutcome(mem, text, room);
    }
  }
}
