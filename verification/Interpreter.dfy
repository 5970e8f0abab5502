/** interpret_line: the destructive tokenizer, in place on the line buffer. */
module Interpreter {
  import opened Grammar
  import opened MemoryScan

  const NULL: int := -1

  /** The scan has not written to the buffer from position pos on. */
  ghost predicate SameFrom(buf: seq<char>, line: seq<char>, pos: nat) {
    |buf| == |line| && forall k :: pos <= k < |line| ==> buf[k] == line[k]
  }

  // ----- what the tokenizer leaves in memory -----

  /** The spans lie in front of limit, one behind the other. */
  ghost predicate Ordered(spans: seq<Span>, limit: nat) {
    && (forall i :: 0 <= i < |spans| ==> spans[i].start <= spans[i].end < limit)
    && (forall i, j :: 0 <= i < j < |spans| ==> spans[i].end < spans[j].start)
  }

  /** The line with a NUL at the end of every span. */
  function Punch(line: seq<char>, spans: seq<Span>): (r: seq<char>)
    ensures |r| == |line|
  {
    if spans == [] then line
    else
      var r, last := Punch(line, spans[..|spans| - 1]), spans[|spans| - 1].end;
      if last < |line| then r[last := '\0'] else r
  }

  lemma {:induction false} PunchAt(line: seq<char>, spans: seq<Span>, k: nat)
    requires k < |line|
    ensures Punch(line, spans)[k] == if exists i :: 0 <= i < |spans| && spans[i].end == k then '\0' else line[k]
  {
    if spans != [] {
      var front := spans[..|spans| - 1];
      PunchAt(line, front, k);
      assert spans[|spans| - 1].end == k ==> exists i :: 0 <= i < |spans| && spans[i].end == k;
      assert (exists i :: 0 <= i < |front| && front[i].end == k) ==> exists i :: 0 <= i < |spans| && spans[i].end == k;
    }
  }

  /** The text t, followed by a NUL, stands at position p. */
  ghost predicate Stands(buf: seq<char>, p: int, t: string) {
    0 <= p && p + |t| < |buf| && buf[p..p + |t|] == t && buf[p + |t|] == '\0'
  }

  /** args points at the tokens, in order and NULL-terminated; each stands in the buffer followed by a NUL,
      in front of the next one; and the NULs behind the tokens are the only change to the line. */
  ghost predicate Points(buf: seq<char>, args: seq<int>, argc: nat, tokens: seq<string>, line: seq<char>) {
    && argc == |tokens| < |args| && args[argc] == NULL && |buf| == |line|
    && (forall i :: 0 <= i < argc ==> Stands(buf, args[i], tokens[i]))
    && (forall i, j :: 0 <= i < j < argc ==> args[i] + |tokens[i]| < args[j])
    && (forall k :: 0 <= k < |buf| && buf[k] != line[k] ==>
          buf[k] == '\0' && exists i :: 0 <= i < argc && k == args[i] + |tokens[i]|)
  }

  /** The arguments so far stand in front of limit, and are all that has been written. */
  ghost predicate Marked(buf: seq<char>, args: seq<int>, line: seq<char>, spans: seq<Span>, limit: nat) {
    && |spans| <= |args| && limit <= |line|
    && Ordered(spans, limit)
    && (forall i :: 0 <= i < |spans| ==> args[i] == spans[i].start)
    && buf == Punch(line, spans)
  }

  lemma {:induction false} Untouched(line: seq<char>, spans: seq<Span>, limit: nat)
    requires Ordered(spans, limit)
    ensures SameFrom(Punch(line, spans), line, limit)
  {
    forall k: nat | limit <= k < |line| ensures Punch(line, spans)[k] == line[k] {
      PunchAt(line, spans, k);
    }
  }

  /** A NUL at end and a pointer to start mark one more argument. */
  lemma MarkOne(buf: seq<char>, args: seq<int>, line: seq<char>, spans: seq<Span>, pos: nat, start: nat, end: nat)
    requires Marked(buf, args, line, spans, pos)
    requires |spans| < |args| && pos <= start <= end < |line|
    ensures Marked(buf[end := '\0'], args[|spans| := start], line, spans + [Span(start, end)], end + 1)
  {
    assert (spans + [Span(start, end)])[..|spans|] == spans;
  }

  lemma SpanStands(line: seq<char>, spans: seq<Span>, limit: nat, i: nat)
    requires Ordered(spans, limit) && limit <= |line| && i < |spans|
    ensures Stands(Punch(line, spans), spans[i].start, line[spans[i].start..spans[i].end])
  {
    var buf, s := Punch(line, spans), spans[i];
    forall k | s.start <= k < s.end ensures buf[k] == line[k] {
      PunchAt(line, spans, k);
    }
    PunchAt(line, spans, s.end);
    assert buf[s.start..s.end] == line[s.start..s.end];
  }

  lemma MarkedPoints(buf: seq<char>, args: seq<int>, line: seq<char>, spans: seq<Span>, limit: nat)
    requires Marked(buf, args, line, spans, limit) && |spans| < |args|
    ensures Points(buf, args[|spans| := NULL], |spans|, Texts(line, spans), line)
  {
    var tokens := Texts(line, spans);
    forall i | 0 <= i < |spans| ensures Stands(buf, spans[i].start, tokens[i]) {
      SpanStands(line, spans, limit, i);
    }
    forall k: nat | k < |buf| && buf[k] != line[k]
      ensures buf[k] == '\0' && exists i :: 0 <= i < |spans| && k == args[|spans| := NULL][i] + |tokens[i]|
    {
      var i := ChangedAt(buf, line, spans, limit, k);
      assert k == args[|spans| := NULL][i] + |tokens[i]|;
    }
  }

  /** What has changed is a NUL at the end of a span. */
  lemma ChangedAt(buf: seq<char>, line: seq<char>, spans: seq<Span>, limit: nat, k: nat) returns (i: nat)
    requires Ordered(spans, limit) && buf == Punch(line, spans) && k < |line| && buf[k] != line[k]
    ensures buf[k] == '\0' && i < |spans| && spans[i].end == k
  {
    PunchAt(line, spans, k);
    i :| 0 <= i < |spans| && spans[i].end == k;
  }

  // ----- the state of the outer loop -----

  /** The spans so far followed by those from position p on are the spans of the memory. */
  ghost predicate Parsed(mem: seq<char>, spans: seq<Span>, p: nat) {
    && ScanMemory(mem, 0) == ScanMemory(mem, p).PrependAll(spans)
    && BegunIn(mem, 0) == |spans| + BegunIn(mem, p)
  }

  /** The scan stands at pos, behind the arguments in spans and the gap after them. */
  ghost predicate AtArgument(buf: seq<char>, args: seq<int>, mem: seq<char>, spans: seq<Span>, pos: nat) {
    pos <= |mem| && Marked(buf, args, mem, spans, pos) && Parsed(mem, spans, pos)
  }

  /** The scan stands at pos, where a gap begins or an argument has ended. */
  ghost predicate AtGap(buf: seq<char>, args: seq<int>, mem: seq<char>, spans: seq<Span>, pos: nat) {
    pos < |mem| && Marked(buf, args, mem, spans, pos + 1) && Parsed(mem, spans, GapStop(mem, pos + 1))
  }

  /** What a return of 0 promises: args points at the arguments that the scan of the memory finds. */
  ghost predicate Delivered(buf: seq<char>, args: seq<int>, argc: nat, mem: seq<char>) {
    && ScanMemory(mem, 0).Within? && ScanMemory(mem, 0).scan.Spans?
    && var spans := ScanMemory(mem, 0).scan.spans;
    && (forall i :: 0 <= i < |spans| ==> spans[i].start <= spans[i].end <= |mem|)
    && Points(buf, args, argc, Texts(mem, spans), mem)
  }

  lemma ParsedMore(mem: seq<char>, spans: seq<Span>, p: nat, next: nat, span: Span)
    requires Parsed(mem, spans, p)
    requires ScanMemory(mem, p) == ScanMemory(mem, next).PrependAll([span]) && BegunIn(mem, p) == 1 + BegunIn(mem, next)
    ensures Parsed(mem, spans + [span], next)
  {
    Regroup(ScanMemory(mem, next), spans, span);
  }

  lemma Regroup(r: Reading, spans: seq<Span>, span: Span)
    ensures r.PrependAll([span]).PrependAll(spans) == r.PrependAll(spans + [span])
  {
    if r.Within? && r.scan.Spans? {
      assert spans + ([span] + r.scan.spans) == (spans + [span]) + r.scan.spans;
    }
  }

  /** How the call ends when the scan ends at position p. */
  lemma EndsHere(mem: seq<char>, spans: seq<Span>, p: nat, room: nat)
    requires Parsed(mem, spans, p)
    ensures ScanMemory(mem, p) == Overrun ==> Expected(mem, room) == OutOfBounds
    ensures ScanMemory(mem, p).Within? && !ScanMemory(mem, p).scan.Spans? && BegunIn(mem, p) == 1 && |spans| < room ==>
              Expected(mem, room) == Failure
    ensures BegunIn(mem, p) > 0 && |spans| >= room ==> Expected(mem, room) == OutOfBounds
    ensures ScanMemory(mem, p) == Within(Spans([])) ==>
              && ScanMemory(mem, 0) == Within(Spans(spans))
              && Expected(mem, room) == if |spans| < room then Success else OutOfBounds
  {
    BoundsAreKept(mem, room);
    assert spans + [] == spans;
  }

  lemma EndOfLine(mem: seq<char>, spans: seq<Span>, p: nat, room: nat)
    requires Parsed(mem, spans, p) && p < |mem| && IsEol(mem[p])
    ensures ScanMemory(mem, 0) == Within(Spans(spans))
    ensures Expected(mem, room) == if |spans| < room then Success else OutOfBounds
  {
    EndsHere(mem, spans, p, room);
  }

  lemma RunsOver(mem: seq<char>, spans: seq<Span>, p: nat, room: nat)
    requires Parsed(mem, spans, p) && ScanMemory(mem, p) == Overrun
    ensures Expected(mem, room) == OutOfBounds
  {
    EndsHere(mem, spans, p, room);
  }

  lemma FailsHere(mem: seq<char>, spans: seq<Span>, p: nat, room: nat)
    requires Parsed(mem, spans, p) && |spans| < room && BegunIn(mem, p) == 1
    requires ScanMemory(mem, p).Within? && !ScanMemory(mem, p).scan.Spans?
    ensures Expected(mem, room) == Failure
  {
    EndsHere(mem, spans, p, room);
  }

  lemma NoRoom(mem: seq<char>, spans: seq<Span>, p: nat, room: nat)
    requires Parsed(mem, spans, p) && |spans| >= room && BegunIn(mem, p) > 0
    ensures Expected(mem, room) == OutOfBounds
  {
    EndsHere(mem, spans, p, room);
  }

  lemma Finished(buf: seq<char>, args: seq<int>, mem: seq<char>, spans: seq<Span>, limit: nat)
    requires Marked(buf, args, mem, spans, limit) && |spans| < |args|
    requires ScanMemory(mem, 0) == Within(Spans(spans))
    ensures Delivered(buf, args[|spans| := NULL], |spans|, mem)
  {
    MarkedPoints(buf, args, mem, spans, limit);
  }

  // ----- the inner loops; each moves one character and then on to where it stops -----

  method ScanQuote(buf: array<char>, start: nat, ghost mem: seq<char>) returns (pos: nat)
    requires start < buf.Length && SameFrom(buf[..], mem, start)
    ensures start < pos <= buf.Length && pos == QuoteStop(mem, start + 1)
  {
    pos := start + 1;
    while pos < buf.Length && !IsEol(buf[pos]) && buf[pos] != '"'
      invariant start < pos <= buf.Length && QuoteStop(mem, pos) == QuoteStop(mem, start + 1)
    {
      pos := pos + 1;
    }
  }

  method ScanWord(buf: array<char>, start: nat, ghost mem: seq<char>) returns (pos: nat)
    requires start < buf.Length && SameFrom(buf[..], mem, start)
    ensures start < pos <= buf.Length && pos == WordStop(mem, start + 1)
  {
    pos := start + 1;
    while pos < buf.Length && !IsEol(buf[pos]) && !IsSpace(buf[pos])
      invariant start < pos <= buf.Length && WordStop(mem, pos) == WordStop(mem, start + 1)
    {
      pos := pos + 1;
    }
  }

  method SkipSpaces(buf: array<char>, start: nat, ghost mem: seq<char>) returns (pos: nat)
    requires start < buf.Length && SameFrom(buf[..], mem, start + 1)
    ensures start < pos <= buf.Length && pos == GapStop(mem, start + 1)
  {
    pos := start + 1;
    while pos < buf.Length && !IsEol(buf[pos]) && IsSpace(buf[pos])
      invariant start < pos <= buf.Length && GapStop(mem, pos) == GapStop(mem, start + 1)
    {
      pos := pos + 1;
    }
  }

  // ----- the branches of the outer loop -----

  // Whether the outer loop goes on or the function returns; the model also returns where the program would access
  // something outside of its buffer or of args.
  datatype Next = GoOn | Return(outcome: Outcome)

  /** Stores an argument between quotes and moves past the closing one. */
  method CloseQuote(buf: array<char>, args: array<int>, argc: nat, start: nat, ghost mem: seq<char>)
    returns (next: Next, pos: nat)
    requires start < buf.Length && SameFrom(buf[..], mem, start) && argc < args.Length
    modifies buf, args
    ensures var e := QuoteStop(mem, start + 1);
      if e == |mem| then next == Return(OutOfBounds)
      else if IsEol(mem[e]) then next == Return(Failure)
      else
        && next == GoOn && pos == e + 1 && start + 1 < pos <= |mem|
        && buf[..] == old(buf[..])[e := '\0'] && args[..] == old(args[..])[argc := start + 1]
  {
    args[argc] := start + 1;
    pos := ScanQuote(buf, start, mem);
    if pos == buf.Length {
      return Return(OutOfBounds), pos;
    }
    if IsEol(buf[pos]) {
      return Return(Failure), pos;
    }
    buf[pos] := '\0';
    return GoOn, pos + 1;
  }

  lemma QuotedMarks(buf: seq<char>, args: seq<int>, mem: seq<char>, spans: seq<Span>, start: nat, e: nat)
    requires AtArgument(buf, args, mem, spans, start) && |spans| < |args| && start < |mem| && mem[start] == '"'
    requires e == QuoteStop(mem, start + 1) && e + 1 < |mem| && !IsEol(mem[e]) && Separates(mem[e + 1])
    ensures Marked(buf[e := '\0'], args[|spans| := start + 1], mem, spans + [Span(start + 1, e)], e + 1)
    ensures Parsed(mem, spans + [Span(start + 1, e)], GapStop(mem, e + 1))
  {
    QuotedInMemory(mem, start, e, GapStop(mem, e + 1));
    ParsedMore(mem, spans, start, GapStop(mem, e + 1), Span(start + 1, e));
    MarkOne(buf, args, mem, spans, start, start + 1, e);
  }

  lemma BareMarks(buf: seq<char>, args: seq<int>, mem: seq<char>, spans: seq<Span>, start: nat, e: nat)
    requires AtArgument(buf, args, mem, spans, start) && |spans| < |args|
    requires start < |mem| && mem[start] != '"' && !Separates(mem[start]) && e == WordStop(mem, start + 1) < |mem|
    ensures AtGap(buf[e := '\0'], args[|spans| := start], mem, spans + [Span(start, e)], e)
  {
    BareInMemory(mem, start, e, GapStop(mem, e + 1));
    ParsedMore(mem, spans, start, GapStop(mem, e + 1), Span(start, e));
    MarkOne(buf, args, mem, spans, start, start, e);
  }

  /** Stores the final NULL. */
  method Finish(buf: array<char>, args: array<int>, argc: nat, ghost mem: seq<char>, ghost spans: seq<Span>,
                ghost limit: nat)
    returns (outcome: Outcome)
    requires Marked(buf[..], args[..], mem, spans, limit) && argc == |spans|
    requires ScanMemory(mem, 0) == Within(Spans(spans))
    modifies args
    ensures outcome == if argc < args.Length then Success else OutOfBounds
    ensures outcome == Success ==> Delivered(buf[..], args[..], argc, mem)
  {
    if argc >= args.Length {
      return OutOfBounds;
    }
    Finished(buf[..], args[..], mem, spans, limit);
    args[argc] := NULL;
    return Success;
  }

  /** An argument between quotes, up to the separator behind it. */
  method QuotedArgument(buf: array<char>, args: array<int>, argc: nat, start: nat, ghost mem: seq<char>,
                        ghost spans: seq<Span>)
    returns (next: Next, pos: nat, ghost spans': seq<Span>)
    requires AtArgument(buf[..], args[..], mem, spans, start) && argc == |spans|
    requires start < buf.Length && mem[start] == '"'
    modifies buf, args
    ensures next.Return? ==> next.outcome == Expected(mem, args.Length)
    ensures next == Return(Success) ==> Delivered(buf[..], args[..], argc + 1, mem)
    ensures next.GoOn? ==> AtGap(buf[..], args[..], mem, spans', pos) && |spans'| == argc + 1 && start < pos
  {
    spans' := spans;
    if argc >= args.Length {
      NoRoom(mem, spans, start, args.Length);
      return Return(OutOfBounds), start, spans;
    }
    Untouched(mem, spans, start);
    ghost var buf0, args0, e := buf[..], args[..], QuoteStop(mem, start + 1);
    next, pos := CloseQuote(buf, args, argc, start, mem);
    if next.Return? {
      QuoteEnds(mem, spans, start, args.Length);
      return;
    }
    if pos == buf.Length {
      RunsOver(mem, spans, start, args.Length);
      return Return(OutOfBounds), pos, spans;
    }
    assert buf[pos] == buf0[pos] == mem[pos];
    if !IsEol(buf[pos]) && !IsSpace(buf[pos]) {
      FailsHere(mem, spans, start, args.Length);
      return Return(Failure), pos, spans;
    }
    QuotedMarks(buf0, args0, mem, spans, start, e);
    spans' := spans + [Span(start + 1, e)];
    next := BehindQuote(buf, args, argc + 1, pos, mem, spans');
  }

  /** Behind a closing quote there is the end of the line or a gap. */
  method BehindQuote(buf: array<char>, args: array<int>, argc: nat, pos: nat, ghost mem: seq<char>,
                     ghost spans: seq<Span>)
    returns (next: Next)
    requires Marked(buf[..], args[..], mem, spans, pos) && Parsed(mem, spans, GapStop(mem, pos)) && argc == |spans|
    requires pos < buf.Length && buf[pos] == mem[pos] && Separates(mem[pos])
    modifies args
    ensures next.Return? ==> next.outcome == Expected(mem, args.Length)
    ensures next == Return(Success) ==> Delivered(buf[..], args[..], argc, mem)
    ensures next.GoOn? ==> AtGap(buf[..], args[..], mem, spans, pos)
  {
    if IsEol(buf[pos]) {
      EndOfLine(mem, spans, pos, args.Length);
      var outcome := Finish(buf, args, argc, mem, spans, pos);
      return Return(outcome);
    }
    MarkedLater(buf[..], args[..], mem, spans, pos);
    return GoOn;
  }

  /** A quote that is not closed before the end of the line, or of the memory. */
  lemma QuoteEnds(mem: seq<char>, spans: seq<Span>, p: nat, room: nat)
    requires Parsed(mem, spans, p) && |spans| < room && p < |mem| && mem[p] == '"'
    ensures var e := QuoteStop(mem, p + 1);
      && (e == |mem| ==> Expected(mem, room) == OutOfBounds)
      && (e < |mem| && IsEol(mem[e]) ==> Expected(mem, room) == Failure)
  {
    var e := QuoteStop(mem, p + 1);
    if e == |mem| {
      RunsOver(mem, spans, p, room);
    } else if IsEol(mem[e]) {
      FailsHere(mem, spans, p, room);
    }
  }

  lemma MarkedLater(buf: seq<char>, args: seq<int>, mem: seq<char>, spans: seq<Span>, pos: nat)
    requires pos < |mem| && IsSpace(mem[pos]) && !IsEol(mem[pos])
    requires Marked(buf, args, mem, spans, pos) && Parsed(mem, spans, GapStop(mem, pos))
    ensures AtGap(buf, args, mem, spans, pos)
  {
  }

  /** A bare argument. */
  method BareArgument(buf: array<char>, args: array<int>, argc: nat, start: nat, ghost mem: seq<char>,
                      ghost spans: seq<Span>)
    returns (next: Next, pos: nat, ghost spans': seq<Span>)
    requires AtArgument(buf[..], args[..], mem, spans, start) && argc == |spans|
    requires start < buf.Length && mem[start] != '"' && !Separates(mem[start])
    modifies buf, args
    ensures next.Return? ==> next.outcome == Expected(mem, args.Length) == OutOfBounds
    ensures next.GoOn? ==> AtGap(buf[..], args[..], mem, spans', pos) && |spans'| == argc + 1 && start < pos
  {
    spans' := spans;
    if argc >= args.Length {
      NoRoom(mem, spans, start, args.Length);
      return Return(OutOfBounds), start, spans;
    }
    Untouched(mem, spans, start);
    ghost var buf0, args0 := buf[..], args[..];
    args[argc] := start;
    pos := ScanWord(buf, start, mem);
    if pos == buf.Length {
      RunsOver(mem, spans, start, args.Length);
      return Return(OutOfBounds), pos, spans;
    }
    buf[pos] := '\0';
    BareMarks(buf0, args0, mem, spans, start, pos);
    spans' := spans + [Span(start, pos)];
    assert buf[..] == buf0[pos := '\0'] && args[..] == args0[argc := start];
    next := GoOn;
  }

  /** The gap behind an argument, up to the next one. */
  method Gap(buf: array<char>, args: array<int>, start: nat, ghost mem: seq<char>, ghost spans: seq<Span>)
    returns (pos: nat)
    requires AtGap(buf[..], args[..], mem, spans, start)
    ensures AtArgument(buf[..], args[..], mem, spans, pos) && start < pos
  {
    Untouched(mem, spans, start + 1);
    pos := SkipSpaces(buf, start, mem);
  }

  /** One turn of the outer loop that does not find the end of the line. */
  method Turn(buf: array<char>, args: array<int>, argc: nat, start: nat, ghost mem: seq<char>, ghost spans: seq<Span>)
    returns (next: Next, argc': nat, pos: nat, ghost spans': seq<Span>)
    requires AtArgument(buf[..], args[..], mem, spans, start) && argc == |spans|
    requires start < buf.Length && buf[start] == mem[start] && !IsEol(mem[start])
    modifies buf, args
    ensures next.Return? ==> next.outcome == Expected(mem, args.Length)
    ensures next == Return(Success) ==> Delivered(buf[..], args[..], argc', mem)
    ensures next.GoOn? ==> AtArgument(buf[..], args[..], mem, spans', pos) && |spans'| == argc' && start < pos
  {
    next, argc', pos, spans' := GoOn, argc, start, spans;
    if buf[start] == '"' {
      next, pos, spans' := QuotedArgument(buf, args, argc, start, mem, spans);
      argc' := argc + 1;
    } else if !IsSpace(buf[start]) {
      next, pos, spans' := BareArgument(buf, args, argc, start, mem, spans);
      argc' := argc + 1;
    } else {
      MarkedLater(buf[..], args[..], mem, spans, start);
    }
    if next.GoOn? {
      pos := Gap(buf, args, pos, mem, spans');
    }
  }

  /** interpret_line on whatever the buffer holds. */
  method InterpretLine(buf: array<char>, args: array<int>) returns (outcome: Outcome, argc: nat)
    modifies buf, args
    ensures outcome == Expected(old(buf[..]), args.Length)
    ensures outcome == Success ==> Delivered(buf[..], args[..], argc, old(buf[..]))
  {
    ghost var mem := buf[..];
    ghost var spans: seq<Span> := [];
    argc := 0;
    var pos: nat := 0;
    StartsParsed(mem);
    while pos < buf.Length
      invariant argc == |spans| && AtArgument(buf[..], args[..], mem, spans, pos)
    {
      Untouched(mem, spans, pos);
      assert buf[pos] == mem[pos];
      if IsEol(buf[pos]) {
        EndOfLine(mem, spans, pos, args.Length);
        outcome := Finish(buf, args, argc, mem, spans, pos);
        return outcome, argc;
      }
      var next;
      next, argc, pos, spans := Turn(buf, args, argc, pos, mem, spans);
      if next.Return? {
        return next.outcome, argc;
      }
    }
    // The loop would go on reading behind the buffer.
    RunsOver(mem, spans, pos, args.Length);
    outcome := OutOfBounds;
  }

  lemma StartsParsed(mem: seq<char>)
    ensures Parsed(mem, [], 0)
  {
    var r := ScanMemory(mem, 0);
    if r.Within? && r.scan.Spans? {
      assert [] + r.scan.spans == r.scan.spans;
    }
  }

  // ----- on the lines of a script -----

  /** What a return of 0 promises on a line: args points at the tokens of the line. */
  ghost predicate DeliversLine(buf: seq<char>, args: seq<int>, argc: nat, mem: seq<char>, text: string) {
    Tokenize(text).Tokens? && Points(buf, args, argc, Tokenize(text).args, mem)
  }

  lemma LineDelivered(buf: seq<char>, args: seq<int>, argc: nat, mem: seq<char>, text: string)
    requires HoldsLine(mem, text) && ScanMemory(mem, 0) == Within(ScanFrom(text, 0))
    requires Delivered(buf, args, argc, mem)
    ensures DeliversLine(buf, args, argc, mem, text)
  {
    var spans := ScanFrom(text, 0).spans;
    ScanIsInside(text, 0);
    forall i | 0 <= i < |spans| ensures Texts(text, spans)[i] == Texts(mem, spans)[i] {
      assert text[spans[i].start..spans[i].end] == mem[spans[i].start..spans[i].end];
    }
    assert Texts(text, spans) == Texts(mem, spans);
  }

  /** interpret_line on a line, complete or not, whatever the buffer holds behind it: where nothing but white space
      follows a bare argument at the end, it does what the line says as far as args has room. */
  method InterpretText(buf: array<char>, args: array<int>, ghost text: string) returns (outcome: Outcome, argc: nat)
    requires HoldsLine(buf[..], text)
    modifies buf, args
    ensures outcome == Expected(old(buf[..]), args.Length)
    ensures (EndsBare(text, 0) ==> BlankFrom(old(buf[..]), |text| + 1)) ==>
              outcome == if Stores(text) > args.Length then OutOfBounds
                         else if Tokenize(text).Tokens? then Success else Failure
    ensures (EndsBare(text, 0) ==> BlankFrom(old(buf[..]), |text| + 1)) && outcome == Success ==>
              DeliversLine(buf[..], args[..], argc, old(buf[..]), text)
  {
    ghost var mem := buf[..];
    outcome, argc := InterpretLine(buf, args);
    ReadsAsTheLine(mem, text);
    if EndsBare(text, 0) ==> BlankFrom(mem, |text| + 1) {
      LineOutcome(mem, text, args.Length);
      if outcome == Success {
        LineDelivered(buf[..], args[..], argc, mem, text);
      }
    }
  }

  lemma {:induction false} WordStopIs(mem: seq<char>, p: nat, e: nat)
    requires p <= e < |mem| && Separates(mem[e]) && forall k :: p <= k < e ==> !Separates(mem[k])
    ensures WordStop(mem, p) == e
    decreases e - p
  {
    if p < e {
      WordStopIs(mem, p + 1, e);
    }
  }

  /** Two words with one character in between and an end of line one character behind them. */
  lemma TwoWords(mem: seq<char>, a: nat, b: nat)
    requires 0 < a && a + 1 < b && b + 1 < |mem| && Separates(mem[a]) && Separates(mem[b]) && IsEol(mem[b + 1])
    requires mem[0] != '"' && mem[a + 1] != '"'
    requires forall k :: 0 <= k < b && k != a ==> !Separates(mem[k])
    ensures ScanMemory(mem, 0) == Within(Spans([Span(0, a), Span(a + 1, b)]))
  {
    WordStopIs(mem, 1, a);
    WordStopIs(mem, a + 2, b);
    BareInMemory(mem, 0, a, a + 1);
    BareInMemory(mem, a + 1, b, b + 1);
    assert ScanMemory(mem, b + 1) == Within(Spans([]));
    assert [Span(a + 1, b)] + [] == [Span(a + 1, b)];
    assert [Span(0, a)] + [Span(a + 1, b)] == [Span(0, a), Span(a + 1, b)];
  }

  lemma PunchMore(line: seq<char>, spans: seq<Span>, span: Span)
    requires span.end < |line|
    ensures Punch(line, spans + [span]) == Punch(line, spans)[span.end := '\0']
  {
    assert (spans + [span])[..|spans|] == spans;
  }

  lemma FirstLinePunched()
    ensures Punch("a foo\n\0", [Span(0, 1), Span(2, 5)]) == "a\0foo\0\0"
  {
    var mem := "a foo\n\0";
    PunchMore(mem, [], Span(0, 1));
    PunchMore(mem, [Span(0, 1)], Span(2, 5));
    assert [] + [Span(0, 1)] == [Span(0, 1)] && [Span(0, 1)] + [Span(2, 5)] == [Span(0, 1), Span(2, 5)];
    assert mem[1 := '\0'][5 := '\0'] == "a\0foo\0\0";
  }

  /** A script of the two lines `a foo` and `ls`, the second without a newline. What the scan of the first leaves in
      the buffer: */
  lemma FirstLineLeaves()
    ensures ScanMemory("a foo\n\0", 0) == Within(Spans([Span(0, 1), Span(2, 5)]))
    ensures Punch("a foo\n\0", [Span(0, 1), Span(2, 5)]) == "a\0foo\0\0"
  {
    TwoWords("a foo\n\0", 1, 5);
    FirstLinePunched();
  }

  lemma StaleMemory()
    ensures "ls\0" + "a\0foo\0\0"[3..] == "ls\0oo\0\0"
    ensures "ls\0oo\0\0"[0..2] == "ls" && "ls\0oo\0\0"[3..5] == "oo"
  {
  }

  /** fgets puts the second line over the beginning of that, and the scan goes on with what is left of the first. */
  lemma StaleArgument()
    ensures var text, mem := "ls", "ls\0" + "a\0foo\0\0"[3..];
      && HoldsLine(mem, text) && Tokenize(text) == Tokens(["ls"])
      && ScanMemory(mem, 0) == Within(Spans([Span(0, 2), Span(3, 5)]))
      && Texts(mem, [Span(0, 2), Span(3, 5)]) == ["ls", "oo"]
  {
    StaleMemory();
    TwoWords("ls\0oo\0\0", 2, 5);
    OneWord("ls");
  }

  lemma OneWord(text: string)
    requires |text| == 2 && text[0] != '"' && !IsSpace(text[0]) && !IsSpace(text[1])
    ensures Tokenize(text) == Tokens([text])
  {
    assert WordEnd(text, 1) == 2;
    BareInLine(text, 0, 2, 2);
    assert ScanFrom(text, 0) == Spans([Span(0, 2)]);
    assert text[0..2] == text;
  }
}
