/** What producers and consumers should look like from outside: a bounded queue that whole lines go
    through one at a time. Both synchronisation schemes refine it. */
module BoundedFifo {
  import opened LineBuffer

  // Who pushed or popped which line, in the order it happened.
  datatype Entry = Entry(who: nat, line: Line)
  type Log = seq<Entry>

  function Lines(log: Log): (lines: seq<Line>)
    ensures |lines| == |log|
  {
    seq(|log|, n requires 0 <= n < |log| => log[n].line)
  }

  /** The lines that one thread pushed or popped, in order. */
  function By(log: Log, who: nat): seq<Line> {
    if log == [] then []
    else By(log[..|log| - 1], who) + (if log[|log| - 1].who == who then [log[|log| - 1].line] else [])
  }

  /** The lines a producer pushes: strtok yields NULL for an empty line, which is skipped. */
  function NonEmpty(lines: seq<Line>): seq<Line> {
    if lines == [] then []
    else (if lines[0] == "" then [] else [lines[0]]) + NonEmpty(lines[1..])
  }

  datatype Fifo = Fifo(size: nat, queue: seq<Line>, pushed: Log, popped: Log)

  ghost predicate Put(f: Fifo, g: Fifo, e: Entry) {
    && |f.queue| < f.size
    && g == f.(queue := f.queue + [e.line], pushed := f.pushed + [e])
  }

  ghost predicate Take(f: Fifo, g: Fifo, e: Entry) {
    && f.queue != [] && e.line == f.queue[0]
    && g == f.(queue := f.queue[1..], popped := f.popped + [e])
  }

  /** One step of the queue; steps that move no line are stuttering. */
  ghost predicate FifoNext(f: Fifo, g: Fifo) {
    || g == f
    || (exists e :: Put(f, g, e))
    || (exists e :: Take(f, g, e))
  }

  /** Nothing is lost, doubled or overtaken. */
  ghost predicate FifoInv(f: Fifo) {
    |f.queue| <= f.size && Lines(f.popped) + f.queue == Lines(f.pushed)
  }

  lemma FifoKeepsInv(f: Fifo, g: Fifo)
    requires FifoInv(f) && FifoNext(f, g)
    ensures FifoInv(g) && g.size == f.size
    ensures |f.pushed| <= |g.pushed| && g.pushed[..|f.pushed|] == f.pushed
    ensures |f.popped| <= |g.popped| && g.popped[..|f.popped|] == f.popped
  {
    if e :| Put(f, g, e) {
      assert Lines(g.pushed) == Lines(f.pushed) + [e.line];
    } else if e :| Take(f, g, e) {
      assert Lines(g.popped) == Lines(f.popped) + [e.line];
      assert [f.queue[0]] + f.queue[1..] == f.queue;
    }
  }

  lemma ByAppend(log: Log, e: Entry, who: nat)
    ensures By(log + [e], who) == By(log, who) + (if e.who == who then [e.line] else [])
  {
    assert (log + [e])[..|log|] == log;
  }

  /** Reading one line moves it from what is left of the file into the hand, or skips it. */
  lemma ReadLine(todo: seq<Line>)
    requires todo != []
    ensures (if todo[0] == "" then [] else [todo[0]]) + NonEmpty(todo[1..]) == NonEmpty(todo)
  {
  }
}
