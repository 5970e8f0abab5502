/** How a line can stay in the buffer after shutdown, whichever way the threads wait: one consumer dozes on an
    empty buffer, and every line but the last is taken before the next one comes. */
module Leftover {
  import opened LineBuffer
  import opened BoundedFifo
  import opened LineThreads

  // The crews that can be reached in some run.
  type Reach = Crew -> bool

  /** Producers are between two lines; the first consumer waits or has just been woken; no other has begun. */
  ghost predicate Quiet(c: Crew) {
    && c.main == RJoinProducers(0) && c.mx == 1
    && c.ring.Valid() && c.ring.length <= 1 <= |c.ring.cells| && |c.consumers| >= 1
    && (forall i :: 0 <= i < |c.producers| ==> c.producers[i].pc.PRead? || c.producers[i].pc.PDone?)
    && (c.consumers[0].pc.QWait? || c.consumers[0].pc.QRelock?) && !c.consumers[0].cancel
    && (forall j :: 1 <= j < |c.consumers| ==> c.consumers[j].pc.QStart? && !c.consumers[j].cancel)
  }

  ghost predicate HasLine(c: Crew, i: nat) {
    && i < |c.producers| && c.producers[i].pc.PRead?
    && c.producers[i].todo != [] && c.producers[i].todo[0] != ""
  }

  function AfterRead(c: Crew, i: nat): Crew
    requires i < |c.producers|
  {
    c.(producers := c.producers[i := ReadMove(c.producers[i])])
  }

  /** Producer i has pushed its next line into the empty buffer. */
  ghost predicate Pushed(c: Crew, i: nat, d: Crew)
    requires HasLine(c, i)
  {
    && Quiet(d) && d.ring.length == 1
    && d.producers == c.producers[i := Producer(PRead, c.producers[i].todo[1..], c.producers[i].file)]
  }

  /** The first consumer has taken the line and waits again. */
  ghost predicate Drained(c: Crew, d: Crew) {
    Quiet(d) && d.ring.length == 0 && d.producers == c.producers
  }

  /** The crew after k moves of producer i from reading a line to reading the next one. */
  function Pushing(c: Crew, i: nat, k: nat): Crew
    requires i < |c.producers| && c.producers[i].todo != [] && c.ring.Valid() && !c.ring.Full() && c.mx == 1
  {
    var p := c.producers[i];
    var line, todo := p.todo[0], p.todo[1..];
    var before := c.producers[i := Producer(if k <= 1 then PLock(line) else PLook(line), todo, p.file)];
    var after := c.producers[i := Producer(if k == 3 then PWake else if k == 4 then PUnlock else PRead, todo, p.file)];
    if k == 0 then c
    else if k <= 2 then c.(producers := before, mx := if k == 1 then 1 else 0)
    else c.(producers := after, mx := if k <= 4 then 0 else 1,
            ring := c.ring.Push(line), pushed := c.pushed + [Entry(i, line)])
  }

  lemma PushingMoves(c: Crew, i: nat, k: nat)
    requires HasLine(c, i) && c.ring.Valid() && !c.ring.Full() && c.mx == 1 && k < 5
    ensures var now := Pushing(c, i, k);
      && now.ring.Valid() && ProducerCanMove(now, i) && ProducerMove(now, i) == Pushing(c, i, k + 1)
      && (now.producers[i].pc.PWake? <==> k == 3) && now.consumers == c.consumers
  {
    PushAppends(c.ring, c.producers[i].todo[0]);
  }

  /** The crew after k moves of the first consumer from taking the lock for the line to waiting again. */
  function Draining(c: Crew, k: nat): Crew
    requires |c.consumers| > 0 && c.ring.Valid() && !c.ring.Empty()
  {
    var q, line := c.consumers[0], c.ring.First();
    var pc := if k == 0 then QLock else if k == 1 then QLook else if k == 2 then QWake(line)
              else if k == 3 then QUnlock(line) else if k == 4 then QHandle(line) else if k == 5 then QLock
              else if k == 6 then QLook else if k == 7 then QLeave else QWait;
    var r := Consumer(pc, q.cancel, if k <= 4 then q.handled else q.handled + [line]);
    var d := c.(consumers := c.consumers[0 := r], mx := if k == 0 || k == 4 || k == 5 || k >= 8 then 1 else 0);
    if k <= 1 then d else d.(ring := c.ring.Pop(), popped := c.popped + [Entry(0, line)])
  }

  lemma DrainingMoves(c: Crew, k: nat)
    requires |c.consumers| > 0 && c.ring.Valid() && c.ring.length == 1 && c.mx == 1 && k < 8
    ensures var now := Draining(c, k);
      && now.ring.Valid() && ConsumerCanMove(now, 0) && ConsumerMove(now, 0) == Draining(c, k + 1)
      && (now.consumers[0].pc.QWake? <==> k == 2) && (now.consumers[0].pc.QLeave? <==> k == 7)
      && !now.consumers[0].pc.QWait? && now.consumers[0].cancel == c.consumers[0].cancel
      && now.producers == c.producers
  {
    PopTakesTheOldest(c.ring);
  }

  /** The crew after k moves of the first consumer from its start to waiting for a line. */
  function Settling(c: Crew, k: nat): Crew
    requires |c.consumers| > 0
  {
    SetQ(c, 0, if k == 0 then QStart else if k == 1 then QLock else if k == 2 then QLook
               else if k == 3 then QLeave else QWait).(mx := if k == 2 || k == 3 then 0 else 1)
  }

  lemma SettlingMoves(c: Crew, k: nat)
    requires |c.consumers| > 0 && c.ring.Valid() && c.ring.Empty() && c.mx == 1 && k < 4
    ensures var now := Settling(c, k);
      && ConsumerCanMove(now, 0) && ConsumerMove(now, 0) == Settling(c, k + 1)
      && !now.consumers[0].pc.QWake? && !now.consumers[0].pc.QWait? && now.consumers[0].cancel == c.consumers[0].cancel
  {
  }

  lemma SettlingEnds(size: nat, files: seq<seq<Line>>, consumers: nat)
    requires size >= 1 && consumers >= 1
    ensures var c := InitCrew(size, files, consumers);
      Settling(c, 0) == c && Quiet(Settling(c, 4)) && Ready(Settling(c, 4), 0, files)
  {
  }

  lemma PushingEnds(c: Crew, i: nat)
    requires Quiet(c) && c.ring.length == 0 && HasLine(c, i)
    ensures Pushed(c, i, Pushing(c, i, 5)) && Pushing(c, i, 5).consumers == c.consumers
  {
    PushAppends(c.ring, c.producers[i].todo[0]);
  }

  lemma DrainingEnds(c: Crew)
    requires Quiet(c) && c.ring.length == 1
    ensures Drained(c, Draining(c, 8)) && Draining(c, 8).consumers[0].pc.QWait?
    ensures forall j :: 1 <= j < |c.consumers| ==> Draining(c, 8).consumers[j] == c.consumers[j]
    ensures |Draining(c, 8).consumers| == |c.consumers|
  {
    PopTakesTheOldest(c.ring);
  }

  /** A consumer that acts on its cancellation. */
  ghost predicate MayGo(c: Crew, j: nat) {
    && c.mx == 1 && j < |c.consumers| && c.consumers[j].cancel
    && (c.consumers[j].pc.QStart? || c.consumers[j].pc.QWait? || c.consumers[j].pc.QRelock?)
  }

  lemma GoneIsNotQuiet(c: Crew, j: nat)
    requires j < |c.consumers| && c.consumers[j].pc.QCancelled?
    ensures !Quiet(c)
  {
  }

  /** What the programs have to be able to do. */
  ghost predicate Capable(reach: Reach) {
    && (forall c :: reach(c) ==> c.ring.Valid())
    && (forall c :: reach(c) && MainCanMove(c) ==> reach(MainMove(c)))
    && (forall c, i: nat :: reach(c) && Quiet(c) && i < |c.producers| && c.producers[i].pc.PRead? && !HasLine(c, i) ==>
          reach(AfterRead(c, i)))
    && (forall c, i: nat :: reach(c) && Quiet(c) && c.ring.length == 0 && HasLine(c, i) ==>
          exists d :: reach(d) && Pushed(c, i, d))
    && (forall c :: reach(c) && Quiet(c) && c.ring.length == 1 ==> exists d :: reach(d) && Drained(c, d))
    && (forall c, j: nat :: reach(c) && MayGo(c, j) ==> reach(SetQ(c, j, QCancelled)))
  }

  lemma PushNext(reach: Reach, c: Crew, i: nat) returns (d: Crew)
    requires Capable(reach) && reach(c) && Quiet(c) && HasLine(c, i)
    ensures reach(d) && Pushed(c, i, d)
  {
    var e := c;
    if c.ring.length == 1 {
      e :| reach(e) && Drained(c, e);
      assert HasLine(e, i);
    }
    d :| reach(d) && Pushed(e, i, d);
  }

  lemma ReadNext(reach: Reach, c: Crew, i: nat) returns (d: Crew)
    requires Capable(reach) && reach(c) && Quiet(c)
    requires i < |c.producers| && c.producers[i].pc.PRead? && !HasLine(c, i)
    ensures reach(d) && Quiet(d) && d.ring.length == c.ring.length
    ensures d.producers == c.producers[i := ReadMove(c.producers[i])]
  {
    d := AfterRead(c, i);
  }

  /** One turn of producer i: it pushes a line, skips one, or is done. */
  lemma Turn(reach: Reach, c: Crew, i: nat) returns (d: Crew)
    requires Capable(reach) && reach(c) && Quiet(c) && i < |c.producers| && c.producers[i].pc.PRead?
    ensures var p := c.producers[i];
      && reach(d) && Quiet(d)
      && d.ring.length == (if HasLine(c, i) then 1 else c.ring.length)
      && d.producers == c.producers[i := if p.todo == [] then p.(pc := PDone)
                                         else Producer(PRead, p.todo[1..], p.file)]
  {
    if HasLine(c, i) {
      d := PushNext(reach, c, i);
    } else {
      d := ReadNext(reach, c, i);
    }
  }

  lemma UpdatedTwice(ps: seq<Producer>, i: nat, p: Producer, q: Producer)
    requires i < |ps|
    ensures ps[i := p][i := q] == ps[i := q]
  {
  }

  /** Producer i pushes all its lines, each after the one before it has been taken. */
  lemma {:induction false} RunProducer(reach: Reach, c: Crew, i: nat) returns (d: Crew)
    requires Capable(reach) && reach(c) && Quiet(c) && i < |c.producers| && c.producers[i].pc.PRead?
    ensures reach(d) && Quiet(d)
    ensures d.producers == c.producers[i := Producer(PDone, [], c.producers[i].file)]
    ensures d.ring.length == if NonEmpty(c.producers[i].todo) == [] then c.ring.length else 1
    decreases |c.producers[i].todo|
  {
    d := Turn(reach, c, i);
    if c.producers[i].todo != [] {
      var turned := d.producers[i];
      d := RunProducer(reach, d, i);
      UpdatedTwice(c.producers, i, turned, Producer(PDone, [], c.producers[i].file));
    }
  }

  /** The producers from i on are still to run. */
  ghost predicate Ready(c: Crew, i: nat, files: seq<seq<Line>>) {
    && |c.producers| == |files|
    && (forall k :: 0 <= k < i && k < |files| ==> c.producers[k].pc.PDone?)
    && (forall k :: i <= k < |files| ==> c.producers[k] == Producer(PRead, files[k], files[k]))
  }

  lemma {:induction false} RunProducers(reach: Reach, c: Crew, i: nat, files: seq<seq<Line>>) returns (d: Crew)
    requires Capable(reach) && reach(c) && Quiet(c) && Ready(c, i, files)
    ensures reach(d) && Quiet(d) && Ready(d, |files|, files)
    ensures c.ring.length == 1 || (exists k :: i <= k < |files| && NonEmpty(files[k]) != []) ==> d.ring.length == 1
    decreases |files| - i
  {
    if i >= |files| {
      d := c;
    } else {
      var e := RunProducer(reach, c, i);
      d := RunProducers(reach, e, i + 1, files);
    }
  }

  /** All producers are done, and every consumer is where it acts on a cancellation, or is gone if it comes before
      number `gone`. */
  ghost predicate Closing(c: Crew, gone: nat) {
    && c.mx == 1 && c.ring.Valid()
    && (forall i :: 0 <= i < |c.producers| ==> c.producers[i].pc.PDone?)
    && (forall j :: 0 <= j < |c.consumers| ==>
          if j < gone then c.consumers[j].pc.QCancelled?
          else c.consumers[j].pc.QStart? || c.consumers[j].pc.QWait? || c.consumers[j].pc.QRelock?)
  }

  lemma {:induction false} JoinProducers(reach: Reach, c: Crew) returns (d: Crew)
    requires Capable(reach) && reach(c) && Closing(c, 0)
    requires c.main.RJoinProducers? && c.main.i <= |c.producers|
    ensures reach(d) && Closing(d, 0) && d.ring == c.ring && d.main == RCancel(0)
    decreases |c.producers| - c.main.i
  {
    d := MainMove(c);
    if c.main.i < |c.producers| {
      d := JoinProducers(reach, d);
    }
  }

  lemma {:induction false} AskConsumers(reach: Reach, c: Crew) returns (d: Crew)
    requires Capable(reach) && reach(c) && Closing(c, 0) && c.main.RCancel? && c.main.i <= |c.consumers|
    requires forall j :: 0 <= j < c.main.i ==> c.consumers[j].cancel
    ensures reach(d) && Closing(d, 0) && d.ring == c.ring && d.main == RJoinConsumers(0)
    ensures forall j :: 0 <= j < |d.consumers| ==> d.consumers[j].cancel
    decreases |c.consumers| - c.main.i
  {
    d := MainMove(c);
    if c.main.i < |c.consumers| {
      d := AskConsumers(reach, d);
    }
  }

  lemma {:induction false} ConsumersGo(reach: Reach, c: Crew, j: nat) returns (d: Crew)
    requires Capable(reach) && reach(c) && Closing(c, j) && j <= |c.consumers|
    requires forall k :: 0 <= k < |c.consumers| ==> c.consumers[k].cancel
    ensures reach(d) && Closing(d, |d.consumers|) && d.ring == c.ring && d.main == c.main
    decreases |c.consumers| - j
  {
    d := c;
    if j < |c.consumers| {
      assert MayGo(c, j);
      d := ConsumersGo(reach, SetQ(c, j, QCancelled), j + 1);
    }
  }

  lemma {:induction false} JoinConsumers(reach: Reach, c: Crew) returns (d: Crew)
    requires Capable(reach) && reach(c) && Closing(c, |c.consumers|)
    requires c.main.RJoinConsumers? && c.main.i <= |c.consumers|
    ensures reach(d) && d.ring == c.ring && d.main == RDone
    decreases |c.consumers| - c.main.i
  {
    d := MainMove(c);
    if c.main.i < |c.consumers| {
      d := JoinConsumers(reach, d);
    }
  }

  /** From the first quiet state to the end, with the last line still in the buffer. */
  lemma LastLineStays(reach: Reach, c: Crew, files: seq<seq<Line>>, k: nat) returns (d: Crew)
    requires Capable(reach) && reach(c) && Quiet(c) && Ready(c, 0, files)
    requires k < |files| && NonEmpty(files[k]) != []
    ensures reach(d) && d.main == RDone && d.ring.Valid() && |d.ring.Contents()| == 1
  {
    d := RunProducers(reach, c, 0, files);
    var ring := d.ring;
    d := JoinProducers(reach, d);
    d := AskConsumers(reach, d);
    d := ConsumersGo(reach, d, 0);
    d := JoinConsumers(reach, d);
  }
}
