/** The monitor version: when a line may stay in the buffer after shutdown. */
module MonitorLeftover {
  import opened LineBuffer
  import opened BoundedFifo
  import opened LineThreads
  import opened LineThreadProofs
  import opened Monitor
  import opened MonitorProofs
  import opened Leftover

  ghost predicate Reachable(c: Crew, size: nat, files: seq<seq<Line>>, consumers: nat) {
    exists states, actors :: Run(states, actors, size, files, consumers) && states[|actors|] == c
  }

  lemma Extend(states: seq<Crew>, actors: seq<Actor>, a: Actor, d: Crew,
               size: nat, files: seq<seq<Line>>, consumers: nat)
    requires Run(states, actors, size, files, consumers)
    requires states[|actors|].ring.Valid() && Enabled(states[|actors|], a) && d == Step(states[|actors|], a)
    ensures Run(states + [d], actors + [a], size, files, consumers)
  {
    var longer, more := states + [d], actors + [a];
    forall n | 0 <= n < |more|
      ensures longer[n].ring.Valid() && Enabled(longer[n], more[n]) && longer[n + 1] == Step(longer[n], more[n])
    {
      if n < |actors| {
        assert longer[n] == states[n] && more[n] == actors[n] && longer[n + 1] == states[n + 1];
      }
    }
  }

  lemma Advance(c: Crew, a: Actor, size: nat, files: seq<seq<Line>>, consumers: nat) returns (d: Crew)
    requires Reachable(c, size, files, consumers) && c.ring.Valid() && Enabled(c, a)
    ensures d == Step(c, a) && Reachable(d, size, files, consumers)
  {
    d := Step(c, a);
    var states, actors :| Run(states, actors, size, files, consumers) && states[|actors|] == c;
    Extend(states, actors, a, d, size, files, consumers);
    assert (states + [d])[|actors + [a]|] == d;
  }

  /** While all is quiet, the first consumer waits on an empty buffer, and has been woken for a line. */
  ghost predicate CrewReached(c: Crew, size: nat, files: seq<seq<Line>>, consumers: nat) {
    && Reachable(c, size, files, consumers)
    && (Quiet(c) ==> if c.ring.length == 0 then c.consumers[0].pc.QWait? else c.consumers[0].pc.QRelock?)
  }

  lemma Reads(c: Crew, i: nat, size: nat, files: seq<seq<Line>>, consumers: nat)
    requires CrewReached(c, size, files, consumers) && Quiet(c)
    requires i < |c.producers| && c.producers[i].pc.PRead? && !HasLine(c, i)
    ensures CrewReached(AfterRead(c, i), size, files, consumers)
  {
    var d := Advance(c, TheProducer(i, 0), size, files, consumers);
    assert d == AfterRead(c, i);
  }

  /** State k of producer i pushing a line; its signal wakes the first consumer. */
  lemma {:induction false} PushesUpTo(c: Crew, i: nat, k: nat, size: nat, files: seq<seq<Line>>, consumers: nat)
    requires Reachable(c, size, files, consumers) && |c.consumers| > 0 && c.consumers[0].pc.QWait?
    requires HasLine(c, i) && c.ring.Valid() && !c.ring.Full() && c.mx == 1 && k <= 5
    ensures Reachable(Pushing(if k <= 3 then c else SetQ(c, 0, QRelock), i, k), size, files, consumers)
  {
    if k > 0 {
      PushesUpTo(c, i, k - 1, size, files, consumers);
      PushingMoves(c, i, k - 1);
      PushingMoves(SetQ(c, 0, QRelock), i, k - 1);
      var d := Advance(Pushing(if k <= 4 then c else SetQ(c, 0, QRelock), i, k - 1), TheProducer(i, 0),
                       size, files, consumers);
      assert k == 4 ==> d == SetQ(Pushing(c, i, 4), 0, QRelock);
    }
  }

  lemma Pushes(c: Crew, i: nat, size: nat, files: seq<seq<Line>>, consumers: nat) returns (d: Crew)
    requires CrewReached(c, size, files, consumers) && Quiet(c) && c.ring.length == 0 && HasLine(c, i)
    ensures CrewReached(d, size, files, consumers) && Pushed(c, i, d)
  {
    PushesUpTo(c, i, 5, size, files, consumers);
    PushingEnds(SetQ(c, 0, QRelock), i);
    d := Pushing(SetQ(c, 0, QRelock), i, 5);
  }

  /** A move of the first consumer while no producer waits. */
  lemma ConsumerAdvances(c: Crew, size: nat, files: seq<seq<Line>>, consumers: nat)
    requires Reachable(c, size, files, consumers) && c.ring.Valid() && ConsumerCanMove(c, 0)
    requires !c.consumers[0].cancel && forall i: nat :: !WaitingProducer(c, i)
    ensures Reachable(ConsumerMove(c, 0), size, files, consumers)
  {
    assert ConsumerEnabled(c, 0, 0);
    var d := Advance(c, TheConsumer(0, 0), size, files, consumers);
    assert d == ConsumerStep(c, 0, 0) == ConsumerMove(c, 0);
  }

  /** State k of the first consumer taking a line, while no producer waits. */
  lemma {:induction false} DrainsUpTo(c: Crew, k: nat, size: nat, files: seq<seq<Line>>, consumers: nat)
    requires |c.consumers| > 0 && c.ring.Valid() && c.ring.length == 1 && c.mx == 1 && !c.consumers[0].cancel
    requires forall i: nat :: !WaitingProducer(c, i)
    requires 1 <= k <= 8 && Reachable(Draining(c, 1), size, files, consumers)
    ensures Reachable(Draining(c, k), size, files, consumers)
  {
    if k > 1 {
      DrainsUpTo(c, k - 1, size, files, consumers);
      DrainingMoves(c, k - 1);
      var now := Draining(c, k - 1);
      forall i: nat ensures !WaitingProducer(now, i) {
        assert !WaitingProducer(c, i);
      }
      ConsumerAdvances(now, size, files, consumers);
    }
  }

  lemma Drains(c: Crew, size: nat, files: seq<seq<Line>>, consumers: nat) returns (d: Crew)
    requires CrewReached(c, size, files, consumers) && Quiet(c) && c.ring.length == 1
    ensures CrewReached(d, size, files, consumers) && Drained(c, d)
  {
    d := Advance(c, TheConsumer(0, 0), size, files, consumers);
    assert d == Draining(c, 1);
    DrainsUpTo(c, 8, size, files, consumers);
    DrainingEnds(c);
    d := Draining(c, 8);
  }

  /** Cancelled while waiting: the lock is taken again, and released by the clean-up handler. */
  lemma GoesThroughTheLock(c: Crew, j: nat, size: nat, files: seq<seq<Line>>, consumers: nat)
    requires c.ring.Valid() && c.mx == 1 && j < |c.consumers|
    requires Reachable(SetQ(c, j, QCancelLock), size, files, consumers)
    ensures Reachable(SetQ(c, j, QCancelled), size, files, consumers)
  {
    var d := Advance(SetQ(c, j, QCancelLock), TheConsumer(j, 0), size, files, consumers);
    assert d == SetQ(c, j, QCancelUnlock).(mx := 0);
    LeavesTheLock(c, j, size, files, consumers);
  }

  lemma LeavesTheLock(c: Crew, j: nat, size: nat, files: seq<seq<Line>>, consumers: nat)
    requires c.ring.Valid() && c.mx == 1 && j < |c.consumers|
    requires Reachable(SetQ(c, j, QCancelUnlock).(mx := 0), size, files, consumers)
    ensures Reachable(SetQ(c, j, QCancelled), size, files, consumers)
  {
    var d := Advance(SetQ(c, j, QCancelUnlock).(mx := 0), TheConsumer(j, 0), size, files, consumers);
    assert d == SetQ(c, j, QCancelled);
  }

  lemma Goes(c: Crew, j: nat, size: nat, files: seq<seq<Line>>, consumers: nat)
    requires CrewReached(c, size, files, consumers) && c.ring.Valid() && MayGo(c, j)
    ensures CrewReached(SetQ(c, j, QCancelled), size, files, consumers)
  {
    var d := Advance(c, CancelOf(j), size, files, consumers);
    if !c.consumers[j].pc.QStart? {
      GoesThroughTheLock(c, j, size, files, consumers);
    }
    GoneIsNotQuiet(SetQ(c, j, QCancelled), j);
  }

  lemma MainMoves(c: Crew, size: nat, files: seq<seq<Line>>, consumers: nat)
    requires CrewReached(c, size, files, consumers) && c.ring.Valid() && MainCanMove(c)
    ensures CrewReached(MainMove(c), size, files, consumers)
  {
    var d := Advance(c, TheMain, size, files, consumers);
    assert !Quiet(d);
  }

  lemma ReachedIsValid(c: Crew, size: nat, files: seq<seq<Line>>, consumers: nat)
    requires CrewReached(c, size, files, consumers)
    ensures c.ring.Valid()
  {
    var states, actors :| Run(states, actors, size, files, consumers) && states[|actors|] == c;
    RunKeepsInv(states, actors, size, files, consumers, |actors|);
  }

  /** State k of the first consumer finding the buffer empty. */
  lemma {:induction false} SettlesUpTo(k: nat, size: nat, files: seq<seq<Line>>, consumers: nat)
    requires size >= 1 && consumers >= 1 && k <= 4
    ensures Reachable(Settling(InitCrew(size, files, consumers), k), size, files, consumers)
  {
    var c := InitCrew(size, files, consumers);
    if k == 0 {
      SettlingEnds(size, files, consumers);
      var states, actors: seq<Actor> := [c], [];
      assert Run(states, actors, size, files, consumers) && states[|actors|] == Settling(c, 0);
    } else {
      SettlesUpTo(k - 1, size, files, consumers);
      SettlingMoves(c, k - 1);
      var d := Advance(Settling(c, k - 1), TheConsumer(0, 0), size, files, consumers);
    }
  }

  lemma Settles(size: nat, files: seq<seq<Line>>, consumers: nat) returns (c: Crew)
    requires size >= 1 && consumers >= 1
    ensures CrewReached(c, size, files, consumers) && Quiet(c) && Ready(c, 0, files)
  {
    SettlesUpTo(4, size, files, consumers);
    SettlingEnds(size, files, consumers);
    c := Settling(InitCrew(size, files, consumers), 4);
  }

  lemma IsCapable(size: nat, files: seq<seq<Line>>, consumers: nat)
    ensures Capable(c => CrewReached(c, size, files, consumers))
  {
    forall c | CrewReached(c, size, files, consumers) ensures c.ring.Valid() {
      ReachedIsValid(c, size, files, consumers);
    }
    forall c | CrewReached(c, size, files, consumers) && MainCanMove(c)
      ensures CrewReached(MainMove(c), size, files, consumers)
    {
      MainMoves(c, size, files, consumers);
    }
    forall c, i: nat | CrewReached(c, size, files, consumers) && Quiet(c)
                       && i < |c.producers| && c.producers[i].pc.PRead? && !HasLine(c, i)
      ensures CrewReached(AfterRead(c, i), size, files, consumers)
    {
      Reads(c, i, size, files, consumers);
    }
    forall c, i: nat | CrewReached(c, size, files, consumers) && Quiet(c) && c.ring.length == 0 && HasLine(c, i)
      ensures exists d :: CrewReached(d, size, files, consumers) && Pushed(c, i, d)
    {
      var d := Pushes(c, i, size, files, consumers);
    }
    forall c | CrewReached(c, size, files, consumers) && Quiet(c) && c.ring.length == 1
      ensures exists d :: CrewReached(d, size, files, consumers) && Drained(c, d)
    {
      var d := Drains(c, size, files, consumers);
    }
    forall c, j: nat | CrewReached(c, size, files, consumers) && MayGo(c, j)
      ensures CrewReached(SetQ(c, j, QCancelled), size, files, consumers)
    {
      Goes(c, j, size, files, consumers);
    }
  }

  /** A finished run with a line left in the buffer. */
  ghost predicate LeavesALine(states: seq<Crew>, actors: seq<Actor>, size: nat, files: seq<seq<Line>>, consumers: nat) {
    && Run(states, actors, size, files, consumers)
    && states[|actors|].main.RDone? && states[|actors|].ring.length > 0
  }

  /** With a cell and a consumer, every finished run has emptied the buffer exactly when no file has a line to push. */
  lemma EmptyIffNothingPushed(size: nat, files: seq<seq<Line>>, consumers: nat)
    requires size >= 1 && consumers >= 1
    ensures (forall k :: 0 <= k < |files| ==> NonEmpty(files[k]) == []) <==>
            !exists states, actors :: LeavesALine(states, actors, size, files, consumers)
  {
    if k: nat :| k < |files| && NonEmpty(files[k]) != [] {
      IsCapable(size, files, consumers);
      var c := Settles(size, files, consumers);
      var d := LastLineStays(c => CrewReached(c, size, files, consumers), c, files, k);
      var states, actors :| Run(states, actors, size, files, consumers) && states[|actors|] == d;
      assert LeavesALine(states, actors, size, files, consumers);
    } else {
      forall states: seq<Crew>, actors: seq<Actor> | Run(states, actors, size, files, consumers)
        ensures !LeavesALine(states, actors, size, files, consumers)
      {
        RunKeepsInv(states, actors, size, files, consumers, |actors|);
        NothingToPush(states[|actors|], size, files, consumers);
      }
    }
  }

  /** One producer with one line, one consumer and one cell are enough. */
  lemma OneLineMayStay()
    ensures exists states, actors :: LeavesALine(states, actors, 1, [["x"]], 1)
  {
    assert NonEmpty([["x"]][0]) != [];
    EmptyIffNothingPushed(1, [["x"]], 1);
  }
}
