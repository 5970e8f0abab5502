/** The semaphore version: when a line may stay in the buffer after shutdown. */
module SemLineLeftover {
  import opened LineBuffer
  import opened BoundedFifo
  import opened LineThreads
  import opened LineThreadProofs
  import opened SemLine
  import opened SemLineProofs
  import opened Leftover

  ghost predicate Reachable(s: State, size: nat, files: seq<seq<Line>>, consumers: nat) {
    exists states, actors :: Run(states, actors, size, files, consumers) && states[|actors|] == s
  }

  lemma Extend(states: seq<State>, actors: seq<Actor>, a: Actor, t: State,
               size: nat, files: seq<seq<Line>>, consumers: nat)
    requires Run(states, actors, size, files, consumers)
    requires states[|actors|].crew.ring.Valid() && Enabled(states[|actors|], a) && t == Step(states[|actors|], a)
    ensures Run(states + [t], actors + [a], size, files, consumers)
  {
    var longer, more := states + [t], actors + [a];
    forall n | 0 <= n < |more|
      ensures longer[n].crew.ring.Valid() && Enabled(longer[n], more[n]) && longer[n + 1] == Step(longer[n], more[n])
    {
      if n < |actors| {
        assert longer[n] == states[n] && more[n] == actors[n] && longer[n + 1] == states[n + 1];
      }
    }
  }

  lemma Advance(s: State, a: Actor, size: nat, files: seq<seq<Line>>, consumers: nat) returns (t: State)
    requires Reachable(s, size, files, consumers) && s.crew.ring.Valid() && Enabled(s, a)
    ensures t == Step(s, a) && Reachable(t, size, files, consumers)
  {
    t := Step(s, a);
    var states, actors :| Run(states, actors, size, files, consumers) && states[|actors|] == s;
    Extend(states, actors, a, t, size, files, consumers);
    assert (states + [t])[|actors + [a]|] == t;
  }

  /** While all is quiet, the first consumer waits, and the tokens of consumer_line are the lines in the buffer. */
  ghost predicate CrewReached(c: Crew, size: nat, files: seq<seq<Line>>, consumers: nat) {
    && (forall j :: 0 <= j < |c.consumers| ==> !c.consumers[j].pc.QRelock?)
    && exists p: nat, q: nat ::
      && Reachable(State(c, p, q), size, files, consumers)
      && (Quiet(c) ==> q == c.ring.length && c.consumers[0].pc.QWait?)
  }

  lemma Reads(c: Crew, i: nat, size: nat, files: seq<seq<Line>>, consumers: nat)
    requires CrewReached(c, size, files, consumers) && Quiet(c)
    requires i < |c.producers| && c.producers[i].pc.PRead? && !HasLine(c, i)
    ensures CrewReached(AfterRead(c, i), size, files, consumers)
  {
    var p: nat, q: nat :| Reachable(State(c, p, q), size, files, consumers)
                          && q == c.ring.length && c.consumers[0].pc.QWait?;
    var t := Advance(State(c, p, q), TheProducer(i), size, files, consumers);
    assert t == State(AfterRead(c, i), p, q);
  }

  /** State k of producer i pushing a line. */
  lemma {:induction false} PushesUpTo(c: Crew, i: nat, p: nat, k: nat, size: nat, files: seq<seq<Line>>, consumers: nat)
    requires Reachable(State(c, p, 0), size, files, consumers)
    requires HasLine(c, i) && c.ring.Valid() && !c.ring.Full() && c.mx == 1 && k <= 5
    ensures Reachable(State(Pushing(c, i, k), p, if k <= 3 then 0 else 1), size, files, consumers)
  {
    if k > 0 {
      PushesUpTo(c, i, p, k - 1, size, files, consumers);
      PushingMoves(c, i, k - 1);
      var t := Advance(State(Pushing(c, i, k - 1), p, if k <= 4 then 0 else 1), TheProducer(i), size, files, consumers);
    }
  }

  lemma Pushes(c: Crew, i: nat, size: nat, files: seq<seq<Line>>, consumers: nat) returns (d: Crew)
    requires CrewReached(c, size, files, consumers) && Quiet(c) && c.ring.length == 0 && HasLine(c, i)
    ensures CrewReached(d, size, files, consumers) && Pushed(c, i, d)
  {
    var p: nat, q: nat :| Reachable(State(c, p, q), size, files, consumers)
                          && q == c.ring.length && c.consumers[0].pc.QWait?;
    PushesUpTo(c, i, p, 5, size, files, consumers);
    PushingEnds(c, i);
    d := Pushing(c, i, 5);
  }

  /** State k of the first consumer taking a line. */
  lemma {:induction false} DrainsUpTo(c: Crew, p: nat, k: nat, size: nat, files: seq<seq<Line>>, consumers: nat)
    requires |c.consumers| > 0 && c.ring.Valid() && c.ring.length == 1 && c.mx == 1 && k <= 8
    requires Reachable(State(Draining(c, 0), p, 0), size, files, consumers)
    ensures Reachable(State(Draining(c, k), if k <= 2 then p else p + 1, 0), size, files, consumers)
  {
    if k > 0 {
      DrainsUpTo(c, p, k - 1, size, files, consumers);
      DrainingMoves(c, k - 1);
      var t := Advance(State(Draining(c, k - 1), if k <= 3 then p else p + 1, 0), TheConsumer(0),
                       size, files, consumers);
    }
  }

  lemma Drains(c: Crew, size: nat, files: seq<seq<Line>>, consumers: nat) returns (d: Crew)
    requires CrewReached(c, size, files, consumers) && Quiet(c) && c.ring.length == 1
    ensures CrewReached(d, size, files, consumers) && Drained(c, d)
  {
    var p: nat, q: nat :| Reachable(State(c, p, q), size, files, consumers)
                          && q == c.ring.length && c.consumers[0].pc.QWait?;
    var t := Advance(State(c, p, q), TheConsumer(0), size, files, consumers);
    assert t == State(Draining(c, 0), p, 0);
    DrainsUpTo(c, p, 8, size, files, consumers);
    DrainingEnds(c);
    d := Draining(c, 8);
  }

  lemma Goes(c: Crew, j: nat, size: nat, files: seq<seq<Line>>, consumers: nat)
    requires CrewReached(c, size, files, consumers) && c.ring.Valid() && MayGo(c, j)
    ensures CrewReached(SetQ(c, j, QCancelled), size, files, consumers)
  {
    var p: nat, q: nat :| Reachable(State(c, p, q), size, files, consumers);
    var t := Advance(State(c, p, q), CancelOf(j), size, files, consumers);
    GoneIsNotQuiet(t.crew, j);
  }

  lemma MainMoves(c: Crew, size: nat, files: seq<seq<Line>>, consumers: nat)
    requires CrewReached(c, size, files, consumers) && c.ring.Valid() && MainCanMove(c)
    ensures CrewReached(MainMove(c), size, files, consumers)
  {
    var p: nat, q: nat :| Reachable(State(c, p, q), size, files, consumers);
    var t := Advance(State(c, p, q), TheMain, size, files, consumers);
    assert !Quiet(t.crew);
  }

  lemma ReachedIsValid(c: Crew, size: nat, files: seq<seq<Line>>, consumers: nat)
    requires CrewReached(c, size, files, consumers)
    ensures c.ring.Valid()
  {
    var p: nat, q: nat :| Reachable(State(c, p, q), size, files, consumers);
    var states, actors :| Run(states, actors, size, files, consumers) && states[|actors|] == State(c, p, q);
    RunKeepsInv(states, actors, size, files, consumers, |actors|);
  }

  /** State k of the first consumer finding the buffer empty. */
  lemma {:induction false} SettlesUpTo(k: nat, size: nat, files: seq<seq<Line>>, consumers: nat)
    requires size >= 1 && consumers >= 1 && k <= 4
    ensures Reachable(State(Settling(InitCrew(size, files, consumers), k), 0, 0), size, files, consumers)
  {
    var c := InitCrew(size, files, consumers);
    if k == 0 {
      SettlingEnds(size, files, consumers);
      var states, actors: seq<Actor> := [Init(size, files, consumers)], [];
      assert Run(states, actors, size, files, consumers) && states[|actors|] == State(Settling(c, 0), 0, 0);
    } else {
      SettlesUpTo(k - 1, size, files, consumers);
      SettlingMoves(c, k - 1);
      var t := Advance(State(Settling(c, k - 1), 0, 0), TheConsumer(0), size, files, consumers);
    }
  }

  lemma Settles(size: nat, files: seq<seq<Line>>, consumers: nat) returns (c: Crew)
    requires size >= 1 && consumers >= 1
    ensures CrewReached(c, size, files, consumers) && Quiet(c) && Ready(c, 0, files)
  {
    SettlesUpTo(4, size, files, consumers);
    SettlingEnds(size, files, consumers);
    c := Settling(InitCrew(size, files, consumers), 4);
  }

  lemma IsCapable(size: nat, files: seq<seq<Line>>, consumers: nat)
    ensures Capable(c => CrewReached(c, size, files, consumers))
  {
    forall c | CrewReached(c, size, files, consumers) ensures c.ring.Valid() {
      ReachedIsValid(c, size, files, consumers);
    }
    forall c | CrewReached(c, size, files, consumers) && MainCanMove(c)
      ensures CrewReached(MainMove(c), size, files, consumers)
    {
      MainMoves(c, size, files, consumers);
    }
    forall c, i: nat | CrewReached(c, size, files, consumers) && Quiet(c)
                       && i < |c.producers| && c.producers[i].pc.PRead? && !HasLine(c, i)
      ensures CrewReached(AfterRead(c, i), size, files, consumers)
    {
      Reads(c, i, size, files, consumers);
    }
    forall c, i: nat | CrewReached(c, size, files, consumers) && Quiet(c) && c.ring.length == 0 && HasLine(c, i)
      ensures exists d :: CrewReached(d, size, files, consumers) && Pushed(c, i, d)
    {
      var d := Pushes(c, i, size, files, consumers);
    }
    forall c | CrewReached(c, size, files, consumers) && Quiet(c) && c.ring.length == 1
      ensures exists d :: CrewReached(d, size, files, consumers) && Drained(c, d)
    {
      var d := Drains(c, size, files, consumers);
    }
    forall c, j: nat | CrewReached(c, size, files, consumers) && MayGo(c, j)
      ensures CrewReached(SetQ(c, j, QCancelled), size, files, consumers)
    {
      Goes(c, j, size, files, consumers);
    }
  }

  /** A finished run with a line left in the buffer. */
  ghost predicate LeavesALine(
      states: seq<State>, actors: seq<Actor>, size: nat, files: seq<seq<Line>>, consumers: nat) {
    && Run(states, actors, size, files, consumers)
    && states[|actors|].crew.main.RDone? && states[|actors|].crew.ring.length > 0
  }

  /** With a cell and a consumer, every finished run has emptied the buffer exactly when no file has a line to push. */
  lemma EmptyIffNothingPushed(size: nat, files: seq<seq<Line>>, consumers: nat)
    requires size >= 1 && consumers >= 1
    ensures (forall k :: 0 <= k < |files| ==> NonEmpty(files[k]) == []) <==>
            !exists states, actors :: LeavesALine(states, actors, size, files, consumers)
  {
    if k: nat :| k < |files| && NonEmpty(files[k]) != [] {
      IsCapable(size, files, consumers);
      var c := Settles(size, files, consumers);
      var d := LastLineStays(c => CrewReached(c, size, files, consumers), c, files, k);
      var p: nat, q: nat :| Reachable(State(d, p, q), size, files, consumers);
      var states, actors :| Run(states, actors, size, files, consumers) && states[|actors|] == State(d, p, q);
      assert LeavesALine(states, actors, size, files, consumers);
    } else {
      forall states: seq<State>, actors: seq<Actor> | Run(states, actors, size, files, consumers)
        ensures !LeavesALine(states, actors, size, files, consumers)
      {
        RunKeepsInv(states, actors, size, files, consumers, |actors|);
        NothingToPush(states[|actors|].crew, size, files, consumers);
      }
    }
  }

  /** One producer with one line, one consumer and one cell are enough. */
  lemma OneLineMayStay()
    ensures exists states, actors :: LeavesALine(states, actors, 1, [["x"]], 1)
  {
    assert NonEmpty([["x"]][0]) != [];
    EmptyIffNothingPushed(1, [["x"]], 1);
  }
}
