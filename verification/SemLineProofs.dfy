/** The semaphore version: refinement of the bounded queue, the counting invariants of the wake-up
    tokens, deadlock freedom, termination and clean shutdown. */
module SemLineProofs {
  import opened Counting
  import opened LineBuffer
  import opened BoundedFifo
  import opened LineThreads
  import opened LineThreadProofs
  import opened SemLine

  /** While a producer waits, every free cell is matched by a token or by a thread about to act on one. */
  ghost predicate ProducerTokens(s: State) {
    Sum(s.crew.producers, PWaits) > 0 ==>
      s.crew.ring.length + s.producerLine + Sum(s.crew.producers, PWoken) + Sum(s.crew.consumers, QWakes)
      >= |s.crew.ring.cells|
  }

  /** While a consumer waits, every line is matched by a token or by a thread about to act on one. */
  ghost predicate ConsumerTokens(s: State) {
    Sum(s.crew.consumers, QWaits) > 0 ==>
      s.crew.ring.length <= s.consumerLine + Sum(s.crew.consumers, QWoken) + Sum(s.crew.producers, PWakes)
  }

  ghost predicate Inv(s: State) {
    CrewInv(s.crew) && ProducerTokens(s) && ConsumerTokens(s)
  }

  lemma InitInv(size: nat, files: seq<seq<Line>>, consumers: nat)
    ensures Inv(Init(size, files, consumers))
  {
    var c := InitCrew(size, files, consumers);
    InitCrewInv(size, files, consumers);
    SumZero(c.producers, PWaits);
    SumZero(c.consumers, QWaits);
  }

  // ----- every step -----

  lemma ProducerKeepsTokens(s: State, i: nat)
    requires s.crew.ring.Valid() && ProducerTokens(s) && ConsumerTokens(s) && ProducerCanMove(s.crew, i)
    ensures ProducerTokens(ProducerStep(s, i)) && ConsumerTokens(ProducerStep(s, i))
  {
    ProducerMoveIsLocal(s.crew, i);
    ProducerMoveMatches(s.crew, i);
    ProducerSums(s.crew.producers, i, ProducerMove(s.crew, i).producers[i]);
  }

  lemma ConsumerKeepsTokens(s: State, j: nat)
    requires s.crew.ring.Valid() && ProducerTokens(s) && ConsumerTokens(s) && ConsumerCanMove(s.crew, j)
    ensures ProducerTokens(ConsumerStep(s, j)) && ConsumerTokens(ConsumerStep(s, j))
  {
    ConsumerMoveIsLocal(s.crew, j);
    ConsumerMoveMatches(s.crew, j);
    ConsumerSums(s.crew.consumers, j, ConsumerMove(s.crew, j).consumers[j]);
  }

  /** Taking a token to look again. */
  lemma TakingKeepsTokens(s: State, a: Actor)
    requires s.crew.ring.Valid() && ProducerTokens(s) && ConsumerTokens(s) && Enabled(s, a)
    requires (a.TheProducer? && s.crew.producers[a.i].pc.PWait?) || (a.TheConsumer? && s.crew.consumers[a.j].pc.QWait?)
    ensures ProducerTokens(Step(s, a)) && ConsumerTokens(Step(s, a))
  {
    var t := Step(s, a);
    if a.TheProducer? {
      ProducerSums(s.crew.producers, a.i, t.crew.producers[a.i]);
    } else {
      ConsumerSums(s.crew.consumers, a.j, t.crew.consumers[a.j]);
    }
  }

  /** Asking a consumer to go away. */
  lemma MainKeepsTokens(s: State)
    requires ProducerTokens(s) && ConsumerTokens(s) && MainCanMove(s.crew)
    ensures ProducerTokens(s.(crew := MainMove(s.crew))) && ConsumerTokens(s.(crew := MainMove(s.crew)))
  {
    var c := s.crew;
    if c.main.RCancel? && c.main.i < |c.consumers| {
      ConsumerSums(c.consumers, c.main.i, MainMove(c).consumers[c.main.i]);
    }
  }

  lemma GoingKeepsTokens(s: State, j: nat)
    requires ProducerTokens(s) && ConsumerTokens(s) && CancelEnabled(s, j)
    ensures var t := s.(crew := SetQ(s.crew, j, QCancelled)); ProducerTokens(t) && ConsumerTokens(t)
  {
    ConsumerSums(s.crew.consumers, j, s.crew.consumers[j].(pc := QCancelled));
  }

  /** Every step is one operation of the bounded queue, or none. */
  lemma StepRefinesFifo(s: State, a: Actor)
    requires CrewInv(s.crew) && Enabled(s, a)
    ensures CrewInv(Step(s, a).crew) && FifoNext(Abs(s.crew), Abs(Step(s, a).crew))
  {
    match a
    case TheProducer(i) => ProducerRefines(s, i);
    case TheConsumer(j) => ConsumerRefines(s, j);
    case CancelOf(j) => RepositionQ(s.crew, j, QCancelled);
    case TheMain => MainMoveKeepsInv(s.crew);
  }

  lemma ProducerRefines(s: State, i: nat)
    requires CrewInv(s.crew) && ProducerEnabled(s, i)
    ensures CrewInv(ProducerStep(s, i).crew) && FifoNext(Abs(s.crew), Abs(ProducerStep(s, i).crew))
  {
    if s.crew.producers[i].pc.PWait? {
      RepositionP(s.crew, i, PLock(s.crew.producers[i].pc.line));
    } else {
      ProducerMoveKeepsInv(s.crew, i);
    }
  }

  lemma ConsumerRefines(s: State, j: nat)
    requires CrewInv(s.crew) && ConsumerEnabled(s, j)
    ensures CrewInv(ConsumerStep(s, j).crew) && FifoNext(Abs(s.crew), Abs(ConsumerStep(s, j).crew))
  {
    if s.crew.consumers[j].pc.QWait? {
      RepositionQ(s.crew, j, QLock);
    } else {
      ConsumerMoveKeepsInv(s.crew, j);
    }
  }

  lemma StepKeepsTokens(s: State, a: Actor)
    requires s.crew.ring.Valid() && ProducerTokens(s) && ConsumerTokens(s) && Enabled(s, a)
    ensures ProducerTokens(Step(s, a)) && ConsumerTokens(Step(s, a))
  {
    match a
    case TheProducer(i) =>
      if s.crew.producers[i].pc.PWait? {
        TakingKeepsTokens(s, a);
      } else {
        ProducerKeepsTokens(s, i);
      }
    case TheConsumer(j) =>
      if s.crew.consumers[j].pc.QWait? {
        TakingKeepsTokens(s, a);
      } else {
        ConsumerKeepsTokens(s, j);
      }
    case CancelOf(j) => GoingKeepsTokens(s, j);
    case TheMain => MainKeepsTokens(s);
  }

  lemma StepKeepsInv(s: State, a: Actor)
    requires Inv(s) && Enabled(s, a)
    ensures Inv(Step(s, a))
  {
    StepRefinesFifo(s, a);
    StepKeepsTokens(s, a);
  }

  // ----- deadlock freedom -----

  /** The tokens do not let everybody wait. */
  lemma SleepersAreWoken(s: State)
    requires ProducerTokens(s) && ConsumerTokens(s) && Asleep(s.crew)
    requires |s.crew.ring.cells| >= 1 && |s.crew.consumers| >= 1
    ensures s.producerLine > 0 || s.consumerLine > 0
  {
    SumAtLeast(s.crew.producers, s.crew.main.i, PWaits);
    SumAtLeast(s.crew.consumers, 0, QWaits);
    SumZero(s.crew.producers, PWoken);
    SumZero(s.crew.producers, PWakes);
    SumZero(s.crew.consumers, QWoken);
    SumZero(s.crew.consumers, QWakes);
  }

  /** With a buffer cell and a consumer, the program is never stuck before the main thread is done. */
  lemma NeverStuck(s: State) returns (a: Actor)
    requires Inv(s) && |s.crew.ring.cells| >= 1 && |s.crew.consumers| >= 1 && !s.crew.main.RDone?
    ensures Enabled(s, a)
  {
    var m := WhoCanMove(s.crew);
    match m
    case MainThread => a := TheMain;
    case OneProducer(i) => a := TheProducer(i);
    case OneConsumer(j) => a := TheConsumer(j);
    case OneCancelled(j) => a := CancelOf(j);
    case Nobody =>
      SleepersAreWoken(s);
      a := if s.producerLine > 0 then TheProducer(s.crew.main.i) else TheConsumer(0);
  }

  // ----- termination -----

  /** An upper bound on the number of steps still to come. */
  function Work(s: State): int {
    CrewWork(s.crew) + 10 * s.producerLine + 10 * s.consumerLine
  }

  lemma StepDoesWork(s: State, a: Actor)
    requires s.crew.ring.Valid() && Shutdown(s.crew) && Enabled(s, a)
    ensures Work(Step(s, a)) < Work(s)
  {
    match a
    case TheProducer(i) =>
      if s.crew.producers[i].pc.PWait? {
        RepositionWorkP(s.crew, i, PLock(s.crew.producers[i].pc.line));
      } else {
        ProducerMoveWork(s.crew, i);
      }
    case TheConsumer(j) =>
      if s.crew.consumers[j].pc.QWait? {
        RepositionWorkQ(s.crew, j, QLock);
      } else {
        ConsumerMoveWork(s.crew, j);
      }
    case CancelOf(j) => RepositionWorkQ(s.crew, j, QCancelled);
    case TheMain => MainMoveWork(s.crew);
  }

  // ----- whole runs -----

  lemma StepKeepsSizes(s: State, a: Actor, size: nat, files: seq<seq<Line>>, consumers: nat)
    requires s.crew.ring.Valid() && Enabled(s, a) && Sized(s.crew, size, files, consumers)
    ensures Sized(Step(s, a).crew, size, files, consumers)
  {
    match a
    case TheProducer(i) =>
      if ProducerCanMove(s.crew, i) {
        ProducerMoveKeepsSizes(s.crew, i, size, files, consumers);
      }
    case TheConsumer(j) =>
      if ConsumerCanMove(s.crew, j) {
        ConsumerMoveKeepsSizes(s.crew, j, size, files, consumers);
      }
    case _ =>
  }

  lemma {:induction false} RunKeepsInv(states: seq<State>, actors: seq<Actor>, size: nat, files: seq<seq<Line>>,
                                       consumers: nat, n: nat)
    requires Run(states, actors, size, files, consumers) && n < |states|
    ensures Inv(states[n]) && Sized(states[n].crew, size, files, consumers)
    ensures Work(states[n]) + n <= Work(states[0])
  {
    if n == 0 {
      InitInv(size, files, consumers);
    } else {
      RunKeepsInv(states, actors, size, files, consumers, n - 1);
      var s, a := states[n - 1], actors[n - 1];
      assert states[n - 1 + 1] == Step(s, a);
      StepKeepsInv(s, a);
      StepDoesWork(s, a);
      StepKeepsSizes(s, a, size, files, consumers);
    }
  }

  /** The tokens of producer_line and consumer_line match the buffer in every state of every run. */
  lemma TokensAlwaysMatch(states: seq<State>, actors: seq<Actor>, size: nat, files: seq<seq<Line>>,
                          consumers: nat, n: nat)
    requires Run(states, actors, size, files, consumers) && n < |states|
    ensures var s := states[n];
      && (forall i :: 0 <= i < |s.crew.producers| && s.crew.producers[i].pc.PWait? ==>
            s.crew.ring.length + s.producerLine + Sum(s.crew.producers, PWoken) + Sum(s.crew.consumers, QWakes)
            >= size)
      && (forall j :: 0 <= j < |s.crew.consumers| && s.crew.consumers[j].pc.QWait? ==>
            s.crew.ring.length <= s.consumerLine + Sum(s.crew.consumers, QWoken) + Sum(s.crew.producers, PWakes))
  {
    RunKeepsInv(states, actors, size, files, consumers, n);
    var c := states[n].crew;
    forall i | 0 <= i < |c.producers| && c.producers[i].pc.PWait? ensures Sum(c.producers, PWaits) > 0 {
      SumAtLeast(c.producers, i, PWaits);
    }
    forall j | 0 <= j < |c.consumers| && c.consumers[j].pc.QWait? ensures Sum(c.consumers, QWaits) > 0 {
      SumAtLeast(c.consumers, j, QWaits);
    }
  }

  /** In every state of every run: lines come out in the order they went in, each producer has pushed a
      prefix of its non-empty lines, and each consumer has handled what it popped but the line in hand. */
  lemma LinesArriveInOrder(states: seq<State>, actors: seq<Actor>, size: nat, files: seq<seq<Line>>,
                           consumers: nat, n: nat)
    requires Run(states, actors, size, files, consumers) && n < |states|
    ensures InOrder(states[n].crew, size, files, consumers)
  {
    RunKeepsInv(states, actors, size, files, consumers, n);
    InvIsInOrder(states[n].crew, size, files, consumers);
  }

  /** Every run ends: it has at most Work of its first state many steps, and with a buffer cell and a
      consumer it can stop only where the main thread has joined everyone and all is clean. */
  lemma EveryRunEndsCleanly(states: seq<State>, actors: seq<Actor>, size: nat, files: seq<seq<Line>>, consumers: nat)
    requires Run(states, actors, size, files, consumers)
    ensures |actors| <= Work(states[0])
    ensures size >= 1 && consumers >= 1 && Stuck(states[|actors|]) ==> CleanEnd(states[|actors|].crew, size, files)
  {
    RunKeepsInv(states, actors, size, files, consumers, |actors|);
    var last := states[|actors|];
    WorkIsNat(last.crew);
    if size >= 1 && consumers >= 1 {
      if last.crew.main.RDone? {
        EndIsClean(last.crew, size, files, consumers);
      } else {
        var a := NeverStuck(last);
      }
    }
  }
}
