/** Producers and consumers with counting semaphores, as a state machine. One step is one semaphore or thread
    operation, one access to the buffer under its lock, or one line read or handled. */
module SemLine {
  import opened LineBuffer
  import opened BoundedFifo
  import opened LineThreads

  // The lock buffer_mx is part of the crew; here are the two semaphores that threads wait on.
  datatype State = State(crew: Crew, producerLine: nat, consumerLine: nat)

  function Init(size: nat, files: seq<seq<Line>>, consumers: nat): State {
    State(InitCrew(size, files, consumers), 0, 0)
  }

  ghost predicate ProducerEnabled(s: State, i: nat) {
    || ProducerCanMove(s.crew, i)
    || (i < |s.crew.producers| && s.crew.producers[i].pc.PWait? && s.producerLine > 0)
  }

  /** Waiting takes a token and locks again; waking posts one. */
  ghost function ProducerStep(s: State, i: nat): State
    requires s.crew.ring.Valid() && ProducerEnabled(s, i)
  {
    match s.crew.producers[i].pc
    case PWait(line) => s.(crew := SetP(s.crew, i, PLock(line)), producerLine := s.producerLine - 1)
    case PWake => s.(crew := ProducerMove(s.crew, i), consumerLine := s.consumerLine + 1)
    case _ => s.(crew := ProducerMove(s.crew, i))
  }

  ghost predicate ConsumerEnabled(s: State, j: nat) {
    || ConsumerCanMove(s.crew, j)
    || (j < |s.crew.consumers| && s.crew.consumers[j].pc.QWait? && s.consumerLine > 0)
  }

  ghost function ConsumerStep(s: State, j: nat): State
    requires s.crew.ring.Valid() && ConsumerEnabled(s, j)
  {
    match s.crew.consumers[j].pc
    case QWait => s.(crew := SetQ(s.crew, j, QLock), consumerLine := s.consumerLine - 1)
    case QWake(_) => s.(crew := ConsumerMove(s.crew, j), producerLine := s.producerLine + 1)
    case _ => s.(crew := ConsumerMove(s.crew, j))
  }

  /** A cancellation request is acted upon where cancellation is enabled. */
  ghost predicate CancelEnabled(s: State, j: nat) {
    && j < |s.crew.consumers| && s.crew.consumers[j].cancel
    && (s.crew.consumers[j].pc.QStart? || s.crew.consumers[j].pc.QWait?)
  }

  datatype Actor = TheMain | TheProducer(i: nat) | TheConsumer(j: nat) | CancelOf(j: nat)

  ghost predicate Enabled(s: State, a: Actor) {
    match a
    case TheMain => MainCanMove(s.crew)
    case TheProducer(i) => ProducerEnabled(s, i)
    case TheConsumer(j) => ConsumerEnabled(s, j)
    case CancelOf(j) => CancelEnabled(s, j)
  }

  ghost function Step(s: State, a: Actor): State
    requires s.crew.ring.Valid() && Enabled(s, a)
  {
    match a
    case TheMain => s.(crew := MainMove(s.crew))
    case TheProducer(i) => ProducerStep(s, i)
    case TheConsumer(j) => ConsumerStep(s, j)
    case CancelOf(j) => s.(crew := SetQ(s.crew, j, QCancelled))
  }

  ghost predicate Stuck(s: State) {
    forall a :: !Enabled(s, a)
  }

  /** A finite piece of an execution; the actors say who takes each step. */
  ghost predicate Run(states: seq<State>, actors: seq<Actor>, size: nat, files: seq<seq<Line>>, consumers: nat) {
    && |states| == |actors| + 1
    && states[0] == Init(size, files, consumers)
    && forall n :: 0 <= n < |actors| ==>
         states[n].crew.ring.Valid() && Enabled(states[n], actors[n]) && states[n + 1] == Step(states[n], actors[n])
  }
}
