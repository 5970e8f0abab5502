/** Producers and consumers with a mutex and two condition variables, as a state machine.
    pthread_cond_signal wakes one waiting thread, if there is one; a waiting thread may also wake up for no
    reason. */
module Monitor {
  import opened LineBuffer
  import opened BoundedFifo
  import opened LineThreads

  ghost predicate WaitingConsumer(c: Crew, j: nat) {
    j < |c.consumers| && c.consumers[j].pc.QWait?
  }

  ghost predicate WaitingProducer(c: Crew, i: nat) {
    i < |c.producers| && c.producers[i].pc.PWait?
  }

  /** `woken` is the consumer that a signal wakes; it has to be a waiting one when there is one. */
  ghost predicate ProducerEnabled(c: Crew, i: nat, woken: nat) {
    && ProducerCanMove(c, i)
    && (c.producers[i].pc.PWake? && (exists j :: WaitingConsumer(c, j)) ==> WaitingConsumer(c, woken))
  }

  ghost function ProducerStep(c: Crew, i: nat, woken: nat): Crew
    requires c.ring.Valid() && ProducerEnabled(c, i, woken)
  {
    var d := ProducerMove(c, i);
    if c.producers[i].pc.PWake? && WaitingConsumer(c, woken) then SetQ(d, woken, QRelock) else d
  }

  /** Entering pthread_cond_wait acts on a request that is pending. */
  ghost predicate ConsumerEnabled(c: Crew, j: nat, woken: nat) {
    && ConsumerCanMove(c, j)
    && (c.consumers[j].pc.QLeave? ==> !c.consumers[j].cancel)
    && (c.consumers[j].pc.QWake? && (exists i :: WaitingProducer(c, i)) ==> WaitingProducer(c, woken))
  }

  ghost function ConsumerStep(c: Crew, j: nat, woken: nat): Crew
    requires c.ring.Valid() && ConsumerEnabled(c, j, woken)
  {
    var d := ConsumerMove(c, j);
    if c.consumers[j].pc.QWake? && WaitingProducer(c, woken) then SetP(d, woken, PRelock(c.producers[woken].pc.line))
    else d
  }

  /** A cancellation request is acted upon where cancellation is enabled: before the first loop, and in
      pthread_cond_wait, on the way in, while waiting, or on the way out. There the clean-up handler runs with
      buffer_mx locked. */
  ghost predicate CancelEnabled(c: Crew, j: nat) {
    && j < |c.consumers| && c.consumers[j].cancel
    && var pc := c.consumers[j].pc; pc.QStart? || pc.QLeave? || pc.QWait? || pc.QRelock?
  }

  ghost function CancelStep(c: Crew, j: nat): Crew
    requires CancelEnabled(c, j)
  {
    match c.consumers[j].pc
    case QStart => SetQ(c, j, QCancelled)
    case QLeave => SetQ(c, j, QCancelUnlock)
    case _ => SetQ(c, j, QCancelLock)
  }

  datatype Actor =
    | TheMain
    | TheProducer(i: nat, woken: nat)
    | TheConsumer(j: nat, woken: nat)
    | CancelOf(j: nat)
    | SpuriousProducer(i: nat)
    | SpuriousConsumer(j: nat)
  {
    predicate Spurious() { SpuriousProducer? || SpuriousConsumer? }
  }

  ghost predicate Enabled(c: Crew, a: Actor) {
    match a
    case TheMain => MainCanMove(c)
    case TheProducer(i, woken) => ProducerEnabled(c, i, woken)
    case TheConsumer(j, woken) => ConsumerEnabled(c, j, woken)
    case CancelOf(j) => CancelEnabled(c, j)
    case SpuriousProducer(i) => WaitingProducer(c, i)
    case SpuriousConsumer(j) => WaitingConsumer(c, j)
  }

  ghost function Step(c: Crew, a: Actor): Crew
    requires c.ring.Valid() && Enabled(c, a)
  {
    match a
    case TheMain => MainMove(c)
    case TheProducer(i, woken) => ProducerStep(c, i, woken)
    case TheConsumer(j, woken) => ConsumerStep(c, j, woken)
    case CancelOf(j) => CancelStep(c, j)
    case SpuriousProducer(i) => SetP(c, i, PRelock(c.producers[i].pc.line))
    case SpuriousConsumer(j) => SetQ(c, j, QRelock)
  }

  /** Nothing but a spurious wake-up can happen. */
  ghost predicate Stuck(c: Crew) {
    forall a: Actor :: !a.Spurious() ==> !Enabled(c, a)
  }

  function SpuriousCount(actors: seq<Actor>): nat {
    if actors == [] then 0
    else SpuriousCount(actors[..|actors| - 1]) + (if actors[|actors| - 1].Spurious() then 1 else 0)
  }

  /** A finite piece of an execution; the actors say who takes each step. */
  ghost predicate Run(states: seq<Crew>, actors: seq<Actor>, size: nat, files: seq<seq<Line>>, consumers: nat) {
    && |states| == |actors| + 1
    && states[0] == InitCrew(size, files, consumers)
    && forall n :: 0 <= n < |actors| ==>
         states[n].ring.Valid() && Enabled(states[n], actors[n]) && states[n + 1] == Step(states[n], actors[n])
  }
}
