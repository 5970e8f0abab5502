/** The monitor version: refinement of the bounded queue, no lost wake-up, deadlock freedom, termination
    but for spurious wake-ups, and clean shutdown. */
module MonitorProofs {
  import opened Counting
  import opened LineBuffer
  import opened BoundedFifo
  import opened LineThreads
  import opened LineThreadProofs
  import opened Monitor

  /** While a producer waits, every free cell is matched by a producer on its way or a signal to come. */
  ghost predicate ProducersWoken(c: Crew) {
    Sum(c.producers, PWaits) > 0 ==>
      c.ring.length + Sum(c.producers, PWoken) + Sum(c.consumers, QWakes) >= |c.ring.cells|
  }

  /** While a consumer waits, every line is matched by a consumer on its way, a signal to come, or a consumer
      that was cancelled. */
  ghost predicate ConsumersWoken(c: Crew) {
    Sum(c.consumers, QWaits) > 0 ==>
      c.ring.length <= Sum(c.consumers, QWoken) + Sum(c.producers, PWakes) + Sum(c.consumers, QGone)
  }

  ghost predicate Inv(c: Crew) {
    CrewInv(c) && ProducersWoken(c) && ConsumersWoken(c)
  }

  lemma InitInv(size: nat, files: seq<seq<Line>>, consumers: nat)
    ensures Inv(InitCrew(size, files, consumers))
  {
    var c := InitCrew(size, files, consumers);
    InitCrewInv(size, files, consumers);
    SumZero(c.producers, PWaits);
    SumZero(c.consumers, QWaits);
  }

  // ----- every step -----

  /** A signal that finds nobody waiting is not lost: with the lock held, nobody is about to wait. */
  lemma NobodyEntersP(c: Crew, j: nat)
    requires Mutex(c) && j < |c.consumers| && QHolds(c.consumers[j]) == 1
    requires forall i: nat :: !WaitingProducer(c, i)
    ensures Sum(c.producers, PWaits) == 0
  {
    SumAtLeast(c.consumers, j, QHolds);
    forall i: nat | i < |c.producers| ensures PWaits(c.producers[i]) == 0 {
      SumAtLeast(c.producers, i, PHolds);
      assert !WaitingProducer(c, i);
    }
    SumZero(c.producers, PWaits);
  }

  lemma NobodyEntersQ(c: Crew, i: nat)
    requires Mutex(c) && i < |c.producers| && PHolds(c.producers[i]) == 1
    requires forall j: nat :: !WaitingConsumer(c, j)
    ensures Sum(c.consumers, QWaits) == 0
  {
    SumAtLeast(c.producers, i, PHolds);
    forall j: nat | j < |c.consumers| ensures QWaits(c.consumers[j]) == 0 {
      SumAtLeast(c.consumers, j, QHolds);
      assert !WaitingConsumer(c, j);
    }
    SumZero(c.consumers, QWaits);
  }

  lemma ProducerMoveKeepsWoken(c: Crew, i: nat)
    requires c.ring.Valid() && ProducersWoken(c) && ConsumersWoken(c)
    requires ProducerCanMove(c, i) && !c.producers[i].pc.PWake?
    ensures ProducersWoken(ProducerMove(c, i)) && ConsumersWoken(ProducerMove(c, i))
  {
    ProducerMoveIsLocal(c, i);
    ProducerMoveMatches(c, i);
    ProducerSums(c.producers, i, ProducerMove(c, i).producers[i]);
  }

  lemma ProducerSignalKeepsWoken(c: Crew, i: nat, woken: nat)
    requires c.ring.Valid() && Mutex(c) && ProducersWoken(c) && ConsumersWoken(c)
    requires ProducerEnabled(c, i, woken) && c.producers[i].pc.PWake?
    ensures ProducersWoken(ProducerStep(c, i, woken)) && ConsumersWoken(ProducerStep(c, i, woken))
  {
    var d := ProducerStep(c, i, woken);
    ProducerSums(c.producers, i, d.producers[i]);
    if WaitingConsumer(c, woken) {
      ConsumerSums(c.consumers, woken, d.consumers[woken]);
    } else {
      NobodyEntersQ(c, i);
    }
  }

  lemma ConsumerMoveKeepsWoken(c: Crew, j: nat)
    requires c.ring.Valid() && ProducersWoken(c) && ConsumersWoken(c)
    requires ConsumerCanMove(c, j) && !c.consumers[j].pc.QWake?
    ensures ProducersWoken(ConsumerMove(c, j)) && ConsumersWoken(ConsumerMove(c, j))
  {
    ConsumerMoveIsLocal(c, j);
    ConsumerMoveMatches(c, j);
    ConsumerSums(c.consumers, j, ConsumerMove(c, j).consumers[j]);
  }

  lemma ConsumerSignalKeepsWoken(c: Crew, j: nat, woken: nat)
    requires c.ring.Valid() && Mutex(c) && ProducersWoken(c) && ConsumersWoken(c)
    requires ConsumerEnabled(c, j, woken) && c.consumers[j].pc.QWake?
    ensures ProducersWoken(ConsumerStep(c, j, woken)) && ConsumersWoken(ConsumerStep(c, j, woken))
  {
    var d := ConsumerStep(c, j, woken);
    ConsumerMoveIsLocal(c, j);
    ConsumerSums(c.consumers, j, d.consumers[j]);
    if WaitingProducer(c, woken) {
      ProducerSums(c.producers, woken, c.producers[woken].(pc := PRelock(c.producers[woken].pc.line)));
    } else {
      NobodyEntersP(c, j);
    }
  }

  lemma SpuriousKeepsWoken(c: Crew, a: Actor)
    requires c.ring.Valid() && ProducersWoken(c) && ConsumersWoken(c) && Enabled(c, a) && a.Spurious()
    ensures ProducersWoken(Step(c, a)) && ConsumersWoken(Step(c, a))
  {
    if a.SpuriousProducer? {
      ProducerSums(c.producers, a.i, Step(c, a).producers[a.i]);
    } else {
      ConsumerSums(c.consumers, a.j, Step(c, a).consumers[a.j]);
    }
  }

  lemma CancelKeepsWoken(c: Crew, j: nat)
    requires c.ring.Valid() && ProducersWoken(c) && ConsumersWoken(c) && CancelEnabled(c, j)
    ensures ProducersWoken(CancelStep(c, j)) && ConsumersWoken(CancelStep(c, j))
  {
    ConsumerSums(c.consumers, j, CancelStep(c, j).consumers[j]);
  }

  lemma MainKeepsWoken(c: Crew)
    requires ProducersWoken(c) && ConsumersWoken(c) && MainCanMove(c)
    ensures ProducersWoken(MainMove(c)) && ConsumersWoken(MainMove(c))
  {
    if c.main.RCancel? && c.main.i < |c.consumers| {
      ConsumerSums(c.consumers, c.main.i, MainMove(c).consumers[c.main.i]);
    }
  }

  lemma StepKeepsWoken(c: Crew, a: Actor)
    requires c.ring.Valid() && Mutex(c) && ProducersWoken(c) && ConsumersWoken(c) && Enabled(c, a)
    ensures ProducersWoken(Step(c, a)) && ConsumersWoken(Step(c, a))
  {
    match a
    case TheProducer(i, woken) =>
      if c.producers[i].pc.PWake? {
        ProducerSignalKeepsWoken(c, i, woken);
      } else {
        ProducerMoveKeepsWoken(c, i);
      }
    case TheConsumer(j, woken) =>
      if c.consumers[j].pc.QWake? {
        ConsumerSignalKeepsWoken(c, j, woken);
      } else {
        ConsumerMoveKeepsWoken(c, j);
      }
    case CancelOf(j) => CancelKeepsWoken(c, j);
    case TheMain => MainKeepsWoken(c);
    case _ => SpuriousKeepsWoken(c, a);
  }

  lemma ProducerRefines(c: Crew, i: nat, woken: nat)
    requires CrewInv(c) && ProducerEnabled(c, i, woken)
    ensures CrewInv(ProducerStep(c, i, woken)) && FifoNext(Abs(c), Abs(ProducerStep(c, i, woken)))
  {
    ProducerMoveKeepsInv(c, i);
    if c.producers[i].pc.PWake? && WaitingConsumer(c, woken) {
      RepositionQ(ProducerMove(c, i), woken, QRelock);
    }
  }

  lemma ConsumerRefines(c: Crew, j: nat, woken: nat)
    requires CrewInv(c) && ConsumerEnabled(c, j, woken)
    ensures CrewInv(ConsumerStep(c, j, woken)) && FifoNext(Abs(c), Abs(ConsumerStep(c, j, woken)))
  {
    ConsumerMoveKeepsInv(c, j);
    if c.consumers[j].pc.QWake? && WaitingProducer(c, woken) {
      RepositionP(ConsumerMove(c, j), woken, PRelock(c.producers[woken].pc.line));
    }
  }

  lemma SpuriousRefines(c: Crew, a: Actor)
    requires CrewInv(c) && Enabled(c, a) && a.Spurious()
    ensures CrewInv(Step(c, a)) && Abs(Step(c, a)) == Abs(c)
  {
    if a.SpuriousProducer? {
      RepositionP(c, a.i, PRelock(c.producers[a.i].pc.line));
    } else {
      RepositionQ(c, a.j, QRelock);
    }
  }

  lemma CancelRefines(c: Crew, j: nat)
    requires CrewInv(c) && CancelEnabled(c, j)
    ensures CrewInv(CancelStep(c, j)) && Abs(CancelStep(c, j)) == Abs(c)
  {
    match c.consumers[j].pc
    case QStart => RepositionQ(c, j, QCancelled);
    case QLeave => RepositionQ(c, j, QCancelUnlock);
    case _ => RepositionQ(c, j, QCancelLock);
  }

  /** Every step is one operation of the bounded queue, or none. */
  lemma StepRefinesFifo(c: Crew, a: Actor)
    requires CrewInv(c) && Enabled(c, a)
    ensures CrewInv(Step(c, a)) && FifoNext(Abs(c), Abs(Step(c, a)))
  {
    match a
    case TheProducer(i, woken) => ProducerRefines(c, i, woken);
    case TheConsumer(j, woken) => ConsumerRefines(c, j, woken);
    case CancelOf(j) => CancelRefines(c, j);
    case TheMain => MainMoveKeepsInv(c);
    case _ => SpuriousRefines(c, a);
  }

  lemma StepKeepsInv(c: Crew, a: Actor)
    requires Inv(c) && Enabled(c, a)
    ensures Inv(Step(c, a))
  {
    StepRefinesFifo(c, a);
    StepKeepsWoken(c, a);
  }

  // ----- deadlock freedom -----

  /** Producers and consumers never all wait for each other: no wake-up is lost. */
  lemma NeverAllAsleep(c: Crew)
    requires Inv(c) && |c.ring.cells| >= 1 && |c.consumers| >= 1
    ensures !Asleep(c)
  {
    if Asleep(c) {
      SumAtLeast(c.producers, c.main.i, PWaits);
      SumAtLeast(c.consumers, 0, QWaits);
      SumZero(c.producers, PWoken);
      SumZero(c.producers, PWakes);
      SumZero(c.consumers, QWoken);
      SumZero(c.consumers, QWakes);
      SumZero(c.consumers, QGone);
    }
  }

  /** The actor for a move of producer i, waking some waiting consumer if it is about to signal. */
  lemma ProducerActor(c: Crew, i: nat) returns (a: Actor)
    requires ProducerCanMove(c, i)
    ensures Enabled(c, a) && !a.Spurious()
  {
    a := TheProducer(i, 0);
    if j: nat :| WaitingConsumer(c, j) {
      a := TheProducer(i, j);
    }
  }

  lemma ConsumerActor(c: Crew, j: nat) returns (a: Actor)
    requires ConsumerCanMove(c, j)
    ensures Enabled(c, a) && !a.Spurious()
  {
    a := TheConsumer(j, 0);
    if c.consumers[j].pc.QLeave? && c.consumers[j].cancel {
      a := CancelOf(j);
    } else if i: nat :| WaitingProducer(c, i) {
      a := TheConsumer(j, i);
    }
  }

  /** With a buffer cell and a consumer, the program is never stuck before the main thread is done. */
  lemma NeverStuck(c: Crew) returns (a: Actor)
    requires Inv(c) && |c.ring.cells| >= 1 && |c.consumers| >= 1 && !c.main.RDone?
    ensures Enabled(c, a) && !a.Spurious()
  {
    var m := WhoCanMove(c);
    NeverAllAsleep(c);
    match m
    case MainThread => a := TheMain;
    case OneProducer(i) => a := ProducerActor(c, i);
    case OneConsumer(j) => a := ConsumerActor(c, j);
    case OneCancelled(j) => a := CancelOf(j);
  }

  // ----- termination -----

  lemma ProducerDoesWork(c: Crew, i: nat, woken: nat)
    requires c.ring.Valid() && ProducerEnabled(c, i, woken)
    ensures CrewWork(ProducerStep(c, i, woken)) < CrewWork(c)
  {
    ProducerMoveWork(c, i);
    if c.producers[i].pc.PWake? && WaitingConsumer(c, woken) {
      RepositionWorkQ(ProducerMove(c, i), woken, QRelock);
    }
  }

  lemma ConsumerDoesWork(c: Crew, j: nat, woken: nat)
    requires c.ring.Valid() && ConsumerEnabled(c, j, woken)
    ensures CrewWork(ConsumerStep(c, j, woken)) < CrewWork(c)
  {
    ConsumerMoveWork(c, j);
    if c.consumers[j].pc.QWake? && WaitingProducer(c, woken) {
      RepositionWorkP(ConsumerMove(c, j), woken, PRelock(c.producers[woken].pc.line));
    }
  }

  lemma SpuriousAddsWork(c: Crew, a: Actor)
    requires c.ring.Valid() && Enabled(c, a) && a.Spurious()
    ensures CrewWork(Step(c, a)) == CrewWork(c) + 3
  {
    if a.SpuriousProducer? {
      RepositionWorkP(c, a.i, PRelock(c.producers[a.i].pc.line));
    } else {
      RepositionWorkQ(c, a.j, QRelock);
    }
  }

  lemma StepDoesWork(c: Crew, a: Actor)
    requires c.ring.Valid() && Shutdown(c) && Enabled(c, a)
    ensures !a.Spurious() ==> CrewWork(Step(c, a)) < CrewWork(c)
    ensures a.Spurious() ==> CrewWork(Step(c, a)) == CrewWork(c) + 3
  {
    match a
    case TheProducer(i, woken) => ProducerDoesWork(c, i, woken);
    case TheConsumer(j, woken) => ConsumerDoesWork(c, j, woken);
    case CancelOf(j) => RepositionWorkQ(c, j, CancelStep(c, j).consumers[j].pc);
    case TheMain => MainMoveWork(c);
    case _ => SpuriousAddsWork(c, a);
  }

  // ----- whole runs -----

  lemma StepKeepsSizes(c: Crew, a: Actor, size: nat, files: seq<seq<Line>>, consumers: nat)
    requires c.ring.Valid() && Enabled(c, a) && Sized(c, size, files, consumers)
    ensures Sized(Step(c, a), size, files, consumers)
  {
    match a
    case TheProducer(i, woken) => ProducerMoveKeepsSizes(c, i, size, files, consumers);
    case TheConsumer(j, woken) => ConsumerMoveKeepsSizes(c, j, size, files, consumers);
    case _ =>
  }

  lemma {:induction false} RunKeepsInv(states: seq<Crew>, actors: seq<Actor>, size: nat, files: seq<seq<Line>>,
                                       consumers: nat, n: nat)
    requires Run(states, actors, size, files, consumers) && n < |states|
    ensures Inv(states[n]) && Sized(states[n], size, files, consumers)
    ensures CrewWork(states[n]) + n <= CrewWork(states[0]) + 4 * SpuriousCount(actors[..n])
  {
    if n == 0 {
      InitInv(size, files, consumers);
    } else {
      RunKeepsInv(states, actors, size, files, consumers, n - 1);
      var c, a := states[n - 1], actors[n - 1];
      assert states[n - 1 + 1] == Step(c, a);
      assert actors[..n][..n - 1] == actors[..n - 1];
      StepKeepsInv(c, a);
      StepDoesWork(c, a);
      StepKeepsSizes(c, a, size, files, consumers);
    }
  }

  /** No wake-up is lost, in every state of every run; until shutdown begins no consumer is gone. */
  lemma WakeUpsAlwaysMatch(states: seq<Crew>, actors: seq<Actor>, size: nat, files: seq<seq<Line>>,
                           consumers: nat, n: nat)
    requires Run(states, actors, size, files, consumers) && n < |states|
    ensures var c := states[n];
      && (forall i :: 0 <= i < |c.producers| && c.producers[i].pc.PWait? ==>
            c.ring.length + Sum(c.producers, PWoken) + Sum(c.consumers, QWakes) >= size)
      && (forall j :: 0 <= j < |c.consumers| && c.consumers[j].pc.QWait? ==>
            c.ring.length <= Sum(c.consumers, QWoken) + Sum(c.producers, PWakes) + Sum(c.consumers, QGone))
      && (c.main.RJoinProducers? ==> Sum(c.consumers, QGone) == 0)
  {
    RunKeepsInv(states, actors, size, files, consumers, n);
    var c := states[n];
    forall i | 0 <= i < |c.producers| && c.producers[i].pc.PWait? ensures Sum(c.producers, PWaits) > 0 {
      SumAtLeast(c.producers, i, PWaits);
    }
    forall j | 0 <= j < |c.consumers| && c.consumers[j].pc.QWait? ensures Sum(c.consumers, QWaits) > 0 {
      SumAtLeast(c.consumers, j, QWaits);
    }
    if c.main.RJoinProducers? {
      SumZero(c.consumers, QGone);
    }
  }

  /** In every state of every run: lines come out in the order they went in, each producer has pushed a
      prefix of its non-empty lines, and each consumer has handled what it popped but the line in hand. */
  lemma LinesArriveInOrder(states: seq<Crew>, actors: seq<Actor>, size: nat, files: seq<seq<Line>>,
                           consumers: nat, n: nat)
    requires Run(states, actors, size, files, consumers) && n < |states|
    ensures InOrder(states[n], size, files, consumers)
  {
    RunKeepsInv(states, actors, size, files, consumers, n);
    InvIsInOrder(states[n], size, files, consumers);
  }

  lemma ConsumerStaysAwake(c: Crew, i: nat, woken: nat, j: nat)
    requires c.ring.Valid() && ConsumerEnabled(c, i, woken)
    requires j < |c.consumers| && c.consumers[j].cancel && !c.consumers[j].pc.QWait?
    ensures var d := ConsumerStep(c, i, woken);
      j < |d.consumers| && d.consumers[j].cancel && !d.consumers[j].pc.QWait?
  {
  }

  lemma StaysAwake(c: Crew, a: Actor, j: nat)
    requires c.ring.Valid() && Enabled(c, a)
    requires j < |c.consumers| && c.consumers[j].cancel && !c.consumers[j].pc.QWait?
    ensures j < |Step(c, a).consumers| && Step(c, a).consumers[j].cancel && !Step(c, a).consumers[j].pc.QWait?
  {
    if a.TheConsumer? {
      ConsumerStaysAwake(c, a.j, a.woken, j);
    }
  }

  /** A consumer that is to be cancelled does not go to sleep any more: where it would, it is cancelled. */
  lemma CancelledStaysAwake(states: seq<Crew>, actors: seq<Actor>, size: nat, files: seq<seq<Line>>,
                            consumers: nat, n: nat, j: nat)
    requires Run(states, actors, size, files, consumers) && n < |actors|
    requires j < |states[n].consumers| && states[n].consumers[j].cancel && !states[n].consumers[j].pc.QWait?
    ensures j < |states[n + 1].consumers| && states[n + 1].consumers[j].cancel
    ensures !states[n + 1].consumers[j].pc.QWait?
  {
    var c := states[n];
    assert states[n + 1] == Step(c, actors[n]) && Enabled(c, actors[n]);
    StaysAwake(c, actors[n], j);
  }

  /** A thread that waits may wake up for no reason at any time; it goes on only with the lock. */
  lemma MayWakeAtAnyTime(c: Crew, k: nat)
    requires c.ring.Valid()
    ensures k < |c.producers| && c.producers[k].pc.PWait? ==>
              && Enabled(c, SpuriousProducer(k))
              && var d := Step(c, SpuriousProducer(k));
              && d.producers[k].pc == PRelock(c.producers[k].pc.line) && d.mx == c.mx
              && (ProducerCanMove(d, k) <==> c.mx > 0)
    ensures k < |c.consumers| && c.consumers[k].pc.QWait? ==>
              && Enabled(c, SpuriousConsumer(k))
              && var d := Step(c, SpuriousConsumer(k));
              && d.consumers[k].pc.QRelock? && d.mx == c.mx && (ConsumerCanMove(d, k) <==> c.mx > 0)
  {
  }

  /** Every run with finitely many spurious wake-ups ends: its length is bounded by the work of its first
      state and four steps for each spurious wake-up, and with a buffer cell and a consumer it can stop
      only where the main thread has joined everyone and all is clean. */
  lemma EveryRunEndsCleanly(states: seq<Crew>, actors: seq<Actor>, size: nat, files: seq<seq<Line>>, consumers: nat)
    requires Run(states, actors, size, files, consumers)
    ensures |actors| <= CrewWork(states[0]) + 4 * SpuriousCount(actors)
    ensures size >= 1 && consumers >= 1 && Stuck(states[|actors|]) ==> CleanEnd(states[|actors|], size, files)
  {
    RunKeepsInv(states, actors, size, files, consumers, |actors|);
    assert actors[..|actors|] == actors;
    var last := states[|actors|];
    WorkIsNat(last);
    if size >= 1 && consumers >= 1 {
      if last.main.RDone? {
        EndIsClean(last, size, files, consumers);
      } else {
        var a := NeverStuck(last);
      }
    }
  }
}
