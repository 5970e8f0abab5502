/** What the two producer/consumer programs have in common: the threads with their lines, the lock, the buffer,
    and the main thread that joins the producers and then cancels and joins the consumers. */
module LineThreads {
  import opened LineBuffer
  import opened BoundedFifo

  // Where a producer is. How it waits and how it wakes a consumer differs between the programs.
  datatype ProducerPc =
    | PRead                      // getline and strtok
    | PLock(line: Line)          // take buffer_mx
    | PLook(line: Line)          // the buffer is full, or push
    | PLeave(line: Line)         // release buffer_mx to wait
    | PWait(line: Line)          // waiting on producer_line
    | PRelock(line: Line)        // woken inside pthread_cond_wait, taking buffer_mx again
    | PWake                      // post or signal consumer_line
    | PUnlock                    // release buffer_mx
    | PDone

  datatype ConsumerPc =
    | QStart                     // up to disabling cancellation
    | QLock                      // take buffer_mx
    | QLook                      // the buffer is empty, or pop
    | QLeave                     // release buffer_mx to wait
    | QWait                      // waiting on consumer_line
    | QRelock                    // woken inside pthread_cond_wait, taking buffer_mx again
    | QWake(line: Line)          // post or signal producer_line
    | QUnlock(line: Line)        // release buffer_mx
    | QHandle(line: Line)        // print and free the line
    | QCancelLock                // cancelled inside pthread_cond_wait, taking buffer_mx again
    | QCancelUnlock              // the clean-up handler unlock_mx
    | QCancelled

  datatype MainPc = RJoinProducers(i: nat) | RCancel(i: nat) | RJoinConsumers(i: nat) | RDone

  // `file` is what the producer finds in its file, `todo` what getline has not returned yet.
  datatype Producer = Producer(pc: ProducerPc, todo: seq<Line>, file: seq<Line>)
  datatype Consumer = Consumer(pc: ConsumerPc, cancel: bool, handled: seq<Line>)

  datatype Crew = Crew(
    ring: Ring,
    mx: nat,
    producers: seq<Producer>,
    consumers: seq<Consumer>,
    main: MainPc,
    pushed: Log,
    popped: Log)

  function InitCrew(size: nat, files: seq<seq<Line>>, consumers: nat): Crew {
    Crew(Ring(seq(size, _ => ""), 0, 0), 1,
         seq(|files|, i requires 0 <= i < |files| => Producer(PRead, files[i], files[i])),
         seq(consumers, _ => Consumer(QStart, false, [])),
         RJoinProducers(0), [], [])
  }

  function SetP(c: Crew, i: nat, pc: ProducerPc): Crew
    requires i < |c.producers|
  {
    c.(producers := c.producers[i := c.producers[i].(pc := pc)])
  }

  function SetQ(c: Crew, j: nat, pc: ConsumerPc): Crew
    requires j < |c.consumers|
  {
    c.(consumers := c.consumers[j := c.consumers[j].(pc := pc)])
  }

  // ----- the steps that the programs share -----

  ghost predicate ProducerCanMove(c: Crew, i: nat) {
    && i < |c.producers|
    && match c.producers[i].pc
       case PLock(_) => c.mx > 0
       case PRelock(_) => c.mx > 0
       case PWait(_) => false
       case PDone => false
       case _ => true
  }

  /** getline and strtok: an empty line is skipped. */
  function ReadMove(p: Producer): Producer {
    if p.todo == [] then p.(pc := PDone)
    else Producer(if p.todo[0] == "" then PRead else PLock(p.todo[0]), p.todo[1..], p.file)
  }

  ghost function ProducerMove(c: Crew, i: nat): Crew
    requires c.ring.Valid() && ProducerCanMove(c, i)
  {
    match c.producers[i].pc
    case PRead => c.(producers := c.producers[i := ReadMove(c.producers[i])])
    case PLock(line) => SetP(c, i, PLook(line)).(mx := c.mx - 1)
    case PLook(line) =>
      if c.ring.Full() then SetP(c, i, PLeave(line))
      else SetP(c, i, PWake).(ring := c.ring.Push(line), pushed := c.pushed + [Entry(i, line)])
    case PLeave(line) => SetP(c, i, PWait(line)).(mx := c.mx + 1)
    case PRelock(line) => SetP(c, i, PLook(line)).(mx := c.mx - 1)
    case PWake => SetP(c, i, PUnlock)
    case PUnlock => SetP(c, i, PRead).(mx := c.mx + 1)
  }

  ghost predicate ConsumerCanMove(c: Crew, j: nat) {
    && j < |c.consumers|
    && match c.consumers[j].pc
       case QLock => c.mx > 0
       case QRelock => c.mx > 0
       case QCancelLock => c.mx > 0
       case QWait => false
       case QCancelled => false
       case _ => true
  }

  ghost function ConsumerMove(c: Crew, j: nat): Crew
    requires c.ring.Valid() && ConsumerCanMove(c, j)
  {
    match c.consumers[j].pc
    case QStart => SetQ(c, j, QLock)
    case QLock => SetQ(c, j, QLook).(mx := c.mx - 1)
    case QLook =>
      if c.ring.Empty() then SetQ(c, j, QLeave)
      else SetQ(c, j, QWake(c.ring.First())).(ring := c.ring.Pop(), popped := c.popped + [Entry(j, c.ring.First())])
    case QLeave => SetQ(c, j, QWait).(mx := c.mx + 1)
    case QRelock => SetQ(c, j, QLook).(mx := c.mx - 1)
    case QWake(line) => SetQ(c, j, QUnlock(line))
    case QUnlock(line) => SetQ(c, j, QHandle(line)).(mx := c.mx + 1)
    case QHandle(line) =>
      var q := c.consumers[j];
      c.(consumers := c.consumers[j := Consumer(QLock, q.cancel, q.handled + [line])])
    case QCancelLock => SetQ(c, j, QCancelUnlock).(mx := c.mx - 1)
    case QCancelUnlock => SetQ(c, j, QCancelled).(mx := c.mx + 1)
  }

  /** The main thread: waitfor_threads, cancel_threads, waitfor_threads. */
  ghost predicate MainCanMove(c: Crew) {
    match c.main
    case RJoinProducers(i) => i < |c.producers| ==> c.producers[i].pc.PDone?
    case RCancel(_) => true
    case RJoinConsumers(i) => i < |c.consumers| ==> c.consumers[i].pc.QCancelled?
    case RDone => false
  }

  ghost function MainMove(c: Crew): Crew
    requires MainCanMove(c)
  {
    match c.main
    case RJoinProducers(i) => c.(main := if i < |c.producers| then RJoinProducers(i + 1) else RCancel(0))
    case RCancel(i) =>
      if i < |c.consumers| then
        c.(main := RCancel(i + 1), consumers := c.consumers[i := c.consumers[i].(cancel := true)])
      else
        c.(main := RJoinConsumers(0))
    case RJoinConsumers(i) => c.(main := if i < |c.consumers| then RJoinConsumers(i + 1) else RDone)
  }

  /** Every line was pushed and popped by a thread that there is. */
  ghost predicate ByTheCrew(c: Crew) {
    && (forall n :: 0 <= n < |c.pushed| ==> c.pushed[n].who < |c.producers|)
    && (forall n :: 0 <= n < |c.popped| ==> c.popped[n].who < |c.consumers|)
  }

  /** Everything has been handled and joined that should be: the main thread is done, every line of every producer
      was pushed, and nothing else; every popped line was handled by the consumer that popped it; the lines left in
      the buffer are the last ones pushed and no more than fit, and the lock is free. */
  ghost predicate CleanEnd(c: Crew, size: nat, files: seq<seq<Line>>) {
    && c.main.RDone? && c.mx == 1 && c.ring.Valid() && ByTheCrew(c)
    && |c.producers| == |files|
    && (forall i :: 0 <= i < |files| ==> c.producers[i].pc.PDone? && By(c.pushed, i) == NonEmpty(files[i]))
    && (forall j :: 0 <= j < |c.consumers| ==>
          c.consumers[j].pc.QCancelled? && By(c.popped, j) == c.consumers[j].handled)
    && Lines(c.popped) + c.ring.Contents() == Lines(c.pushed)
    && |c.ring.Contents()| <= size
  }
}
