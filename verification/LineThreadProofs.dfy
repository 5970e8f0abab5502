/** What every step of the producer/consumer programs keeps, whichever way their threads wait. */
module LineThreadProofs {
  import opened Counting
  import opened LineBuffer
  import opened BoundedFifo
  import opened LineThreads

  // ----- the lock -----

  function PHolds(p: Producer): nat {
    if p.pc.PLook? || p.pc.PLeave? || p.pc.PWake? || p.pc.PUnlock? then 1 else 0
  }

  function QHolds(q: Consumer): nat {
    if q.pc.QLook? || q.pc.QLeave? || q.pc.QWake? || q.pc.QUnlock? || q.pc.QCancelUnlock? then 1 else 0
  }

  /** buffer_mx is free or held by one thread. */
  ghost predicate Mutex(c: Crew) {
    c.mx + Sum(c.producers, PHolds) + Sum(c.consumers, QHolds) == 1
  }

  // ----- waiting and waking -----

  function PWaits(p: Producer): nat {
    if p.pc.PLeave? || p.pc.PWait? then 1 else 0
  }

  function QWaits(q: Consumer): nat {
    if q.pc.QLeave? || q.pc.QWait? then 1 else 0
  }

  // Threads on their way to look at the buffer, woken or not.
  function PWoken(p: Producer): nat {
    if p.pc.PLock? || p.pc.PLook? || p.pc.PRelock? then 1 else 0
  }

  function QWoken(q: Consumer): nat {
    if q.pc.QLock? || q.pc.QLook? || q.pc.QRelock? then 1 else 0
  }

  // Threads that changed the buffer and have yet to wake somebody for it.
  function PWakes(p: Producer): nat {
    if p.pc.PWake? then 1 else 0
  }

  function QWakes(q: Consumer): nat {
    if q.pc.QWake? then 1 else 0
  }

  // Consumers that have acted on their cancellation.
  function QGone(q: Consumer): nat {
    if q.pc.QCancelLock? || q.pc.QCancelUnlock? || q.pc.QCancelled? then 1 else 0
  }

  // ----- the lines -----

  function Abs(c: Crew): Fifo
    requires c.ring.Valid()
  {
    Fifo(|c.ring.cells|, c.ring.Contents(), c.pushed, c.popped)
  }

  /** The line that a producer has read and not pushed yet. */
  function InHandP(pc: ProducerPc): seq<Line> {
    if pc.PLock? || pc.PLook? || pc.PLeave? || pc.PWait? || pc.PRelock? then [pc.line] else []
  }

  /** The line that a consumer has popped and not handled yet. */
  function InHandQ(pc: ConsumerPc): seq<Line> {
    if pc.QWake? || pc.QUnlock? || pc.QHandle? then [pc.line] else []
  }

  /** What a producer still has to push. */
  function Unpushed(p: Producer): seq<Line> {
    InHandP(p.pc) + NonEmpty(p.todo)
  }

  ghost predicate ProducerLines(pushed: Log, i: nat, p: Producer) {
    By(pushed, i) + Unpushed(p) == NonEmpty(p.file) && (p.pc.PDone? ==> p.todo == [])
  }

  ghost predicate ConsumerLines(popped: Log, j: nat, q: Consumer) {
    By(popped, j) == q.handled + InHandQ(q.pc)
  }

  ghost predicate AllProducerLines(c: Crew) {
    && (forall i :: 0 <= i < |c.producers| ==> ProducerLines(c.pushed, i, c.producers[i]))
    && (forall n :: 0 <= n < |c.pushed| ==> c.pushed[n].who < |c.producers|)
  }

  ghost predicate AllConsumerLines(c: Crew) {
    && (forall j :: 0 <= j < |c.consumers| ==> ConsumerLines(c.popped, j, c.consumers[j]))
    && (forall n :: 0 <= n < |c.popped| ==> c.popped[n].who < |c.consumers|)
  }

  // ----- the main thread -----

  ghost predicate ProducersDone(c: Crew, n: nat) {
    n <= |c.producers| && forall i :: 0 <= i < n ==> c.producers[i].pc.PDone?
  }

  ghost predicate CancelRequested(c: Crew, n: nat) {
    n <= |c.consumers| && forall j :: 0 <= j < n ==> c.consumers[j].cancel
  }

  ghost predicate ConsumersDone(c: Crew, n: nat) {
    n <= |c.consumers| && forall j :: 0 <= j < n ==> c.consumers[j].pc.QCancelled?
  }

  /** Only a consumer that was told to goes away. */
  ghost predicate GoneWhenTold(c: Crew) {
    forall j :: 0 <= j < |c.consumers| && QGone(c.consumers[j]) == 1 ==> c.consumers[j].cancel
  }

  ghost predicate Shutdown(c: Crew) {
    && GoneWhenTold(c)
    && match c.main
       case RJoinProducers(i) =>
         ProducersDone(c, i) && forall j :: 0 <= j < |c.consumers| ==> !c.consumers[j].cancel
       case RCancel(i) => ProducersDone(c, |c.producers|) && CancelRequested(c, i)
       case RJoinConsumers(i) =>
         ProducersDone(c, |c.producers|) && CancelRequested(c, |c.consumers|) && ConsumersDone(c, i)
       case RDone => ProducersDone(c, |c.producers|) && ConsumersDone(c, |c.consumers|)
  }

  ghost predicate CrewInv(c: Crew) {
    && c.ring.Valid() && FifoInv(Abs(c)) && Mutex(c)
    && AllProducerLines(c) && AllConsumerLines(c) && Shutdown(c)
  }

  lemma InitLines(size: nat, files: seq<seq<Line>>, consumers: nat)
    ensures AllProducerLines(InitCrew(size, files, consumers)) && AllConsumerLines(InitCrew(size, files, consumers))
  {
    var c := InitCrew(size, files, consumers);
    forall i: nat | i < |files| ensures ProducerLines([], i, c.producers[i]) {
      assert By([], i) + NonEmpty(files[i]) == NonEmpty(files[i]);
    }
  }

  lemma InitFifo(size: nat, files: seq<seq<Line>>, consumers: nat)
    ensures InitCrew(size, files, consumers).ring.Valid() && FifoInv(Abs(InitCrew(size, files, consumers)))
  {
    assert InitCrew(size, files, consumers).ring.Contents() == [] && Lines([]) == [];
  }

  lemma InitMutex(size: nat, files: seq<seq<Line>>, consumers: nat)
    ensures Mutex(InitCrew(size, files, consumers))
  {
    var c := InitCrew(size, files, consumers);
    SumZero(c.producers, PHolds);
    SumZero(c.consumers, QHolds);
  }

  lemma InitCrewInv(size: nat, files: seq<seq<Line>>, consumers: nat)
    ensures CrewInv(InitCrew(size, files, consumers))
  {
    InitFifo(size, files, consumers);
    InitMutex(size, files, consumers);
    InitLines(size, files, consumers);
  }

  // ----- one thread moves -----

  /** A producer that moves on with the same line in hand and the same hold on the lock. */
  lemma RepositionP(c: Crew, i: nat, pc: ProducerPc)
    requires CrewInv(c) && i < |c.producers| && !c.producers[i].pc.PDone? && !pc.PDone?
    requires InHandP(pc) == InHandP(c.producers[i].pc)
    requires PHolds(c.producers[i].(pc := pc)) == PHolds(c.producers[i])
    ensures CrewInv(SetP(c, i, pc)) && Abs(SetP(c, i, pc)) == Abs(c)
  {
    var d := SetP(c, i, pc);
    SumUpdate(c.producers, i, d.producers[i], PHolds);
    ProducerKeepsShutdown(c, d, i);
    forall k: nat | k < |d.producers| ensures ProducerLines(d.pushed, k, d.producers[k]) {
      assert ProducerLines(c.pushed, k, c.producers[k]);
    }
  }

  lemma RepositionQ(c: Crew, j: nat, pc: ConsumerPc)
    requires CrewInv(c) && j < |c.consumers| && !c.consumers[j].pc.QCancelled?
    requires InHandQ(pc) == InHandQ(c.consumers[j].pc)
    requires QHolds(c.consumers[j].(pc := pc)) == QHolds(c.consumers[j])
    requires QGone(c.consumers[j].(pc := pc)) == 1 ==> c.consumers[j].cancel
    ensures CrewInv(SetQ(c, j, pc)) && Abs(SetQ(c, j, pc)) == Abs(c)
  {
    var d := SetQ(c, j, pc);
    SumUpdate(c.consumers, j, d.consumers[j], QHolds);
    ConsumerKeepsShutdown(c, d, j);
    forall k: nat | k < |d.consumers| ensures ConsumerLines(d.popped, k, d.consumers[k]) {
      assert ConsumerLines(c.popped, k, c.consumers[k]);
    }
  }

  lemma ProducerKeepsShutdown(c: Crew, d: Crew, i: nat)
    requires Shutdown(c) && i < |c.producers| && !c.producers[i].pc.PDone?
    requires d.main == c.main && d.consumers == c.consumers && |d.producers| == |c.producers|
    requires forall k :: 0 <= k < |c.producers| && k != i ==> d.producers[k] == c.producers[k]
    ensures Shutdown(d)
  {
    assert forall n: nat :: ProducersDone(c, n) ==> ProducersDone(d, n);
  }

  lemma ConsumerKeepsShutdown(c: Crew, d: Crew, j: nat)
    requires Shutdown(c) && j < |c.consumers| && !c.consumers[j].pc.QCancelled?
    requires d.main == c.main && d.producers == c.producers && |d.consumers| == |c.consumers|
    requires forall k :: 0 <= k < |c.consumers| && k != j ==> d.consumers[k] == c.consumers[k]
    requires d.consumers[j].cancel == c.consumers[j].cancel
    requires QGone(d.consumers[j]) == 1 ==> d.consumers[j].cancel
    ensures Shutdown(d)
  {
    assert forall n: nat :: ProducersDone(c, n) ==> ProducersDone(d, n);
    assert forall n: nat :: CancelRequested(c, n) ==> CancelRequested(d, n);
    assert forall n: nat :: ConsumersDone(c, n) ==> ConsumersDone(d, n);
  }

  /** Every move is one operation of the bounded queue, or none. */
  lemma ProducerMoveRefines(c: Crew, i: nat)
    requires c.ring.Valid() && ProducerCanMove(c, i)
    ensures ProducerMove(c, i).ring.Valid() && FifoNext(Abs(c), Abs(ProducerMove(c, i)))
  {
    var d := ProducerMove(c, i);
    if c.producers[i].pc.PLook? && !c.ring.Full() {
      PushAppends(c.ring, c.producers[i].pc.line);
      assert Put(Abs(c), Abs(d), Entry(i, c.producers[i].pc.line));
    } else {
      assert Abs(d) == Abs(c);
    }
  }

  lemma ConsumerMoveRefines(c: Crew, j: nat)
    requires c.ring.Valid() && ConsumerCanMove(c, j)
    ensures ConsumerMove(c, j).ring.Valid() && FifoNext(Abs(c), Abs(ConsumerMove(c, j)))
  {
    var d := ConsumerMove(c, j);
    if c.consumers[j].pc.QLook? && !c.ring.Empty() {
      PopTakesTheOldest(c.ring);
      assert Take(Abs(c), Abs(d), Entry(j, c.ring.First()));
    } else {
      assert Abs(d) == Abs(c);
    }
  }

  lemma ProducerMoveIsLocal(c: Crew, i: nat)
    requires c.ring.Valid() && ProducerCanMove(c, i)
    ensures var d := ProducerMove(c, i);
      && d.producers == c.producers[i := d.producers[i]]
      && d.consumers == c.consumers && d.main == c.main && d.popped == c.popped
      && d.mx + PHolds(d.producers[i]) == c.mx + PHolds(c.producers[i])
      && |d.ring.cells| == |c.ring.cells|
  {
  }

  lemma ConsumerMoveIsLocal(c: Crew, j: nat)
    requires c.ring.Valid() && ConsumerCanMove(c, j)
    ensures var d := ConsumerMove(c, j);
      && d.consumers == c.consumers[j := d.consumers[j]] && d.consumers[j].cancel == c.consumers[j].cancel
      && d.producers == c.producers && d.main == c.main && d.pushed == c.pushed
      && d.mx + QHolds(d.consumers[j]) == c.mx + QHolds(c.consumers[j])
      && |d.ring.cells| == |c.ring.cells|
      && (QGone(d.consumers[j]) == QGone(c.consumers[j]))
  {
  }

  /** A producer never makes a free cell go unmatched, nor a line but by being about to wake somebody for it. */
  lemma ProducerMoveMatches(c: Crew, i: nat)
    requires c.ring.Valid() && ProducerCanMove(c, i)
    ensures var d, p := ProducerMove(c, i), c.producers[i];
      var q := d.producers[i];
      && (d.ring.length == |c.ring.cells| ||
          (PWaits(q) <= PWaits(p) && d.ring.length + PWoken(q) >= c.ring.length + PWoken(p)))
      && (if p.pc.PWake? then d.ring.length == c.ring.length && PWakes(q) == 0
          else d.ring.length + PWakes(p) <= c.ring.length + PWakes(q))
  {
  }

  lemma ConsumerMoveMatches(c: Crew, j: nat)
    requires c.ring.Valid() && ConsumerCanMove(c, j)
    ensures var d, p := ConsumerMove(c, j), c.consumers[j];
      var q := d.consumers[j];
      && (d.ring.length == 0 || (QWaits(q) <= QWaits(p) && d.ring.length + QWoken(p) <= c.ring.length + QWoken(q)))
      && (if p.pc.QWake? then d.ring.length == c.ring.length && QWakes(q) == 0
          else d.ring.length + QWakes(q) >= c.ring.length + QWakes(p))
  {
  }

  /** What changes in the sums when a producer becomes p, or a consumer q. */
  lemma ProducerSums(ps: seq<Producer>, i: nat, p: Producer)
    requires i < |ps|
    ensures Sum(ps[i := p], PWaits) + PWaits(ps[i]) == Sum(ps, PWaits) + PWaits(p)
    ensures Sum(ps[i := p], PWoken) + PWoken(ps[i]) == Sum(ps, PWoken) + PWoken(p)
    ensures Sum(ps[i := p], PWakes) + PWakes(ps[i]) == Sum(ps, PWakes) + PWakes(p)
  {
    SumUpdate(ps, i, p, PWaits);
    SumUpdate(ps, i, p, PWoken);
    SumUpdate(ps, i, p, PWakes);
  }

  lemma ConsumerSums(qs: seq<Consumer>, j: nat, q: Consumer)
    requires j < |qs|
    ensures Sum(qs[j := q], QWaits) + QWaits(qs[j]) == Sum(qs, QWaits) + QWaits(q)
    ensures Sum(qs[j := q], QWoken) + QWoken(qs[j]) == Sum(qs, QWoken) + QWoken(q)
    ensures Sum(qs[j := q], QWakes) + QWakes(qs[j]) == Sum(qs, QWakes) + QWakes(q)
    ensures Sum(qs[j := q], QGone) + QGone(qs[j]) == Sum(qs, QGone) + QGone(q)
  {
    SumUpdate(qs, j, q, QWaits);
    SumUpdate(qs, j, q, QWoken);
    SumUpdate(qs, j, q, QWakes);
    SumUpdate(qs, j, q, QGone);
  }

  lemma ReadKeepsUnpushed(p: Producer)
    requires p.pc.PRead?
    ensures Unpushed(ReadMove(p)) == Unpushed(p)
  {
    if p.todo != [] {
      ReadLine(p.todo);
    }
  }

  /** What producer i still has to push, and the line it pushes if it does. */
  lemma UnpushedMoves(c: Crew, i: nat)
    requires c.ring.Valid() && ProducerCanMove(c, i)
    ensures var p, d := c.producers[i], ProducerMove(c, i);
      && d.producers[i].file == p.file && (d.producers[i].pc.PDone? ==> d.producers[i].todo == [])
      && (if p.pc.PLook? && !c.ring.Full() then
            d.pushed == c.pushed + [Entry(i, p.pc.line)] && [p.pc.line] + Unpushed(d.producers[i]) == Unpushed(p)
          else
            d.pushed == c.pushed && Unpushed(d.producers[i]) == Unpushed(p))
  {
    if c.producers[i].pc.PRead? {
      ReadKeepsUnpushed(c.producers[i]);
    }
  }

  lemma PushOwnLine(pushed: Log, i: nat, line: Line, rest: seq<Line>, all: seq<Line>)
    requires By(pushed, i) + ([line] + rest) == all
    ensures By(pushed + [Entry(i, line)], i) + rest == all
  {
    ByAppend(pushed, Entry(i, line), i);
    assert By(pushed, i) + [line] + rest == By(pushed, i) + ([line] + rest);
  }

  lemma ProducerMoveKeepsOwnLines(c: Crew, i: nat)
    requires c.ring.Valid() && ProducerCanMove(c, i) && ProducerLines(c.pushed, i, c.producers[i])
    ensures ProducerLines(ProducerMove(c, i).pushed, i, ProducerMove(c, i).producers[i])
  {
    var d, p := ProducerMove(c, i), c.producers[i];
    UnpushedMoves(c, i);
    if p.pc.PLook? && !c.ring.Full() {
      PushOwnLine(c.pushed, i, p.pc.line, Unpushed(d.producers[i]), NonEmpty(p.file));
    }
  }

  /** Another producer's line, or none, does not count for producer k. */
  lemma OthersKeepTheirLines(pushed: Log, now: Log, i: nat, k: nat, p: Producer)
    requires ProducerLines(pushed, k, p) && k != i
    requires now == pushed || exists line :: now == pushed + [Entry(i, line)]
    ensures ProducerLines(now, k, p)
  {
    if now != pushed {
      var line :| now == pushed + [Entry(i, line)];
      ByAppend(pushed, Entry(i, line), k);
    }
  }

  lemma ProducerMoveKeepsLines(c: Crew, i: nat)
    requires c.ring.Valid() && AllProducerLines(c) && ProducerCanMove(c, i)
    ensures AllProducerLines(ProducerMove(c, i))
  {
    var d := ProducerMove(c, i);
    ProducerMoveIsLocal(c, i);
    assert ProducerLines(c.pushed, i, c.producers[i]);
    ProducerMoveKeepsOwnLines(c, i);
    PushedBy(c, i);
    OthersLines(c.pushed, d.pushed, c.producers, d.producers, i);
  }

  lemma PushedBy(c: Crew, i: nat)
    requires c.ring.Valid() && ProducerCanMove(c, i)
    ensures var now := ProducerMove(c, i).pushed; now == c.pushed || exists line :: now == c.pushed + [Entry(i, line)]
  {
  }

  /** The accounts of the other producers do not change. */
  lemma OthersLines(pushed: Log, now: Log, ps: seq<Producer>, qs: seq<Producer>, i: nat)
    requires i < |ps| && |qs| == |ps| && qs == ps[i := qs[i]]
    requires forall k :: 0 <= k < |ps| ==> ProducerLines(pushed, k, ps[k])
    requires forall n :: 0 <= n < |pushed| ==> pushed[n].who < |ps|
    requires now == pushed || exists line :: now == pushed + [Entry(i, line)]
    ensures forall k :: 0 <= k < |qs| && k != i ==> ProducerLines(now, k, qs[k])
    ensures forall n :: 0 <= n < |now| ==> now[n].who < |qs|
  {
    forall k: nat | k < |qs| && k != i ensures ProducerLines(now, k, qs[k]) {
      OthersKeepTheirLines(pushed, now, i, k, ps[k]);
    }
  }

  lemma ConsumerMoveKeepsOwnLines(c: Crew, j: nat)
    requires c.ring.Valid() && ConsumerCanMove(c, j) && ConsumerLines(c.popped, j, c.consumers[j])
    ensures ConsumerLines(ConsumerMove(c, j).popped, j, ConsumerMove(c, j).consumers[j])
  {
    if c.consumers[j].pc.QLook? && !c.ring.Empty() {
      ByAppend(c.popped, Entry(j, c.ring.First()), j);
    }
  }

  lemma ConsumerMoveKeepsLines(c: Crew, j: nat)
    requires c.ring.Valid() && AllConsumerLines(c) && ConsumerCanMove(c, j)
    ensures AllConsumerLines(ConsumerMove(c, j))
  {
    var d := ConsumerMove(c, j);
    ConsumerMoveIsLocal(c, j);
    assert ConsumerLines(c.popped, j, c.consumers[j]);
    ConsumerMoveKeepsOwnLines(c, j);
    forall k: nat | k < |d.consumers| && k != j ensures ConsumerLines(d.popped, k, d.consumers[k]) {
      assert ConsumerLines(c.popped, k, c.consumers[k]);
      if d.popped != c.popped {
        ByAppend(c.popped, Entry(j, c.ring.First()), k);
      }
    }
  }

  lemma ProducerMoveKeepsInv(c: Crew, i: nat)
    requires CrewInv(c) && ProducerCanMove(c, i)
    ensures CrewInv(ProducerMove(c, i)) && FifoNext(Abs(c), Abs(ProducerMove(c, i)))
  {
    var d := ProducerMove(c, i);
    ProducerMoveRefines(c, i);
    FifoKeepsInv(Abs(c), Abs(d));
    ProducerMoveIsLocal(c, i);
    SumUpdate(c.producers, i, d.producers[i], PHolds);
    ProducerMoveKeepsLines(c, i);
    ProducerKeepsShutdown(c, d, i);
  }

  lemma ConsumerMoveKeepsInv(c: Crew, j: nat)
    requires CrewInv(c) && ConsumerCanMove(c, j)
    ensures CrewInv(ConsumerMove(c, j)) && FifoNext(Abs(c), Abs(ConsumerMove(c, j)))
  {
    var d := ConsumerMove(c, j);
    ConsumerMoveRefines(c, j);
    FifoKeepsInv(Abs(c), Abs(d));
    ConsumerMoveIsLocal(c, j);
    SumUpdate(c.consumers, j, d.consumers[j], QHolds);
    ConsumerMoveKeepsLines(c, j);
    ConsumerKeepsShutdown(c, d, j);
  }

  /** The main thread moves, and may ask a consumer to go away. */
  lemma MainMoveKeepsInv(c: Crew)
    requires CrewInv(c) && MainCanMove(c)
    ensures CrewInv(MainMove(c)) && Abs(MainMove(c)) == Abs(c)
  {
    var d := MainMove(c);
    MainMoveKeepsShutdown(c);
    if c.main.RCancel? && c.main.i < |c.consumers| {
      SumUpdate(c.consumers, c.main.i, d.consumers[c.main.i], QHolds);
    }
    forall k: nat | k < |d.consumers| ensures ConsumerLines(d.popped, k, d.consumers[k]) {
      assert ConsumerLines(c.popped, k, c.consumers[k]);
    }
  }

  lemma MainMoveKeepsShutdown(c: Crew)
    requires Shutdown(c) && MainCanMove(c)
    ensures Shutdown(MainMove(c))
  {
  }

  // ----- somebody can move -----

  datatype Mover = MainThread | OneProducer(i: nat) | OneConsumer(j: nat) | OneCancelled(j: nat) | Nobody

  /** The main thread waits for a producer, every producer that is not done waits for a free cell, and every
      consumer waits for a line. */
  ghost predicate Asleep(c: Crew) {
    && c.mx == 1 && c.main.RJoinProducers? && c.main.i < |c.producers| && c.producers[c.main.i].pc.PWait?
    && (forall i :: 0 <= i < |c.producers| ==> c.producers[i].pc.PWait? || c.producers[i].pc.PDone?)
    && (forall j :: 0 <= j < |c.consumers| ==> c.consumers[j].pc.QWait?)
  }

  lemma SomeoneHolds(c: Crew) returns (m: Mover)
    requires Mutex(c) && c.mx == 0
    ensures m.OneProducer? || m.OneConsumer?
    ensures m.OneProducer? ==> m.i < |c.producers| && PHolds(c.producers[m.i]) == 1
    ensures m.OneConsumer? ==> m.j < |c.consumers| && QHolds(c.consumers[m.j]) == 1
  {
    if i: nat :| i < |c.producers| && PHolds(c.producers[i]) > 0 {
      m := OneProducer(i);
    } else if j: nat :| j < |c.consumers| && QHolds(c.consumers[j]) > 0 {
      m := OneConsumer(j);
    } else {
      SumZero(c.producers, PHolds);
      SumZero(c.consumers, QHolds);
    }
  }

  /** Unless the main thread is done, some thread can make a move of its own, or all sleep. */
  lemma WhoCanMove(c: Crew) returns (m: Mover)
    requires CrewInv(c) && !c.main.RDone?
    ensures match m
            case MainThread => MainCanMove(c)
            case OneProducer(i) => ProducerCanMove(c, i)
            case OneConsumer(j) => ConsumerCanMove(c, j)
            case OneCancelled(j) => j < |c.consumers| && c.consumers[j].cancel && c.consumers[j].pc.QWait?
            case Nobody => Asleep(c)
  {
    if c.mx == 0 {
      m := SomeoneHolds(c);
    } else if MainCanMove(c) {
      m := MainThread;
    } else if i: nat :| ProducerCanMove(c, i) {
      m := OneProducer(i);
    } else if j: nat :| ConsumerCanMove(c, j) {
      m := OneConsumer(j);
    } else if j: nat :| j < |c.consumers| && c.consumers[j].cancel && c.consumers[j].pc.QWait? {
      m := OneCancelled(j);
    } else {
      AllSleep(c);
      m := Nobody;
    }
  }

  lemma AllSleep(c: Crew)
    requires Mutex(c) && Shutdown(c) && c.mx > 0 && !c.main.RDone? && !MainCanMove(c)
    requires forall i: nat :: !ProducerCanMove(c, i)
    requires forall j: nat :: !ConsumerCanMove(c, j)
    requires forall j: nat :: j < |c.consumers| && c.consumers[j].cancel ==> !c.consumers[j].pc.QWait?
    ensures Asleep(c)
  {
    forall i: nat | i < |c.producers| ensures c.producers[i].pc.PWait? || c.producers[i].pc.PDone? {
      assert !ProducerCanMove(c, i);
    }
    forall j: nat | j < |c.consumers| ensures c.consumers[j].pc.QWait? || c.consumers[j].pc.QCancelled? {
      assert !ConsumerCanMove(c, j);
    }
  }

  // ----- termination -----

  function PWork(p: Producer): nat {
    100 * |p.todo| + match p.pc
    case PRead => 1
    case PLock(_) => 76
    case PLook(_) => 75
    case PLeave(_) => 74
    case PWait(_) => 73
    case PRelock(_) => 76
    case PWake => 20
    case PUnlock => 5
    case PDone => 0
  }

  function QWork(q: Consumer): nat {
    match q.pc
    case QStart => 9
    case QLock => 8
    case QLook => 7
    case QLeave => 6
    case QWait => 5
    case QRelock => 8
    case QWake(_) => 30
    case QUnlock(_) => 15
    case QHandle(_) => 14
    case QCancelLock => 3
    case QCancelUnlock => 2
    case QCancelled => 0
  }

  function MainWork(c: Crew): int {
    match c.main
    case RJoinProducers(i) => |c.producers| - i + 2 * |c.consumers| + 3
    case RCancel(i) => 2 * |c.consumers| - i + 2
    case RJoinConsumers(i) => |c.consumers| - i + 1
    case RDone => 0
  }

  /** An upper bound on the number of steps still to come. */
  function CrewWork(c: Crew): int {
    Sum(c.producers, PWork) + Sum(c.consumers, QWork) + 30 * c.ring.length + MainWork(c)
  }

  lemma ProducerMoveWork(c: Crew, i: nat)
    requires c.ring.Valid() && ProducerCanMove(c, i)
    ensures CrewWork(ProducerMove(c, i)) + (if c.producers[i].pc.PWake? then 15 else 1) <= CrewWork(c)
  {
    var d := ProducerMove(c, i);
    ProducerMoveIsLocal(c, i);
    SumUpdate(c.producers, i, d.producers[i], PWork);
  }

  lemma ConsumerMoveOwnWork(c: Crew, j: nat)
    requires c.ring.Valid() && ConsumerCanMove(c, j)
    ensures var d, q := ConsumerMove(c, j), c.consumers[j];
      QWork(d.consumers[j]) + 30 * d.ring.length + (if q.pc.QWake? then 15 else 1) <= QWork(q) + 30 * c.ring.length
  {
  }

  lemma ConsumerMoveWork(c: Crew, j: nat)
    requires c.ring.Valid() && ConsumerCanMove(c, j)
    ensures CrewWork(ConsumerMove(c, j)) + (if c.consumers[j].pc.QWake? then 15 else 1) <= CrewWork(c)
  {
    var d := ConsumerMove(c, j);
    ConsumerMoveIsLocal(c, j);
    ConsumerMoveOwnWork(c, j);
    SumUpdate(c.consumers, j, d.consumers[j], QWork);
  }

  lemma MainMoveWork(c: Crew)
    requires Shutdown(c) && MainCanMove(c)
    ensures CrewWork(MainMove(c)) < CrewWork(c)
  {
    if c.main.RCancel? && c.main.i < |c.consumers| {
      SumUpdate(c.consumers, c.main.i, MainMove(c).consumers[c.main.i], QWork);
    }
  }

  lemma WorkIsNat(c: Crew)
    requires Shutdown(c)
    ensures CrewWork(c) >= 0
  {
  }

  lemma RepositionWorkP(c: Crew, i: nat, pc: ProducerPc)
    requires i < |c.producers|
    ensures CrewWork(SetP(c, i, pc)) + PWork(c.producers[i]) == CrewWork(c) + PWork(c.producers[i].(pc := pc))
  {
    SumUpdate(c.producers, i, c.producers[i].(pc := pc), PWork);
  }

  lemma RepositionWorkQ(c: Crew, j: nat, pc: ConsumerPc)
    requires j < |c.consumers|
    ensures CrewWork(SetQ(c, j, pc)) + QWork(c.consumers[j]) == CrewWork(c) + QWork(c.consumers[j].(pc := pc))
  {
    SumUpdate(c.consumers, j, c.consumers[j].(pc := pc), QWork);
  }

  // ----- what the invariant says about the lines -----

  /** Lines come out in the order they went in; what went in is put together from prefixes of the producers' non-empty
      lines, and each consumer has handled what it popped but the line in hand. */
  ghost predicate InOrder(c: Crew, size: nat, files: seq<seq<Line>>, consumers: nat) {
    && c.ring.Valid() && c.ring.length <= size
    && Lines(c.popped) + c.ring.Contents() == Lines(c.pushed) && ByTheCrew(c)
    && |c.producers| == |files| && |c.consumers| == consumers
    && (forall i :: 0 <= i < |files| ==> By(c.pushed, i) <= NonEmpty(files[i]))
    && (forall j :: 0 <= j < consumers ==> By(c.popped, j) == c.consumers[j].handled + InHandQ(c.consumers[j].pc))
  }

  /** The sizes and files of the beginning. */
  ghost predicate Sized(c: Crew, size: nat, files: seq<seq<Line>>, consumers: nat) {
    && |c.ring.cells| == size && |c.consumers| == consumers && |c.producers| == |files|
    && forall i :: 0 <= i < |files| ==> c.producers[i].file == files[i]
  }

  lemma InvIsInOrder(c: Crew, size: nat, files: seq<seq<Line>>, consumers: nat)
    requires CrewInv(c) && Sized(c, size, files, consumers)
    ensures InOrder(c, size, files, consumers)
  {
    forall i: nat | i < |files| ensures By(c.pushed, i) <= NonEmpty(files[i]) {
      assert ProducerLines(c.pushed, i, c.producers[i]);
    }
    forall j: nat | j < consumers
      ensures By(c.popped, j) == c.consumers[j].handled + InHandQ(c.consumers[j].pc)
    {
      assert ConsumerLines(c.popped, j, c.consumers[j]);
    }
  }

  lemma LockIsFree(c: Crew)
    requires Mutex(c) && ProducersDone(c, |c.producers|) && ConsumersDone(c, |c.consumers|)
    ensures c.mx == 1
  {
    SumZero(c.producers, PHolds);
    SumZero(c.consumers, QHolds);
  }

  lemma EndIsClean(c: Crew, size: nat, files: seq<seq<Line>>, consumers: nat)
    requires CrewInv(c) && c.main.RDone? && Sized(c, size, files, consumers)
    ensures CleanEnd(c, size, files)
  {
    LockIsFree(c);
    forall i: nat | i < |files| ensures By(c.pushed, i) == NonEmpty(files[i]) {
      assert ProducerLines(c.pushed, i, c.producers[i]);
    }
    forall j: nat | j < |c.consumers| ensures By(c.popped, j) == c.consumers[j].handled {
      assert ConsumerLines(c.popped, j, c.consumers[j]);
    }
  }

  lemma PushedFromAFile(c: Crew, size: nat, files: seq<seq<Line>>, consumers: nat)
    requires CrewInv(c) && Sized(c, size, files, consumers) && c.pushed != []
    ensures exists i :: 0 <= i < |files| && NonEmpty(files[i]) != []
  {
    var last := c.pushed[|c.pushed| - 1];
    assert ProducerLines(c.pushed, last.who, c.producers[last.who]);
    assert By(c.pushed, last.who) != [];
    assert NonEmpty(files[last.who]) != [];
  }

  /** Nothing can be left in the buffer when there was nothing to push. */
  lemma NothingToPush(c: Crew, size: nat, files: seq<seq<Line>>, consumers: nat)
    requires CrewInv(c) && Sized(c, size, files, consumers)
    requires forall i :: 0 <= i < |files| ==> NonEmpty(files[i]) == []
    ensures c.ring.Contents() == []
  {
    if c.pushed != [] {
      PushedFromAFile(c, size, files, consumers);
    }
    assert Lines([]) == [];
  }

  lemma ProducerMoveKeepsSizes(c: Crew, i: nat, size: nat, files: seq<seq<Line>>, consumers: nat)
    requires c.ring.Valid() && ProducerCanMove(c, i) && Sized(c, size, files, consumers)
    ensures Sized(ProducerMove(c, i), size, files, consumers)
  {
    ProducerMoveIsLocal(c, i);
    UnpushedMoves(c, i);
  }

  lemma ConsumerMoveKeepsSizes(c: Crew, j: nat, size: nat, files: seq<seq<Line>>, consumers: nat)
    requires c.ring.Valid() && ConsumerCanMove(c, j) && Sized(c, size, files, consumers)
    ensures Sized(ConsumerMove(c, j), size, files, consumers)
  {
    ConsumerMoveIsLocal(c, j);
  }
}
