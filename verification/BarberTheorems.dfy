/** What the sleeping barber promises, over all runs and all interleavings. */
module BarberTheorems {
  import opened Counting
  import opened WaitingRoom
  import opened Barber
  import opened BarberSafety

  // ----- every reachable state -----

  lemma StepKeepsInv(s: State, t: State, haircuts: nat)
    requires Inv(s) && SafePushes(s) && Accounts(s, haircuts) && Next(s, t)
    ensures Inv(t) && Accounts(t, haircuts)
    ensures |t.clients| == |s.clients| && |t.room.seats| == |s.room.seats|
  {
    if BarberEnabled(s) && t == BarberStep(s) {
      BarberKeepsInv(s);
      BarberKeepsShape(s);
      BarberKeepsAccounts(s, haircuts);
    } else {
      var i: nat :| i < |s.clients| && ClientEnabled(s, i) && t == ClientStep(s, i);
      ClientKeepsInv(s, i);
      ClientKeepsShape(s, i);
      ClientKeepsAccounts(s, i, haircuts);
    }
  }

  lemma BarberKeepsAccounts(s: State, haircuts: nat)
    requires Shape(s) && Accounts(s, haircuts) && BarberEnabled(s)
    ensures Accounts(BarberStep(s), haircuts)
  {
    var t := BarberStep(s);
    assert t.clients == s.clients && t.finished == s.finished;
  }

  /** A client pays for a haircut when it comes in, and is done with it at its last post. */
  lemma OwnAccount(s: State, i: nat)
    requires Shape(s) && i < |s.clients| && ClientEnabled(s, i)
    ensures var p, q, t := s.clients[i], ClientStep(s, i).clients[i], ClientStep(s, i);
      && t.finished == (if p.pc.CBye? then s.finished + [i] else s.finished)
      && q.left + (if q.pc.CLock? then 0 else 1) + (if p.pc.CBye? then 1 else 0)
         == p.left + (if p.pc.CLock? then 0 else 1)
  {
  }

  lemma ClientIsLocal(s: State, i: nat)
    requires Shape(s) && i < |s.clients| && ClientEnabled(s, i)
    ensures ClientStep(s, i).clients == s.clients[i := ClientStep(s, i).clients[i]]
  {
    if s.clients[i].pc.CLook? {
      ClientLookFrame(s, i);
    } else if OnASeat(s.clients[i].pc) {
      SeatStepFrame(s, i);
    } else {
      FloorStepFrame(s, i);
    }
  }

  lemma ClientKeepsAccounts(s: State, i: nat, haircuts: nat)
    requires Shape(s) && Accounts(s, haircuts) && i < |s.clients| && ClientEnabled(s, i)
    ensures Accounts(ClientStep(s, i), haircuts)
  {
    OwnAccount(s, i);
    ClientIsLocal(s, i);
    assert s.clients[i].left + (if s.clients[i].pc.CLock? then 0 else 1) + multiset(s.finished)[i] == haircuts;
  }

  /** No push before state n took the seat of an invited client. */
  ghost predicate SafeUpTo(run: seq<State>, n: nat) {
    n <= |run| && forall m :: 0 <= m < n ==> SafePushes(run[m])
  }

  /** In no state before state n were there more clients in the shop than seats. */
  ghost predicate RoomyUpTo(run: seq<State>, n: nat) {
    n <= |run| && forall m :: 0 <= m < n ==> Roomy(run[m])
  }

  /** The invariant holds in every state of every run, as long as no push takes an invited seat. */
  lemma {:induction false} RunKeepsInv(run: seq<State>, capacity: nat, clients: nat, haircuts: nat, n: nat)
    requires Run(run, capacity, clients, haircuts) && n < |run| && SafeUpTo(run, n)
    ensures Inv(run[n]) && Accounts(run[n], haircuts)
    ensures |run[n].clients| == clients && |run[n].room.seats| == capacity
  {
    if n == 0 {
      InitInv(capacity, clients, haircuts);
    } else {
      RunKeepsInv(run, capacity, clients, haircuts, n - 1);
      RunStep(run, capacity, clients, haircuts, n - 1);
      StepKeepsInv(run[n - 1], run[n], haircuts);
    }
  }

  /** A client found no seat; it leaves the shop without its haircut. */
  ghost predicate Lost(s: State) {
    exists i :: 0 <= i < |s.clients| && (s.clients[i].pc.CUnlockFull? || s.clients[i].pc.CGone?)
  }

  lemma ClientIsNotLost(s: State, i: nat)
    requires Shape(s) && i < |s.clients| && ClientEnabled(s, i) && !s.clients[i].pc.CUnlockFull?
    requires s.clients[i].pc.CLook? ==> s.sleeping || !s.room.Full()
    ensures ClientStep(s, i).clients == s.clients[i := ClientStep(s, i).clients[i]]
    ensures !ClientStep(s, i).clients[i].pc.CUnlockFull? && !ClientStep(s, i).clients[i].pc.CGone?
  {
    ClientIsLocal(s, i);
  }

  lemma StepLosesNobody(s: State, t: State)
    requires Inv(s) && Roomy(s) && !Lost(s) && Next(s, t)
    ensures !Lost(t)
  {
    if BarberEnabled(s) && t == BarberStep(s) {
      BarberKeepsShape(s);
    } else {
      var i: nat :| i < |s.clients| && ClientEnabled(s, i) && t == ClientStep(s, i);
      RoomyIsSafe(s);
      ClientIsNotLost(s, i);
      OthersAreNotLost(s.clients, t.clients, i);
    }
  }

  lemma OthersAreNotLost(was: seq<Client>, now: seq<Client>, i: nat)
    requires i < |was| && |now| == |was| && now == was[i := now[i]]
    requires forall j :: 0 <= j < |was| ==> !was[j].pc.CUnlockFull? && !was[j].pc.CGone?
    requires !now[i].pc.CUnlockFull? && !now[i].pc.CGone?
    ensures forall j :: 0 <= j < |now| ==> !now[j].pc.CUnlockFull? && !now[j].pc.CGone?
  {
  }

  /** Where there are never more clients in the shop than seats, no push takes an invited seat, and nobody has to leave
      without a haircut. */
  lemma {:induction false} RoomyRun(run: seq<State>, capacity: nat, clients: nat, haircuts: nat, n: nat)
    requires Run(run, capacity, clients, haircuts) && n < |run| && RoomyUpTo(run, n)
    ensures SafeUpTo(run, n) && !Lost(run[n])
  {
    if n > 0 {
      RoomyRun(run, capacity, clients, haircuts, n - 1);
      RunKeepsInv(run, capacity, clients, haircuts, n - 1);
      RoomyIsSafe(run[n - 1]);
      RunStep(run, capacity, clients, haircuts, n - 1);
      StepLosesNobody(run[n - 1], run[n]);
    }
  }

  /** That is so when there are no more clients than seats. */
  lemma {:induction false} EnoughSeats(run: seq<State>, capacity: nat, clients: nat, haircuts: nat, n: nat)
    requires clients <= capacity && Run(run, capacity, clients, haircuts) && n <= |run|
    ensures RoomyUpTo(run, n)
  {
    forall m: nat | m < n ensures Roomy(run[m]) {
      SizesStay(run, capacity, clients, haircuts, m);
      NumbersBelow(InTheShop(run[m]), clients);
    }
  }

  lemma {:induction false} SizesStay(run: seq<State>, capacity: nat, clients: nat, haircuts: nat, n: nat)
    requires Run(run, capacity, clients, haircuts) && n < |run|
    ensures |run[n].clients| == clients && |run[n].room.seats| == capacity && Shape(run[n])
  {
    if n > 0 {
      SizesStay(run, capacity, clients, haircuts, n - 1);
      RunStep(run, capacity, clients, haircuts, n - 1);
      NextKeepsShape(run[n - 1], run[n]);
    }
  }

  lemma NextKeepsShape(s: State, t: State)
    requires Shape(s) && Next(s, t)
    ensures Shape(t) && |t.room.seats| == |s.room.seats| && |t.clients| == |s.clients|
  {
    if BarberEnabled(s) && t == BarberStep(s) {
      BarberKeepsShape(s);
    } else {
      var i: nat :| i < |s.clients| && ClientEnabled(s, i) && t == ClientStep(s, i);
      ClientKeepsShape(s, i);
    }
  }

  lemma RunStep(run: seq<State>, capacity: nat, clients: nat, haircuts: nat, n: nat)
    requires Run(run, capacity, clients, haircuts) && n + 1 < |run|
    ensures Shape(run[n]) && Next(run[n], run[n + 1])
  {
  }

  /** From being invited, or from waking the barber, to the last post. */
  ghost predicate InService(pc: ClientPc) {
    || pc.CWake? || pc.CUnlockWoke? || pc.CSitWoke?
    || pc.CSit? || pc.CDelete? || pc.CReady? || pc.CWaitCut? || pc.CLeave? || pc.CBye?
  }

  /** Customers are engaged one at a time, each after the one before has finished; binary semaphores, nobody turned
      away, and the barber cuts its customer. */
  ghost predicate Exclusive(s: State) {
    && |s.finished| <= |s.engaged| <= |s.finished| + 1 && s.finished == s.engaged[..|s.finished|]
    && s.mx <= 1 && s.sleepSem <= 1 && s.readySem <= 1 && s.customerSem <= 1
    && (forall k :: 0 <= k < |s.room.seats| ==> s.room.seats[k].waiting <= 1)
    && (forall i :: 0 <= i < |s.clients| && InService(s.clients[i].pc) ==> i == Customer(s))
    && (s.barber.BCut? ==> 0 <= Customer(s) < |s.clients| && s.chair == NewSeat(Customer(s)))
    && (s.chair.taken ==> s.chair == NewSeat(Customer(s)))
    && (s.sleeping ==> s.room.count == 0)
  }

  ghost predicate SeatsBinary(s: State) {
    forall k :: 0 <= k < |s.room.seats| ==> s.room.seats[k].waiting <= 1
  }

  lemma ClientKeepsSeatsBinary(s: State, i: nat)
    requires Shape(s) && SeatsBinary(s) && i < |s.clients| && ClientEnabled(s, i)
    ensures SeatsBinary(ClientStep(s, i))
  {
    if s.clients[i].pc.CLook? {
      ClientLookFrame(s, i);
    } else if OnASeat(s.clients[i].pc) {
      SeatStepFrame(s, i);
    } else {
      FloorStepFrame(s, i);
    }
  }

  lemma BarberKeepsSeatsBinary(s: State)
    requires Inv(s) && SeatsBinary(s) && BarberEnabled(s)
    ensures SeatsBinary(BarberStep(s))
  {
    if s.barber.BInvite? {
      assert s.room.seats[s.barber.seat] == NewSeat(Customer(s));
    }
  }

  lemma StepKeepsSeatsBinary(s: State, t: State)
    requires Inv(s) && SeatsBinary(s) && Next(s, t)
    ensures SeatsBinary(t)
  {
    if BarberEnabled(s) && t == BarberStep(s) {
      BarberKeepsSeatsBinary(s);
    } else {
      var i: nat :| i < |s.clients| && ClientEnabled(s, i) && t == ClientStep(s, i);
      ClientKeepsSeatsBinary(s, i);
    }
  }

  lemma {:induction false} RunKeepsSeatsBinary(run: seq<State>, capacity: nat, clients: nat, haircuts: nat, n: nat)
    requires Run(run, capacity, clients, haircuts) && n < |run| && SafeUpTo(run, n)
    ensures SeatsBinary(run[n])
  {
    if n == 0 {
      assert forall k :: 0 <= k < capacity ==> InitialRoom(capacity).seats[k].waiting == 0;
    } else {
      RunKeepsInv(run, capacity, clients, haircuts, n - 1);
      RunKeepsSeatsBinary(run, capacity, clients, haircuts, n - 1);
      RunStep(run, capacity, clients, haircuts, n - 1);
      StepKeepsSeatsBinary(run[n - 1], run[n]);
    }
  }

  lemma ServiceIsExclusive(run: seq<State>, capacity: nat, clients: nat, haircuts: nat, n: nat)
    requires Run(run, capacity, clients, haircuts) && n < |run| && RoomyUpTo(run, n)
    ensures Exclusive(run[n]) && !Lost(run[n])
  {
    RoomyRun(run, capacity, clients, haircuts, n);
    RunKeepsInv(run, capacity, clients, haircuts, n);
    RunKeepsSeatsBinary(run, capacity, clients, haircuts, n);
    ExclusiveByInv(run[n]);
  }

  lemma ExclusiveByInv(s: State)
    requires Inv(s) && SeatsBinary(s)
    ensures Exclusive(s)
  {
    forall i | 0 <= i < |s.clients| && InService(s.clients[i].pc) ensures i == Customer(s) {
      assert i != Customer(s) ==> Outsider(s, i);
    }
  }

  lemma InvitedSeatIs(s: State, c: nat, k: nat)
    requires Inv(s) && c < |s.clients| && InvitedSeat(s, c, k)
    ensures JustPopped(s, k) && s.room.seats[k].live && s.room.seats[k].pid == c
    ensures s.clients[c].pc.CWaitSeat? ==> s.room.seats[k].waiting == 1 || s.barber == BInvite(k)
    ensures s.barber.BInvite? ==> s.barber == BInvite(k) && s.room.seats[k] == NewSeat(c)
  {
  }

  /** Nobody but the invited client steps on its seat. */
  lemma InvitedSeatIsSafe(s: State, c: nat, k: nat, i: nat)
    requires Inv(s) && Roomy(s) && c < |s.clients| && InvitedSeat(s, c, k)
    requires i < |s.clients| && i != c && ClientEnabled(s, i)
    ensures k < |ClientStep(s, i).room.seats| && ClientStep(s, i).room.seats[k] == s.room.seats[k]
    ensures s.clients[i].pc.CLook? && !s.sleeping ==> !s.room.Full() && s.room.end != k
  {
    InvitedSeatIs(s, c, k);
    assert Outsider(s, i);
    if s.clients[i].pc.CLook? {
      ClientLookFrame(s, i);
      RoomyIsSafe(s);
      assert !TakesInvitedSeat(s, c, k, i);
    } else if OnASeat(s.clients[i].pc) {
      OutsiderKeepsQueue(s, i);
    } else {
      FloorStepFrame(s, i);
    }
  }

  /** Between its pop and delete_seat, the seat of the invited client keeps its semaphore and its one
      invitation in every run: no push takes it, no other client touches it, and the barber only posts the
      invitation. */
  lemma InvitationIsNotLost(run: seq<State>, capacity: nat, clients: nat, haircuts: nat, n: nat, c: nat, k: nat)
    requires Run(run, capacity, clients, haircuts) && n < |run| && RoomyUpTo(run, n + 1)
    requires c < |run[n].clients| && InvitedSeat(run[n], c, k)
    ensures var s := run[n];
      && Shape(s) && k < |s.room.seats| && s.room.seats[k].live && s.room.seats[k].pid == c
      && (s.clients[c].pc.CWaitSeat? ==> s.room.seats[k].waiting == 1 || s.barber == BInvite(k))
      && (forall i: nat :: i < |s.clients| && i != c && ClientEnabled(s, i) ==>
            && ClientStep(s, i).room.seats[k] == s.room.seats[k]
            && (s.clients[i].pc.CLook? && !s.sleeping ==> !s.room.Full() && s.room.end != k))
      && (BarberEnabled(s) ==>
            BarberStep(s).room.seats[k] ==
            if s.barber == BInvite(k) then NewSeat(c).(waiting := 1) else s.room.seats[k])
  {
    RoomyRun(run, capacity, clients, haircuts, n);
    RunKeepsInv(run, capacity, clients, haircuts, n);
    var s := run[n];
    InvitedSeatIs(s, c, k);
    forall i: nat | i < |s.clients| && i != c && ClientEnabled(s, i)
      ensures k < |ClientStep(s, i).room.seats| && ClientStep(s, i).room.seats[k] == s.room.seats[k]
      ensures s.clients[i].pc.CLook? && !s.sleeping ==> !s.room.Full() && s.room.end != k
    {
      InvitedSeatIsSafe(s, c, k, i);
    }
    if BarberEnabled(s) {
      BarberKeepsShape(s);
    }
  }

  lemma SeatsAreTheirs(s: State)
    requires Inv(s)
    ensures s.barber.BInvite? ==>
              && s.barber.seat < |s.room.seats| && s.room.seats[s.barber.seat].live
              && s.room.seats[s.barber.seat].pid == Customer(s)
    ensures forall i :: 0 <= i < |s.clients| && s.clients[i].pc.CWaitSeat? ==>
              && s.clients[i].pc.seat < |s.room.seats|
              && s.room.seats[s.clients[i].pc.seat].live && s.room.seats[s.clients[i].pc.seat].pid == i
  {
    forall i | 0 <= i < |s.clients| && s.clients[i].pc.CWaitSeat?
      ensures s.clients[i].pc.seat < |s.room.seats|
      ensures s.room.seats[s.clients[i].pc.seat].live && s.room.seats[s.clients[i].pc.seat].pid == i
    {
      assert i == Customer(s) || Outsider(s, i);
    }
  }

  /** Every wait and post on a seat semaphore meets a semaphore that exists and belongs to the client. */
  lemma SeatSemaphoresExist(run: seq<State>, capacity: nat, clients: nat, haircuts: nat, n: nat)
    requires Run(run, capacity, clients, haircuts) && n < |run| && RoomyUpTo(run, n)
    ensures var s := run[n];
      && (s.barber.BInvite? ==>
            && s.barber.seat < |s.room.seats| && s.room.seats[s.barber.seat].live
            && s.room.seats[s.barber.seat].pid == Customer(s))
      && (forall i :: 0 <= i < |s.clients| && s.clients[i].pc.CWaitSeat? ==>
            && s.clients[i].pc.seat < |s.room.seats|
            && s.room.seats[s.clients[i].pc.seat].live && s.room.seats[s.clients[i].pc.seat].pid == i)
  {
    RoomyRun(run, capacity, clients, haircuts, n);
    RunKeepsInv(run, capacity, clients, haircuts, n);
    SeatsAreTheirs(run[n]);
  }

  /** The pids sitting in the queue, first come first. */
  ghost function QueuedClients(s: State): seq<int>
    requires |s.invited| <= |s.pushed|
  {
    s.pushed[|s.invited|..]
  }

  /** First come, first served: the barber has invited the clients in the order of their pushes, the rest
      of the pushes wait in the ring in that order, and haircuts follow the order of engagement. */
  lemma FirstComeFirstServed(run: seq<State>, capacity: nat, clients: nat, haircuts: nat, n: nat)
    requires Run(run, capacity, clients, haircuts) && n < |run| && RoomyUpTo(run, n)
    ensures var s := run[n];
      && s.room.Valid() && |s.clients| == clients
      && |s.invited| <= |s.pushed| && s.invited + QueuedClients(s) == s.pushed
      && |QueuedClients(s)| == |s.room.Queue()|
      && (forall j :: 0 <= j < |QueuedClients(s)| ==>
            && 0 <= QueuedClients(s)[j] < clients
            && QueuedAt(s.clients[QueuedClients(s)[j]].pc, s.room.Queue()[j])
            && (s.clients[QueuedClients(s)[j]].pc.CWaitSeat? ==>
                  s.room.seats[s.room.Queue()[j]].pid == QueuedClients(s)[j]))
      && |s.cuts| <= |s.engaged| && s.cuts == s.engaged[..|s.cuts|]
  {
    RoomyRun(run, capacity, clients, haircuts, n);
    RunKeepsInv(run, capacity, clients, haircuts, n);
    var s := run[n];
    forall j | 0 <= j < |QueuedClients(s)|
      ensures 0 <= QueuedClients(s)[j] < clients
      ensures QueuedAt(s.clients[QueuedClients(s)[j]].pc, s.room.Queue()[j])
      ensures s.clients[QueuedClients(s)[j]].pc.CWaitSeat? ==>
                s.room.seats[s.room.Queue()[j]].pid == QueuedClients(s)[j]
    {
      assert QueuedClients(s)[j] == Waiting(s, j);
      assert Outsider(s, Waiting(s, j));
    }
  }

  // ----- deadlock freedom and termination -----

  /** The barber sleeps, and every client has had its last haircut or has found no seat; each has had all the
      haircuts that it came for, but for the one it found no seat for. */
  ghost predicate Quiet(s: State, haircuts: nat) {
    && s.barber.BSleep? && s.sleeping
    && (forall i :: 0 <= i < |s.clients| ==> s.clients[i] == Client(CLock, 0) || s.clients[i].pc.CGone?)
    && (forall i :: 0 <= i < |s.clients| ==>
          multiset(s.cuts)[i] + s.clients[i].left + (if s.clients[i].pc.CGone? then 1 else 0) == haircuts)
    && (forall n :: 0 <= n < |s.cuts| ==> 0 <= s.cuts[n] < |s.clients|)
  }

  /** Every client has left the shop after its last haircut, and the barber sleeps. */
  ghost predicate AllServed(s: State, haircuts: nat) {
    && s.barber.BSleep? && s.sleeping
    && (forall i :: 0 <= i < |s.clients| ==> s.clients[i] == Client(CLock, 0))
    && (forall i :: 0 <= i < |s.clients| ==> multiset(s.cuts)[i] == haircuts)
    && (forall n :: 0 <= n < |s.cuts| ==> 0 <= s.cuts[n] < |s.clients|)
  }

  lemma SomeHolder(clients: seq<Client>) returns (i: nat)
    requires Sum(clients, ClientHolds) > 0
    ensures i < |clients| && ClientHolds(clients[i]) == 1
  {
    if forall j :: 0 <= j < |clients| ==> ClientHolds(clients[j]) == 0 {
      SumZero(clients, ClientHolds);
    }
    i :| 0 <= i < |clients| && ClientHolds(clients[i]) != 0;
  }

  /** The barber and the customer it is engaged with never wait for each other. */
  lemma CustomerCanMove(s: State)
    requires Inv(s) && Customer(s) >= 0 && s.mx == 1
    ensures BarberEnabled(s) || ClientEnabled(s, Customer(s))
  {
  }

  /** The shop is never stuck before everyone has been served or has gone. */
  lemma NeverStuckEarly(s: State, haircuts: nat)
    requires Inv(s) && Accounts(s, haircuts) && !Quiet(s, haircuts)
    ensures !Stuck(s)
  {
    if Sum(s.clients, ClientHolds) > 0 {
      var i := SomeHolder(s.clients);
      assert ClientEnabled(s, i);
    } else if BarberHolds(s.barber) == 0 {
      assert s.mx == 1;
      if Customer(s) >= 0 {
        CustomerCanMove(s);
      } else if s.barber.BSleep? {
        NotQuietYet(s, haircuts);
      }
    }
  }

  lemma NotQuietYet(s: State, haircuts: nat)
    requires Inv(s) && Accounts(s, haircuts) && !Quiet(s, haircuts)
    requires s.mx == 1 && Customer(s) < 0 && s.barber.BSleep? && Sum(s.clients, ClientHolds) == 0
    ensures exists i: nat :: i < |s.clients| && ClientEnabled(s, i)
  {
    QuietWhenIdle(s, haircuts);
    var i: nat :| i < |s.clients| && s.clients[i] != Client(CLock, 0) && !s.clients[i].pc.CGone?;
    SumAtLeast(s.clients, i, ClientHolds);
    assert Outsider(s, i);
    assert ClientEnabled(s, i);
  }

  lemma QuietWhenIdle(s: State, haircuts: nat)
    requires Inv(s) && Accounts(s, haircuts) && Customer(s) < 0 && s.barber.BSleep?
    ensures (forall i :: 0 <= i < |s.clients| ==> s.clients[i] == Client(CLock, 0) || s.clients[i].pc.CGone?) ==>
              Quiet(s, haircuts)
  {
    assert s.cuts == s.finished == s.engaged;
  }

  function ClientWork(c: Client): nat {
    60 * c.left + match c.pc
    case CLock => 0
    case CLook => 50
    case CWake => 49
    case CUnlockWoke => 48
    case CSitWoke => 47
    case CInit(_) => 49
    case CUnlockQueued(_) => 48
    case CWaitSeat(_) => 47
    case CSit(_) => 46
    case CDelete(_) => 45
    case CReady => 44
    case CWaitCut => 30
    case CLeave => 29
    case CBye => 28
    case CUnlockFull => 1
    case CGone => 0
  }

  function BarberWork(pc: BarberPc): nat {
    match pc
    case BLock => 8
    case BLook => 7
    case BInvite(_) => 6
    case BUnlockInvited => 5
    case BUnlockAsleep => 5
    case BSleep => 4
    case BWaitSeated => 3
    case BCut => 2
    case BWaitLeave => 1
  }

  /** An upper bound on the number of steps still to come. */
  function Work(s: State): nat {
    Sum(s.clients, ClientWork) + BarberWork(s.barber) + 10 * s.customerSem
  }

  lemma ClientDoesWork(s: State, i: nat)
    requires Shape(s) && i < |s.clients| && ClientEnabled(s, i)
    ensures ClientStep(s, i).clients == s.clients[i := ClientStep(s, i).clients[i]]
    ensures ClientStep(s, i).barber == s.barber
    ensures ClientWork(ClientStep(s, i).clients[i]) + 10 * ClientStep(s, i).customerSem
            < ClientWork(s.clients[i]) + 10 * s.customerSem
  {
  }

  lemma StepDoesWork(s: State, t: State)
    requires Shape(s) && Next(s, t)
    ensures Work(t) < Work(s)
  {
    if BarberEnabled(s) && t == BarberStep(s) {
      assert t.clients == s.clients;
    } else {
      var i: nat :| i < |s.clients| && ClientEnabled(s, i) && t == ClientStep(s, i);
      ClientDoesWork(s, i);
      SumUpdate(s.clients, i, t.clients[i], ClientWork);
    }
  }

  lemma {:induction false} RunIsShort(run: seq<State>, capacity: nat, clients: nat, haircuts: nat, n: nat)
    requires Run(run, capacity, clients, haircuts) && n < |run|
    ensures Work(run[n]) + n <= 60 * haircuts * clients + 8
  {
    if n == 0 {
      SumBounded(run[0].clients, ClientWork, 60 * haircuts);
      assert 60 * haircuts * clients == clients * (60 * haircuts);
    } else {
      RunIsShort(run, capacity, clients, haircuts, n - 1);
      assert Next(run[n - 1], run[n - 1 + 1]);
      StepDoesWork(run[n - 1], run[n]);
    }
  }

  /** A run in which no push takes an invited seat cannot get stuck but with the barber asleep and every client served
      or gone. */
  lemma SafeRunEndsQuietly(run: seq<State>, capacity: nat, clients: nat, haircuts: nat)
    requires Run(run, capacity, clients, haircuts) && SafeUpTo(run, |run| - 1)
    ensures var last := run[|run| - 1]; Shape(last) && (Stuck(last) ==> Quiet(last, haircuts))
  {
    var last := run[|run| - 1];
    RunKeepsInv(run, capacity, clients, haircuts, |run| - 1);
    if !Quiet(last, haircuts) {
      NeverStuckEarly(last, haircuts);
    }
  }

  /** Total correctness of the shop. Whatever the order of the steps, and whether there are enough seats
      or not, a run has at most 60 * haircuts * clients + 9 states. As long as there are no more clients in the
      shop than seats, a run that cannot go on has given every client exactly its haircuts and left the barber
      asleep. */
  lemma EveryoneIsServed(run: seq<State>, capacity: nat, clients: nat, haircuts: nat)
    requires Run(run, capacity, clients, haircuts)
    ensures |run| <= 60 * haircuts * clients + 9
    ensures RoomyUpTo(run, |run| - 1) ==>
              var last := run[|run| - 1]; Shape(last) && (Stuck(last) ==> AllServed(last, haircuts))
  {
    RunIsShort(run, capacity, clients, haircuts, |run| - 1);
    if RoomyUpTo(run, |run| - 1) {
      RoomyRun(run, capacity, clients, haircuts, |run| - 1);
      SafeRunEndsQuietly(run, capacity, clients, haircuts);
    }
  }
}
