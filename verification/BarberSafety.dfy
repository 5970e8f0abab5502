/** What every step of the sleeping barber keeps, as long as no push takes the seat of an invited client. */
module BarberSafety {
  import opened Counting
  import opened WaitingRoom
  import opened Barber

  /** The customer between being engaged and the last post, or -1. */
  function Customer(s: State): int {
    if |s.engaged| > |s.finished| then s.engaged[|s.finished|] else -1
  }

  function BarberHolds(pc: BarberPc): nat {
    if pc.BLook? || pc.BInvite? || pc.BUnlockInvited? || pc.BUnlockAsleep? then 1 else 0
  }

  function ClientHolds(c: Client): nat {
    if c.pc.CLook? || c.pc.CWake? || c.pc.CUnlockWoke? || c.pc.CInit? || c.pc.CUnlockQueued? || c.pc.CUnlockFull?
    then 1 else 0
  }

  /** mx_waiting_room is a lock: it is free, or one process is between its wait and its post. */
  ghost predicate Mutex(s: State) {
    s.mx + BarberHolds(s.barber) + Sum(s.clients, ClientHolds) == 1
  }

  lemma OnlyHolder(s: State, i: nat)
    requires Mutex(s) && i < |s.clients| && ClientHolds(s.clients[i]) == 1
    ensures s.mx == 0 && BarberHolds(s.barber) == 0
  {
    SumAtLeast(s.clients, i, ClientHolds);
  }

  /** Customers are served one after the other, and the queue is what was pushed and not invited. */
  ghost predicate Logs(s: State) {
    && |s.finished| <= |s.engaged| <= |s.finished| + 1
    && s.finished == s.engaged[..|s.finished|]
    && s.cuts == (if s.barber.BWaitLeave? then s.engaged else s.finished)
    && |s.invited| + s.room.count == |s.pushed|
    && s.invited == s.pushed[..|s.invited|]
    && (forall n :: 0 <= n < |s.engaged| ==> 0 <= s.engaged[n] < |s.clients|)
  }

  /** The client that waits j places behind the head of the queue. */
  function Waiting(s: State, j: nat): int
    requires |s.invited| + j < |s.pushed|
  {
    s.pushed[|s.invited| + j]
  }

  ghost predicate QueuedAt(pc: ClientPc, k: nat) {
    pc == CInit(k) || pc == CUnlockQueued(k) || pc == CWaitSeat(k)
  }

  ghost predicate QueueHolds(s: State)
    requires s.room.Valid() && |s.invited| + s.room.count == |s.pushed|
  {
    forall j :: 0 <= j < s.room.count ==>
      && 0 <= Waiting(s, j) < |s.clients|
      && Waiting(s, j) != Customer(s)
      && QueuedAt(s.clients[Waiting(s, j)].pc, s.room.At(j))
  }

  /** A client that is not being served is outside the waiting room or in its queue. */
  ghost predicate Outsider(s: State, i: nat)
    requires i < |s.clients| && s.room.Valid() && |s.invited| + s.room.count == |s.pushed|
  {
    var pc := s.clients[i].pc;
    match pc
    case CLock => true
    case CLook => true
    case CInit(k) => InQueue(s, i, k)
    case CUnlockQueued(k) => InQueue(s, i, k) && s.room.seats[k] == NewSeat(i)
    case CWaitSeat(k) => InQueue(s, i, k) && s.room.seats[k] == NewSeat(i)
    case CUnlockFull => true
    case CGone => true
    case _ => false
  }

  ghost predicate InQueue(s: State, i: nat, k: nat)
    requires s.room.Valid() && |s.invited| + s.room.count == |s.pushed|
  {
    k < |s.room.seats| && s.room.Place(k) < s.room.count && Waiting(s, s.room.Place(k)) == i
  }

  /** Seat k was the last one popped, and no push has taken it since. */
  ghost predicate JustPopped(s: State, k: nat) {
    && k < |s.room.seats| && s.room.start < |s.room.seats|
    && k == s.room.At(|s.room.seats| - 1)
    && s.room.count < |s.room.seats|
  }

  ghost predicate Semaphores(s: State, sleepSem: nat, customerSem: nat, readySem: nat) {
    s.sleepSem == sleepSem && s.customerSem == customerSem && s.readySem == readySem
  }

  /** How far the visit of customer c has come, seen from both sides. */
  ghost predicate Served(s: State, c: nat)
    requires c < |s.clients|
  {
    var pc := s.clients[c].pc;
    match s.barber
    case BInvite(k) =>
      pc == CWaitSeat(k) && JustPopped(s, k) && s.room.seats[k] == NewSeat(c) && Semaphores(s, 0, 0, 0)
    case BUnlockInvited => SittingDown(s, c, false)
    case BWaitSeated => SittingDown(s, c, true)
    case BSleep => WakingUp(s, c)
    case BCut => pc == CWaitCut && Semaphores(s, 0, 0, 0)
    case BWaitLeave =>
      || (pc == CWaitCut && Semaphores(s, 0, 0, 1))
      || (pc == CLeave && Semaphores(s, 0, 0, 0))
      || (pc == CBye && Semaphores(s, 0, 0, 0))
    case _ => false
  }

  ghost predicate SittingDown(s: State, c: nat, woke: bool)
    requires c < |s.clients|
  {
    match s.clients[c].pc
    case CWaitSeat(k) => JustPopped(s, k) && s.room.seats[k] == NewSeat(c).(waiting := 1) && Semaphores(s, 0, 0, 0)
    case CSit(k) => JustPopped(s, k) && s.room.seats[k] == NewSeat(c) && Semaphores(s, 0, 0, 0)
    case CDelete(k) => JustPopped(s, k) && s.room.seats[k] == NewSeat(c) && Semaphores(s, 0, 0, 0)
    case CUnlockWoke => woke && Semaphores(s, 0, 0, 0)
    case CSitWoke => woke && Semaphores(s, 0, 0, 0)
    case CReady => Semaphores(s, 0, 0, 0)
    case CWaitCut => Semaphores(s, 0, 1, 0)
    case _ => false
  }

  ghost predicate WakingUp(s: State, c: nat)
    requires c < |s.clients|
  {
    match s.clients[c].pc
    case CWake => Semaphores(s, 0, 0, 0)
    case CUnlockWoke => Semaphores(s, 1, 0, 0)
    case CSitWoke => Semaphores(s, 1, 0, 0)
    case CReady => Semaphores(s, 1, 0, 0)
    case CWaitCut => Semaphores(s, 1, 1, 0)
    case _ => false
  }

  /** The barber between two customers. */
  ghost predicate Unengaged(s: State) {
    match s.barber
    case BLock => Semaphores(s, 0, 0, 0)
    case BLook => Semaphores(s, 0, 0, 0)
    case BUnlockAsleep => Semaphores(s, 0, 0, 0)
    case BSleep => Semaphores(s, 0, 0, 0)
    case BWaitLeave => Semaphores(s, 0, 1, 0)
    case _ => false
  }

  ghost predicate Asleep(s: State) {
    Customer(s) < 0 && (s.barber.BUnlockAsleep? || s.barber.BSleep?)
  }

  /** Every client has had, is having or still has to ask for each of its haircuts. */
  ghost predicate Accounts(s: State, haircuts: nat) {
    forall i :: 0 <= i < |s.clients| ==>
      s.clients[i].left + (if s.clients[i].pc.CLock? then 0 else 1) + multiset(s.finished)[i] == haircuts
  }

  /** The chair is taken from the moment its customer sits down until the customer leaves. */
  ghost predicate Chair(s: State) {
    var c := Customer(s);
    if 0 <= c < |s.clients| && Seated(s.clients[c].pc) then s.chair == NewSeat(c) else s.chair == EmptySeat()
  }

  ghost predicate Seated(pc: ClientPc) {
    pc.CDelete? || pc.CReady? || pc.CWaitCut? || pc.CLeave?
  }

  /** The lock, the logs and the queue. */
  ghost predicate Order(s: State) {
    Shape(s) && Mutex(s) && Logs(s) && QueueHolds(s) && Outsiders(s)
  }

  /** The visit under way, the chair and the sleeping flag. */
  ghost predicate Visit(s: State)
    requires Customer(s) < |s.clients|
  {
    && (if Customer(s) < 0 then Unengaged(s) else Served(s, Customer(s)))
    && Chair(s)
    && (s.sleeping <==> Asleep(s))
    && (s.sleeping ==> s.room.count == 0)
  }

  ghost predicate Inv(s: State) {
    Order(s) && Visit(s)
  }

  lemma InitInv(capacity: nat, clients: nat, haircuts: nat)
    ensures Inv(Init(capacity, clients, haircuts))
  {
    SumZero(Init(capacity, clients, haircuts).clients, ClientHolds);
  }

  ghost predicate Outsiders(s: State)
    requires s.room.Valid() && |s.invited| + s.room.count == |s.pushed|
  {
    forall i :: 0 <= i < |s.clients| && i != Customer(s) ==> Outsider(s, i)
  }

  /** A step keeps what is said about the queue when it moves nobody in the ring, keeps the customer,
      touches no queued seat but one of client i, and leaves client i where the invariant wants it. */
  lemma QueueUntouched(s: State, t: State, i: nat)
    requires s.room.Valid() && |s.invited| + s.room.count == |s.pushed|
    requires QueueHolds(s) && Outsiders(s)
    requires t.room == s.room.(seats := t.room.seats) && |t.room.seats| == |s.room.seats|
    requires t.pushed == s.pushed && t.invited == s.invited
    requires |t.clients| == |s.clients| && Customer(t) == Customer(s)
    requires forall j :: 0 <= j < |s.clients| && j != i ==> t.clients[j] == s.clients[j]
    requires forall j :: 0 <= j < s.room.count && Waiting(s, j) != i ==>
               t.room.seats[s.room.At(j)] == s.room.seats[s.room.At(j)]
    requires i < |s.clients| && i != Customer(s) ==> Outsider(t, i)
    requires forall k :: i < |s.clients| && QueuedAt(s.clients[i].pc, k) && i != Customer(s) ==>
      QueuedAt(t.clients[i].pc, k)
    ensures QueueHolds(t) && Outsiders(t)
  {
    forall j | 0 <= j < t.room.count
      ensures 0 <= Waiting(t, j) < |t.clients| && Waiting(t, j) != Customer(t)
      ensures QueuedAt(t.clients[Waiting(t, j)].pc, t.room.At(j))
    {
      assert Waiting(t, j) == Waiting(s, j);
    }
    forall j | 0 <= j < |t.clients| && j != Customer(t) ensures Outsider(t, j) {
      assert j != i ==> Outsider(s, j);
    }
  }

  /** What a step of the barber leaves alone, unless it invites somebody. */
  lemma BarberFrame(s: State)
    requires Shape(s) && Logs(s) && BarberEnabled(s) && (s.barber.BLook? ==> s.room.count == 0)
    ensures var t := BarberStep(s);
      && t.clients == s.clients && t.room == s.room.(seats := t.room.seats) && |t.room.seats| == |s.room.seats|
      && t.pushed == s.pushed && t.invited == s.invited && t.engaged == s.engaged && t.finished == s.finished
      && Customer(t) == Customer(s) && t.chair == s.chair
      && t.mx + BarberHolds(t.barber) == s.mx + BarberHolds(s.barber)
      && (!s.barber.BInvite? ==> t.room == s.room)
  {
  }

  /** The barber cuts the customer that is engaged. */
  lemma BarberKeepsLogs(s: State)
    requires Inv(s) && BarberEnabled(s) && (s.barber.BLook? ==> s.room.count == 0)
    ensures Logs(BarberStep(s))
  {
    BarberFrame(s);
  }

  lemma BarberKeepsOrder(s: State)
    requires Inv(s) && BarberEnabled(s) && (s.barber.BLook? ==> s.room.count == 0)
    ensures Order(BarberStep(s))
  {
    BarberKeepsShape(s);
    BarberFrame(s);
    BarberKeepsLogs(s);
    QueueUntouched(s, BarberStep(s), if s.barber.BInvite? then Customer(s) else |s.clients|);
  }

  lemma BarberPostsInvitation(s: State)
    requires Inv(s) && s.barber.BInvite?
    ensures Customer(BarberStep(s)) < |BarberStep(s).clients| && Visit(BarberStep(s))
  {
    BarberFrame(s);
  }

  /** The barber in the waiting room, when it invites nobody. */
  lemma BarberMovesOn(s: State)
    requires Inv(s) && BarberEnabled(s)
    requires s.barber.BLock? || s.barber.BLook? || s.barber.BUnlockInvited? || s.barber.BUnlockAsleep?
    requires s.barber.BLook? ==> s.room.count == 0
    ensures Customer(BarberStep(s)) < |BarberStep(s).clients| && Visit(BarberStep(s))
  {
    BarberFrame(s);
  }

  /** The barber asleep or with its customer. */
  lemma BarberServes(s: State)
    requires Inv(s) && BarberEnabled(s)
    requires s.barber.BSleep? || s.barber.BWaitSeated? || s.barber.BCut? || s.barber.BWaitLeave?
    ensures Customer(BarberStep(s)) < |BarberStep(s).clients| && Visit(BarberStep(s))
  {
    BarberFrame(s);
  }

  /** The client whose seat is popped waits on it for its invitation. */
  lemma PopFindsAWaiter(s: State)
    requires Inv(s) && s.barber.BLook? && s.room.count > 0
    ensures var c := Waiting(s, 0);
      && 0 <= c < |s.clients| && c != Customer(s)
      && s.clients[c].pc == CWaitSeat(s.room.start) && s.room.start < |s.room.seats|
      && s.room.seats[s.room.start] == NewSeat(c)
  {
    var c := Waiting(s, 0);
    assert s.room.At(0) == s.room.start;
    SumAtLeast(s.clients, c, ClientHolds);
    assert Outsider(s, c);
  }

  /** Nobody is being served while the barber looks into the waiting room, and the first in the queue is next. */
  lemma PopEngages(s: State)
    requires Inv(s) && s.barber.BLook? && s.room.count > 0
    ensures var t := BarberStep(s);
      && Customer(s) < 0 && Customer(t) == Waiting(s, 0) && t.clients == s.clients
      && t.room == s.room.Popped() && t.pushed == s.pushed && t.invited == s.invited + [Waiting(s, 0)]
  {
    PopFindsAWaiter(s);
  }

  lemma PopKeepsQueue(s: State)
    requires Inv(s) && s.barber.BLook? && s.room.count > 0
    ensures var t := BarberStep(s); t.room.Valid() && |t.invited| + t.room.count == |t.pushed|
    ensures QueueHolds(BarberStep(s))
  {
    PopTakesTheFirst(s.room);
    PopFindsAWaiter(s);
    PopEngages(s);
    var t := BarberStep(s);
    forall j | 0 <= j < t.room.count
      ensures 0 <= Waiting(t, j) < |t.clients| && Waiting(t, j) != Customer(t)
      ensures QueuedAt(t.clients[Waiting(t, j)].pc, t.room.At(j))
    {
      assert Waiting(t, j) == Waiting(s, j + 1) && t.room.At(j) == s.room.At(j + 1);
    }
  }

  lemma PopKeepsOutsiders(s: State)
    requires Inv(s) && s.barber.BLook? && s.room.count > 0
    ensures var t := BarberStep(s); t.room.Valid() && |t.invited| + t.room.count == |t.pushed|
    ensures Outsiders(BarberStep(s))
  {
    PopTakesTheFirst(s.room);
    PopEngages(s);
    var t := BarberStep(s);
    forall i | 0 <= i < |t.clients| && i != Customer(t) ensures Outsider(t, i) {
      assert Outsider(s, i);
    }
  }

  lemma PopKeepsLogs(s: State)
    requires Inv(s) && s.barber.BLook? && s.room.count > 0
    ensures Logs(BarberStep(s))
  {
    PopFindsAWaiter(s);
    PopEngages(s);
    assert BarberStep(s).invited == s.pushed[..|s.invited| + 1];
  }

  lemma BarberInvites(s: State)
    requires Inv(s) && s.barber.BLook? && s.room.count > 0
    ensures Inv(BarberStep(s))
  {
    BarberKeepsShape(s);
    PopTakesTheFirst(s.room);
    PopFindsAWaiter(s);
    PopEngages(s);
    PopKeepsLogs(s);
    PopKeepsQueue(s);
    PopKeepsOutsiders(s);
  }

  lemma BarberKeepsInv(s: State)
    requires Inv(s) && BarberEnabled(s)
    ensures Inv(BarberStep(s))
  {
    if s.barber.BLook? && s.room.count > 0 {
      BarberInvites(s);
    } else {
      BarberKeepsOrder(s);
      if s.barber.BInvite? {
        BarberPostsInvitation(s);
      } else if s.barber.BSleep? || s.barber.BWaitSeated? || s.barber.BCut? || s.barber.BWaitLeave? {
        BarberServes(s);
      } else {
        BarberMovesOn(s);
      }
    }
  }

  lemma HoldsStep(s: State, i: nat)
    requires Shape(s) && i < |s.clients| && ClientEnabled(s, i)
    ensures var t := ClientStep(s, i);
      i < |t.clients| && t.mx + ClientHolds(t.clients[i]) == s.mx + ClientHolds(s.clients[i])
  {
  }

  lemma ClientKeepsMutex(s: State, i: nat)
    requires Shape(s) && Mutex(s) && i < |s.clients| && ClientEnabled(s, i)
    ensures Mutex(ClientStep(s, i))
  {
    var t := ClientStep(s, i);
    HoldsStep(s, i);
    if s.clients[i].pc.CLook? {
      ClientLookFrame(s, i);
    } else if OnASeat(s.clients[i].pc) {
      SeatStepFrame(s, i);
    } else {
      FloorStepFrame(s, i);
    }
    SumUpdate(s.clients, i, t.clients[i], ClientHolds);
  }

  /** The customer on its way from the waiting room to the chair touches no seat but the one popped last. */
  lemma InvitedKeepsOrder(s: State, i: nat)
    requires Order(s) && i < |s.clients| && i == Customer(s) && ClientEnabled(s, i)
    requires s.clients[i].pc.CWaitSeat? || s.clients[i].pc.CSit? || s.clients[i].pc.CDelete?
    requires JustPopped(s, s.clients[i].pc.seat)
    ensures Order(ClientStep(s, i))
  {
    ClientKeepsShape(s, i);
    ClientKeepsMutex(s, i);
    SeatStepFrame(s, i);
    QueueUntouched(s, ClientStep(s, i), i);
  }

  lemma InvitedSitsDown(s: State, i: nat)
    requires Inv(s) && i < |s.clients| && i == Customer(s) && ClientEnabled(s, i)
    requires s.clients[i].pc.CWaitSeat? || s.clients[i].pc.CSit? || s.clients[i].pc.CDelete?
    ensures Inv(ClientStep(s, i))
  {
    InvitedKeepsOrder(s, i);
    InvitedKeepsVisit(s, i);
  }

  lemma SitsDown(s: State, i: nat, woke: bool)
    requires Shape(s) && i < |s.clients| && ClientEnabled(s, i) && SittingDown(s, i, woke)
    requires s.clients[i].pc.CWaitSeat? || s.clients[i].pc.CSit? || s.clients[i].pc.CDelete?
    ensures i < |ClientStep(s, i).clients| && SittingDown(ClientStep(s, i), i, woke)
    ensures !s.clients[i].pc.CWaitSeat? ==>
      ClientStep(s, i).chair == if s.clients[i].pc.CSit? then NewSeat(i) else s.chair
    ensures s.clients[i].pc.CWaitSeat? ==> ClientStep(s, i).chair == s.chair
  {
  }

  lemma InvitedKeepsChair(s: State, i: nat)
    requires Inv(s) && i < |s.clients| && i == Customer(s) && ClientEnabled(s, i)
    requires s.clients[i].pc.CWaitSeat? || s.clients[i].pc.CSit? || s.clients[i].pc.CDelete?
    ensures Chair(ClientStep(s, i))
  {
    SeatStepFrame(s, i);
    SitsDown(s, i, s.barber.BWaitSeated?);
  }

  lemma InvitedIsServed(s: State, i: nat)
    requires Inv(s) && i < |s.clients| && i == Customer(s) && ClientEnabled(s, i)
    requires s.clients[i].pc.CWaitSeat? || s.clients[i].pc.CSit? || s.clients[i].pc.CDelete?
    ensures Customer(ClientStep(s, i)) == i < |ClientStep(s, i).clients| && Served(ClientStep(s, i), i)
    ensures ClientStep(s, i).sleeping == s.sleeping == false && ClientStep(s, i).barber == s.barber
  {
    SeatStepFrame(s, i);
    assert SittingDown(s, i, s.barber.BWaitSeated?);
    SitsDown(s, i, s.barber.BWaitSeated?);
  }

  lemma InvitedKeepsVisit(s: State, i: nat)
    requires Inv(s) && i < |s.clients| && i == Customer(s) && ClientEnabled(s, i)
    requires s.clients[i].pc.CWaitSeat? || s.clients[i].pc.CSit? || s.clients[i].pc.CDelete?
    ensures Customer(ClientStep(s, i)) < |ClientStep(s, i).clients| && Visit(ClientStep(s, i))
  {
    InvitedKeepsChair(s, i);
    InvitedIsServed(s, i);
  }

  /** A client that is neither on a seat nor looking into the waiting room touches no seat at all. */
  lemma FloorKeepsOrder(s: State, i: nat)
    requires Order(s) && i < |s.clients| && ClientEnabled(s, i)
    requires i == Customer(s) || s.clients[i].pc.CLock? || s.clients[i].pc.CUnlockFull?
    requires !OnASeat(s.clients[i].pc) && !s.clients[i].pc.CLook? && !s.clients[i].pc.CBye?
    ensures Order(ClientStep(s, i))
  {
    ClientKeepsShape(s, i);
    ClientKeepsMutex(s, i);
    FloorStepFrame(s, i);
    QueueUntouched(s, ClientStep(s, i), i);
  }

  /** The customer that woke the barber on its way to the chair. */
  lemma WakerSitsDown(s: State, i: nat)
    requires Inv(s) && i < |s.clients| && i == Customer(s) && ClientEnabled(s, i)
    requires s.clients[i].pc.CWake? || s.clients[i].pc.CUnlockWoke? || s.clients[i].pc.CSitWoke?
    ensures Customer(ClientStep(s, i)) < |ClientStep(s, i).clients| && Visit(ClientStep(s, i))
  {
    FloorStepFrame(s, i);
  }

  /** The customer in the chair. */
  lemma SeatedKeepsVisit(s: State, i: nat)
    requires Inv(s) && i < |s.clients| && i == Customer(s) && ClientEnabled(s, i)
    requires s.clients[i].pc.CReady? || s.clients[i].pc.CWaitCut? || s.clients[i].pc.CLeave?
    ensures Customer(ClientStep(s, i)) < |ClientStep(s, i).clients| && Visit(ClientStep(s, i))
  {
    FloorStepFrame(s, i);
  }

  lemma CustomerLeaves(s: State, i: nat)
    requires Inv(s) && i < |s.clients| && i == Customer(s) && s.clients[i].pc.CBye?
    ensures Inv(ClientStep(s, i))
  {
    ClientKeepsShape(s, i);
    ClientKeepsMutex(s, i);
    LeavingKeepsQueue(s, i);
    assert ClientStep(s, i).finished == s.engaged;
  }

  lemma LeavingKeepsQueue(s: State, i: nat)
    requires Shape(s) && Logs(s) && QueueHolds(s) && Outsiders(s)
    requires i < |s.clients| && i == Customer(s) && s.clients[i].pc.CBye?
    ensures QueueHolds(ClientStep(s, i)) && Outsiders(ClientStep(s, i))
  {
    var t := ClientStep(s, i);
    forall j | 0 <= j < t.room.count
      ensures 0 <= Waiting(t, j) < |t.clients| && Waiting(t, j) != Customer(t)
      ensures QueuedAt(t.clients[Waiting(t, j)].pc, t.room.At(j))
    {
      assert Waiting(t, j) == Waiting(s, j);
    }
    forall j | 0 <= j < |t.clients| ensures Outsider(t, j) {
      assert j != i ==> Outsider(s, j);
    }
  }

  /** A client on its way into the waiting room, or out of it without a seat. */
  lemma OutsiderLocks(s: State, i: nat)
    requires Inv(s) && i < |s.clients| && i != Customer(s) && ClientEnabled(s, i)
    requires s.clients[i].pc.CLock? || s.clients[i].pc.CUnlockFull?
    ensures Inv(ClientStep(s, i))
  {
    FloorKeepsOrder(s, i);
    FloorStepFrame(s, i);
    OthersVisit(s, ClientStep(s, i), i);
  }

  /** The visit of the customer does not depend on other clients, nor on seats that are not the one popped last. */
  lemma OthersVisit(s: State, t: State, i: nat)
    requires Order(s) && Visit(s) && i < |s.clients| && i != Customer(s) && OnlyClient(s, t, i)
    requires t.finished == s.finished && t.chair == s.chair && Semaphores(t, s.sleepSem, s.customerSem, s.readySem)
    requires forall k: nat :: JustPopped(s, k) ==> t.room.seats[k] == s.room.seats[k]
    ensures Customer(t) == Customer(s) && Visit(t)
  {
  }

  /** A client that has pushed and now takes its seat; nobody else uses that seat. */
  lemma OutsiderSits(s: State, i: nat)
    requires Inv(s) && i < |s.clients| && i != Customer(s)
    requires s.clients[i].pc.CInit? || s.clients[i].pc.CUnlockQueued?
    ensures Inv(ClientStep(s, i))
  {
    OutsiderKeepsOrder(s, i);
    SeatStepFrame(s, i);
    OthersVisit(s, ClientStep(s, i), i);
  }

  lemma OutsiderKeepsOrder(s: State, i: nat)
    requires Order(s) && i < |s.clients| && i != Customer(s)
    requires s.clients[i].pc.CInit? || s.clients[i].pc.CUnlockQueued?
    ensures Order(ClientStep(s, i))
    ensures forall k: nat :: JustPopped(s, k) ==> ClientStep(s, i).room.seats[k] == s.room.seats[k]
  {
    ClientKeepsShape(s, i);
    ClientKeepsMutex(s, i);
    OutsiderKeepsQueue(s, i);
    SeatStepFrame(s, i);
  }

  /** The seat of a queued client is not the one popped last, and nobody else in the queue has it. */
  lemma OwnSeat(s: State, i: nat)
    requires Shape(s) && |s.invited| + s.room.count == |s.pushed| && QueueHolds(s) && Outsiders(s)
    requires i < |s.clients| && i != Customer(s) && (s.clients[i].pc.CInit? || s.clients[i].pc.CUnlockQueued?)
    ensures InQueue(s, i, s.clients[i].pc.seat)
    ensures !JustPopped(s, s.clients[i].pc.seat)
    ensures forall j :: 0 <= j < s.room.count && Waiting(s, j) != i ==> s.room.At(j) != s.clients[i].pc.seat
  {
    assert Outsider(s, i);
  }

  /** A queued client touches its own seat only, and stays in the queue. */
  lemma OwnSeatStep(s: State, i: nat)
    requires Shape(s) && |s.invited| + s.room.count == |s.pushed| && Outsiders(s)
    requires i < |s.clients| && i != Customer(s) && (s.clients[i].pc.CInit? || s.clients[i].pc.CUnlockQueued?)
    ensures var t := ClientStep(s, i);
      && |t.room.seats| == |s.room.seats| && |t.clients| == |s.clients| && Customer(t) == Customer(s)
      && (forall k :: 0 <= k < |s.room.seats| && k != s.clients[i].pc.seat ==> t.room.seats[k] == s.room.seats[k])
      && t.room.Valid() && |t.invited| + t.room.count == |t.pushed| && Outsider(t, i)
      && forall k :: QueuedAt(s.clients[i].pc, k) ==> QueuedAt(t.clients[i].pc, k)
  {
    assert Outsider(s, i);
  }

  lemma OutsiderKeepsQueue(s: State, i: nat)
    requires Shape(s) && Logs(s) && QueueHolds(s) && Outsiders(s) && i < |s.clients| && i != Customer(s)
    requires s.clients[i].pc.CInit? || s.clients[i].pc.CUnlockQueued?
    ensures var t := ClientStep(s, i); t.room.Valid() && |t.invited| + t.room.count == |t.pushed|
    ensures QueueHolds(ClientStep(s, i)) && Outsiders(ClientStep(s, i))
    ensures forall k: nat :: JustPopped(s, k) ==>
              k < |ClientStep(s, i).room.seats| && ClientStep(s, i).room.seats[k] == s.room.seats[k]
  {
    OwnSeat(s, i);
    OwnSeatStep(s, i);
    SeatStepFrame(s, i);
    QueueUntouched(s, ClientStep(s, i), i);
  }

  lemma ClientWakesBarber(s: State, i: nat)
    requires Inv(s) && i < |s.clients| && i != Customer(s) && s.clients[i].pc.CLook? && s.sleeping
    ensures Inv(ClientStep(s, i))
  {
    ClientKeepsShape(s, i);
    ClientKeepsMutex(s, i);
    OnlyHolder(s, i);
    var t := ClientStep(s, i);
    forall j | 0 <= j < |t.clients| && j != Customer(t) ensures Outsider(t, j) {
      assert Outsider(s, j);
    }
  }

  /** The clients in the queue wait on different seats, so they are different. */
  lemma QueueIsDistinct(s: State)
    requires Shape(s) && |s.invited| + s.room.count == |s.pushed| && QueueHolds(s)
    ensures Distinct(s.pushed[|s.invited|..])
  {
    var queue := s.pushed[|s.invited|..];
    forall a, b | 0 <= a < b < |queue| ensures queue[a] != queue[b] {
      assert queue[a] == Waiting(s, a) && queue[b] == Waiting(s, b);
    }
  }

  lemma QueueIsOfClients(s: State, i: nat)
    requires Shape(s) && |s.invited| + s.room.count == |s.pushed| && QueueHolds(s)
    requires i < |s.clients| && s.clients[i].pc.CLook?
    ensures forall a :: |s.invited| <= a < |s.pushed| ==>
              0 <= s.pushed[a] < |s.clients| && s.pushed[a] != Customer(s) && s.pushed[a] != i
  {
    forall a | |s.invited| <= a < |s.pushed|
      ensures 0 <= s.pushed[a] < |s.clients| && s.pushed[a] != Customer(s) && s.pushed[a] != i
    {
      assert s.pushed[a] == Waiting(s, a - |s.invited|);
    }
  }

  // ----- room in the waiting room -----

  /** The clients that are neither waiting to come in nor gone. */
  ghost function InTheShop(s: State): set<int> {
    set i | 0 <= i < |s.clients| && !s.clients[i].pc.CLock? && !s.clients[i].pc.CGone?
  }

  /** There are no more clients in the shop than it has seats. */
  ghost predicate Roomy(s: State) {
    |InTheShop(s)| <= |s.room.seats|
  }

  lemma CustomerIsInTheShop(s: State)
    requires 0 <= Customer(s) < |s.clients| && Visit(s)
    ensures Customer(s) in InTheShop(s)
  {
  }

  /** The queue, the client that pushes and the customer are distinct clients in the shop. */
  lemma RoomForOneMore(s: State, i: nat)
    requires Inv(s) && Roomy(s) && i < |s.clients| && i != Customer(s) && s.clients[i].pc.CLook?
    ensures !s.room.Full()
    ensures Customer(s) >= 0 ==> s.room.count + 2 <= |s.room.seats|
  {
    var queue := s.pushed[|s.invited|..];
    var all := queue + (if Customer(s) >= 0 then [i, Customer(s)] else [i]);
    QueueIsDistinct(s);
    QueueIsOfClients(s, i);
    if Customer(s) >= 0 {
      CustomerIsInTheShop(s);
    }
    QueueIsInTheShop(s);
    DistinctIn(all, InTheShop(s));
  }

  lemma QueueIsInTheShop(s: State)
    requires Shape(s) && |s.invited| + s.room.count == |s.pushed| && QueueHolds(s)
    ensures forall a :: |s.invited| <= a < |s.pushed| ==> s.pushed[a] in InTheShop(s)
  {
    forall a | |s.invited| <= a < |s.pushed| ensures s.pushed[a] in InTheShop(s) {
      assert s.pushed[a] == Waiting(s, a - |s.invited|);
    }
  }

  /** Seat k belongs to a client that was invited and has not deleted the seat yet. */
  ghost predicate InvitedSeat(s: State, c: nat, k: nat)
    requires c < |s.clients|
  {
    && c == Customer(s)
    && (s.clients[c].pc == CWaitSeat(k) || s.clients[c].pc == CSit(k) || s.clients[c].pc == CDelete(k))
  }

  /** Client i is about to push and gets seat k, which belongs to client c that has been invited. */
  ghost predicate TakesInvitedSeat(s: State, c: nat, k: nat, i: nat) {
    && c < |s.clients| && InvitedSeat(s, c, k)
    && i < |s.clients| && s.clients[i].pc.CLook? && !s.sleeping && !s.room.Full() && s.room.end == k
  }

  /** No push takes the seat of an invited client. */
  ghost predicate SafePushes(s: State) {
    forall c, k, i :: !TakesInvitedSeat(s, c, k, i)
  }

  /** With no more clients in the shop than seats, whoever looks finds a seat, and not that of an invited client. */
  lemma RoomyIsSafe(s: State)
    requires Inv(s) && Roomy(s)
    ensures SafePushes(s)
    ensures forall i :: 0 <= i < |s.clients| && s.clients[i].pc.CLook? ==> s.sleeping || !s.room.Full()
  {
    forall i | 0 <= i < |s.clients| && s.clients[i].pc.CLook?
      ensures !s.room.Full() && (Customer(s) >= 0 ==> s.room.count + 2 <= |s.room.seats|)
    {
      NotTheCustomer(s, i);
      RoomForOneMore(s, i);
    }
    forall c, k, i ensures !TakesInvitedSeat(s, c, k, i) {
      if TakesInvitedSeat(s, c, k, i) {
        InvitedSeatIsLast(s, c, k);
      }
    }
  }

  lemma NotTheCustomer(s: State, i: nat)
    requires Inv(s) && i < |s.clients| && s.clients[i].pc.CLook?
    ensures i != Customer(s)
  {
  }

  /** The seat of the invited client is the one popped last. */
  lemma InvitedSeatIsLast(s: State, c: nat, k: nat)
    requires Inv(s) && c < |s.clients| && InvitedSeat(s, c, k)
    ensures JustPopped(s, k)
  {
  }

  /** What a push changes. */
  lemma PushFrame(s: State, i: nat)
    requires Pushing(s, i)
    ensures s.room.Pushed().Valid()
    ensures var t := ClientStep(s, i);
      && t == Goto(s, i, CInit(s.room.end)).(room := s.room.Pushed(), pushed := s.pushed + [i])
      && s.room.end < |s.room.seats| && s.room.Place(s.room.end) == s.room.count && Customer(t) == Customer(s)
  {
    PushTakesAFreeSeat(s.room);
  }

  /** Client i is about to push, and there is a seat. */
  ghost predicate Pushing(s: State, i: nat) {
    && Order(s) && i < |s.clients| && i != Customer(s) && s.clients[i].pc.CLook?
    && !s.sleeping && !s.room.Full()
  }

  lemma PushExtendsQueue(s: State, i: nat)
    requires Pushing(s, i)
    ensures var t := ClientStep(s, i); t.room.Valid() && |t.invited| + t.room.count == |t.pushed|
    ensures QueueHolds(ClientStep(s, i))
  {
    PushFrame(s, i);
    var t := ClientStep(s, i);
    forall j | 0 <= j < t.room.count
      ensures 0 <= Waiting(t, j) < |t.clients| && Waiting(t, j) != Customer(t)
      ensures QueuedAt(t.clients[Waiting(t, j)].pc, t.room.At(j))
    {
      assert j < s.room.count ==> Waiting(t, j) == Waiting(s, j);
    }
  }

  /** A place in the queue stays where it is. */
  lemma PushKeepsPlace(s: State, t: State, j: nat, k: nat)
    requires s.room.Valid() && !s.room.Full() && |s.invited| + s.room.count == |s.pushed| && InQueue(s, j, k)
    requires t.room.Valid() && t.room.start == s.room.start && |t.room.seats| == |s.room.seats|
    requires t.room.count == s.room.count + 1 && t.invited == s.invited && |t.pushed| == |s.pushed| + 1
    requires t.pushed[..|s.pushed|] == s.pushed
    ensures InQueue(t, j, k)
  {
  }

  lemma PushKeepsOutsiders(s: State, i: nat)
    requires Pushing(s, i)
    ensures var t := ClientStep(s, i); t.room.Valid() && |t.invited| + t.room.count == |t.pushed|
    ensures Outsiders(ClientStep(s, i))
  {
    PushFrame(s, i);
    var t := ClientStep(s, i);
    forall j: nat | j < |t.clients| && j != Customer(t) ensures Outsider(t, j) {
      if j != i {
        assert Outsider(s, j);
        if OnASeat(s.clients[j].pc) {
          PushKeepsPlace(s, t, j, s.clients[j].pc.seat);
        }
      }
    }
  }

  lemma PushKeepsOrder(s: State, i: nat)
    requires Pushing(s, i)
    ensures Order(ClientStep(s, i))
  {
    ClientKeepsShape(s, i);
    ClientKeepsMutex(s, i);
    PushFrame(s, i);
    PushExtendsQueue(s, i);
    PushKeepsOutsiders(s, i);
  }

  lemma PushKeepsVisit(s: State, i: nat)
    requires Pushing(s, i) && Visit(s) && SafePushes(s)
    ensures Customer(ClientStep(s, i)) < |ClientStep(s, i).clients| && Visit(ClientStep(s, i))
  {
    PushFrame(s, i);
    OnlyHolder(s, i);
    if 0 <= Customer(s) {
      PushKeepsInvitedSeat(s, i, Customer(s));
    }
  }

  /** The seat popped last is still that. */
  lemma PushKeepsInvitedSeat(s: State, i: nat, c: nat)
    requires Pushing(s, i) && Visit(s) && SafePushes(s) && c == Customer(s) < |s.clients|
    ensures forall k: nat :: InvitedSeat(s, c, k) ==> JustPopped(ClientStep(s, i), k)
  {
    PushFrame(s, i);
    forall k: nat | InvitedSeat(s, c, k) ensures JustPopped(ClientStep(s, i), k) {
      InvitedSeatIsLast(s, c, k);
      assert !TakesInvitedSeat(s, c, k, i);
    }
  }

  lemma ClientPushes(s: State, i: nat)
    requires Pushing(s, i) && Visit(s) && SafePushes(s)
    ensures Inv(ClientStep(s, i))
  {
    PushKeepsOrder(s, i);
    PushKeepsVisit(s, i);
  }

  /** A client that finds the waiting room full. */
  lemma ClientFindsNoSeat(s: State, i: nat)
    requires Inv(s) && i < |s.clients| && i != Customer(s) && s.clients[i].pc.CLook?
    requires !s.sleeping && s.room.Full()
    ensures Inv(ClientStep(s, i))
  {
    ClientKeepsShape(s, i);
    ClientKeepsMutex(s, i);
    QueueUntouched(s, ClientStep(s, i), i);
    OthersVisit(s, ClientStep(s, i), i);
  }

  lemma OutsiderKeepsInv(s: State, i: nat)
    requires Inv(s) && SafePushes(s) && i < |s.clients| && ClientEnabled(s, i) && i != Customer(s)
    ensures Inv(ClientStep(s, i))
  {
    assert Outsider(s, i);
    if s.clients[i].pc.CLock? || s.clients[i].pc.CUnlockFull? {
      OutsiderLocks(s, i);
    } else if OnASeat(s.clients[i].pc) {
      OutsiderSits(s, i);
    } else if s.sleeping {
      ClientWakesBarber(s, i);
    } else if s.room.Full() {
      ClientFindsNoSeat(s, i);
    } else {
      ClientPushes(s, i);
    }
  }

  lemma CustomerKeepsInv(s: State, i: nat)
    requires Inv(s) && i < |s.clients| && ClientEnabled(s, i) && i == Customer(s)
    ensures Inv(ClientStep(s, i))
  {
    var pc := s.clients[i].pc;
    if pc.CBye? {
      CustomerLeaves(s, i);
    } else if OnASeat(pc) {
      InvitedSitsDown(s, i);
    } else {
      FloorKeepsOrder(s, i);
      if pc.CReady? || pc.CWaitCut? || pc.CLeave? {
        SeatedKeepsVisit(s, i);
      } else {
        WakerSitsDown(s, i);
      }
    }
  }

  lemma ClientKeepsInv(s: State, i: nat)
    requires Inv(s) && SafePushes(s) && i < |s.clients| && ClientEnabled(s, i)
    ensures Inv(ClientStep(s, i))
  {
    if i == Customer(s) {
      CustomerKeepsInv(s, i);
    } else {
      OutsiderKeepsInv(s, i);
    }
  }
}
