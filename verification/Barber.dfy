/** The sleeping barber: one barber process and any number of client processes over shared
    semaphores, as a state machine. One step is one semaphore operation or one access to the
    shared memory; any process that is not blocked may take the next step. */
module Barber {
  import opened WaitingRoom

  // Where the barber's loop is; each name says what the next step does.
  datatype BarberPc =
    | BLock                // wait mx_waiting_room
    | BLook                // wr_pop, or fall asleep
    | BInvite(seat: nat)   // post next->waiting
    | BUnlockInvited       // post mx_waiting_room
    | BUnlockAsleep        // post mx_waiting_room
    | BSleep               // wait sem_barber_sleeping
    | BWaitSeated          // wait sem_customer_ready
    | BCut                 // the haircut, then post sem_barber_ready
    | BWaitLeave           // wait sem_customer_ready

  // Where a client's loop is.
  datatype ClientPc =
    | CLock                       // loop head, and then wait mx_waiting_room
    | CLook                       // read barber_sleeping, or wr_push
    | CWake                       // post sem_barber_sleeping
    | CUnlockWoke                 // post mx_waiting_room
    | CSitWoke                    // barber_chair = new_seat()
    | CInit(seat: nat)            // *my_seat = new_seat()
    | CUnlockQueued(seat: nat)    // post mx_waiting_room
    | CWaitSeat(seat: nat)        // wait my_seat->waiting
    | CSit(seat: nat)             // barber_chair = new_seat()
    | CDelete(seat: nat)          // delete_seat(my_seat)
    | CReady                      // post sem_customer_ready
    | CWaitCut                    // wait sem_barber_ready
    | CLeave                      // delete_seat(&barber_chair); barber_chair = empty_seat()
    | CBye                        // post sem_customer_ready
    | CUnlockFull                 // post mx_waiting_room, then exit
    | CGone

  // `left` is the variable `haircuts` of the client.
  datatype Client = Client(pc: ClientPc, left: nat)

  // The logs record what the program does and prints; no step reads them:
  //   pushed    clients that called wr_push, invited  pids the barber invited,
  //   engaged   clients that were invited or woke the barber,
  //   cuts      pids the barber cut,          finished clients past their last post.
  datatype State = State(
    room: Room,
    chair: Seat,
    mx: nat,
    sleepSem: nat,
    readySem: nat,
    customerSem: nat,
    sleeping: bool,
    barber: BarberPc,
    clients: seq<Client>,
    pushed: seq<int>,
    invited: seq<int>,
    engaged: seq<int>,
    cuts: seq<int>,
    finished: seq<int>)

  function Init(capacity: nat, clients: nat, haircuts: nat): State {
    State(InitialRoom(capacity), EmptySeat(), 1, 0, 0, 0, false, BLock,
          seq(clients, _ => Client(CLock, haircuts)), [], [], [], [], [])
  }

  /** Seat numbers held by processes are numbers of seats; every step keeps this. */
  ghost predicate Shape(s: State) {
    && s.room.Valid()
    && (s.barber.BInvite? ==> s.barber.seat < |s.room.seats|)
    && (forall i :: 0 <= i < |s.clients| ==> ClientShape(s.clients[i].pc, |s.room.seats|))
  }

  ghost predicate ClientShape(pc: ClientPc, capacity: nat) {
    OnASeat(pc) ==> pc.seat < capacity
  }

  ghost predicate BarberEnabled(s: State) {
    match s.barber
    case BLock => s.mx > 0
    case BSleep => s.sleepSem > 0
    case BWaitSeated => s.customerSem > 0
    case BWaitLeave => s.customerSem > 0
    case _ => true
  }

  function SetSeat(s: State, k: nat, seat: Seat): (r: State)
    requires k < |s.room.seats|
  {
    s.(room := s.room.(seats := s.room.seats[k := seat]))
  }

  ghost function BarberStep(s: State): State
    requires Shape(s) && BarberEnabled(s)
  {
    match s.barber
    case BLock =>
      s.(mx := s.mx - 1, barber := BLook)
    case BLook =>
      if s.room.count <= 0 then
        s.(sleeping := true, barber := BUnlockAsleep)
      else
        var k := s.room.start;
        var pid := s.room.seats[k].pid;
        s.(room := s.room.Popped(), barber := BInvite(k),
           invited := s.invited + [pid], engaged := s.engaged + [pid])
    case BInvite(k) =>
      var seat := s.room.seats[k];
      SetSeat(s, k, seat.(waiting := seat.waiting + 1)).(barber := BUnlockInvited)
    case BUnlockInvited =>
      s.(mx := s.mx + 1, barber := BWaitSeated)
    case BUnlockAsleep =>
      s.(mx := s.mx + 1, barber := BSleep)
    case BSleep =>
      s.(sleepSem := s.sleepSem - 1, barber := BWaitSeated)
    case BWaitSeated =>
      s.(customerSem := s.customerSem - 1, barber := BCut)
    case BCut =>
      s.(cuts := s.cuts + [s.chair.pid], readySem := s.readySem + 1, barber := BWaitLeave)
    case BWaitLeave =>
      s.(customerSem := s.customerSem - 1, barber := BLock)
  }

  ghost predicate ClientEnabled(s: State, i: nat)
    requires Shape(s) && i < |s.clients|
  {
    var c := s.clients[i];
    match c.pc
    case CLock => c.left > 0 && s.mx > 0
    case CWaitSeat(k) => assert ClientShape(c.pc, |s.room.seats|); s.room.seats[k].waiting > 0
    case CWaitCut => s.readySem > 0
    case CGone => false
    case _ => true
  }

  /** The state with client i moved to pc. */
  function Goto(s: State, i: nat, pc: ClientPc): State
    requires i < |s.clients|
  {
    s.(clients := s.clients[i := s.clients[i].(pc := pc)])
  }

  ghost function ClientStep(s: State, i: nat): State
    requires Shape(s) && i < |s.clients| && ClientEnabled(s, i)
  {
    var c := s.clients[i];
    assert ClientShape(c.pc, |s.room.seats|);
    match c.pc
    case CLock =>
      s.(mx := s.mx - 1, clients := s.clients[i := Client(CLook, c.left - 1)])
    case CLook =>
      if s.sleeping then
        Goto(s, i, CWake).(sleeping := false, engaged := s.engaged + [i])
      else if s.room.Full() then
        Goto(s, i, CUnlockFull)
      else
        Goto(s, i, CInit(s.room.end)).(room := s.room.Pushed(), pushed := s.pushed + [i])
    case CWake =>
      Goto(s, i, CUnlockWoke).(sleepSem := s.sleepSem + 1)
    case CUnlockWoke =>
      Goto(s, i, CSitWoke).(mx := s.mx + 1)
    case CSitWoke =>
      Goto(s, i, CReady).(chair := NewSeat(i))
    case CInit(k) =>
      SetSeat(Goto(s, i, CUnlockQueued(k)), k, NewSeat(i))
    case CUnlockQueued(k) =>
      Goto(s, i, CWaitSeat(k)).(mx := s.mx + 1)
    case CWaitSeat(k) =>
      var seat := s.room.seats[k];
      SetSeat(Goto(s, i, CSit(k)), k, seat.(waiting := seat.waiting - 1))
    case CSit(k) =>
      Goto(s, i, CDelete(k)).(chair := NewSeat(i))
    case CDelete(k) =>
      SetSeat(Goto(s, i, CReady), k, DeleteSeat(s.room.seats[k]))
    case CReady =>
      Goto(s, i, CWaitCut).(customerSem := s.customerSem + 1)
    case CWaitCut =>
      Goto(s, i, CLeave).(readySem := s.readySem - 1)
    case CLeave =>
      Goto(s, i, CBye).(chair := EmptySeat())
    case CBye =>
      Goto(s, i, CLock).(customerSem := s.customerSem + 1, finished := s.finished + [i])
    case CUnlockFull =>
      Goto(s, i, CGone).(mx := s.mx + 1)
  }

  ghost predicate Next(s: State, t: State)
    requires Shape(s)
  {
    || (BarberEnabled(s) && t == BarberStep(s))
    || (exists i: nat :: i < |s.clients| && ClientEnabled(s, i) && t == ClientStep(s, i))
  }

  /** No process can take a step. */
  ghost predicate Stuck(s: State)
    requires Shape(s)
  {
    && !BarberEnabled(s)
    && forall i: nat :: i < |s.clients| ==> !ClientEnabled(s, i)
  }

  lemma BarberKeepsShape(s: State)
    requires Shape(s) && BarberEnabled(s)
    ensures Shape(BarberStep(s)) && |BarberStep(s).room.seats| == |s.room.seats|
    ensures BarberStep(s).clients == s.clients
  {
    if s.barber.BLook? && s.room.count > 0 {
      PopTakesTheFirst(s.room);
    }
  }

  /** What the step of a client leaves alone, unless it looks into the waiting room. */
  ghost predicate OnlyClient(s: State, t: State, i: nat)
    requires i < |s.clients|
  {
    && |t.clients| == |s.clients| && t.clients == s.clients[i := t.clients[i]]
    && ClientShape(t.clients[i].pc, |s.room.seats|)
    && t.barber == s.barber && t.sleeping == s.sleeping
    && t.invited == s.invited && t.pushed == s.pushed && t.engaged == s.engaged && t.cuts == s.cuts
    && t.room == s.room.(seats := t.room.seats) && |t.room.seats| == |s.room.seats|
  }

  predicate OnASeat(pc: ClientPc) {
    pc.CInit? || pc.CUnlockQueued? || pc.CWaitSeat? || pc.CSit? || pc.CDelete?
  }

  lemma SeatStepFrame(s: State, i: nat)
    requires Shape(s) && i < |s.clients| && ClientEnabled(s, i) && OnASeat(s.clients[i].pc)
    ensures OnlyClient(s, ClientStep(s, i), i)
  {
    assert ClientShape(s.clients[i].pc, |s.room.seats|);
  }

  lemma FloorStepFrame(s: State, i: nat)
    requires Shape(s) && i < |s.clients| && ClientEnabled(s, i)
    requires !OnASeat(s.clients[i].pc) && !s.clients[i].pc.CLook?
    ensures OnlyClient(s, ClientStep(s, i), i) && ClientStep(s, i).room == s.room
  {
  }

  lemma ClientLookFrame(s: State, i: nat)
    requires Shape(s) && i < |s.clients| && s.clients[i].pc.CLook?
    ensures var t := ClientStep(s, i);
      && t.clients == s.clients[i := t.clients[i]] && ClientShape(t.clients[i].pc, |s.room.seats|)
      && t.barber == s.barber && t.invited == s.invited && t.cuts == s.cuts && t.finished == s.finished
      && t.room.Valid() && t.room.seats == s.room.seats
  {
    if !s.room.Full() {
      PushTakesAFreeSeat(s.room);
    }
  }

  lemma ClientKeepsShape(s: State, i: nat)
    requires Shape(s) && i < |s.clients| && ClientEnabled(s, i)
    ensures Shape(ClientStep(s, i)) && |ClientStep(s, i).room.seats| == |s.room.seats|
    ensures |ClientStep(s, i).clients| == |s.clients|
  {
    if s.clients[i].pc.CLook? {
      ClientLookFrame(s, i);
    } else if OnASeat(s.clients[i].pc) {
      SeatStepFrame(s, i);
    } else {
      FloorStepFrame(s, i);
    }
  }

  /** A finite piece of an execution, from the initial state on. */
  ghost predicate Run(states: seq<State>, capacity: nat, clients: nat, haircuts: nat) {
    && |states| > 0
    && states[0] == Init(capacity, clients, haircuts)
    && forall n :: 0 <= n < |states| - 1 ==> Shape(states[n]) && Next(states[n], states[n + 1])
  }
}
