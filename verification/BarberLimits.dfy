/** What the sleeping barber promises only as long as there are no more clients than seats. */
module BarberLimits {
  import opened WaitingRoom
  import opened Barber
  import opened BarberSafety
  import opened BarberTheorems

  // ----- longer runs -----

  lemma ExtendBy(run: seq<State>, capacity: nat, clients: nat, haircuts: nat, t: State) returns (longer: seq<State>)
    requires Run(run, capacity, clients, haircuts) && Shape(run[|run| - 1]) && Next(run[|run| - 1], t)
    ensures Run(longer, capacity, clients, haircuts) && longer[|longer| - 1] == t
    ensures Shape(t) && |t.room.seats| == |run[|run| - 1].room.seats| && |t.clients| == |run[|run| - 1].clients|
  {
    var s := run[|run| - 1];
    NextKeepsShape(s, t);
    longer := run + [t];
    forall n | 0 <= n < |longer| - 1 ensures Shape(longer[n]) && Next(longer[n], longer[n + 1]) {
      if n < |run| - 1 {
        assert longer[n] == run[n] && longer[n + 1] == run[n + 1];
      }
    }
  }

  lemma ExtendClient(run: seq<State>, capacity: nat, clients: nat, haircuts: nat, i: nat) returns (longer: seq<State>)
    requires Run(run, capacity, clients, haircuts) && Shape(run[|run| - 1])
    requires i < |run[|run| - 1].clients| && ClientEnabled(run[|run| - 1], i)
    ensures Run(longer, capacity, clients, haircuts) && Shape(longer[|longer| - 1])
    ensures longer[|longer| - 1] == ClientStep(run[|run| - 1], i)
  {
    longer := ExtendBy(run, capacity, clients, haircuts, ClientStep(run[|run| - 1], i));
  }

  lemma ExtendBarber(run: seq<State>, capacity: nat, clients: nat, haircuts: nat) returns (longer: seq<State>)
    requires Run(run, capacity, clients, haircuts) && Shape(run[|run| - 1]) && BarberEnabled(run[|run| - 1])
    ensures Run(longer, capacity, clients, haircuts) && Shape(longer[|longer| - 1])
    ensures longer[|longer| - 1] == BarberStep(run[|run| - 1])
  {
    longer := ExtendBy(run, capacity, clients, haircuts, BarberStep(run[|run| - 1]));
  }

  // ----- a full waiting room -----

  /** The barber has not moved yet; clients 0 to j - 1 sit on the seats with their numbers. */
  ghost predicate Filling(s: State, j: nat, clients: nat, capacity: nat) {
    && Shape(s) && |s.clients| == clients && |s.room.seats| == capacity && j <= capacity
    && s.barber.BLock? && !s.sleeping && s.mx == 1 && s.customerSem == 0 && s.engaged == [] && s.finished == []
    && s.room.count == j && s.room.start == 0
    && (forall i :: 0 <= i < j && i < clients ==> s.clients[i].pc == CWaitSeat(i) && s.room.seats[i] == NewSeat(i))
    && (forall i :: j <= i < clients ==> s.clients[i].pc.CLock? && s.clients[i].left > 0)
  }

  /** The state k steps later, when client j comes in and takes seat j. */
  ghost function Taking(s: State, j: nat, k: nat): State
    requires j < |s.clients| && s.clients[j].left > 0 && j < |s.room.seats| && s.room.Valid() && !s.room.Full()
  {
    var left, n := s.clients[j].left - 1, |s.room.seats|;
    var pc := if k == 1 then CLook else if k == 2 then CInit(j) else if k == 3 then CUnlockQueued(j) else CWaitSeat(j);
    var seats := if k <= 2 then s.room.seats else s.room.seats[j := NewSeat(j)];
    var room := if k <= 1 then s.room else Room(seats, s.room.count + 1, s.room.start, (s.room.end + 1) % n);
    if k == 0 then s
    else s.(mx := if k == 4 then 1 else 0, clients := s.clients[j := Client(pc, left)], room := room,
            pushed := if k == 1 then s.pushed else s.pushed + [j])
  }

  lemma TakingPushes(s: State, j: nat, clients: nat, capacity: nat)
    requires Filling(s, j, clients, capacity) && j < clients && j < capacity && Shape(Taking(s, j, 1))
    ensures ClientStep(Taking(s, j, 1), j) == Taking(s, j, 2)
  {
    assert s.room.end == j;
  }

  lemma TakingMoves(s: State, j: nat, clients: nat, capacity: nat, k: nat)
    requires Filling(s, j, clients, capacity) && j < clients && j < capacity && (k == 0 || k == 2 || k == 3)
    requires Shape(Taking(s, j, k))
    ensures ClientEnabled(Taking(s, j, k), j)
    ensures ClientStep(Taking(s, j, k), j) == Taking(s, j, k + 1)
  {
  }

  lemma TakingSteps(s: State, j: nat, clients: nat, capacity: nat, k: nat)
    requires Filling(s, j, clients, capacity) && j < clients && j < capacity && k < 4
    requires Shape(Taking(s, j, k))
    ensures ClientEnabled(Taking(s, j, k), j)
    ensures ClientStep(Taking(s, j, k), j) == Taking(s, j, k + 1)
  {
    if k == 1 {
      TakingPushes(s, j, clients, capacity);
    } else {
      TakingMoves(s, j, clients, capacity, k);
    }
  }

  lemma TakingFills(s: State, j: nat, clients: nat, capacity: nat)
    requires Filling(s, j, clients, capacity) && j < clients && j < capacity && Shape(Taking(s, j, 4))
    ensures Filling(Taking(s, j, 4), j + 1, clients, capacity)
  {
  }

  lemma {:induction false} TakeSeat(
      run: seq<State>, s: State, j: nat, clients: nat, capacity: nat, haircuts: nat, k: nat)
    returns (longer: seq<State>)
    requires Run(run, capacity, clients, haircuts) && run[|run| - 1] == s
    requires Filling(s, j, clients, capacity) && j < clients && j < capacity && k <= 4
    ensures Run(longer, capacity, clients, haircuts)
    ensures longer[|longer| - 1] == Taking(s, j, k) && Shape(longer[|longer| - 1])
  {
    longer := run;
    if k > 0 {
      longer := TakeSeat(run, s, j, clients, capacity, haircuts, k - 1);
      TakingSteps(s, j, clients, capacity, k - 1);
      longer := ExtendClient(longer, capacity, clients, haircuts, j);
    }
  }

  lemma {:induction false} FillSeats(capacity: nat, clients: nat, haircuts: nat, j: nat) returns (run: seq<State>)
    requires 0 < haircuts && j <= capacity && j < clients
    ensures Run(run, capacity, clients, haircuts) && Filling(run[|run| - 1], j, clients, capacity)
  {
    if j == 0 {
      run := [Init(capacity, clients, haircuts)];
    } else {
      run := FillSeats(capacity, clients, haircuts, j - 1);
      var s := run[|run| - 1];
      run := TakeSeat(run, s, j - 1, clients, capacity, haircuts, 4);
      TakingFills(s, j - 1, clients, capacity);
    }
  }

  // ----- nobody is turned away -----

  lemma TurnAway(capacity: nat, clients: nat, haircuts: nat) returns (run: seq<State>)
    requires 0 < haircuts && capacity < clients
    ensures Run(run, capacity, clients, haircuts) && Shape(run[|run| - 1])
    ensures Lost(run[|run| - 1])
  {
    run := FillSeats(capacity, clients, haircuts, capacity);
    run := ExtendClient(run, capacity, clients, haircuts, capacity);
    run := ExtendClient(run, capacity, clients, haircuts, capacity);
    assert run[|run| - 1].clients[capacity].pc.CUnlockFull?;
  }

  /** A seat for each client is exactly what it takes for nobody to be turned away. */
  lemma SeatForEachClient(capacity: nat, clients: nat, haircuts: nat)
    requires 0 < haircuts
    ensures clients <= capacity <==>
              forall run, n :: Run(run, capacity, clients, haircuts) && 0 <= n < |run| ==> !Lost(run[n])
  {
    if clients <= capacity {
      forall run, n | Run(run, capacity, clients, haircuts) && 0 <= n < |run| ensures !Lost(run[n]) {
        EnoughSeats(run, capacity, clients, haircuts, n);
        RoomyRun(run, capacity, clients, haircuts, n);
      }
    } else {
      var run := TurnAway(capacity, clients, haircuts);
      assert 0 <= |run| - 1 < |run| && Lost(run[|run| - 1]);
    }
  }

  // ----- everyone is served -----

  lemma ClientStaysLost(s: State, i: nat)
    requires Shape(s) && Lost(s) && i < |s.clients| && ClientEnabled(s, i)
    ensures Lost(ClientStep(s, i))
  {
    var j :| 0 <= j < |s.clients| && (s.clients[j].pc.CUnlockFull? || s.clients[j].pc.CGone?);
    var t := ClientStep(s, i);
    assert t.clients[j].pc.CUnlockFull? || t.clients[j].pc.CGone?;
  }

  lemma LostForGood(s: State, t: State)
    requires Shape(s) && Lost(s) && Next(s, t)
    ensures Lost(t)
  {
    if BarberEnabled(s) && t == BarberStep(s) {
      BarberKeepsShape(s);
    } else {
      var i: nat :| i < |s.clients| && ClientEnabled(s, i) && t == ClientStep(s, i);
      ClientStaysLost(s, i);
    }
  }

  /** The barber waits for an invited client that waits for the invitation, and nobody else will do anything but find
      the waiting room full. */
  ghost predicate Jammed(s: State) {
    && s.barber.BWaitSeated? && s.customerSem == 0 && !s.sleeping && s.room.Full()
    && (forall k :: 0 <= k < |s.room.seats| ==> s.room.seats[k].waiting == 0)
    && (forall i :: 0 <= i < |s.clients| ==> Idle(s.clients[i].pc))
  }

  ghost predicate Idle(pc: ClientPc) {
    pc.CWaitSeat? || pc.CLock? || pc.CLook? || pc.CUnlockFull? || pc.CGone?
  }

  lemma JammedForGood(s: State, t: State)
    requires Shape(s) && Jammed(s) && Next(s, t)
    ensures Jammed(t)
  {
    var i: nat :| i < |s.clients| && ClientEnabled(s, i) && t == ClientStep(s, i);
    ClientStaysIdle(s, i);
  }

  lemma ClientStaysIdle(s: State, i: nat)
    requires Shape(s) && Jammed(s) && i < |s.clients| && ClientEnabled(s, i)
    ensures Jammed(ClientStep(s, i))
  {
    assert Idle(s.clients[i].pc) && ClientShape(s.clients[i].pc, |s.room.seats|);
    var t := ClientStep(s, i);
    assert t.clients == s.clients[i := t.clients[i]] && Idle(t.clients[i].pc);
  }

  /** Every run can be continued until nobody can move. */
  lemma {:induction false} RunOut(run: seq<State>, capacity: nat, clients: nat, haircuts: nat)
    returns (longer: seq<State>)
    requires Run(run, capacity, clients, haircuts) && Shape(run[|run| - 1])
    ensures Run(longer, capacity, clients, haircuts) && Shape(longer[|longer| - 1]) && Stuck(longer[|longer| - 1])
    ensures Lost(run[|run| - 1]) ==> Lost(longer[|longer| - 1])
    ensures Jammed(run[|run| - 1]) ==> Jammed(longer[|longer| - 1])
    decreases Work(run[|run| - 1])
  {
    var s := run[|run| - 1];
    longer := run;
    if !Stuck(s) {
      var t := SomeNext(s);
      longer := ExtendBy(run, capacity, clients, haircuts, t);
      StepDoesWork(s, t);
      if Lost(s) {
        LostForGood(s, t);
      }
      if Jammed(s) {
        JammedForGood(s, t);
      }
      longer := RunOut(longer, capacity, clients, haircuts);
    }
  }

  lemma SomeNext(s: State) returns (t: State)
    requires Shape(s) && !Stuck(s)
    ensures Next(s, t)
  {
    if BarberEnabled(s) {
      t := BarberStep(s);
    } else {
      var i: nat :| i < |s.clients| && ClientEnabled(s, i);
      t := ClientStep(s, i);
    }
  }

  /** A run that is over and has served everyone. */
  ghost predicate EndsWell(run: seq<State>, haircuts: nat)
    requires |run| > 0
  {
    var last := run[|run| - 1];
    Shape(last) && (Stuck(last) ==> AllServed(last, haircuts))
  }

  /** A seat for each client is exactly what it takes for everyone to be served. */
  lemma ServedIffSeats(capacity: nat, clients: nat, haircuts: nat)
    requires 0 < haircuts
    ensures clients <= capacity <==> forall run :: Run(run, capacity, clients, haircuts) ==> EndsWell(run, haircuts)
  {
    if clients <= capacity {
      forall run | Run(run, capacity, clients, haircuts) ensures EndsWell(run, haircuts) {
        EnoughSeats(run, capacity, clients, haircuts, |run| - 1);
        EveryoneIsServed(run, capacity, clients, haircuts);
      }
    } else {
      var run := TurnAway(capacity, clients, haircuts);
      run := RunOut(run, capacity, clients, haircuts);
      assert !EndsWell(run, haircuts);
    }
  }

  // ----- invitations -----

  /** A push that takes the seat of an invited client: the invitation is gone as soon as the newcomer has sat down, and
      the other waits for nothing. */
  lemma InvitationErased(s: State, c: nat, k: nat, i: nat)
    requires Shape(s) && TakesInvitedSeat(s, c, k, i) && s.clients[c].pc.CWaitSeat? && s.room.seats[k].waiting > 0
    ensures ClientEnabled(s, i) && ClientEnabled(s, c)
    ensures var t := ClientStep(s, i);
      && Shape(t) && ClientEnabled(t, i)
      && ClientStep(t, i).room.seats[k].waiting == 0 && ClientStep(t, i).clients[c].pc == CWaitSeat(k)
  {
    ClientKeepsShape(s, i);
  }

  /** The barber waits for the one client it has invited, and all others are idle; there is one free seat. */
  ghost predicate Poised(s: State, capacity: nat) {
    && |s.room.seats| == capacity && s.room.count + 1 == capacity && s.room.end == 0
    && s.barber.BWaitSeated? && s.customerSem == 0 && !s.sleeping
    && (forall k :: 1 <= k < capacity ==> s.room.seats[k].waiting == 0)
    && capacity < |s.clients| && s.clients[capacity].pc.CLook?
    && (forall i :: 0 <= i < |s.clients| ==> Idle(s.clients[i].pc))
  }

  /** With every seat taken the barber invites client 0, and the next client to come gets its seat. */
  lemma TakeInvitedSeat(capacity: nat, clients: nat, haircuts: nat) returns (run: seq<State>)
    requires 0 < haircuts && 0 < capacity < clients
    ensures Run(run, capacity, clients, haircuts) && Shape(run[|run| - 1])
    ensures TakesInvitedSeat(run[|run| - 1], 0, 0, capacity)
    ensures run[|run| - 1].clients[0].pc == CWaitSeat(0) && run[|run| - 1].room.seats[0].waiting == 1
    ensures Poised(run[|run| - 1], capacity)
  {
    run := FillSeats(capacity, clients, haircuts, capacity);
    run := ExtendBarber(run, capacity, clients, haircuts);
    run := ExtendBarber(run, capacity, clients, haircuts);
    run := ExtendBarber(run, capacity, clients, haircuts);
    run := ExtendBarber(run, capacity, clients, haircuts);
    run := ExtendClient(run, capacity, clients, haircuts, capacity);
  }

  lemma NoSeatNoPush(run: seq<State>, clients: nat, haircuts: nat, n: nat)
    requires Run(run, 0, clients, haircuts) && n < |run|
    ensures |run[n].room.seats| == 0
  {
    if n > 0 {
      NoSeatNoPush(run, clients, haircuts, n - 1);
      assert Shape(run[n - 1]) && Next(run[n - 1], run[n - 1 + 1]);
      NextKeepsShape(run[n - 1], run[n]);
    }
  }

  /** No push takes the seat of an invited client if and only if there is a seat for each client, or none at all. */
  lemma InvitedSeatsAreSafeIff(capacity: nat, clients: nat, haircuts: nat)
    requires 0 < haircuts
    ensures capacity == 0 || clients <= capacity <==>
            forall run, n, c, k, i :: Run(run, capacity, clients, haircuts) && 0 <= n < |run| ==>
                                        !TakesInvitedSeat(run[n], c, k, i)
  {
    if 0 < capacity < clients {
      var run := TakeInvitedSeat(capacity, clients, haircuts);
      assert 0 <= |run| - 1 < |run| && TakesInvitedSeat(run[|run| - 1], 0, 0, capacity);
    } else {
      forall run, n, c, k, i | Run(run, capacity, clients, haircuts) && 0 <= n < |run|
        ensures !TakesInvitedSeat(run[n], c, k, i)
      {
        if TakesInvitedSeat(run[n], c, k, i) {
          if capacity == 0 {
            NoSeatNoPush(run, clients, haircuts, n);
          } else {
            SafeWithSeats(run, capacity, clients, haircuts, n, c, k, i);
          }
        }
      }
    }
  }

  lemma SafeWithSeats(run: seq<State>, capacity: nat, clients: nat, haircuts: nat, n: nat, c: nat, k: nat, i: nat)
    requires clients <= capacity && Run(run, capacity, clients, haircuts) && n < |run|
    ensures !TakesInvitedSeat(run[n], c, k, i)
  {
    EnoughSeats(run, capacity, clients, haircuts, n + 1);
    RoomyRun(run, capacity, clients, haircuts, n);
    RunKeepsInv(run, capacity, clients, haircuts, n);
    RoomyIsSafe(run[n]);
  }

  // ----- deadlock -----

  /** With every seat taken and one of them twice, the shop is jammed. */
  lemma Jam(capacity: nat, clients: nat, haircuts: nat) returns (run: seq<State>)
    requires 0 < haircuts && 0 < capacity < clients
    ensures Run(run, capacity, clients, haircuts) && Shape(run[|run| - 1]) && Jammed(run[|run| - 1])
  {
    run := TakeInvitedSeat(capacity, clients, haircuts);
    run := ExtendClient(run, capacity, clients, haircuts, capacity);
    run := ExtendClient(run, capacity, clients, haircuts, capacity);
    run := ExtendClient(run, capacity, clients, haircuts, capacity);
  }

  /** A run that is over, with the barber asleep and every client served or gone. */
  ghost predicate EndsQuietly(run: seq<State>, haircuts: nat)
    requires |run| > 0
  {
    var last := run[|run| - 1];
    Shape(last) && (Stuck(last) ==> Quiet(last, haircuts))
  }

  /** The shop cannot deadlock if and only if there is a seat for each client, or none at all. */
  lemma NoDeadlockIff(capacity: nat, clients: nat, haircuts: nat)
    requires 0 < haircuts
    ensures capacity == 0 || clients <= capacity <==>
            forall run :: Run(run, capacity, clients, haircuts) ==> EndsQuietly(run, haircuts)
  {
    if 0 < capacity < clients {
      var run := Jam(capacity, clients, haircuts);
      run := RunOut(run, capacity, clients, haircuts);
      assert !EndsQuietly(run, haircuts);
    } else {
      forall run | Run(run, capacity, clients, haircuts) ensures EndsQuietly(run, haircuts) {
        AlwaysSafe(run, capacity, clients, haircuts);
        SafeRunEndsQuietly(run, capacity, clients, haircuts);
      }
    }
  }

  lemma AlwaysSafe(run: seq<State>, capacity: nat, clients: nat, haircuts: nat)
    requires 0 < haircuts && (capacity == 0 || clients <= capacity) && Run(run, capacity, clients, haircuts)
    ensures SafeUpTo(run, |run| - 1)
  {
    InvitedSeatsAreSafeIff(capacity, clients, haircuts);
  }
}
