/** Whose the semaphores of the seats are: which exist, in every state of a run, and that none is left behind. */
module BarberSeats {
  import opened Counting
  import opened WaitingRoom
  import opened Barber
  import opened BarberSafety
  import opened BarberTheorems

  /** The client has made seat k its own and has not deleted it yet. */
  ghost predicate SitsOn(pc: ClientPc, k: nat) {
    pc == CUnlockQueued(k) || pc == CWaitSeat(k) || pc == CSit(k) || pc == CDelete(k)
  }

  ghost predicate SomebodyOn(s: State, k: nat) {
    exists i :: 0 <= i < |s.clients| && SitsOn(s.clients[i].pc, k)
  }

  ghost predicate SomebodyInTheChair(s: State) {
    exists i :: 0 <= i < |s.clients| && Seated(s.clients[i].pc)
  }

  // ----- a semaphore that exists has somebody on its seat -----

  ghost predicate LiveSeatsAreHeld(s: State) {
    forall k: nat :: k < |s.room.seats| && s.room.seats[k].live ==> SomebodyOn(s, k)
  }

  lemma BarberKeepsHeld(s: State)
    requires Shape(s) && BarberEnabled(s) && LiveSeatsAreHeld(s)
    ensures LiveSeatsAreHeld(BarberStep(s))
  {
    var t := BarberStep(s);
    BarberKeepsShape(s);
    forall k: nat | k < |t.room.seats| && t.room.seats[k].live ensures SomebodyOn(t, k) {
      assert s.room.seats[k].live;
      var i :| 0 <= i < |s.clients| && SitsOn(s.clients[i].pc, k);
      assert SitsOn(t.clients[i].pc, k);
    }
  }

  /** A client that leaves a seat deletes it, and one that makes a semaphore stays on the seat. */
  lemma OwnSeatIsHeld(s: State, i: nat, k: nat)
    requires Shape(s) && i < |s.clients| && ClientEnabled(s, i) && k < |s.room.seats|
    ensures k < |ClientStep(s, i).room.seats| && i < |ClientStep(s, i).clients|
    ensures var p, t := s.clients[i].pc, ClientStep(s, i);
      t.room.seats[k].live ==> SitsOn(t.clients[i].pc, k) || (s.room.seats[k].live && !SitsOn(p, k))
  {
    ClientKeepsShape(s, i);
    if s.clients[i].pc.CLook? {
      ClientLookFrame(s, i);
    }
  }

  lemma ClientKeepsHeld(s: State, i: nat)
    requires Shape(s) && i < |s.clients| && ClientEnabled(s, i) && LiveSeatsAreHeld(s)
    ensures LiveSeatsAreHeld(ClientStep(s, i))
  {
    var t := ClientStep(s, i);
    ClientKeepsShape(s, i);
    ClientIsLocal(s, i);
    forall k: nat | k < |t.room.seats| && t.room.seats[k].live ensures SomebodyOn(t, k) {
      OwnSeatIsHeld(s, i, k);
      if !SitsOn(t.clients[i].pc, k) {
        var j :| 0 <= j < |s.clients| && SitsOn(s.clients[j].pc, k);
        assert SitsOn(t.clients[j].pc, k);
      }
    }
  }

  lemma {:induction false} RunKeepsHeld(run: seq<State>, capacity: nat, clients: nat, haircuts: nat, n: nat)
    requires Run(run, capacity, clients, haircuts) && n < |run|
    ensures LiveSeatsAreHeld(run[n])
  {
    if n > 0 {
      RunKeepsHeld(run, capacity, clients, haircuts, n - 1);
      RunStep(run, capacity, clients, haircuts, n - 1);
      var s, t := run[n - 1], run[n];
      if BarberEnabled(s) && t == BarberStep(s) {
        BarberKeepsHeld(s);
      } else {
        var i: nat :| i < |s.clients| && ClientEnabled(s, i) && t == ClientStep(s, i);
        ClientKeepsHeld(s, i);
      }
    }
  }

  // ----- and who is on a seat has its semaphore -----

  lemma HeldSeatsAreLive(s: State, i: nat, k: nat)
    requires Inv(s) && i < |s.clients| && SitsOn(s.clients[i].pc, k)
    ensures k < |s.room.seats| && s.room.seats[k].live && s.room.seats[k].taken && s.room.seats[k].pid == i
    ensures i == Customer(s) ==> JustPopped(s, k)
    ensures i != Customer(s) ==> InQueue(s, i, k) && !JustPopped(s, k)
  {
    assert i == Customer(s) || Outsider(s, i);
  }

  /** What is about to become a client's seat has no semaphore that could get lost. */
  lemma NewSeatsAreFree(s: State, i: nat, k: nat)
    requires Inv(s) && LiveSeatsAreHeld(s) && i < |s.clients| && s.clients[i].pc == CInit(k)
    ensures k < |s.room.seats| && !s.room.seats[k].live
  {
    assert i == Customer(s) || Outsider(s, i);
    if s.room.seats[k].live {
      var j :| 0 <= j < |s.clients| && SitsOn(s.clients[j].pc, k);
      HeldSeatsAreLive(s, j, k);
      OwnSeat(s, i);
    }
  }

  /** A seat has a semaphore exactly while one client is on it, and is about to get one only when it has none. */
  ghost predicate SeatsOwned(s: State) {
    && (forall k: nat :: k < |s.room.seats| ==> (s.room.seats[k].live <==> SomebodyOn(s, k)))
    && (forall i, k: nat :: 0 <= i < |s.clients| && SitsOn(s.clients[i].pc, k) ==>
          k < |s.room.seats| && s.room.seats[k].taken && s.room.seats[k].pid == i)
    && (forall i, j, k: nat :: 0 <= i < j < |s.clients| && SitsOn(s.clients[i].pc, k) ==> !SitsOn(s.clients[j].pc, k))
    && (forall i, k: nat :: 0 <= i < |s.clients| && s.clients[i].pc == CInit(k) ==>
          k < |s.room.seats| && !s.room.seats[k].live)
  }

  /** The same for the chair, which is empty while nobody sits in it. */
  ghost predicate ChairOwned(s: State) {
    && s.chair.live == s.chair.taken == SomebodyInTheChair(s)
    && s.chair.waiting == 0 && (!s.chair.taken ==> s.chair.pid == -1)
    && (forall i :: 0 <= i < |s.clients| && Seated(s.clients[i].pc) ==> s.chair.pid == i)
    && (forall i :: 0 <= i < |s.clients| && (s.clients[i].pc.CSit? || s.clients[i].pc.CSitWoke?) ==> !s.chair.live)
  }

  lemma ChairIsTheCustomers(s: State)
    requires Inv(s)
    ensures ChairOwned(s)
  {
    forall i | 0 <= i < |s.clients|
      ensures i == Customer(s) || !(Seated(s.clients[i].pc) || s.clients[i].pc.CSit? || s.clients[i].pc.CSitWoke?)
    {
      assert i == Customer(s) || Outsider(s, i);
    }
  }

  lemma SeatsAreTheirOwners(s: State)
    requires Inv(s) && LiveSeatsAreHeld(s)
    ensures SeatsOwned(s)
  {
    forall i, k: nat | 0 <= i < |s.clients| && SitsOn(s.clients[i].pc, k)
      ensures k < |s.room.seats| && s.room.seats[k].live && s.room.seats[k].taken && s.room.seats[k].pid == i
    {
      HeldSeatsAreLive(s, i, k);
    }
    forall i, j, k: nat | 0 <= i < j < |s.clients| && SitsOn(s.clients[i].pc, k) ensures !SitsOn(s.clients[j].pc, k) {
      assert s.room.seats[k].pid == i;
    }
    forall i, k: nat | 0 <= i < |s.clients| && s.clients[i].pc == CInit(k)
      ensures k < |s.room.seats| && !s.room.seats[k].live
    {
      NewSeatsAreFree(s, i, k);
    }
  }

  /** In every state a seat has a semaphore exactly while one client is on it, between its new_seat and its
      delete_seat, and the chair exactly while somebody sits in it. No new_seat meets a seat that still has one. */
  lemma SemaphoresAreHeld(run: seq<State>, capacity: nat, clients: nat, haircuts: nat, n: nat)
    requires Run(run, capacity, clients, haircuts) && n < |run| && SafeUpTo(run, n)
    ensures SeatsOwned(run[n]) && ChairOwned(run[n])
  {
    RunKeepsInv(run, capacity, clients, haircuts, n);
    RunKeepsHeld(run, capacity, clients, haircuts, n);
    ChairIsTheCustomers(run[n]);
    SeatsAreTheirOwners(run[n]);
  }

  /** Whoever sits down in the chair does so on a new seat with a semaphore of its own, and the barber cuts the one
      who sits there: this does not depend on the number of seats. */
  lemma ChairIsTakenAnew(s: State, i: nat)
    requires Shape(s) && i < |s.clients| && (s.clients[i].pc.CSit? || s.clients[i].pc.CSitWoke?)
    ensures ClientStep(s, i).chair == Seat(true, i, 0, true)
    ensures s.barber.BCut? ==> BarberStep(s).cuts == s.cuts + [s.chair.pid]
  {
    ClientKeepsShape(s, i);
  }

  /** A run that cannot go on has removed every semaphore that a client has made. */
  lemma NoSemaphoreIsLeft(run: seq<State>, capacity: nat, clients: nat, haircuts: nat)
    requires Run(run, capacity, clients, haircuts) && SafeUpTo(run, |run| - 1)
    ensures var last := run[|run| - 1]; Shape(last) && (Stuck(last) ==>
              !last.chair.live && forall k :: 0 <= k < |last.room.seats| ==> !last.room.seats[k].live)
  {
    var last := run[|run| - 1];
    SafeRunEndsQuietly(run, capacity, clients, haircuts);
    SemaphoresAreHeld(run, capacity, clients, haircuts, |run| - 1);
    if Stuck(last) {
      assert forall i :: 0 <= i < |last.clients| ==> last.clients[i].pc.CLock? || last.clients[i].pc.CGone?;
      assert forall k: nat :: k < |last.room.seats| ==> !SomebodyOn(last, k);
    }
  }
}
