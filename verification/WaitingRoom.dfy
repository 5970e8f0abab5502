/** The ring of seats of the waiting room, as values and as the shared memory it lives in. */
module WaitingRoom {
  import opened Counting

  // The value of the semaphore `waiting` is a number; `live` says that the semaphore exists
  // (created by new_seat and not yet removed by delete_seat).
  datatype Seat = Seat(taken: bool, pid: int, waiting: nat, live: bool)

  function NewSeat(pid: int): Seat {
    Seat(true, pid, 0, true)
  }

  function EmptySeat(): Seat {
    Seat(false, -1, 0, false)
  }

  /** What System V does in delete_seat; the POSIX build leaves the semaphore alone. */
  function DeleteSeat(seat: Seat): Seat {
    seat.(live := false)
  }

  datatype Room = Room(seats: seq<Seat>, count: nat, start: nat, end: nat) {
    ghost predicate Valid() {
      && count <= |seats|
      && (|seats| > 0 ==> start < |seats| && end == At(count))
    }

    /** The seat that is j places behind the head of the queue. */
    function At(j: nat): (k: nat)
      requires start < |seats| && j <= |seats|
      ensures k < |seats|
    {
      Around(start, j, |seats|)
    }

    /** The place in the queue that seat k has, or would have. */
    function Place(k: nat): (j: nat)
      requires start < |seats| && k < |seats|
      ensures j < |seats| && At(j) == k
    {
      if k >= start then k - start else k + |seats| - start
    }

    /** The seats in use by the queue, first come first. */
    function Queue(): (q: seq<nat>)
      requires Valid()
    {
      seq(count, j requires 0 <= j < count => At(j))
    }

    predicate Full() { count >= |seats| }

    function Popped(): (r: Room)
      requires Valid() && count > 0
    {
      Room(seats, count - 1, (start + 1) % |seats|, end)
    }

    function Pushed(): (r: Room)
      requires Valid() && !Full()
    {
      Room(seats, count + 1, start, (end + 1) % |seats|)
    }
  }

  function InitialRoom(capacity: nat): Room {
    Room(seq(capacity, _ => EmptySeat()), 0, 0, 0)
  }

  lemma PopTakesTheFirst(r: Room)
    requires r.Valid() && r.count > 0
    ensures r.Popped().Valid()
    ensures r.Queue() == [r.start] + r.Popped().Queue()
    ensures r.start !in r.Popped().Queue()
    ensures r.start == r.Popped().At(|r.seats| - 1)
    ensures r.Popped().start == (if r.start + 1 < |r.seats| then r.start + 1 else 0)
  {
    WrapOnce(r.start, 1, |r.seats|);
  }

  lemma PushTakesAFreeSeat(r: Room)
    requires r.Valid() && !r.Full()
    ensures r.Pushed().Valid()
    ensures r.Pushed().Queue() == r.Queue() + [r.end]
    ensures r.end < |r.seats| && r.Place(r.end) == r.count
    ensures r.end !in r.Queue()
  {
    WrapOnce(r.end, 1, |r.seats|);
  }

  /** The shared memory: the fields of `struct barber_shop_mem` that make up the waiting room. */
  class SharedRoom {
    var waiting_room: array<Seat>
    var wr_count: int
    var wr_start: int
    var wr_end: int

    ghost predicate Valid()
      reads this, waiting_room
    {
      0 <= wr_count && 0 <= wr_start && 0 <= wr_end && View().Valid()
    }

    ghost function View(): Room
      requires 0 <= wr_count && 0 <= wr_start && 0 <= wr_end
      reads this, waiting_room
    {
      Room(waiting_room[..], wr_count, wr_start, wr_end)
    }

    constructor (wr_cap: nat)
      ensures Valid() && fresh(waiting_room)
      ensures View() == InitialRoom(wr_cap)
    {
      waiting_room := new Seat[wr_cap](_ => EmptySeat());
      wr_count, wr_start, wr_end := 0, 0, 0;
    }

    /** The seat popped, or -1 for the error return. */
    method Pop() returns (seat: int)
      requires Valid()
      modifies this
      ensures Valid() && waiting_room == old(waiting_room)
      ensures seat == -1 <==> old(View()).Queue() == []
      ensures seat == -1 ==> View() == old(View())
      ensures seat >= 0 ==> old(View()).Queue() == [seat] + View().Queue()
      ensures seat >= 0 ==> seat == old(View()).start && View() == old(View()).Popped()
    {
      if wr_count <= 0 {
        return -1;
      }
      PopTakesTheFirst(View());
      seat := wr_start;
      wr_start := (wr_start + 1) % waiting_room.Length;
      wr_count := wr_count - 1;
    }

    /** The seat to sit on, or -1 for NULL. */
    method Push() returns (seat: int)
      requires Valid()
      modifies this
      ensures Valid() && waiting_room == old(waiting_room)
      ensures seat == -1 <==> |old(View()).Queue()| == waiting_room.Length
      ensures seat == -1 ==> View() == old(View())
      ensures seat >= 0 ==> View().Queue() == old(View()).Queue() + [seat]
      ensures seat >= 0 ==> seat == old(View()).end && View() == old(View()).Pushed()
    {
      if wr_count >= waiting_room.Length {
        return -1;
      }
      PushTakesAFreeSeat(View());
      seat := wr_end;
      wr_end := (wr_end + 1) % waiting_room.Length;
      wr_count := wr_count + 1;
    }
  }
}
