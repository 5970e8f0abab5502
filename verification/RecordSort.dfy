/** op_sort: insertion sort of the records of a file, all through reads, writes and seeks. */
module RecordSort {
  import opened StableSort
  import opened RecordFile
  import opened FileSort

  function WorkOn(file: File, next: array<byte>, inserted: array<byte>): Work
    reads file, next, inserted
  {
    Work(file.Now(), next[..], inserted[..])
  }

  /** Row k goes to `inserted`, and the cursor back to its start. */
  method TakeRow(file: File, ghost next: array<byte>, inserted: array<byte>, k: nat, size: nat)
    requires 0 < size && next.Length == inserted.Length == size && next != inserted
    modifies file`cursor, inserted
    ensures WorkOn(file, next, inserted) == TakeUp(old(WorkOn(file, next, inserted)), k, size)
  {
    file.SeekRow(k, size);
    file.Read(inserted);
    file.SeekRowRel(-1, size);
  }

  /** The inner loop: shifts greater rows up behind the row in `inserted`, and writes that into the hole. */
  method InsertRow(file: File, next: array<byte>, inserted: array<byte>, k: nat, size: nat)
    requires 0 < k && 0 < size && next.Length == inserted.Length == size && next != inserted
    modifies file, next
    ensures WorkOn(file, next, inserted) == Inserted(old(WorkOn(file, next, inserted)), k, size)
  {
    ghost var w := WorkOn(file, next, inserted);
    var nextPos := k;
    while true
      invariant 0 < nextPos <= k
      invariant Inserted(WorkOn(file, next, inserted), nextPos, size) == Inserted(w, k, size)
      decreases nextPos
    {
      ghost var was := WorkOn(file, next, inserted);
      file.SeekRowRel(-1, size);
      file.Read(next);
      ghost var seen := WorkOn(file, next, inserted);
      assert seen == LookBack(was, size);
      if next[0] > inserted[0] {
        file.Write(next);
        file.SeekRowRel(-2, size);
        assert WorkOn(file, next, inserted) == ShiftUp(seen, size);
        nextPos := nextPos - 1;
      } else {
        break;
      }
      if !(nextPos > 0) {
        break;
      }
    }
    file.Write(inserted);
  }

  /** The work in the course of the outer loop, by sorted_end + 1. */
  type Course = nat -> Work

  ghost predicate Turns(course: Course, count: nat, size: nat) {
    forall k: nat {:trigger Turn(course(k), k, size)} :: 0 < k < count ==>
      Fits(course(k), size) && course(k + 1) == Turn(course(k), k, size)
  }

  /** The body of the outer loop. */
  method PlaceRow(file: File, next: array<byte>, inserted: array<byte>, k: nat, size: nat,
      ghost course: Course, ghost count: nat)
    requires 0 < k < count && 0 < size && next.Length == inserted.Length == size && next != inserted
    requires Turns(course, count, size) && WorkOn(file, next, inserted) == course(k)
    modifies file, next, inserted
    ensures WorkOn(file, next, inserted) == course(k + 1)
  {
    assert WorkOn(file, next, inserted) == course(k);
    ghost var w := Turn(course(k), k, size);
    TakeRow(file, next, inserted, k, size);
    InsertRow(file, next, inserted, k, size);
  }

  /** The outer loop: it ends at once or with the count. */
  method SortRows(file: File, next: array<byte>, inserted: array<byte>, count: nat, size: nat, ghost course: Course)
    requires 0 < size && next.Length == inserted.Length == size && next != inserted
    requires Turns(course, count, size) && WorkOn(file, next, inserted) == course(1)
    modifies file, next, inserted
    ensures WorkOn(file, next, inserted) == course(if count > 1 then count else 1)
  {
    var sortedEnd := 0;
    while sortedEnd + 1 < count
      invariant sortedEnd == 0 || sortedEnd < count
      invariant WorkOn(file, next, inserted) == course(sortedEnd + 1)
    {
      PlaceRow(file, next, inserted, sortedEnd + 1, size, course, count);
      sortedEnd := sortedEnd + 1;
    }
  }

  /** The rows are sorted, those with equal keys in their old order; none is lost, and nothing else has changed. */
  ghost predicate SortedRows(was: seq<byte>, now: seq<byte>, size: nat, count: nat) {
    && HasRows(was, size, count) && HasRows(now, size, count) && |was| == |now|
    && SortedTo(Rows(now, size, count), count) && Stable(Rows(was, size, count), Rows(now, size, count))
    && Rest(was, size, count) == Rest(now, size, count)
  }

  /** What sorting makes of the file, whatever its length; and of one that holds the rows. */
  ghost predicate Sorts(start: Work, now: Disk, count: nat, size: nat)
    requires Fits(start, size)
  {
    && now == Sorting(start, count, size).disk
    && (HasRows(start.disk.bytes, size, count) ==> SortedRows(start.disk.bytes, now.bytes, size, count))
  }

  lemma SortingIsSorted(start: Work, count: nat, size: nat)
    requires Fits(start, size)
    ensures Sorts(start, Sorting(start, count, size).disk, count, size)
  {
    if HasRows(start.disk.bytes, size, count) {
      SortingSorts(start, count, size, count);
    }
  }

  lemma CourseOf(start: Work, count: nat, size: nat) returns (course: Course)
    requires Fits(start, size)
    ensures Turns(course, count, size) && course(1) == start
    ensures Sorts(start, course(if count > 1 then count else 1).disk, count, size)
  {
    course := (m: nat) => if Fits(start, size) then Sorting(start, m, size) else start;
    forall k: nat | 0 < k < count ensures course(k + 1) == Turn(course(k), k, size) {
      NextTurn(start, course(k), k, size);
    }
    SortingIsSorted(start, count, size);
  }

  /** Sorts the file; `start` is the work with the buffers as they come. */
  method OpSort(file: File, count: nat, size: nat) returns (ghost start: Work)
    requires 0 < size
    modifies file
    ensures Fits(start, size) && start.disk == old(file.Now()) && Sorts(start, file.Now(), count, size)
  {
    var next, inserted := new byte[size], new byte[size];
    start := WorkOn(file, next, inserted);
    ghost var course := CourseOf(start, count, size);
    SortRows(file, next, inserted, count, size, course);
  }
}
