/** op_sort as a function on the file and its two buffers, for files of any length. */
module FileSort {
  import opened StableSort
  import opened RecordFile

  /** The file with the buffers `next` and `inserted`, which nothing initializes. */
  datatype Work = Work(disk: Disk, next: seq<byte>, inserted: seq<byte>)

  predicate Fits(w: Work, size: nat) {
    0 < size && |w.next| == |w.inserted| == size
  }

  /** The row before the cursor, read into `next`. */
  function LookBack(w: Work, size: nat): (r: Work)
    requires Fits(w, size)
    ensures Fits(r, size) && r.inserted == w.inserted && r.disk.bytes == w.disk.bytes
  {
    var at := SoughtBy(w.disk, -1, size);
    w.(disk := AfterRead(at, size), next := Filled(at, w.next))
  }

  /** The row in `next` written one row up, and the cursor back behind the row it came from. */
  function ShiftUp(w: Work, size: nat): (r: Work)
    requires Fits(w, size)
    ensures Fits(r, size) && r.inserted == w.inserted && |r.disk.bytes| >= |w.disk.bytes|
    ensures |r.disk.bytes| >= w.disk.cursor + size
  {
    w.(disk := SoughtBy(Written(w.disk, w.next), -2, size))
  }

  function PutDown(w: Work): (r: Work)
    ensures |r.disk.bytes| >= |w.disk.bytes| && |r.disk.bytes| >= w.disk.cursor + |w.inserted|
  {
    w.(disk := Written(w.disk, w.inserted))
  }

  /** The inner loop and the write behind it: neither makes the file shorter. */
  function Inserted(w: Work, nextPos: nat, size: nat): (r: Work)
    requires Fits(w, size) && 0 < nextPos
    ensures Fits(r, size) && r.inserted == w.inserted && |r.disk.bytes| >= |w.disk.bytes|
    decreases nextPos
  {
    var seen := LookBack(w, size);
    if seen.next[0] > seen.inserted[0] then
      var up := ShiftUp(seen, size);
      if nextPos > 1 then Inserted(up, nextPos - 1, size) else PutDown(up)
    else
      PutDown(seen)
  }

  /** Either way the first write is where the first look back has ended. */
  lemma InsertedReaches(w: Work, nextPos: nat, size: nat)
    requires Fits(w, size) && 0 < nextPos
    ensures |Inserted(w, nextPos, size).disk.bytes| >= LookBack(w, size).disk.cursor + size
  {
  }

  /** Row k read into `inserted`, and the cursor back at its start. */
  function TakeUp(w: Work, k: nat, size: nat): (r: Work)
    requires Fits(w, size)
    ensures Fits(r, size) && r.disk.bytes == w.disk.bytes
  {
    var at := Sought(w.disk, k, size);
    w.(disk := SoughtBy(AfterRead(at, size), -1, size), inserted := Filled(at, w.inserted))
  }

  /** One turn of the outer loop. */
  function Turn(w: Work, k: nat, size: nat): (r: Work)
    requires Fits(w, size) && 0 < k
    ensures Fits(r, size) && |r.disk.bytes| >= |w.disk.bytes|
  {
    Inserted(TakeUp(w, k, size), k, size)
  }

  /** The turns of the outer loop before sorted_end + 1 reaches m. */
  function Sorting(w: Work, m: nat, size: nat): (r: Work)
    requires Fits(w, size)
    ensures Fits(r, size) && |r.disk.bytes| >= |w.disk.bytes|
  {
    if m <= 1 then w else Turn(Sorting(w, m - 1, size), m - 1, size)
  }

  lemma NextTurn(w: Work, s: Work, m: nat, size: nat)
    requires Fits(w, size) && 0 < m && s == Sorting(w, m, size)
    ensures Sorting(w, m + 1, size) == Turn(s, m, size)
  {
  }

  lemma TurnIsNotShorter(w: Work, m: nat, size: nat)
    requires Fits(w, size)
    ensures |Sorting(w, m, size).disk.bytes| <= |Sorting(w, m + 1, size).disk.bytes|
  {
  }

  lemma {:induction false} LongerWithTurns(w: Work, m: nat, n: nat, size: nat)
    requires Fits(w, size) && m <= n
    ensures |Sorting(w, m, size).disk.bytes| <= |Sorting(w, n, size).disk.bytes|
    decreases n - m
  {
    if m != n {
      TurnIsNotShorter(w, m, size);
      LongerWithTurns(w, m + 1, n, size);
    }
  }

  // ----- on the rows of a file that holds them -----

  /** The file holds n rows, and the cursor stands at the start of one. */
  ghost predicate Standing(w: Work, size: nat, n: nat, row: nat) {
    Fits(w, size) && HasRows(w.disk.bytes, size, n) && w.disk.cursor == row * size
  }

  ghost function RowsOf(w: Work, size: nat, n: nat): (rows: seq<Row>)
    requires HasRows(w.disk.bytes, size, n)
    ensures |rows| == n
  {
    Rows(w.disk.bytes, size, n)
  }

  /** Nothing but the rows has changed. */
  ghost predicate OnlyRows(a: Work, b: Work, size: nat, n: nat) {
    && HasRows(a.disk.bytes, size, n) && HasRows(b.disk.bytes, size, n)
    && |a.disk.bytes| == |b.disk.bytes| && Rest(a.disk.bytes, size, n) == Rest(b.disk.bytes, size, n)
  }

  lemma ReadsRow(d: Disk, buffer: seq<byte>, size: nat, n: nat, row: nat)
    requires HasRows(d.bytes, size, n) && row < n && d.cursor == row * size && |buffer| == size
    ensures Filled(d, buffer) == Rows(d.bytes, size, n)[row] && AfterRead(d, size).cursor == (row + 1) * size
  {
    RowFits(d.bytes, size, n, row);
    assert Got(d.bytes, d.cursor, size) == RowAt(d.bytes, size, n, row);
  }

  lemma WritesRow(d: Disk, data: seq<byte>, size: nat, n: nat, row: nat)
    requires HasRows(d.bytes, size, n) && row < n && d.cursor == row * size && |data| == size
    ensures var now := Written(d, data);
      && now.cursor == (row + 1) * size && |now.bytes| == |d.bytes| && HasRows(now.bytes, size, n)
      && Rows(now.bytes, size, n) == Rows(d.bytes, size, n)[row := data]
      && Rest(now.bytes, size, n) == Rest(d.bytes, size, n)
  {
    RowFits(d.bytes, size, n, row);
    OverwriteRow(d.bytes, size, n, row, data);
  }

  lemma StepsBack(d: Disk, size: nat, n: nat, row: nat, back: nat)
    requires HasRows(d.bytes, size, n) && back <= row <= n && d.cursor == row * size
    ensures SoughtBy(d, 0 - back, size) == d.(cursor := (row - back) * size)
  {
    SeekBackLands(size, n, row, back);
  }

  lemma OneRowBack(d: Disk, size: nat)
    requires size <= OFFSET_MAX && d.cursor <= OFFSET_MAX
    ensures SoughtBy(d, -1, size) == if d.cursor >= size then d.(cursor := d.cursor - size) else d
  {
    OffsetIsIntended(-1, size);
  }

  lemma LookBackReads(w: Work, size: nat, n: nat, row: nat)
    requires Standing(w, size, n, row) && 0 < row <= n
    ensures Standing(LookBack(w, size), size, n, row)
    ensures LookBack(w, size).next == RowsOf(w, size, n)[row - 1]
  {
    StepsBack(w.disk, size, n, row, 1);
    ReadsRow(SoughtBy(w.disk, -1, size), w.next, size, n, row - 1);
  }

  lemma ShiftUpWrites(w: Work, size: nat, n: nat, row: nat)
    requires Standing(w, size, n, row) && 0 < row < n
    ensures Standing(ShiftUp(w, size), size, n, row - 1) && OnlyRows(w, ShiftUp(w, size), size, n)
    ensures RowsOf(ShiftUp(w, size), size, n) == RowsOf(w, size, n)[row := w.next]
  {
    WritesRow(w.disk, w.next, size, n, row);
    StepsBack(Written(w.disk, w.next), size, n, row + 1, 2);
  }

  lemma PutDownWrites(w: Work, size: nat, n: nat, row: nat)
    requires Standing(w, size, n, row) && row < n
    ensures OnlyRows(w, PutDown(w), size, n)
    ensures RowsOf(PutDown(w), size, n) == RowsOf(w, size, n)[row := w.inserted]
  {
    WritesRow(w.disk, w.inserted, size, n, row);
  }

  /** A row copied up into the hole takes the hole down by one. */
  lemma HoleMoves(rows: seq<Row>, x: Row, hole: nat, p: nat)
    requires p < hole < |rows|
    ensures Moved(rows[hole := rows[hole - 1]][hole - 1 := x], hole - 1, p) == Moved(rows[hole := x], hole, p)
  {
  }

  /** What the inner loop leaves when it put the row in hand, x, into row `hole` and then to its place. */
  ghost predicate PutInPlace(w: Work, r: Work, size: nat, n: nat, hole: nat, place: nat)
    requires HasRows(w.disk.bytes, size, n) && |w.inserted| == size && hole < n
  {
    && OnlyRows(w, r, size, n)
    && Place(RowsOf(w, size, n)[hole := w.inserted], hole, place)
    && RowsOf(r, size, n) == Moved(RowsOf(w, size, n)[hole := w.inserted], hole, place)
  }

  lemma PutDownHere(w: Work, size: nat, n: nat, row: nat)
    requires Standing(w, size, n, row) && row < n
    requires row > 0 ==> RowsOf(w, size, n)[row - 1][0] <= w.inserted[0]
    ensures PutInPlace(w, PutDown(w), size, n, row, row)
  {
    PutDownWrites(w, size, n, row);
  }

  lemma ShiftedFirst(w: Work, up: Work, r: Work, size: nat, n: nat, hole: nat, place: nat)
    requires HasRows(w.disk.bytes, size, n) && |w.inserted| == size && 0 < hole < n
    requires RowsOf(w, size, n)[hole - 1][0] > w.inserted[0] && up.inserted == w.inserted && OnlyRows(w, up, size, n)
    requires RowsOf(up, size, n) == RowsOf(w, size, n)[hole := RowsOf(w, size, n)[hole - 1]]
    requires PutInPlace(up, r, size, n, hole - 1, place)
    ensures PutInPlace(w, r, size, n, hole, place)
  {
    var rows := RowsOf(w, size, n);
    HoleMoves(rows, w.inserted, hole, place);
    ShiftedPlace(rows, w.inserted, hole, place);
  }

  /** r is what the inner loop and the write behind it make of w. */
  ghost predicate LoopMakes(w: Work, r: Work, nextPos: nat, size: nat) {
    Fits(w, size) && 0 < nextPos && r == Inserted(w, nextPos, size)
  }

  lemma LoopsOn(w: Work, r: Work, nextPos: nat, size: nat)
    requires LoopMakes(w, r, nextPos, size) && 1 < nextPos && LookBack(w, size).next[0] > w.inserted[0]
    ensures LoopMakes(ShiftUp(LookBack(w, size), size), r, nextPos - 1, size)
  {
  }

  lemma LoopEnds(w: Work, r: Work, nextPos: nat, size: nat)
    requires LoopMakes(w, r, nextPos, size) && LookBack(w, size).next[0] <= w.inserted[0]
    ensures r == PutDown(LookBack(w, size))
  {
  }

  lemma LoopRunsOut(w: Work, r: Work, size: nat)
    requires LoopMakes(w, r, 1, size) && LookBack(w, size).next[0] > w.inserted[0]
    ensures r == PutDown(ShiftUp(LookBack(w, size), size))
  {
  }

  lemma StaysHere(w: Work, r: Work, nextPos: nat, size: nat, n: nat, row: nat)
    requires Standing(w, size, n, row) && 0 < row < n && LoopMakes(w, r, nextPos, size)
    requires RowsOf(w, size, n)[row - 1][0] <= w.inserted[0]
    ensures PutInPlace(w, r, size, n, row, row)
  {
    LookBackReads(w, size, n, row);
    LoopEnds(w, r, nextPos, size);
    PutDownHere(LookBack(w, size), size, n, row);
  }

  /** The row before the hole is greater: it goes up. */
  lemma GoesUp(w: Work, size: nat, n: nat, row: nat) returns (up: Work)
    requires Standing(w, size, n, row) && 0 < row < n
    requires RowsOf(w, size, n)[row - 1][0] > w.inserted[0]
    ensures up == ShiftUp(LookBack(w, size), size) && LookBack(w, size).next[0] > w.inserted[0]
    ensures Standing(up, size, n, row - 1) && OnlyRows(w, up, size, n) && up.inserted == w.inserted
    ensures RowsOf(up, size, n) == RowsOf(w, size, n)[row := RowsOf(w, size, n)[row - 1]]
  {
    LookBackReads(w, size, n, row);
    var seen := LookBack(w, size);
    ShiftUpWrites(seen, size, n, row);
    up := ShiftUp(seen, size);
  }

  lemma GoesToTheFront(w: Work, r: Work, size: nat, n: nat)
    requires Standing(w, size, n, 1) && 1 < n && RowsOf(w, size, n)[0][0] > w.inserted[0]
    requires LoopMakes(w, r, 1, size)
    ensures PutInPlace(w, r, size, n, 1, 0)
  {
    var up := GoesUp(w, size, n, 1);
    LoopRunsOut(w, r, size);
    PutDownHere(up, size, n, 0);
    ShiftedFirst(w, up, PutDown(up), size, n, 1, 0);
  }

  lemma FrontReads(w: Work, size: nat, n: nat)
    requires Standing(w, size, n, 0) && 1 < n
    ensures Standing(LookBack(w, size), size, n, 1) && LookBack(w, size).next == RowsOf(w, size, n)[0]
  {
    RowFits(w.disk.bytes, size, n, 0);
    OneRowBack(w.disk, size);
    ReadsRow(w.disk, w.next, size, n, 0);
  }

  /** With the counter one ahead, the first row is compared once more, and written where it has just been. */
  lemma GoesPastTheFront(w: Work, r: Work, size: nat, n: nat)
    requires Standing(w, size, n, 1) && 1 < n && RowsOf(w, size, n)[0][0] > w.inserted[0]
    requires LoopMakes(w, r, 2, size)
    ensures PutInPlace(w, r, size, n, 1, 0)
  {
    var first := GoesUp(w, size, n, 1);
    LoopsOn(w, r, 2, size);
    FrontReads(first, size, n);
    PastTheFront(w, first, r, size, n);
  }

  lemma PastTheFront(w: Work, first: Work, r: Work, size: nat, n: nat)
    requires Standing(w, size, n, 1) && 1 < n && RowsOf(w, size, n)[0][0] > w.inserted[0]
    requires Standing(first, size, n, 0) && OnlyRows(w, first, size, n) && first.inserted == w.inserted
    requires RowsOf(first, size, n) == RowsOf(w, size, n)[1 := RowsOf(w, size, n)[0]]
    requires Standing(LookBack(first, size), size, n, 1) && LookBack(first, size).next == RowsOf(first, size, n)[0]
    requires LoopMakes(first, r, 1, size)
    ensures PutInPlace(w, r, size, n, 1, 0)
  {
    var seen := LookBack(first, size);
    ShiftUpWrites(seen, size, n, 1);
    var up := ShiftUp(seen, size);
    LoopRunsOut(first, r, size);
    PutDownHere(up, size, n, 0);
    ShiftedFirst(w, up, PutDown(up), size, n, 1, 0);
  }

  /** The inner loop puts the row in hand into its place, also when its counter is one ahead of the cursor. */
  lemma {:induction false} InsertedMoves(w: Work, r: Work, nextPos: nat, size: nat, n: nat, row: nat)
    returns (place: nat)
    requires Standing(w, size, n, row) && 0 < row < n
    requires nextPos == row || nextPos == row + 1
    requires LoopMakes(w, r, nextPos, size)
    ensures PutInPlace(w, r, size, n, row, place)
    decreases nextPos
  {
    if RowsOf(w, size, n)[row - 1][0] <= w.inserted[0] {
      place := row;
      StaysHere(w, r, nextPos, size, n, row);
    } else if row == 1 {
      place := 0;
      if nextPos == 1 {
        GoesToTheFront(w, r, size, n);
      } else {
        GoesPastTheFront(w, r, size, n);
      }
    } else {
      var up := GoesUp(w, size, n, row);
      LoopsOn(w, r, nextPos, size);
      place := InsertedMoves(up, r, nextPos - 1, size, n, row - 1);
      ShiftedFirst(w, up, r, size, n, row, place);
    }
  }

  lemma ShiftedPlace(rows: seq<Row>, x: Row, hole: nat, p: nat)
    requires 0 < hole < |rows| && rows[hole - 1][0] > x[0]
    requires Place(rows[hole := rows[hole - 1]][hole - 1 := x], hole - 1, p)
    ensures Place(rows[hole := x], hole, p)
  {
    var below := rows[hole := rows[hole - 1]][hole - 1 := x];
    assert forall i :: 0 <= i < hole - 1 ==> below[i] == rows[i];
  }

  lemma TakesUp(w: Work, k: nat, size: nat, n: nat)
    requires Fits(w, size) && HasRows(w.disk.bytes, size, n) && k < n
    ensures Standing(TakeUp(w, k, size), size, n, k) && TakeUp(w, k, size).inserted == RowsOf(w, size, n)[k]
  {
    SeekLands(size, n, k);
    var at := Sought(w.disk, k, size);
    ReadsRow(at, w.inserted, size, n, k);
    StepsBack(AfterRead(at, size), size, n, k + 1, 1);
  }

  lemma TurnMoves(w: Work, k: nat, size: nat, n: nat) returns (place: nat)
    requires Fits(w, size) && HasRows(w.disk.bytes, size, n) && 0 < k < n
    ensures OnlyRows(w, Turn(w, k, size), size, n) && Place(RowsOf(w, size, n), k, place)
    ensures RowsOf(Turn(w, k, size), size, n) == Moved(RowsOf(w, size, n), k, place)
    ensures Turn(w, k, size).inserted == RowsOf(w, size, n)[k]
  {
    TakesUp(w, k, size, n);
    var rows := RowsOf(w, size, n);
    assert rows[k := rows[k]] == rows;
    place := InsertedMoves(TakeUp(w, k, size), Turn(w, k, size), k, size, n, k);
  }

  /** The rows before m are sorted, stably, the others are as they were, and the last one taken up is row m - 1. */
  ghost predicate SortedSoFar(w: Work, r: Work, m: nat, size: nat, n: nat)
    requires m <= n
  {
    && OnlyRows(w, r, size, n)
    && SortedTo(RowsOf(r, size, n), m) && Stable(RowsOf(w, size, n), RowsOf(r, size, n))
    && (forall i :: m <= i < n && 0 < i ==> RowsOf(r, size, n)[i] == RowsOf(w, size, n)[i])
    && (m > 1 ==> r.inserted == RowsOf(w, size, n)[m - 1])
  }

  lemma SortsOneMore(w: Work, s: Work, r: Work, m: nat, size: nat, n: nat, place: nat)
    requires 0 < m < n && SortedSoFar(w, s, m, size, n) && OnlyRows(s, r, size, n)
    requires Place(RowsOf(s, size, n), m, place)
    requires RowsOf(r, size, n) == Moved(RowsOf(s, size, n), m, place) && r.inserted == RowsOf(s, size, n)[m]
    ensures SortedSoFar(w, r, m + 1, size, n)
  {
    MovedIsSorted(RowsOf(s, size, n), m, place);
    MovedIsStable(RowsOf(s, size, n), m, place);
  }

  lemma {:induction false} SortingSorts(w: Work, m: nat, size: nat, n: nat)
    requires Fits(w, size) && HasRows(w.disk.bytes, size, n) && m <= n
    ensures SortedSoFar(w, Sorting(w, m, size), m, size, n)
  {
    if m > 1 {
      SortingSorts(w, m - 1, size, n);
      var s := Sorting(w, m - 1, size);
      var place := TurnMoves(s, m - 1, size, n);
      SortsOneMore(w, s, Turn(s, m - 1, size), m - 1, size, n, place);
    }
  }
}
