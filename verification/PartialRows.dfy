/** What op_sort does to a file with a part of a record at its end, when it is asked for one record too many. */
module PartialRows {
  import opened StableSort
  import opened RecordFile
  import opened FileSort
  import opened ShortFiles

  // ----- the file without its first bytes -----

  function DiskFrom(d: Disk, p: nat): Disk
    requires p <= |d.bytes| && p <= d.cursor
  {
    Disk(d.bytes[p..], d.cursor - p)
  }

  function From(w: Work, p: nat): Work
    requires p <= |w.disk.bytes| && p <= w.disk.cursor
  {
    w.(disk := DiskFrom(w.disk, p))
  }

  lemma ReadsFrom(d: Disk, buffer: seq<byte>, p: nat)
    requires p <= |d.bytes| && p <= d.cursor
    ensures Filled(DiskFrom(d, p), buffer) == Filled(d, buffer)
    ensures AfterRead(DiskFrom(d, p), |buffer|) == DiskFrom(AfterRead(d, |buffer|), p)
  {
    GotFrom(d.bytes, d.cursor, |buffer|, p);
  }

  lemma GotFrom(bytes: seq<byte>, at: nat, n: nat, p: nat)
    requires p <= at && p <= |bytes|
    ensures Got(bytes[p..], at - p, n) == Got(bytes, at, n)
  {
    if at < |bytes| {
      var end := if at + n <= |bytes| then at + n else |bytes|;
      SliceFrom(bytes, at, end, p);
    }
  }

  lemma SliceFrom(bytes: seq<byte>, lo: nat, hi: nat, p: nat)
    requires p <= lo <= hi <= |bytes|
    ensures bytes[p..][lo - p..hi - p] == bytes[lo..hi]
  {
  }

  lemma WritesFrom(d: Disk, data: seq<byte>, p: nat)
    requires p <= |d.bytes| && p <= d.cursor && d.cursor + |data| <= |d.bytes|
    ensures |Written(d, data).bytes| == |d.bytes| && Written(d, data).bytes[..p] == d.bytes[..p]
    ensures Written(DiskFrom(d, p), data) == DiskFrom(Written(d, data), p)
  {
    OverwriteFrom(d.bytes, d.cursor, data, p);
  }

  lemma OverwriteFrom(bytes: seq<byte>, at: nat, data: seq<byte>, p: nat)
    requires p <= at && at + |data| <= |bytes|
    ensures Overwrite(bytes, at, data)[..p] == bytes[..p]
    ensures Overwrite(bytes, at, data)[p..] == Overwrite(bytes[p..], at - p, data)
  {
  }

  /** The cursor stands p bytes behind the start of a row; the rows from there on are in the file. */
  ghost predicate Offset(w: Work, size: nat, n: nat, row: nat, p: nat) {
    && Fits(w, size) && 0 < p < size && 2 <= n && row <= n
    && |w.disk.bytes| == n * size + p <= OFFSET_MAX && w.disk.cursor == row * size + p
  }

  lemma OffsetStands(w: Work, size: nat, n: nat, row: nat, p: nat)
    requires Offset(w, size, n, row, p)
    ensures p <= |w.disk.bytes| && p <= w.disk.cursor && Standing(From(w, p), size, n, row)
  {
    ProductOrder(0, n, size);
    ProductOrder(0, row, size);
  }

  /** A seek by one row goes back, or fails at the first row, whether the first bytes are there or not. */
  lemma SeeksBoth(d: Disk, size: nat, here: nat, before: nat, p: nat)
    requires 0 < p < size <= OFFSET_MAX && p <= |d.bytes| && d.cursor == here + p <= OFFSET_MAX
    requires if here == 0 then before == 0 else here == before + size
    ensures SoughtBy(d, -1, size) == d.(cursor := before + p)
    ensures SoughtBy(DiskFrom(d, p), -1, size) == DiskFrom(SoughtBy(d, -1, size), p)
  {
    OneRowBack(d, size);
    OneRowBack(DiskFrom(d, p), size);
  }

  lemma RowBefore(size: nat, n: nat, row: nat)
    requires 0 < size && row <= n
    ensures 0 <= row * size <= n * size
    ensures if row == 0 then row * size == 0 else 0 <= (row - 1) * size == row * size - size
  {
    ProductOrder(0, row, size);
    ProductOrder(row, n, size);
    if row > 0 {
      RowBounds(size, row - 1);
    }
  }

  lemma SeeksBackFrom(w: Work, size: nat, n: nat, row: nat, p: nat)
    requires Offset(w, size, n, row, p)
    ensures var d := SoughtBy(w.disk, -1, size);
      && d.bytes == w.disk.bytes && p <= |d.bytes| && p <= d.cursor && p <= w.disk.cursor
      && d.cursor == (if row == 0 then 0 else row - 1) * size + p
      && DiskFrom(d, p) == SoughtBy(DiskFrom(w.disk, p), -1, size)
  {
    RowBefore(size, n, row);
    RowBefore(size, n, 1);
    SeeksBoth(w.disk, size, row * size, if row == 0 then 0 else row * size - size, p);
  }

  /** Where a look back ends: behind the row it has read. */
  function BehindLook(row: nat): nat {
    if row == 0 then 1 else row
  }

  lemma LooksBackFrom(w: Work, size: nat, n: nat, row: nat, p: nat)
    requires Offset(w, size, n, row, p)
    ensures Offset(LookBack(w, size), size, n, BehindLook(row), p)
    ensures p <= |w.disk.bytes| && p <= w.disk.cursor && p <= LookBack(w, size).disk.cursor
    ensures LookBack(From(w, p), size) == From(LookBack(w, size), p)
  {
    SeeksBackFrom(w, size, n, row, p);
    var at := SoughtBy(w.disk, -1, size);
    ReadsFrom(at, w.next, p);
    LookInRange(size, n, row);
  }

  lemma LookInRange(size: nat, n: nat, row: nat)
    requires 2 <= n && row <= n
    ensures 0 <= (if row == 0 then 0 else row - 1) * size
    ensures BehindLook(row) * size == (if row == 0 then 0 else row - 1) * size + size <= n * size
  {
    RowBounds(size, BehindLook(row) - 1);
    ProductOrder(BehindLook(row), n, size);
  }

  lemma PutsDownFrom(w: Work, size: nat, n: nat, row: nat, p: nat)
    requires Offset(w, size, n, row, p) && row < n
    ensures p <= |w.disk.bytes| && p <= w.disk.cursor
    ensures SameFrom(w, PutDown(w), PutDown(From(w, p)), p)
  {
    OffsetStands(w, size, n, row, p);
    RowBounds(size, row);
    ProductOrder(row + 1, n, size);
    WritesFrom(w.disk, w.inserted, p);
  }

  lemma ShiftsUpFrom(w: Work, size: nat, n: nat, row: nat, p: nat)
    requires Offset(w, size, n, row, p) && 0 < row < n
    ensures Offset(ShiftUp(w, size), size, n, row - 1, p)
    ensures p <= |w.disk.bytes| && p <= w.disk.cursor
    ensures SameFrom(w, ShiftUp(w, size), ShiftUp(From(w, p), size), p)
  {
    OffsetStands(w, size, n, row, p);
    RowBounds(size, row);
    RowBounds(size, row - 1);
    ProductOrder(row + 1, n, size);
    WritesFrom(w.disk, w.next, p);
    TwoRowsBack(Written(w.disk, w.next), size);
    TwoRowsBack(Written(DiskFrom(w.disk, p), w.next), size);
  }

  lemma TwoRowsBack(d: Disk, size: nat)
    requires 2 * size <= d.cursor <= OFFSET_MAX
    ensures SoughtBy(d, -2, size) == d.(cursor := d.cursor - 2 * size)
  {
    OffsetIsIntended(-2, size);
  }

  /** v is r without its first p bytes, which are those of w. */
  ghost predicate SameFrom(w: Work, r: Work, v: Work, p: nat) {
    && p <= |r.disk.bytes| == |w.disk.bytes| && p <= r.disk.cursor && v == From(r, p)
    && r.disk.bytes[..p] == w.disk.bytes[..p]
  }

  /** r is what the inner loop makes of w, and v what it makes of w without the first bytes. */
  ghost predicate LoopMakesBoth(w: Work, r: Work, v: Work, nextPos: nat, size: nat, p: nat) {
    && p <= |w.disk.bytes| && p <= w.disk.cursor
    && LoopMakes(w, r, nextPos, size) && LoopMakes(From(w, p), v, nextPos, size)
  }

  lemma EndsFrom(w: Work, r: Work, v: Work, nextPos: nat, size: nat, n: nat, row: nat, p: nat)
    requires Offset(w, size, n, row, p) && row < n && LoopMakesBoth(w, r, v, nextPos, size, p)
    requires LookBack(w, size).next[0] <= w.inserted[0]
    ensures SameFrom(w, r, v, p)
  {
    LooksBackFrom(w, size, n, row, p);
    LoopEnds(w, r, nextPos, size);
    LoopEnds(From(w, p), v, nextPos, size);
    PutsDownFrom(LookBack(w, size), size, n, BehindLook(row), p);
  }

  /** A row goes up, with or without the first bytes. */
  lemma OneUpFrom(w: Work, size: nat, n: nat, row: nat, p: nat) returns (up: Work)
    requires Offset(w, size, n, row, p) && row < n && p <= |w.disk.bytes| && p <= w.disk.cursor
    ensures up == ShiftUp(LookBack(w, size), size)
    ensures Offset(up, size, n, BehindLook(row) - 1, p) && p <= |up.disk.bytes| && p <= up.disk.cursor
    ensures From(up, p) == ShiftUp(LookBack(From(w, p), size), size)
    ensures LookBack(From(w, p), size).next == LookBack(w, size).next && up.inserted == w.inserted
    ensures |up.disk.bytes| == |w.disk.bytes| && up.disk.bytes[..p] == w.disk.bytes[..p]
  {
    LooksBackFrom(w, size, n, row, p);
    ShiftsUpFrom(LookBack(w, size), size, n, BehindLook(row), p);
    up := ShiftUp(LookBack(w, size), size);
  }

  lemma SameThen(w: Work, up: Work, r: Work, v: Work, p: nat)
    requires p <= |w.disk.bytes| == |up.disk.bytes| && up.disk.bytes[..p] == w.disk.bytes[..p]
    requires SameFrom(up, r, v, p)
    ensures SameFrom(w, r, v, p)
  {
  }

  lemma RunsOutFrom(w: Work, r: Work, v: Work, size: nat, n: nat, row: nat, p: nat)
    requires Offset(w, size, n, row, p) && row < n && LoopMakesBoth(w, r, v, 1, size, p)
    requires LookBack(w, size).next[0] > w.inserted[0]
    ensures SameFrom(w, r, v, p)
  {
    var up := OneUpFrom(w, size, n, row, p);
    LoopRunsOut(w, r, size);
    LoopRunsOut(From(w, p), v, size);
    PutsDownFrom(up, size, n, BehindLook(row) - 1, p);
    SameThen(w, up, r, v, p);
  }

  lemma GoesOnFrom(w: Work, r: Work, v: Work, nextPos: nat, size: nat, n: nat, row: nat, p: nat) returns (up: Work)
    requires Offset(w, size, n, row, p) && row < n && 1 < nextPos && LoopMakesBoth(w, r, v, nextPos, size, p)
    requires LookBack(w, size).next[0] > w.inserted[0]
    ensures Offset(up, size, n, BehindLook(row) - 1, p) && LoopMakesBoth(up, r, v, nextPos - 1, size, p)
    ensures |up.disk.bytes| == |w.disk.bytes| && up.disk.bytes[..p] == w.disk.bytes[..p]
  {
    up := OneUpFrom(w, size, n, row, p);
    LoopsOn(w, r, nextPos, size);
    LoopsOn(From(w, p), v, nextPos, size);
  }

  /** Either the loop ends, or it goes on one row up. */
  lemma OneLookFrom(w: Work, r: Work, v: Work, nextPos: nat, size: nat, n: nat, row: nat, p: nat)
    returns (up: Work, more: bool)
    requires Offset(w, size, n, row, p) && row < n && LoopMakesBoth(w, r, v, nextPos, size, p)
    ensures !more ==> SameFrom(w, r, v, p)
    ensures more ==> 1 < nextPos && Offset(up, size, n, BehindLook(row) - 1, p)
    ensures more ==> LoopMakesBoth(up, r, v, nextPos - 1, size, p)
    ensures more ==> p <= |up.disk.bytes| == |w.disk.bytes| && up.disk.bytes[..p] == w.disk.bytes[..p]
  {
    up, more := w, false;
    if LookBack(w, size).next[0] <= w.inserted[0] {
      EndsFrom(w, r, v, nextPos, size, n, row, p);
    } else if nextPos == 1 {
      RunsOutFrom(w, r, v, size, n, row, p);
    } else {
      more := true;
      up := GoesOnFrom(w, r, v, nextPos, size, n, row, p);
    }
  }

  /** The inner loop does the same on the rows from byte p on as on a file that begins there. */
  lemma {:induction false} InsertedFrom(w: Work, r: Work, v: Work, nextPos: nat, size: nat, n: nat, row: nat, p: nat)
    requires Offset(w, size, n, row, p) && row < n && LoopMakesBoth(w, r, v, nextPos, size, p)
    ensures SameFrom(w, r, v, p)
    decreases nextPos
  {
    var up, more := OneLookFrom(w, r, v, nextPos, size, n, row, p);
    if more {
      InsertedFrom(up, r, v, nextPos - 1, size, n, BehindLook(row) - 1, p);
      SameThen(w, up, r, v, p);
    }
  }

  // ----- the turn that takes up the part -----

  function ByteIn(row: Row, i: nat): byte {
    if i < |row| then row[i] else 0
  }

  lemma ByteOfRow(bytes: seq<byte>, size: nat, n: nat, row: nat, i: nat, at: nat)
    requires HasRows(bytes, size, n) && row < n && i < size && at == row * size + i
    ensures at < |bytes| && at < n * size && ByteIn(Rows(bytes, size, n)[row], i) == bytes[at]
  {
    RowFits(bytes, size, n, row);
    assert Rows(bytes, size, n)[row] == RowAt(bytes, size, n, row);
  }

  /** What the turn behind the rows takes up: the part, and in the rest of the buffer what was there. */
  function TakenPart(s: Work, size: nat, n: nat): seq<byte>
    requires n * size <= |s.disk.bytes| <= n * size + |s.inserted|
  {
    s.disk.bytes[n * size..] + s.inserted[|s.disk.bytes| - n * size..]
  }

  /** A file of n rows and a part of p bytes. */
  ghost predicate HasPart(s: Work, size: nat, n: nat, p: nat) {
    Holds(s, size, n) && 2 <= n && 0 < p < size && |s.disk.bytes| == n * size + p
  }

  /** The rows that begin p bytes behind the rows of the file. */
  ghost function RowsBetween(s: Work, size: nat, n: nat, p: nat): (rows: seq<Row>)
    requires HasPart(s, size, n, p)
    ensures |rows| == n
  {
    Rows(s.disk.bytes[p..], size, n)
  }

  lemma TakesUpPart(s: Work, size: nat, n: nat, p: nat)
    requires HasPart(s, size, n, p)
    ensures var t := TakeUp(s, n, size);
      Offset(t, size, n, n - 1, p) && t.disk.bytes == s.disk.bytes && t.inserted == TakenPart(s, size, n)
  {
    RowBounds(size, n);
    RowBounds(size, n - 1);
    Seeks(s.disk, size, n);
    OneRowBack(s.disk.(cursor := |s.disk.bytes|), size);
    assert Got(s.disk.bytes, n * size, size) == s.disk.bytes[n * size..];
  }

  /** The turn inserts what it has taken up over the last of the rows in between, and nothing else changes. */
  ghost predicate PartPutIn(s: Work, r: Work, size: nat, n: nat, p: nat, place: nat)
    requires HasPart(s, size, n, p)
  {
    && HasPart(r, size, n, p) && r.disk.bytes[..p] == s.disk.bytes[..p]
    && InsertedAgain(RowsBetween(s, size, n, p), TakenPart(s, size, n), RowsBetween(r, size, n, p), place)
  }

  lemma PutInBetween(s: Work, t: Work, r: Work, u: Work, v: Work, size: nat, n: nat, last: nat, p: nat, place: nat)
    requires HasPart(s, size, n, p) && n == last + 1 && Fits(r, size)
    requires t.disk.bytes == s.disk.bytes && t.inserted == TakenPart(s, size, n)
    requires p <= t.disk.cursor && u == From(t, p) && SameFrom(t, r, v, p)
    requires HasRows(u.disk.bytes, size, n) && PutInPlace(u, v, size, n, last, place)
    ensures PartPutIn(s, r, size, n, p, place)
  {
  }

  lemma LoopPlaces(u: Work, nextPos: nat, size: nat, n: nat, row: nat) returns (v: Work, place: nat)
    requires Standing(u, size, n, row) && 0 < row < n && nextPos == row + 1
    ensures LoopMakes(u, v, nextPos, size) && PutInPlace(u, v, size, n, row, place)
  {
    v := Inserted(u, nextPos, size);
    place := InsertedMoves(u, v, nextPos, size, n, row);
  }

  lemma LoopFrom(t: Work, r: Work, u: Work, v: Work, nextPos: nat, size: nat, n: nat, row: nat, p: nat)
    requires Offset(t, size, n, row, p) && row < n && LoopMakes(t, r, nextPos, size)
    requires p <= |t.disk.bytes| && p <= t.disk.cursor && u == From(t, p) && LoopMakes(u, v, nextPos, size)
    ensures SameFrom(t, r, v, p)
  {
    assert LoopMakesBoth(t, r, v, nextPos, size, p);
    InsertedFrom(t, r, v, nextPos, size, n, row, p);
  }

  lemma LoopPutsIn(s: Work, t: Work, r: Work, size: nat, n: nat, last: nat, p: nat) returns (place: nat)
    requires HasPart(s, size, n, p) && n == last + 1 && Offset(t, size, n, last, p)
    requires LoopMakes(t, r, n, size) && Fits(r, size)
    requires t.disk.bytes == s.disk.bytes && t.inserted == TakenPart(s, size, n)
    ensures PartPutIn(s, r, size, n, p, place)
  {
    OffsetStands(t, size, n, last, p);
    var u := From(t, p);
    var v;
    v, place := LoopPlaces(u, n, size, n, last);
    LoopFrom(t, r, u, v, n, size, n, last, p);
    PutInBetween(s, t, r, u, v, size, n, last, p, place);
  }

  lemma PartIsPutIn(s: Work, size: nat, n: nat, p: nat) returns (place: nat)
    requires HasPart(s, size, n, p)
    ensures PartPutIn(s, Turn(s, n, size), size, n, p, place)
  {
    TakesUpPart(s, size, n, p);
    TurnIsLoop(s, n, size);
    place := LoopPutsIn(s, TakeUp(s, n, size), Turn(s, n, size), size, n, n - 1, p);
  }

  lemma TurnIsLoop(s: Work, k: nat, size: nat)
    requires Fits(s, size) && 0 < k
    ensures LoopMakes(TakeUp(s, k, size), Turn(s, k, size), k, size)
  {
  }

  /** The part and its row fit behind the rows in between as they are. */
  ghost predicate PartFits(s: Work, size: nat, n: nat, p: nat)
    requires HasPart(s, size, n, p)
  {
    var rows, x := RowsBetween(s, size, n, p), TakenPart(s, size, n);
    rows[n - 1] == x && rows[n - 2][0] <= x[0]
  }

  lemma InsertedAgainSame(now: seq<Row>, x: Row, place: nat)
    requires 2 <= |now|
    ensures InsertedAgain(now, x, now, place) ==> now[|now| - 1] == x && now[|now| - 2][0] <= x[0]
  {
    var k := |now| - 1;
    if InsertedAgain(now, x, now, place) {
      MovedAt(now[k := x], k, place, place);
      assert now[place] == x;
    }
  }

  lemma FitsMeansSame(now: seq<Row>, out: seq<Row>, place: nat)
    requires 2 <= |now| && InsertedAgain(now, now[|now| - 1], out, place)
    requires now[|now| - 2][0] <= now[|now| - 1][0]
    ensures out == now
  {
    var k := |now| - 1;
    assert now[k := now[k]] == now;
    assert now[k - 1][0] <= now[k][0];
  }

  lemma RowOfByte(size: nat, n: nat, at: nat) returns (row: nat, i: nat)
    requires 0 < size && at < n * size
    ensures row < n && i < size && at == row * size + i
  {
    row, i := at / size, at % size;
    assert at == row * size + i;
    if row >= n {
      ProductOrder(n, row, size);
    }
  }

  /** The rows and the rest are all of the file. */
  lemma SameRowsSameBytes(a: seq<byte>, b: seq<byte>, size: nat, n: nat)
    requires HasRows(a, size, n) && HasRows(b, size, n) && |a| == |b|
    requires Rows(a, size, n) == Rows(b, size, n) && Rest(a, size, n) == Rest(b, size, n)
    ensures a == b
  {
    forall at: nat | at < |a| ensures a[at] == b[at] {
      if at < n * size {
        var row, i := RowOfByte(size, n, at);
        ByteOfRow(a, size, n, row, i, at);
        ByteOfRow(b, size, n, row, i, at);
      } else {
        RestAt(a, size, n, at);
        RestAt(b, size, n, at);
      }
    }
  }

  lemma RestAt(bytes: seq<byte>, size: nat, n: nat, at: nat)
    requires HasRows(bytes, size, n) && n * size <= at < |bytes|
    ensures bytes[at] == Rest(bytes, size, n)[at - n * size]
  {
  }

  /** With everything sorted already, sorting again keeps its promise exactly by changing nothing. */
  lemma KeptMeansSame(w: Work, s: Work, r: Work, size: nat, n: nat)
    requires SortedSoFar(w, s, n, size, n)
    ensures Promise(w, r, n + 1, size, n) <==> r.disk.bytes == s.disk.bytes
  {
    if Promise(w, r, n + 1, size, n) {
      var a, b := RowsOf(s, size, n), RowsOf(r, size, n);
      assert Stable(a, b);
      StableSortIsUnique(a, b);
      SameRowsSameBytes(r.disk.bytes, s.disk.bytes, size, n);
    }
  }

  lemma SameBytesSameRows(s: Work, r: Work, size: nat, n: nat, p: nat)
    requires HasPart(s, size, n, p) && HasPart(r, size, n, p) && r.disk.bytes[..p] == s.disk.bytes[..p]
    ensures r.disk.bytes == s.disk.bytes <==> RowsBetween(r, size, n, p) == RowsBetween(s, size, n, p)
  {
    if RowsBetween(r, size, n, p) == RowsBetween(s, size, n, p) {
      var a, b := r.disk.bytes, s.disk.bytes;
      SameRowsSameBytes(a[p..], b[p..], size, n);
      assert a == a[..p] + a[p..] && b == b[..p] + b[p..];
    }
  }

  lemma PartKeptWhenFits(w: Work, s: Work, r: Work, size: nat, n: nat, p: nat, place: nat)
    requires SortedSoFar(w, s, n, size, n) && HasPart(s, size, n, p) && PartPutIn(s, r, size, n, p, place)
    ensures Promise(w, r, n + 1, size, n) <==> PartFits(s, size, n, p)
  {
    KeptMeansSame(w, s, r, size, n);
    SameBytesSameRows(s, r, size, n, p);
    var rows := RowsBetween(s, size, n, p);
    if RowsBetween(r, size, n, p) == rows {
      InsertedAgainSame(rows, TakenPart(s, size, n), place);
    }
    if PartFits(s, size, n, p) {
      FitsMeansSame(rows, RowsBetween(r, size, n, p), place);
    }
  }

  /** A file with a part of a row lacks one: the promise is kept exactly when the part fits behind the sorted rows. */
  lemma PartKeptIff(w: Work, size: nat, n: nat, p: nat)
    requires HasPart(w, size, n, p)
    ensures HasPart(Sorting(w, n, size), size, n, p)
    ensures Promise(w, Sorting(w, n + 1, size), n + 1, size, n) <==> PartFits(Sorting(w, n, size), size, n, p)
  {
    SortingSorts(w, n, size, n);
    var s := Sorting(w, n, size);
    NextTurn(w, s, n, size);
    var place := PartIsPutIn(s, size, n, p);
    PartKeptWhenFits(w, s, Turn(s, n, size), size, n, p, place);
  }
}
