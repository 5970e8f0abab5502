/** What op_sort does to a file that holds fewer records than it is asked to sort. */
module ShortFiles {
  import opened StableSort
  import opened RecordFile
  import opened FileSort

  /** The file holds n rows and not one more, and an off_t can hold the offsets of two more. */
  ghost predicate Holds(w: Work, size: nat, n: nat) {
    && Fits(w, size) && HasRows(w.disk.bytes, size, n)
    && |w.disk.bytes| < (n + 1) * size && (n + 2) * size <= OFFSET_MAX
  }

  /** Sorting the first m of the n rows of a file: none lost, nothing else changed. */
  ghost predicate Promise(w: Work, r: Work, m: nat, size: nat, n: nat) {
    && OnlyRows(w, r, size, n)
    && SortedTo(RowsOf(r, size, n), if m < n then m else n) && Stable(RowsOf(w, size, n), RowsOf(r, size, n))
  }

  // ----- growing -----

  lemma RowBounds(size: nat, n: nat)
    ensures (n + 1) * size == n * size + size && (n + 2) * size == n * size + 2 * size && 0 <= n * size
  {
    ProductOrder(0, n, size);
    ProductOfSum(n, 1, size);
    ProductOfSum(n, 2, size);
  }

  lemma Seeks(d: Disk, size: nat, k: nat)
    requires 0 < size && k * size <= OFFSET_MAX
    ensures Sought(d, k, size) == d.(cursor := k * size)
  {
    SeekLands(size, k, k);
  }

  /** A turn for a row behind the end writes behind the end. */
  lemma GrowsBehindTheEnd(w: Work, size: nat, n: nat)
    requires Holds(w, size, n)
    ensures |Turn(w, n + 1, size).disk.bytes| > |w.disk.bytes|
  {
    RowBounds(size, n);
    Seeks(w.disk, size, n + 1);
    OneRowBack(w.disk.(cursor := (n + 1) * size), size);
    var t := TakeUp(w, n + 1, size);
    assert t.disk == w.disk.(cursor := n * size);
    OneRowBack(t.disk, size);
    LooksToTheEnd(t, size, n);
    InsertedReaches(t, n + 1, size);
  }

  lemma LooksToTheEnd(t: Work, size: nat, n: nat)
    requires Holds(t, size, n) && t.disk.cursor == n * size
    requires SoughtBy(t.disk, -1, size) == if n * size >= size then t.disk.(cursor := n * size - size) else t.disk
    ensures LookBack(t, size).disk.cursor + size > |t.disk.bytes|
  {
    RowBounds(size, n);
    if n > 0 {
      RowBounds(size, n - 1);
    }
  }

  /** With a single row the cursor cannot go back two, so that the first turn writes behind the end. */
  lemma GrowsFromOneRow(w: Work, size: nat)
    requires Holds(w, size, 1)
    ensures |Turn(w, 1, size).disk.bytes| > |w.disk.bytes|
  {
    Seeks(w.disk, size, 1);
    var len := |w.disk.bytes|;
    OneRowBack(w.disk.(cursor := len), size);
    var t := TakeUp(w, 1, size);
    assert t.disk == w.disk.(cursor := len - size);
    OneRowBack(t.disk, size);
    InsertedReaches(t, 1, size);
  }

  /** The turns before have made the file longer, or they leave the one behind the end to do it. */
  lemma GrowsAfter(w: Work, s: Work, r: Work, size: nat, n: nat)
    requires Holds(w, size, n) && Fits(s, size) && |s.disk.bytes| >= |w.disk.bytes| && r == Turn(s, n + 1, size)
    ensures |r.disk.bytes| > |w.disk.bytes|
  {
    if |s.disk.bytes| == |w.disk.bytes| {
      GrowsBehindTheEnd(s, size, n);
    }
  }

  lemma GrowsOverTheEnd(w: Work, s: Work, size: nat, n: nat)
    requires Holds(w, size, n) && s == Sorting(w, n + 1, size)
    ensures |Sorting(w, n + 2, size).disk.bytes| > |w.disk.bytes|
  {
    NextTurn(w, s, n + 1, size);
    GrowsAfter(w, s, Turn(s, n + 1, size), size, n);
  }

  lemma GrowsWithTwoMissing(w: Work, m: nat, size: nat, n: nat)
    requires Holds(w, size, n) && n + 2 <= m
    ensures |Sorting(w, m, size).disk.bytes| > |w.disk.bytes|
  {
    GrowsOverTheEnd(w, Sorting(w, n + 1, size), size, n);
    LongerWithTurns(w, n + 2, m, size);
  }

  lemma GrowsFromFew(w: Work, m: nat, size: nat, n: nat)
    requires Holds(w, size, n) && n <= 1 < m && n < m
    ensures |Sorting(w, m, size).disk.bytes| > |w.disk.bytes|
  {
    if n == 0 {
      GrowsWithTwoMissing(w, m, size, n);
    } else {
      GrowsFromOneRow(w, size);
      LongerWithTurns(w, 2, m, size);
    }
  }

  // ----- one record too many -----

  ghost predicate LastIsGreatest(rows: seq<Row>)
    requires rows != []
  {
    forall i :: 0 <= i < |rows| ==> rows[i][0] <= rows[|rows| - 1][0]
  }

  lemma {:induction false} LastWithKey(rows: seq<Row>)
    requires rows != []
    ensures var all := WithKey(rows, rows[|rows| - 1][0]); all != [] && all[|all| - 1] == rows[|rows| - 1]
  {
    if |rows| > 1 {
      assert rows[1..][|rows| - 2] == rows[|rows| - 1];
      LastWithKey(rows[1..]);
    }
  }

  lemma InStable(was: seq<Row>, now: seq<Row>, i: nat) returns (j: nat)
    requires Stable(was, now) && i < |was|
    ensures j < |now| && now[j] == was[i]
  {
    StableIsPermutation(was, now);
    assert was[i] in multiset(now);
    j :| 0 <= j < |now| && now[j] == was[i];
  }

  /** `out` is what inserting x once more makes of the sorted rows, over their last one. */
  ghost predicate InsertedAgain(now: seq<Row>, x: Row, out: seq<Row>, place: nat)
    requires now != []
  {
    var k := |now| - 1;
    Place(now[k := x], k, place) && out == Moved(now[k := x], k, place)
  }

  lemma InsertedAgainIs(rows: seq<Row>, now: seq<Row>, out: seq<Row>, place: nat)
    requires now != [] && |rows| == |now| && Stable(rows, now) && SortedTo(now, |now|)
    requires InsertedAgain(now, rows[|rows| - 1], out, place)
    ensures |out| == |now| && SortedTo(out, |out|)
    ensures multiset(out) == multiset(rows) - multiset{now[|now| - 1]} + multiset{rows[|rows| - 1]}
  {
    var k, x := |now| - 1, rows[|rows| - 1];
    MovedIsSorted(now[k := x], k, place);
    MovedIsStable(now[k := x], k, place);
    StableIsPermutation(now[k := x], out);
    StableIsPermutation(rows, now);
    LastReplaced(now, x);
  }

  lemma LastReplaced(now: seq<Row>, x: Row)
    requires now != []
    ensures multiset(now[|now| - 1 := x]) == multiset(now) - multiset{now[|now| - 1]} + multiset{x}
  {
    var k := |now| - 1;
    assert now == now[..k] + [now[k]] && now[k := x] == now[..k] + [x];
  }

  lemma KeptMeansLast(rows: seq<Row>, now: seq<Row>, out: seq<Row>, place: nat)
    requires now != [] && |rows| == |now| && Stable(rows, now) && SortedTo(now, |now|)
    requires InsertedAgain(now, rows[|rows| - 1], out, place) && Stable(rows, out)
    ensures now[|now| - 1] == rows[|rows| - 1]
  {
    InsertedAgainIs(rows, now, out, place);
    StableIsPermutation(rows, out);
    StableIsPermutation(rows, now);
    SwapKeeps(multiset(rows), now[|now| - 1], rows[|rows| - 1]);
  }

  lemma LastMeansGreatest(rows: seq<Row>, now: seq<Row>)
    requires now != [] && |rows| == |now| && Stable(rows, now) && SortedTo(now, |now|)
    requires now[|now| - 1] == rows[|rows| - 1]
    ensures LastIsGreatest(rows)
  {
    forall i | 0 <= i < |rows| ensures rows[i][0] <= rows[|rows| - 1][0] {
      var j := InStable(rows, now, i);
    }
  }

  lemma SwapKeeps(m: multiset<Row>, a: Row, b: Row)
    requires a in m && m - multiset{a} + multiset{b} == m
    ensures a == b
  {
    assert (m - multiset{a} + multiset{b})[a] == m[a] - 1 + multiset{b}[a];
  }

  lemma GreatestMeansKept(rows: seq<Row>, now: seq<Row>, out: seq<Row>, place: nat)
    requires now != [] && |rows| == |now| && Stable(rows, now) && SortedTo(now, |now|)
    requires InsertedAgain(now, rows[|rows| - 1], out, place) && LastIsGreatest(rows)
    ensures out == now
  {
    var k, x := |now| - 1, rows[|rows| - 1];
    var j := InStable(rows, now, k);
    assert Stable(now, rows);
    var i := InStable(now, rows, k);
    assert now[k][0] == x[0];
    LastWithKey(rows);
    LastWithKey(now);
    assert WithKey(rows, x[0]) == WithKey(now, x[0]);
    assert now[k] == x && now[k := x] == now;
    if k > 0 {
      assert now[k - 1][0] <= x[0];
    }
  }

  /** The turn for the row behind the last one takes up nothing: what was taken up before goes in again. */
  lemma TurnBehindTheRows(s: Work, size: nat, n: nat) returns (place: nat)
    requires Fits(s, size) && HasRows(s.disk.bytes, size, n) && |s.disk.bytes| == n * size && 2 <= n
    ensures OnlyRows(s, Turn(s, n, size), size, n)
    ensures InsertedAgain(RowsOf(s, size, n), s.inserted, RowsOf(Turn(s, n, size), size, n), place)
  {
    Seeks(s.disk, size, n);
    var at := Sought(s.disk, n, size);
    assert Filled(at, s.inserted) == s.inserted && AfterRead(at, size) == at;
    StepsBack(at, size, n, n, 1);
    var t := TakeUp(s, n, size);
    assert Standing(t, size, n, n - 1);
    place := InsertedMoves(t, Turn(s, n, size), n, size, n, n - 1);
  }

  /** From w over the sorted s to r: the greatest row goes, and a second copy of the last one of w comes. */
  ghost predicate LastDoubled(w: Work, s: Work, r: Work, size: nat, n: nat)
    requires 0 < n
  {
    && OnlyRows(w, r, size, n) && OnlyRows(w, s, size, n) && SortedTo(RowsOf(r, size, n), n)
    && multiset(RowsOf(r, size, n)) ==
         multiset(RowsOf(w, size, n)) - multiset{RowsOf(s, size, n)[n - 1]} + multiset{RowsOf(w, size, n)[n - 1]}
    && (Stable(RowsOf(w, size, n), RowsOf(r, size, n)) <==> LastIsGreatest(RowsOf(w, size, n)))
  }

  lemma LastIsDoubled(w: Work, s: Work, r: Work, size: nat, n: nat, place: nat)
    requires 2 <= n && SortedSoFar(w, s, n, size, n) && OnlyRows(s, r, size, n)
    requires InsertedAgain(RowsOf(s, size, n), s.inserted, RowsOf(r, size, n), place)
    ensures LastDoubled(w, s, r, size, n)
  {
    var rows, now, out := RowsOf(w, size, n), RowsOf(s, size, n), RowsOf(r, size, n);
    InsertedAgainIs(rows, now, out, place);
    if Stable(rows, out) {
      KeptMeansLast(rows, now, out, place);
      LastMeansGreatest(rows, now);
    }
    if LastIsGreatest(rows) {
      GreatestMeansKept(rows, now, out, place);
    }
  }

  lemma OneRowTooMany(w: Work, size: nat, n: nat)
    requires Fits(w, size) && HasRows(w.disk.bytes, size, n) && |w.disk.bytes| == n * size && 2 <= n
    ensures LastDoubled(w, Sorting(w, n, size), Sorting(w, n + 1, size), size, n)
  {
    SortingSorts(w, n, size, n);
    var s := Sorting(w, n, size);
    var place := TurnBehindTheRows(s, size, n);
    LastIsDoubled(w, s, Turn(s, n, size), size, n, place);
  }
}
