/** When op_sort keeps the records of a file: for one file, and for all files of a length. */
module SortLimits {
  import opened StableSort
  import opened RecordFile
  import opened FileSort
  import opened ShortFiles
  import opened PartialRows

  /** The one record asked for too many does no harm: behind whole records when the last one is among the greatest, and
      behind a part of one when the part fits behind the sorted records. */
  ghost predicate OneMoreIsHarmless(w: Work, size: nat, n: nat)
    requires Holds(w, size, n) && 2 <= n
  {
    if |w.disk.bytes| == n * size then LastIsGreatest(RowsOf(w, size, n))
    else
      var s, p := Sorting(w, n, size), |w.disk.bytes| - n * size;
      HasPart(s, size, n, p) && PartFits(s, size, n, p)
  }

  /** A file that holds n records and no more is sorted exactly when it holds the ones asked for, or lacks a single one
      that does no harm. */
  lemma SortsExactlyWhen(w: Work, m: nat, size: nat, n: nat)
    requires Holds(w, size, n)
    ensures Promise(w, Sorting(w, m, size), m, size, n) <==>
      m <= n || m <= 1 || (m == n + 1 && 2 <= n && OneMoreIsHarmless(w, size, n))
  {
    if m <= n {
      SortingSorts(w, m, size, n);
    } else if m == n + 1 && 2 <= n {
      SortsOneMoreWhen(w, size, n);
    } else if n + 2 <= m {
      GrowsWithTwoMissing(w, m, size, n);
    } else if 1 < m {
      GrowsFromFew(w, m, size, n);
    }
  }

  lemma SortsOneMoreWhen(w: Work, size: nat, n: nat)
    requires Holds(w, size, n) && 2 <= n
    ensures Promise(w, Sorting(w, n + 1, size), n + 1, size, n) <==> OneMoreIsHarmless(w, size, n)
  {
    RowBounds(size, n);
    if |w.disk.bytes| == n * size {
      OneRowTooMany(w, size, n);
    } else {
      PartKeptIff(w, size, n, |w.disk.bytes| - n * size);
    }
  }

  // ----- every file of a length -----

  function Filler(n: nat, x: byte): (r: seq<byte>)
    ensures |r| == n && forall i :: 0 <= i < n ==> r[i] == x
  {
    seq(n, _ => x)
  }

  lemma NotGreatest(w: Work, size: nat, n: nat)
    requires Holds(w, size, n) && 2 <= n && |w.disk.bytes| == n * size
    requires w.disk.bytes == Filler((n - 1) * size, 1) + Filler(size, 0)
    ensures !LastIsGreatest(RowsOf(w, size, n))
  {
    RowBounds(size, n - 1);
    RowBounds(size, n - 2);
    ByteOfRow(w.disk.bytes, size, n, 0, 0, 0);
    ByteOfRow(w.disk.bytes, size, n, n - 1, 0, (n - 1) * size);
    FullRow(w, size, n, 0);
    FullRow(w, size, n, n - 1);
  }

  lemma FullRow(w: Work, size: nat, n: nat, row: nat)
    requires HasRows(w.disk.bytes, size, n) && row < n
    ensures |RowsOf(w, size, n)[row]| == size
  {
    RowFits(w.disk.bytes, size, n, row);
    assert RowsOf(w, size, n)[row] == RowAt(w.disk.bytes, size, n, row);
  }

  /** One row is missing, and the file ends with a whole one. */
  lemma WholeRowsSpoilt(size: nat, n: nat) returns (w: Work)
    requires 0 < size && 2 <= n && (n + 2) * size <= OFFSET_MAX
    ensures Fits(w, size) && |w.disk.bytes| == n * size && !Promise(w, Sorting(w, n + 1, size), n + 1, size, n)
  {
    RowBounds(size, n);
    RowBounds(size, n - 1);
    w := Work(Disk(Filler((n - 1) * size, 1) + Filler(size, 0), 0), Filler(size, 0), Filler(size, 0));
    NotGreatest(w, size, n);
    OneRowTooMany(w, size, n);
  }

  /** Zeros in the rows, and ones behind them. */
  ghost predicate ZerosThenOnes(w: Work, size: nat, n: nat, p: nat) {
    && HasPart(w, size, n, p)
    && (forall i :: 0 <= i < n * size ==> w.disk.bytes[i] == 0)
    && (forall i :: n * size <= i < |w.disk.bytes| ==> w.disk.bytes[i] == 1)
  }

  /** Sorting rows of zeros leaves rows of zeros. */
  lemma StaysZero(w: Work, s: Work, size: nat, n: nat, p: nat, i: nat)
    requires ZerosThenOnes(w, size, n, p) && OnlyRows(w, s, size, n) && i < size
    requires Stable(RowsOf(w, size, n), RowsOf(s, size, n))
    ensures ByteIn(RowsOf(s, size, n)[n - 1], i) == 0
  {
    assert Stable(RowsOf(s, size, n), RowsOf(w, size, n));
    var j := InStable(RowsOf(s, size, n), RowsOf(w, size, n), n - 1);
    RowFits(w.disk.bytes, size, n, j);
    ByteOfRow(w.disk.bytes, size, n, j, i, j * size + i);
  }

  /** The last row in between begins with a zero, and what is taken up with a one. */
  lemma PartDoesNotFit(w: Work, s: Work, size: nat, n: nat, p: nat)
    requires ZerosThenOnes(w, size, n, p) && SortedSoFar(w, s, n, size, n) && HasPart(s, size, n, p)
    ensures !PartFits(s, size, n, p)
  {
    StaysZero(w, s, size, n, p, p);
    RowBounds(size, n - 1);
    ByteOfRow(s.disk.bytes, size, n, n - 1, p, (n - 1) * size + p);
    ByteOfRow(s.disk.bytes[p..], size, n, n - 1, 0, (n - 1) * size);
    RestAt(s.disk.bytes, size, n, n * size);
    RestAt(w.disk.bytes, size, n, n * size);
    assert TakenPart(s, size, n)[0] == 1;
  }

  lemma PartSpoils(w: Work, size: nat, n: nat, p: nat)
    requires ZerosThenOnes(w, size, n, p)
    ensures !Promise(w, Sorting(w, n + 1, size), n + 1, size, n)
  {
    SortingSorts(w, n, size, n);
    PartKeptIff(w, size, n, p);
    PartDoesNotFit(w, Sorting(w, n, size), size, n, p);
  }

  /** One row is missing, and the file ends with a part of one. */
  lemma PartialRowSpoilt(size: nat, n: nat, p: nat) returns (w: Work)
    requires 0 < p < size && 2 <= n && (n + 2) * size <= OFFSET_MAX
    ensures Fits(w, size) && |w.disk.bytes| == n * size + p
    ensures !Promise(w, Sorting(w, n + 1, size), n + 1, size, n)
  {
    RowBounds(size, n);
    w := Work(Disk(Filler(n * size, 0) + Filler(p, 1), 0), Filler(size, 0), Filler(size, 0));
    PartSpoils(w, size, n, p);
  }

  /** More rows are missing, or there are none to compare with: no file keeps its length. */
  lemma AnyFileSpoilt(w: Work, m: nat, size: nat, n: nat)
    requires Holds(w, size, n) && 1 < m && (n + 2 <= m || n <= 1) && n < m
    ensures !Promise(w, Sorting(w, m, size), m, size, n)
  {
    if n + 2 <= m {
      GrowsWithTwoMissing(w, m, size, n);
    } else {
      GrowsFromFew(w, m, size, n);
    }
  }

  /** For each length that falls short there is a file that sorting spoils. */
  lemma SomeFileIsSpoilt(len: nat, m: nat, size: nat, n: nat) returns (w: Work)
    requires 0 < size && n * size <= len < (n + 1) * size && (n + 2) * size <= OFFSET_MAX && n < m && 1 < m
    ensures Fits(w, size) && |w.disk.bytes| == len && !Promise(w, Sorting(w, m, size), m, size, n)
  {
    RowBounds(size, n);
    if n + 2 <= m || n <= 1 {
      w := Work(Disk(Filler(len, 0), 0), Filler(size, 0), Filler(size, 0));
      AnyFileSpoilt(w, m, size, n);
    } else if len == n * size {
      w := WholeRowsSpoilt(size, n);
    } else {
      w := PartialRowSpoilt(size, n, len - n * size);
    }
  }

  lemma RowsIn(len: nat, m: nat, size: nat, n: nat)
    requires n * size <= len < (n + 1) * size
    ensures m * size <= len <==> m <= n
  {
    if m <= n {
      ProductOrder(m, n, size);
    } else {
      ProductOrder(n + 1, m, size);
    }
  }

  /**
   * Sorting m records keeps its promise on every file of a length, which has n whole records, if and only if such a
   * file holds m records.
   */
  lemma SortsEveryFileIff(len: nat, m: nat, size: nat, n: nat)
    requires 0 < size && n * size <= len < (n + 1) * size && (n + 2) * size <= OFFSET_MAX
    ensures m <= 1 || m * size <= len <==>
      forall w: Work :: Fits(w, size) && |w.disk.bytes| == len ==> Promise(w, Sorting(w, m, size), m, size, n)
  {
    RowsIn(len, m, size, n);
    RowBounds(size, n);
    if m <= 1 || m <= n {
      forall w: Work | Fits(w, size) && |w.disk.bytes| == len ensures Promise(w, Sorting(w, m, size), m, size, n) {
        if m <= n {
          SortingSorts(w, m, size, n);
        }
      }
    } else {
      var w := SomeFileIsSpoilt(len, m, size, n);
    }
  }
}
