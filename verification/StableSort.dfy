/** Sequences of records, their keys, and what a stable sort by the first byte is. */
module StableSort {
  newtype byte = x: int | 0 <= x < 256

  type Row = r: seq<byte> | |r| > 0 witness [0]

  predicate SortedTo(rows: seq<Row>, k: nat)
    requires k <= |rows|
  {
    forall i, j :: 0 <= i < j < k ==> rows[i][0] <= rows[j][0]
  }

  /** The rows with the given first byte, in order. */
  function WithKey(rows: seq<Row>, key: byte): seq<Row> {
    if rows == [] then []
    else (if rows[0][0] == key then [rows[0]] else []) + WithKey(rows[1..], key)
  }

  /** Rows with the same first byte come in the same order, and no row is lost or doubled. */
  ghost predicate Stable(was: seq<Row>, now: seq<Row>) {
    forall key :: WithKey(now, key) == WithKey(was, key)
  }

  lemma WithKeyCons(x: Row, rest: seq<Row>, key: byte)
    ensures WithKey([x] + rest, key) == (if x[0] == key then [x] else []) + WithKey(rest, key)
  {
    assert ([x] + rest)[1..] == rest;
  }

  lemma Associates(a: seq<Row>, b: seq<Row>, c: seq<Row>)
    ensures (a + b) + c == a + (b + c)
  {
  }

  lemma {:induction false} WithKeyAppend(a: seq<Row>, b: seq<Row>, key: byte)
    ensures WithKey(a + b, key) == WithKey(a, key) + WithKey(b, key)
  {
    if a == [] {
      assert a + b == b;
    } else {
      var x, more := a[0], a[1..];
      assert a == [x] + more;
      WithKeyAppend(more, b, key);
      AppendCons(x, more, b, key);
    }
  }

  lemma AppendCons(x: Row, more: seq<Row>, b: seq<Row>, key: byte)
    requires WithKey(more + b, key) == WithKey(more, key) + WithKey(b, key)
    ensures WithKey([x] + more + b, key) == WithKey([x] + more, key) + WithKey(b, key)
  {
    Associates([x], more, b);
    WithKeyCons(x, more, key);
    WithKeyCons(x, more + b, key);
    Associates(if x[0] == key then [x] else [], WithKey(more, key), WithKey(b, key));
  }

  lemma {:induction false} NoneWithKey(rows: seq<Row>, key: byte)
    requires forall i :: 0 <= i < |rows| ==> rows[i][0] != key
    ensures WithKey(rows, key) == []
  {
    if rows != [] {
      NoneWithKey(rows[1..], key);
    }
  }

  lemma {:induction false} WithKeyHas(rows: seq<Row>, i: nat)
    requires i < |rows|
    ensures WithKey(rows, rows[i][0]) != []
  {
    if i > 0 {
      WithKeyHas(rows[1..], i - 1);
    }
  }

  lemma {:induction false} WithKeyKeys(rows: seq<Row>, key: byte, i: nat)
    requires i < |WithKey(rows, key)|
    ensures WithKey(rows, key)[i] in rows && WithKey(rows, key)[i][0] == key
  {
    if rows[0][0] != key {
      WithKeyKeys(rows[1..], key, i);
    } else if i > 0 {
      WithKeyKeys(rows[1..], key, i - 1);
    }
  }

  /** How often a row occurs shows among the rows with its key. */
  lemma {:induction false} CountWithKey(rows: seq<Row>, row: Row)
    ensures multiset(rows)[row] == multiset(WithKey(rows, row[0]))[row]
  {
    if rows != [] {
      assert rows == [rows[0]] + rows[1..];
      CountWithKey(rows[1..], row);
    }
  }

  lemma StableIsPermutation(was: seq<Row>, now: seq<Row>)
    requires Stable(was, now)
    ensures multiset(now) == multiset(was) && |now| == |was|
  {
    forall row: Row ensures multiset(now)[row] == multiset(was)[row] {
      CountWithKey(was, row);
      CountWithKey(now, row);
    }
    assert forall row :: row in now ==> row in multiset(now);
    SameMultiset(was, now);
  }

  lemma SameMultiset(was: seq<Row>, now: seq<Row>)
    requires forall row: Row :: multiset(now)[row] == multiset(was)[row]
    ensures multiset(now) == multiset(was) && |now| == |was|
  {
    assert |multiset(now)| == |now| && |multiset(was)| == |was|;
  }

  lemma HeadOfSorted(rows: seq<Row>, other: seq<Row>)
    requires rows != [] && other != [] && SortedTo(other, |other|) && Stable(rows, other)
    ensures rows[0][0] >= other[0][0]
  {
    var key := rows[0][0];
    WithKeyHas(rows, 0);
    WithKeyKeys(other, key, 0);
    var i :| 0 <= i < |other| && other[i] == WithKey(other, key)[0];
  }

  lemma WithKeyTail(rows: seq<Row>, key: byte)
    requires rows != []
    ensures WithKey(rows[1..], key) ==
      if rows[0][0] == key then WithKey(rows, key)[1..] else WithKey(rows, key)
  {
  }

  /** There is only one sorted arrangement that is stable. */
  lemma {:induction false} StableSortIsUnique(a: seq<Row>, b: seq<Row>)
    requires SortedTo(a, |a|) && SortedTo(b, |b|) && Stable(a, b)
    ensures a == b
  {
    StableIsPermutation(a, b);
    if a != [] {
      HeadOfSorted(a, b);
      HeadOfSorted(b, a);
      var key := a[0][0];
      assert WithKey(a, key)[0] == a[0] && WithKey(b, key)[0] == b[0];
      forall other: byte ensures WithKey(a[1..], other) == WithKey(b[1..], other) {
        WithKeyTail(a, other);
        WithKeyTail(b, other);
      }
      StableSortIsUnique(a[1..], b[1..]);
    }
  }

  // ----- one insertion -----

  /** Row k taken out and put in at p. */
  function Moved(rows: seq<Row>, k: nat, p: nat): (r: seq<Row>)
    requires p <= k < |rows|
    ensures |r| == |rows|
  {
    rows[..p] + [rows[k]] + rows[p..k] + rows[k + 1..]
  }

  /** p is where a stable insertion of row k into the sorted rows before it belongs. */
  ghost predicate Place(rows: seq<Row>, k: nat, p: nat) {
    && p <= k < |rows|
    && (forall i :: p <= i < k ==> rows[i][0] > rows[k][0])
    && (p > 0 ==> rows[p - 1][0] <= rows[k][0])
  }

  lemma MovedAt(rows: seq<Row>, k: nat, p: nat, i: nat)
    requires p <= k < |rows| && i <= k
    ensures Moved(rows, k, p)[i] == if i < p then rows[i] else if i == p then rows[k] else rows[i - 1]
  {
  }

  lemma MovedIsSorted(rows: seq<Row>, k: nat, p: nat)
    requires k < |rows| && SortedTo(rows, k) && Place(rows, k, p)
    ensures SortedTo(Moved(rows, k, p), k + 1)
  {
    var r := Moved(rows, k, p);
    forall i: nat, j: nat | i < j < k + 1 ensures r[i][0] <= r[j][0] {
      MovedAt(rows, k, p, i);
      MovedAt(rows, k, p, j);
      MovedInOrder(rows, k, p, i, j);
    }
  }

  lemma MovedInOrder(rows: seq<Row>, k: nat, p: nat, i: nat, j: nat)
    requires k < |rows| && SortedTo(rows, k) && Place(rows, k, p) && i < j <= k
    ensures var a := if i < p then rows[i] else if i == p then rows[k] else rows[i - 1];
      var b := if j < p then rows[j] else if j == p then rows[k] else rows[j - 1];
      a[0] <= b[0]
  {
    if i < p == j {
      assert rows[i][0] <= rows[p - 1][0];
    }
  }

  lemma MovedIsStable(rows: seq<Row>, k: nat, p: nat)
    requires Place(rows, k, p)
    ensures Stable(rows, Moved(rows, k, p))
  {
    Regroup(rows, k, p);
    forall key ensures WithKey(Moved(rows, k, p), key) == WithKey(rows, key) {
      MovedWithKey(rows[..p], rows[p..k], rows[k], rows[k + 1..], key);
    }
  }

  lemma Regroup(rows: seq<Row>, k: nat, p: nat)
    requires p <= k < |rows|
    ensures rows == rows[..p] + (rows[p..k] + ([rows[k]] + rows[k + 1..]))
    ensures Moved(rows, k, p) == rows[..p] + ([rows[k]] + (rows[p..k] + rows[k + 1..]))
  {
  }

  lemma MovedWithKey(front: seq<Row>, middle: seq<Row>, x: Row, rest: seq<Row>, key: byte)
    requires forall i :: 0 <= i < |middle| ==> middle[i][0] > x[0]
    ensures WithKey(front + ([x] + (middle + rest)), key) == WithKey(front + (middle + ([x] + rest)), key)
  {
    WithKeyAppend(front, [x] + (middle + rest), key);
    WithKeyAppend(front, middle + ([x] + rest), key);
    WithKeyAppend([x], middle + rest, key);
    WithKeyAppend([x], rest, key);
    WithKeyAppend(middle, rest, key);
    WithKeyAppend(middle, [x] + rest, key);
    if x[0] == key {
      NoneWithKey(middle, key);
    }
  }
}
