/** Sums over the rows and columns of a square, taken column by column, and indices into flat arrays. */
module GridSum {
  type Weight = (int, int) -> real

  /** f(i, 0) + ... + f(i, m - 1) */
  function Column(f: Weight, i: int, m: nat): real {
    if m == 0 then 0.0 else Column(f, i, m - 1) + f(i, m - 1)
  }

  /** The sum of the first n columns of height m. */
  function Grid(f: Weight, n: nat, m: nat): real {
    if n == 0 then 0.0 else Grid(f, n - 1, m) + Column(f, n - 1, m)
  }

  ghost predicate NonNegative(f: Weight, n: nat, m: nat) {
    forall i, j :: 0 <= i < n && 0 <= j < m ==> f(i, j) >= 0.0
  }

  lemma {:induction false} ColumnScale(f: Weight, g: Weight, i: int, m: nat, k: real)
    requires forall j :: 0 <= j < m ==> g(i, j) == f(i, j) * k
    ensures Column(g, i, m) == Column(f, i, m) * k
  {
    if m > 0 {
      ColumnScale(f, g, i, m - 1, k);
    }
  }

  lemma {:induction false} GridScale(f: Weight, g: Weight, n: nat, m: nat, k: real)
    requires forall i, j :: 0 <= i < n && 0 <= j < m ==> g(i, j) == f(i, j) * k
    ensures Grid(g, n, m) == Grid(f, n, m) * k
  {
    if n > 0 {
      GridScale(f, g, n - 1, m, k);
      ColumnScale(f, g, n - 1, m, k);
    }
  }

  lemma {:induction false} ColumnMonotone(f: Weight, g: Weight, i: int, m: nat)
    requires forall j :: 0 <= j < m ==> f(i, j) <= g(i, j)
    ensures Column(f, i, m) <= Column(g, i, m)
  {
    if m > 0 {
      ColumnMonotone(f, g, i, m - 1);
    }
  }

  lemma {:induction false} GridMonotone(f: Weight, g: Weight, n: nat, m: nat)
    requires forall i, j :: 0 <= i < n && 0 <= j < m ==> f(i, j) <= g(i, j)
    ensures Grid(f, n, m) <= Grid(g, n, m)
  {
    if n > 0 {
      GridMonotone(f, g, n - 1, m);
      ColumnMonotone(f, g, n - 1, m);
    }
  }

  /** A column with one entry that is not zero. */
  lemma {:induction false} ColumnOne(f: Weight, i: int, m: nat, b: int)
    requires forall j :: 0 <= j < m && j != b ==> f(i, j) == 0.0
    ensures Column(f, i, m) == if 0 <= b < m then f(i, b) else 0.0
  {
    if m > 0 {
      ColumnOne(f, i, m - 1, b);
    }
  }

  lemma {:induction false} GridOne(f: Weight, n: nat, m: nat, a: int, b: int)
    requires forall i, j :: 0 <= i < n && 0 <= j < m && (i != a || j != b) ==> f(i, j) == 0.0
    ensures Grid(f, n, m) == if 0 <= a < n && 0 <= b < m then f(a, b) else 0.0
  {
    if n > 0 {
      GridOne(f, n - 1, m, a, b);
      if n - 1 == a {
        ColumnOne(f, n - 1, m, b);
      } else {
        ColumnOne(f, n - 1, m, -1);
      }
    }
  }

  /** f(0, j) + ... + f(n - 1, j) */
  function Row(f: Weight, j: int, n: nat): real {
    if n == 0 then 0.0 else Row(f, j, n - 1) + f(n - 1, j)
  }

  /** Column by column or row by row, the sum is the same. */
  lemma {:induction false} OneRowMore(f: Weight, n: nat, m: nat)
    ensures Grid(f, n, m + 1) == Grid(f, n, m) + Row(f, m, n)
  {
    if n > 0 {
      OneRowMore(f, n - 1, m);
    }
  }

  lemma {:induction false} NoRows(f: Weight, n: nat)
    ensures Grid(f, n, 0) == 0.0
  {
    if n > 0 {
      NoRows(f, n - 1);
    }
  }

  lemma GridSame(f: Weight, g: Weight, n: nat, m: nat)
    requires forall i, j :: 0 <= i < n && 0 <= j < m ==> f(i, j) == g(i, j)
    ensures Grid(f, n, m) == Grid(g, n, m)
  {
    GridMonotone(f, g, n, m);
    GridMonotone(g, f, n, m);
  }

  lemma {:induction false} SomePositive(f: Weight, n: nat, m: nat, a: nat, b: nat)
    requires NonNegative(f, n, m) && a < n && b < m && f(a, b) > 0.0
    ensures Grid(f, n, m) > 0.0
  {
    var one: Weight := (i, j) => if i == a && j == b then f(a, b) else 0.0;
    GridOne(one, n, m, a, b);
    GridMonotone(one, f, n, m);
  }

  // ----- row-major indices -----

  function Index(x: int, y: int, width: int): int {
    y * width + x
  }

  lemma RowAbove(y: nat, y': nat, width: nat)
    requires y < y'
    ensures 0 <= y * width && y * width + width <= y' * width
  {
    assert (y' - y - 1) * width >= 0;
    assert y' * width == y * width + width + (y' - y - 1) * width;
  }

  lemma IndexInRange(x: nat, y: nat, width: nat, height: nat)
    requires x < width && y < height
    ensures 0 <= Index(x, y, width) < width * height
  {
    RowAbove(y, height, width);
  }

  lemma IndexInjective(x: nat, y: nat, x': nat, y': nat, width: nat)
    requires x < width && x' < width && (x != x' || y != y')
    ensures Index(x, y, width) != Index(x', y', width)
  {
    if y < y' {
      RowAbove(y, y', width);
    } else if y' < y {
      RowAbove(y', y, width);
    }
  }

  lemma IndexDivides(pixel: nat, width: nat)
    requires width > 0
    ensures pixel == Index(pixel % width, pixel / width, width)
  {
  }
}
