/** Filters and grey images: random_filter and apply_filter over the reals. */
module Convolution {
  import opened GridSum

  newtype pix = x: int | 0 <= x < 256

  // ----- filters -----

  /** The weight in column i and row j of a filter of the given size. */
  function WeightAt(data: seq<real>, size: nat): Weight {
    (i: int, j: int) =>
      if 0 <= i < size && 0 <= j < size && 0 <= Index(i, j, size) < |data| then data[Index(i, j, size)] else 0.0
  }

  /** The weights are not negative and sum up to 1. */
  ghost predicate Normalized(data: seq<real>, size: nat) {
    NonNegative(WeightAt(data, size), size, size) && Grid(WeightAt(data, size), size, size) == 1.0
  }

  predicate Earlier(a: int, b: int, i: int, j: int) {
    a < i || (a == i && b < j)
  }

  /** The loops have come to column i, row j: there the weights are still those of f, before that those of g. */
  ghost predicate Reached(data: seq<real>, size: nat, f: Weight, g: Weight, i: int, j: int) {
    && |data| == size * size
    && forall a, b :: 0 <= a < size && 0 <= b < size ==>
         WeightAt(data, size)(a, b) == if Earlier(a, b, i, j) then g(a, b) else f(a, b)
  }

  lemma ReachedNext(data: seq<real>, size: nat, f: Weight, g: Weight, i: nat, j: nat, val: real)
    requires Reached(data, size, f, g, i, j) && i < size && j < size && val == g(i, j)
    ensures 0 <= Index(i, j, size) < |data|
    ensures Reached(data[Index(i, j, size) := val], size, f, g, i, j + 1)
  {
    IndexInRange(i, j, size, size);
    var now := data[Index(i, j, size) := val];
    forall a, b | 0 <= a < size && 0 <= b < size
      ensures WeightAt(now, size)(a, b) == if a == i && b == j then val else WeightAt(data, size)(a, b)
    {
      IndexInRange(a, b, size, size);
      if a != i || b != j {
        IndexInjective(a, b, i, j, size);
      }
    }
  }

  lemma ReachedRow(data: seq<real>, size: nat, f: Weight, g: Weight, i: nat)
    requires Reached(data, size, f, g, i, size)
    ensures Reached(data, size, f, g, i + 1, 0)
  {
  }

  function Scaled(f: Weight, k: real): Weight {
    (i: int, j: int) => f(i, j) * k
  }

  /** Dividing weights that are not negative by their sum. */
  lemma NormalizedBySum(data: seq<real>, size: nat, f: Weight, sum: real)
    requires NonNegative(f, size, size) && sum == Grid(f, size, size) > 0.0
    requires Reached(data, size, f, Scaled(f, 1.0 / sum), size, 0)
    ensures Normalized(data, size)
  {
    ScaledNotNegative(f, size, 1.0 / sum, sum);
    SumsToOne(f, size, sum);
    GridSame(Scaled(f, 1.0 / sum), WeightAt(data, size), size, size);
  }

  lemma ScaledNotNegative(f: Weight, size: nat, k: real, sum: real)
    requires NonNegative(f, size, size) && sum > 0.0 && k == 1.0 / sum
    ensures NonNegative(Scaled(f, k), size, size)
  {
    forall i, j | 0 <= i < size && 0 <= j < size ensures Scaled(f, k)(i, j) >= 0.0 {
      NotNegative(f(i, j), k);
    }
  }

  lemma SumsToOne(f: Weight, size: nat, sum: real)
    requires sum == Grid(f, size, size) > 0.0
    ensures Grid(Scaled(f, 1.0 / sum), size, size) == 1.0
  {
    GridScale(f, Scaled(f, 1.0 / sum), size, size, 1.0 / sum);
    Inverse(sum);
  }

  lemma Inverse(x: real)
    requires x > 0.0
    ensures x * (1.0 / x) == 1.0
  {
  }

  lemma NotNegative(x: real, y: real)
    requires x >= 0.0 && y >= 0.0
    ensures x * y >= 0.0
  {
  }

  lemma Positive(x: real, y: real)
    requires x > 0.0 && y > 0.0
    ensures x * y > 0.0 && x / y > 0.0
  {
  }

  lemma Quotient(x: real, y: real)
    requires y > 0.0
    ensures x / y == x * (1.0 / y) && x * (1.0 / y) * y == x
  {
  }

  /** Quotients rand() / RAND_MAX by the column and row that they are drawn for. */
  ghost predicate Draws(draws: Weight, size: nat) {
    forall i, j :: 0 <= i < size && 0 <= j < size ==> 0.0 <= draws(i, j) <= 1.0
  }

  ghost predicate SomePositiveDraw(draws: Weight, size: nat) {
    exists i, j :: 0 <= i < size && 0 <= j < size && draws(i, j) > 0.0
  }

  /** The weights before normalization are not negative, and their sum is 0 only when all draws are. */
  lemma DrawnSum(draws: Weight, size: nat, norm: real)
    requires Draws(draws, size) && (size > 0 ==> norm > 0.0)
    ensures NonNegative(Scaled(draws, norm), size, size)
    ensures Grid(Scaled(draws, norm), size, size) >= 0.0
    ensures Grid(Scaled(draws, norm), size, size) > 0.0 <==> SomePositiveDraw(draws, size)
  {
    var f := Scaled(draws, norm);
    forall i, j | 0 <= i < size && 0 <= j < size ensures f(i, j) >= 0.0 {
      NotNegative(draws(i, j), norm);
    }
    if a, b :| 0 <= a < size && 0 <= b < size && draws(a, b) > 0.0 {
      Positive(draws(a, b), norm);
      SomePositive(f, size, size, a, b);
    } else {
      forall i, j | 0 <= i < size && 0 <= j < size ensures f(i, j) == 0.0 {
        assert draws(i, j) == 0.0;
      }
      GridOne(f, size, size, -1, -1);
    }
  }

  /** The weight in column i and row j times the sum is its draw times the factor. */
  ghost predicate InProportion(data: seq<real>, size: nat, draws: Weight, sum: real, norm: real, i: nat, j: nat) {
    0 <= j * size + i < |data| && data[j * size + i] * sum == draws(i, j) * norm
  }

  ghost predicate AllInProportion(data: seq<real>, size: nat, draws: Weight, sum: real, norm: real) {
    forall i: nat, j: nat :: i < size && j < size ==> InProportion(data, size, draws, sum, norm, i, j)
  }

  /** The result of random_filter. */
  ghost predicate Drawn(data: seq<real>, size: nat, draws: Weight, sum: real) {
    && Normalized(data, size) && sum > 0.0 && size > 0
    && AllInProportion(data, size, draws, sum, 2.0 / size as real / size as real)
  }

  lemma IsDrawn(data: seq<real>, size: nat, draws: Weight, f: Weight, sum: real)
    requires Draws(draws, size) && f == Scaled(draws, Norm(size)) && sum == Grid(f, size, size)
    requires sum > 0.0 && Reached(data, size, f, Scaled(f, 1.0 / sum), size, 0)
    ensures Drawn(data, size, draws, sum) && Grid(Scaled(f, 1.0 / sum), size, size) == 1.0
  {
    NormIsPositive(size);
    DrawnSum(draws, size, Norm(size));
    NormalizedBySum(data, size, f, sum);
    SumsToOne(f, size, sum);
    forall i: nat, j: nat | i < size && j < size ensures InProportion(data, size, draws, sum, Norm(size), i, j) {
      Proportional(data, size, draws, f, Scaled(f, 1.0 / sum), Norm(size), sum, i, j);
    }
  }

  lemma Proportional(
      data: seq<real>, size: nat, draws: Weight, f: Weight, g: Weight, norm: real, sum: real, i: nat, j: nat)
    requires sum > 0.0 && f == Scaled(draws, norm) && g == Scaled(f, 1.0 / sum)
    requires Reached(data, size, f, g, size, 0) && i < size && j < size
    ensures InProportion(data, size, draws, sum, norm, i, j)
  {
    StoredWeight(data, size, f, g, i, j);
    TimesTheSum(g(i, j), f(i, j), sum);
  }

  lemma StoredWeight(data: seq<real>, size: nat, f: Weight, g: Weight, i: nat, j: nat)
    requires Reached(data, size, f, g, size, 0) && i < size && j < size
    ensures 0 <= j * size + i < |data| && data[j * size + i] == g(i, j)
  {
    IndexInRange(i, j, size, size);
    assert WeightAt(data, size)(i, j) == g(i, j);
  }

  lemma TimesTheSum(weight: real, draw: real, sum: real)
    requires sum > 0.0 && weight == draw * (1.0 / sum)
    ensures weight * sum == draw
  {
    Quotient(draw, sum);
  }

  /** The factor of each draw; a filter without weights has no use for it. */
  function Norm(size: nat): real {
    if size == 0 then 0.0 else 2.0 / size as real / size as real
  }

  lemma NormIsPositive(size: nat)
    ensures size > 0 ==> Norm(size) > 0.0
  {
    if size > 0 {
      Positive(2.0, size as real);
      Positive(2.0 / size as real, size as real);
    }
  }

  lemma DivideNext(data: seq<real>, size: nat, f: Weight, sum: real, i: nat, j: nat)
    requires sum > 0.0 && Reached(data, size, f, Scaled(f, 1.0 / sum), i, j) && i < size && j < size
    ensures 0 <= Index(i, j, size) < |data|
    ensures data[Index(i, j, size)] / sum == Scaled(f, 1.0 / sum)(i, j)
  {
    IndexInRange(i, j, size, size);
    assert data[Index(i, j, size)] == WeightAt(data, size)(i, j) == f(i, j);
    Quotient(f(i, j), sum);
  }

  class Filter {
    const size: nat
    const data: array<real>

    constructor (n: nat)
      ensures size == n && data.Length == n * n && fresh(data)
    {
      size := n;
      data := new real[n * n];
    }

    /** random_filter; the results are the two sums that it prints. When all draws are 0 the first sum is 0, and
        the model stops where the program divides 0 by 0. */
    method Randomize(draws: Weight) returns (sum: real, sum2: real)
      requires data.Length == size * size && Draws(draws, size)
      modifies data
      ensures sum >= 0.0 && (sum > 0.0 <==> SomePositiveDraw(draws, size))
      ensures sum > 0.0 ==> Drawn(data[..], size, draws, sum) && sum2 == 1.0
    {
      ghost var drawn := Scaled(draws, Norm(size));
      NormIsPositive(size);
      DrawnSum(draws, size, Norm(size));
      sum := Fill(draws, Norm(size));
      if sum == 0.0 {
        return sum, 0.0;
      }
      sum2 := Divide(sum, drawn);
      IsDrawn(data[..], size, draws, drawn, sum);
    }

    /** One assignment to the weight in column i and row j. */
    method Put(i: nat, j: nat, val: real, ghost f: Weight, ghost g: Weight)
      requires Reached(data[..], size, f, g, i, j) && i < size && j < size && val == g(i, j)
      modifies data
      ensures Reached(data[..], size, f, g, i, j + 1)
    {
      ReachedNext(data[..], size, f, g, i, j, val);
      data[Index(i, j, size)] := val;
    }

    /** The first pair of loops. */
    method Fill(draws: Weight, norm: real) returns (sum: real)
      requires data.Length == size * size
      modifies data
      ensures sum == Grid(Scaled(draws, norm), size, size)
      ensures Reached(data[..], size, Scaled(draws, norm), Scaled(draws, norm), 0, 0)
    {
      sum := 0.0;
      ghost var f, g := WeightAt(data[..], size), Scaled(draws, norm);
      for i := 0 to size
        invariant sum == Grid(g, i, size) && Reached(data[..], size, f, g, i, 0)
      {
        sum := FillColumn(draws, norm, i, sum, f);
      }
    }

    method FillColumn(draws: Weight, norm: real, i: nat, before: real, ghost f: Weight) returns (sum: real)
      requires i < size && Reached(data[..], size, f, Scaled(draws, norm), i, 0)
      modifies data
      ensures sum == before + Column(Scaled(draws, norm), i, size)
      ensures Reached(data[..], size, f, Scaled(draws, norm), i + 1, 0)
    {
      sum := before;
      ghost var g := Scaled(draws, norm);
      for j := 0 to size
        invariant sum == before + Column(g, i, j) && Reached(data[..], size, f, g, i, j)
      {
        var val := draws(i, j) * norm;
        Put(i, j, val, f, g);
        sum := sum + val;
      }
      ReachedRow(data[..], size, f, g, i);
    }

    /** The second pair of loops. */
    method Divide(sum: real, ghost f: Weight) returns (sum2: real)
      requires sum > 0.0 && Reached(data[..], size, f, f, 0, 0)
      modifies data
      ensures sum2 == Grid(Scaled(f, 1.0 / sum), size, size)
      ensures Reached(data[..], size, f, Scaled(f, 1.0 / sum), size, 0)
    {
      sum2 := 0.0;
      for i := 0 to size
        invariant sum2 == Grid(Scaled(f, 1.0 / sum), i, size)
        invariant Reached(data[..], size, f, Scaled(f, 1.0 / sum), i, 0)
      {
        sum2 := DivideColumn(sum, i, sum2, f);
      }
    }

    method DivideColumn(sum: real, i: nat, before: real, ghost f: Weight) returns (sum2: real)
      requires sum > 0.0 && i < size && Reached(data[..], size, f, Scaled(f, 1.0 / sum), i, 0)
      modifies data
      ensures sum2 == before + Column(Scaled(f, 1.0 / sum), i, size)
      ensures Reached(data[..], size, f, Scaled(f, 1.0 / sum), i + 1, 0)
    {
      sum2 := before;
      ghost var g := Scaled(f, 1.0 / sum);
      for j := 0 to size
        invariant sum2 == before + Column(g, i, j) && Reached(data[..], size, f, g, i, j)
      {
        DivideNext(data[..], size, f, sum, i, j);
        var val := data[Index(i, j, size)] / sum;
        Put(i, j, val, f, g);
        sum2 := sum2 + val;
      }
      ReachedRow(data[..], size, f, g, i);
    }
  }

  // ----- images -----

  // What an image holds.
  datatype Picture = Picture(width: nat, height: nat, pixels: seq<pix>) {
    ghost predicate Valid() {
      width > 0 && height > 0 && |pixels| == width * height
    }

    ghost function At(x: int, y: int): pix
      requires Valid() && 0 <= x < width && 0 <= y < height
    {
      IndexInRange(x, y, width, height);
      pixels[y * width + x]
    }
  }

  class Image {
    const width: nat
    const height: nat
    const data: array<pix>

    constructor (w: nat, h: nat)
      ensures width == w && height == h && data.Length == w * h && fresh(data)
    {
      width, height := w, h;
      data := new pix[w * h];
    }

    ghost function Contents(): Picture reads data {
      Picture(width, height, data[..])
    }

    method GetPixel(x: int, y: int) returns (p: pix)
      requires Contents().Valid() && 0 <= x < width && 0 <= y < height
      ensures p == Contents().At(x, y)
    {
      IndexInRange(x, y, width, height);
      p := data[Index(x, y, width)];
    }

    method SetPixel(x: int, y: int, p: pix)
      requires Contents().Valid() && 0 <= x < width && 0 <= y < height
      modifies data
      ensures forall a, b :: 0 <= a < width && 0 <= b < height ==>
                Contents().At(a, b) == if a == x && b == y then p else old(Contents()).At(a, b)
    {
      IndexInRange(x, y, width, height);
      data[Index(x, y, width)] := p;
      PixelSet(old(Contents()), Contents(), x, y, p);
    }
  }

  lemma PixelSet(was: Picture, now: Picture, x: int, y: int, p: pix)
    requires was.Valid() && 0 <= x < was.width && 0 <= y < was.height
    requires 0 <= Index(x, y, was.width) < |was.pixels|
    requires now == was.(pixels := was.pixels[Index(x, y, was.width) := p])
    ensures forall a, b :: 0 <= a < was.width && 0 <= b < was.height ==>
              now.At(a, b) == if a == x && b == y then p else was.At(a, b)
  {
    forall a, b | 0 <= a < was.width && 0 <= b < was.height
      ensures now.At(a, b) == if a == x && b == y then p else was.At(a, b)
    {
      IndexInRange(a, b, was.width, was.height);
      if a != x || b != y {
        IndexInjective(a, b, x, y, was.width);
      }
    }
  }

  // ----- apply_filter -----

  function Clamp(v: int, n: nat): (r: int)
    requires n > 0
    ensures 0 <= r < n
  {
    var up := if v < 0 then 0 else v;
    if up > n - 1 then n - 1 else up
  }

  /** round: halves away from zero */
  function Round(r: real): int {
    if r >= 0.0 then (r + 0.5).Floor else -(-r + 0.5).Floor
  }

  /** The conversion to unsigned char. */
  function AsPix(n: int): pix {
    (n % 256) as pix
  }

  /** The pixel under column i and row j of a filter of the given size around x, y. */
  ghost function Under(from: Picture, size: nat, x: int, y: int, i: int, j: int): pix
    requires from.Valid()
  {
    from.At(Clamp(x - size / 2 + i, from.width), Clamp(y - size / 2 + j, from.height))
  }

  ghost function Weighted(weights: Weight, size: nat, from: Picture, x: int, y: int): Weight
    requires from.Valid()
  {
    (i: int, j: int) => Under(from, size, x, y, i, j) as real * weights(i, j)
  }

  ghost function Filtered(data: seq<real>, size: nat, from: Picture, x: int, y: int): pix
    requires from.Valid()
  {
    AsPix(Round(Grid(Weighted(WeightAt(data, size), size, from, x, y), size, size)))
  }

  // ----- the sum, row by row -----

  /** The weight in column i and row j, times the pixel nearest to the one it lies over. */
  ghost function Product(data: seq<real>, size: nat, from: Picture, x: int, y: int, i: nat, j: nat): real
    requires from.Valid() && |data| == size * size && i < size && j < size
  {
    IndexInRange(i, j, size, size);
    data[j * size + i] * from.At(Clamp(x - size / 2 + i, from.width), Clamp(y - size / 2 + j, from.height)) as real
  }

  lemma ProductIs(data: seq<real>, size: nat, from: Picture, x: int, y: int, i: nat, j: nat)
    requires from.Valid() && |data| == size * size && i < size && j < size
    ensures Weighted(WeightAt(data, size), size, from, x, y)(i, j) == Product(data, size, from, x, y, i, j)
  {
    IndexInRange(i, j, size, size);
    var weight, pixel := data[j * size + i], Under(from, size, x, y, i, j) as real;
    assert WeightAt(data, size)(i, j) == weight;
    assert pixel * weight == weight * pixel;
  }

  /** The first n products in row j of the filter. */
  ghost function WeightedRow(data: seq<real>, size: nat, from: Picture, x: int, y: int, j: nat, n: nat): real
    requires from.Valid() && |data| == size * size && j < size && n <= size
  {
    if n == 0 then 0.0
    else WeightedRow(data, size, from, x, y, j, n - 1) + Product(data, size, from, x, y, n - 1, j)
  }

  /** The products in the first m rows. */
  ghost function WeightedSum(data: seq<real>, size: nat, from: Picture, x: int, y: int, m: nat): real
    requires from.Valid() && |data| == size * size && m <= size
  {
    if m == 0 then 0.0
    else WeightedSum(data, size, from, x, y, m - 1) + WeightedRow(data, size, from, x, y, m - 1, size)
  }

  lemma {:induction false} RowIsWeighted(data: seq<real>, size: nat, from: Picture, x: int, y: int, j: nat, n: nat)
    requires from.Valid() && |data| == size * size && j < size && n <= size
    ensures Row(Weighted(WeightAt(data, size), size, from, x, y), j, n) == WeightedRow(data, size, from, x, y, j, n)
  {
    if n > 0 {
      RowIsWeighted(data, size, from, x, y, j, n - 1);
      ProductIs(data, size, from, x, y, n - 1, j);
    }
  }

  lemma {:induction false} RowsAreWeighted(data: seq<real>, size: nat, from: Picture, x: int, y: int, m: nat)
    requires from.Valid() && |data| == size * size && m <= size
    ensures Grid(Weighted(WeightAt(data, size), size, from, x, y), size, m) == WeightedSum(data, size, from, x, y, m)
  {
    var f := Weighted(WeightAt(data, size), size, from, x, y);
    if m == 0 {
      NoRows(f, size);
    } else {
      RowsAreWeighted(data, size, from, x, y, m - 1);
      RowIsWeighted(data, size, from, x, y, m - 1, size);
      OneRowMore(f, size, m - 1);
    }
  }

  /** p is the pixel value nearest to the sum; an exact half goes up. */
  ghost predicate NearestPixel(p: pix, sum: real) {
    if sum < 0.0 then p == 0 else -0.5 < p as real - sum <= 0.5
  }

  /** Wherever the rounded sum is a pixel value, the filtered pixel is the one nearest to the sum. */
  lemma FilteredIsNearest(data: seq<real>, size: nat, from: Picture, x: int, y: int)
    requires from.Valid() && |data| == size * size
    ensures -0.5 < WeightedSum(data, size, from, x, y, size) < 255.5 ==>
              NearestPixel(Filtered(data, size, from, x, y), WeightedSum(data, size, from, x, y, size))
  {
    RowsAreWeighted(data, size, from, x, y, size);
    RoundsToPixel(WeightedSum(data, size, from, x, y, size));
  }

  lemma RoundsToPixel(sum: real)
    ensures 0 <= Round(sum) < 256 <==> -0.5 < sum < 255.5
    ensures 0 <= Round(sum) < 256 ==> AsPix(Round(sum)) as int == Round(sum) && NearestPixel(AsPix(Round(sum)), sum)
  {
  }

  /** The product in the inner loop. */
  method WeightedPixel(filter: Filter, from: Image, x: int, y: int, i: nat, j: nat) returns (term: real)
    requires filter.data.Length == filter.size * filter.size && from.Contents().Valid()
    requires i < filter.size && j < filter.size
    ensures term == Weighted(WeightAt(filter.data[..], filter.size), filter.size, from.Contents(), x, y)(i, j)
  {
    var c := filter.size;
    var xp, yp := Clamp(x - c / 2 + i, from.width), Clamp(y - c / 2 + j, from.height);
    var pixel := from.GetPixel(xp, yp);
    IndexInRange(i, j, c, c);
    var weight := filter.data[Index(i, j, c)];
    assert weight == WeightAt(filter.data[..], c)(i, j);
    assert pixel == Under(from.Contents(), c, x, y, i, j);
    term := pixel as real * weight;
  }

  method ApplyFilter(filter: Filter, from: Image, x: int, y: int) returns (p: pix)
    requires filter.data.Length == filter.size * filter.size && from.Contents().Valid()
    ensures p == Filtered(filter.data[..], filter.size, from.Contents(), x, y)
    ensures var sum := WeightedSum(filter.data[..], filter.size, from.Contents(), x, y, filter.size);
      -0.5 < sum < 255.5 ==> NearestPixel(p, sum)
  {
    var c := filter.size;
    FilteredIsNearest(filter.data[..], c, from.Contents(), x, y);
    ghost var terms := Weighted(WeightAt(filter.data[..], c), c, from.Contents(), x, y);
    var sum := 0.0;
    for i := 0 to c
      invariant sum == Grid(terms, i, c)
    {
      var colSum := 0.0;
      for j := 0 to c
        invariant colSum == Column(terms, i, j)
      {
        var term := WeightedPixel(filter, from, x, y, i, j);
        colSum := colSum + term;
      }
      sum := sum + colSum;
    }
    p := AsPix(Round(sum));
  }

  // ----- what the filter does to an image -----

  /** No index is nearer to v than Clamp's. */
  lemma ClampIsNearest(v: int, n: nat, k: int)
    requires 0 <= k < n
    ensures Clamp(v, n) <= v ==> v - Clamp(v, n) <= if k <= v then v - k else k - v
    ensures Clamp(v, n) >= v ==> Clamp(v, n) - v <= if k <= v then v - k else k - v
  {
  }

  /** Round gives the nearest integer, and the one away from zero of two that are equally near. */
  lemma RoundIsNearest(r: real)
    ensures -0.5 <= Round(r) as real - r <= 0.5
    ensures r >= 0.0 ==> Round(r) as real - r > -0.5
    ensures r < 0.0 ==> Round(r) as real - r < 0.5
  {
  }

  lemma RoundBetween(r: real, lo: int, hi: int)
    requires 0 <= lo && lo as real <= r <= hi as real
    ensures lo <= Round(r) <= hi
  {
  }

  /** A normalized filter stays between the darkest and the brightest pixel of the image. */
  lemma StaysWithinTheImage(data: seq<real>, size: nat, from: Picture, x: int, y: int, lo: pix, hi: pix)
    requires from.Valid() && Normalized(data, size)
    requires forall p :: p in from.pixels ==> lo <= p <= hi
    ensures lo <= Filtered(data, size, from, x, y) <= hi
  {
    var w := WeightAt(data, size);
    var terms := Weighted(w, size, from, x, y);
    TermsBetween(w, size, from, x, y, lo, hi);
    WeightedMean(w, terms, size, lo as real, hi as real);
    RoundedBetween(Grid(terms, size, size), lo, hi);
  }

  lemma RoundedBetween(r: real, lo: pix, hi: pix)
    requires lo as real <= r <= hi as real
    ensures lo <= AsPix(Round(r)) <= hi
  {
    RoundBetween(r, lo as int, hi as int);
  }

  lemma TermsBetween(w: Weight, size: nat, from: Picture, x: int, y: int, lo: pix, hi: pix)
    requires from.Valid() && NonNegative(w, size, size)
    requires forall p :: p in from.pixels ==> lo <= p <= hi
    ensures forall i, j :: 0 <= i < size && 0 <= j < size ==>
              Scaled(w, lo as real)(i, j) <= Weighted(w, size, from, x, y)(i, j) <= Scaled(w, hi as real)(i, j)
  {
    forall i, j | 0 <= i < size && 0 <= j < size
      ensures Scaled(w, lo as real)(i, j) <= Weighted(w, size, from, x, y)(i, j) <= Scaled(w, hi as real)(i, j)
    {
      TermBetween(w, size, from, x, y, lo, hi, i, j);
    }
  }

  lemma ScaledMean(w: Weight, size: nat, k: real)
    requires Grid(w, size, size) == 1.0
    ensures Grid(Scaled(w, k), size, size) == k
  {
    GridScale(w, Scaled(w, k), size, size, k);
  }

  lemma WeightedMean(w: Weight, terms: Weight, size: nat, lo: real, hi: real)
    requires Grid(w, size, size) == 1.0
    requires forall i, j :: 0 <= i < size && 0 <= j < size ==> Scaled(w, lo)(i, j) <= terms(i, j) <= Scaled(w, hi)(i, j)
    ensures lo <= Grid(terms, size, size) <= hi
  {
    ScaledMean(w, size, lo);
    ScaledMean(w, size, hi);
    GridMonotone(Scaled(w, lo), terms, size, size);
    GridMonotone(terms, Scaled(w, hi), size, size);
  }

  lemma TermBetween(w: Weight, size: nat, from: Picture, x: int, y: int, lo: pix, hi: pix, i: int, j: int)
    requires from.Valid() && w(i, j) >= 0.0
    requires forall p :: p in from.pixels ==> lo <= p <= hi
    ensures Scaled(w, lo as real)(i, j) <= Weighted(w, size, from, x, y)(i, j) <= Scaled(w, hi as real)(i, j)
  {
    var p := Under(from, size, x, y, i, j);
    InThePicture(from, Clamp(x - size / 2 + i, from.width), Clamp(y - size / 2 + j, from.height));
    ScaleOrder(w(i, j), lo as real, p as real);
    ScaleOrder(w(i, j), p as real, hi as real);
  }

  lemma InThePicture(from: Picture, x: int, y: int)
    requires from.Valid() && 0 <= x < from.width && 0 <= y < from.height
    ensures from.At(x, y) in from.pixels
  {
    IndexInRange(x, y, from.width, from.height);
  }

  lemma ScaleOrder(w: real, a: real, b: real)
    requires w >= 0.0 && a <= b
    ensures w * a <= w * b
  {
    NotNegative(w, b - a);
  }

  /** A filter whose only weight is a 1 in column a and row b copies the pixel under that weight; with the weight
      in the middle it is the identity on the image. */
  lemma OneWeightCopies(data: seq<real>, size: nat, from: Picture, x: int, y: int, a: nat, b: nat)
    requires from.Valid() && a < size && b < size
    requires forall i, j :: 0 <= i < size && 0 <= j < size ==>
               WeightAt(data, size)(i, j) == if i == a && j == b then 1.0 else 0.0
    ensures Filtered(data, size, from, x, y) ==
            from.At(Clamp(x + a - size / 2, from.width), Clamp(y + b - size / 2, from.height))
    ensures a == b == size / 2 && 0 <= x < from.width && 0 <= y < from.height ==>
            Filtered(data, size, from, x, y) == from.At(x, y)
  {
    var terms := Weighted(WeightAt(data, size), size, from, x, y);
    GridOne(terms, size, size, a, b);
    var p := Under(from, size, x, y, a, b) as int;
    assert x - size / 2 + a == x + a - size / 2;
    RoundBetween(p as real, p, p);
  }
}
