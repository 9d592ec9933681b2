// Where the wavefront starts: at the node nearest the epicenter, or at the water nodes
// around it that a straight segment reaches.
module Seeding {
  import opened Wrappers
  import opened Arithmetic
  import opened Ocean
  import opened Wavefront
  import opened Epicenter
  import opened Padding

  const SEED_CELLS: real := 4.0

  function Ceiling(x: real): int {
    -(-x).Floor
  }

  function Least(a: int, b: int): int {
    if a < b then a else b
  }

  function Greatest(a: int, b: int): int {
    if a < b then b else a
  }

  function Clip(k: int, n: nat): int
    requires 0 < n
  {
    Greatest(0, Least(k, n - 1))
  }

  // ---------- Mean slowness of a segment ----------

  // Straight from (x0, y0) to (x1, y1), in columns and in rows from the south, sampled
  // at both ends and at `steps - 1` points between.
  datatype Segment = Segment(inner: seq<seq<Float>>, ny: nat, nx: nat, x0: real, y0: real, x1: real, y1: real, steps: nat) {

    ghost predicate Valid() {
      && 2 <= ny && 2 <= nx && 2 <= steps && Rectangular(inner, ny, nx)
      && forall r, c :: 0 <= r < ny && 0 <= c < nx ==> inner[r][c].NaN? || inner[r][c].Open()
    }

    function Along(i: nat): real
      requires 2 <= steps
    {
      i as real / steps as real
    }

    function X(i: nat): real
      requires 2 <= steps
    {
      x0 + Along(i) * (x1 - x0)
    }

    function Y(i: nat): real
      requires 2 <= steps
    {
      y0 + Along(i) * (y1 - y0)
    }

    // The cell a sample falls in.
    function Nearest(i: nat): Float
      requires Valid()
    {
      inner[ny - 1 - Clip(Round(Y(i)), ny)][Clip(Round(X(i)), nx)]
    }

    predicate InSight()
      requires Valid()
    {
      forall i :: 0 <= i <= steps ==> Nearest(i).Open()
    }

    // A segment to the node its start rounds to has all its samples in that node's cell.
    lemma StaysInItsCell(i: nat)
      requires Valid() && i <= steps
      requires 0 <= Round(x0) < nx && 0 <= Round(y0) < ny && x1 == Round(x0) as real && y1 == Round(y0) as real
      ensures Nearest(i) == inner[ny - 1 - Round(y0)][Round(x0)]
    {
      AlongIsAShare(i, steps);
      RoundsAlike(x0, Along(i), x1 - x0, X(i));
      RoundsAlike(y0, Along(i), y1 - y0, Y(i));
    }

    // Slowness at a sample, interpolated between the four nodes around it unless one of
    // them is land.
    function Slowness(i: nat): real
      requires Valid() && Nearest(i).Open()
    {
      var column, south := Clip(X(i).Floor, nx - 1), Clip(Y(i).Floor, ny - 1);
      var fx, fy := Fraction(X(i) - column as real), Fraction(Y(i) - south as real);
      var a, b := inner[ny - 1 - south][column], inner[ny - 1 - south][column + 1];
      var c, d := inner[ny - 2 - south][column], inner[ny - 2 - south][column + 1];
      if a.NaN? || b.NaN? || c.NaN? || d.NaN? then Nearest(i).value
      else Bilinear(a.value, b.value, c.value, d.value, fx, fy)
    }

    function Samples(): (samples: seq<real>)
      requires Valid() && InSight()
      ensures |samples| == steps + 1
    {
      seq(steps + 1, i requires 0 <= i <= steps => Slowness(i))
    }

    // None when a sample falls on land.
    function Mean(): Option<real>
      requires Valid()
    {
      if InSight() then Some(Trapezoid(Samples())) else None
    }

    ghost predicate AtMost(high: real)
      requires Valid()
    {
      forall r, c :: 0 <= r < ny && 0 <= c < nx && inner[r][c].Open() ==> inner[r][c].value <= high
    }

    // Every water cell's slowness lies between low and high.
    ghost predicate Bounded(low: real, high: real)
      requires Valid()
    {
      forall r, c :: 0 <= r < ny && 0 <= c < nx && inner[r][c].Open() ==> low <= inner[r][c].value <= high
    }

    lemma SlownessIsBetween(i: nat, low: real, high: real)
      requires Valid() && Nearest(i).Open() && Bounded(low, high)
      ensures low <= Slowness(i) <= high
    {
      var column, south := Clip(X(i).Floor, nx - 1), Clip(Y(i).Floor, ny - 1);
      var fx, fy := Fraction(X(i) - column as real), Fraction(Y(i) - south as real);
      var a, b := inner[ny - 1 - south][column], inner[ny - 1 - south][column + 1];
      var c, d := inner[ny - 2 - south][column], inner[ny - 2 - south][column + 1];
      if a.Num? && b.Num? && c.Num? && d.Num? {
        BilinearIsBetween(a.value, b.value, c.value, d.value, fx, fy, low, high);
      }
    }

    lemma SlownessIsNoMore(i: nat, high: real)
      requires Valid() && Nearest(i).Open() && AtMost(high)
      ensures Slowness(i) <= high
    {
      var column, south := Clip(X(i).Floor, nx - 1), Clip(Y(i).Floor, ny - 1);
      var fx, fy := Fraction(X(i) - column as real), Fraction(Y(i) - south as real);
      var a, b := inner[ny - 1 - south][column], inner[ny - 1 - south][column + 1];
      var c, d := inner[ny - 2 - south][column], inner[ny - 2 - south][column + 1];
      if a.Num? && b.Num? && c.Num? && d.Num? {
        BilinearIsNoMore(a.value, b.value, c.value, d.value, fx, fy, high);
      }
    }

    lemma MeanIsNoMore(high: real)
      requires Valid() && AtMost(high)
      ensures Mean().Some? ==> Mean().value <= high
    {
      if InSight() {
        forall i | 0 <= i <= steps
          ensures Samples()[i] <= high
        {
          SlownessIsNoMore(i, high);
        }
        var low := Lowest(Samples());
        TrapezoidIsBetween(Samples(), low, high);
      }
    }

    // The mean lies between the least and the greatest slowness of the grid, so over a
    // uniform sea it is that slowness exactly.
    lemma MeanIsBetween(low: real, high: real)
      requires Valid() && Bounded(low, high)
      ensures Mean().Some? ==> low <= Mean().value <= high
    {
      if InSight() {
        forall i | 0 <= i <= steps
          ensures low <= Samples()[i] <= high
        {
          SlownessIsBetween(i, low, high);
        }
        TrapezoidIsBetween(Samples(), low, high);
      }
    }
  }

  lemma {:induction false} Lowest(s: seq<real>) returns (low: real)
    requires s != []
    ensures forall i :: 0 <= i < |s| ==> low <= s[i]
  {
    low := s[0];
    if 1 < |s| {
      var rest := Lowest(s[1..]);
      low := if rest < low then rest else low;
      assert forall i :: 1 <= i < |s| ==> s[i] == s[1..][i - 1];
    }
  }

  function Sum(s: seq<real>): real {
    if s == [] then 0.0 else Sum(s[..|s| - 1]) + s[|s| - 1]
  }

  // The mean by the trapezoid rule: the end samples count half.
  function Trapezoid(s: seq<real>): real
    requires 2 <= |s|
  {
    (Sum(s) - 0.5 * (s[0] + s[|s| - 1])) / (|s| - 1) as real
  }

  lemma {:induction false} SumIsBetween(s: seq<real>, low: real, high: real)
    requires forall i :: 0 <= i < |s| ==> low <= s[i] <= high
    ensures |s| as real * low <= Sum(s) <= |s| as real * high
  {
    if s == [] {
    } else {
      SumIsBetween(s[..|s| - 1], low, high);
      OneMore(|s|, low);
      OneMore(|s|, high);
    }
  }

  lemma {:induction false} SumFromTheStart(s: seq<real>)
    requires s != []
    ensures Sum(s) == s[0] + Sum(s[1..])
  {
    if |s| == 1 {
      assert s[..0] == s[1..] == [];
    } else {
      SumFromTheStart(s[..|s| - 1]);
      assert s[1..][..|s| - 2] == s[..|s| - 1][1..];
    }
  }

  lemma TrapezoidIsBetween(s: seq<real>, low: real, high: real)
    requires 2 <= |s| && forall i :: 0 <= i < |s| ==> low <= s[i] <= high
    ensures low <= Trapezoid(s) <= high
  {
    var n := |s| - 1;
    var inside := s[1..n];
    SumFromTheStart(s);
    assert s[1..][..n - 1] == inside && s[1..][n - 1] == s[n];
    assert Sum(s) == s[0] + Sum(inside) + s[n];
    SumIsBetween(inside, low, high);
    HalfEnds(n, Sum(inside), s[0], s[n], low, high);
    QuotientIsBetween(Sum(s) - 0.5 * (s[0] + s[n]), n as real, low, high);
  }

  lemma HalfEnds(n: int, inside: real, a: real, b: real, low: real, high: real)
    requires (n - 1) as real * low <= inside <= (n - 1) as real * high
    requires low <= a <= high && low <= b <= high
    ensures n as real * low <= a + inside + b - 0.5 * (a + b) <= n as real * high
  {
    OneMore(n, low);
    OneMore(n, high);
  }

  function Fraction(x: real): real {
    if x < 0.0 then 0.0 else if 1.0 < x then 1.0 else x
  }

  function Bilinear(a: real, b: real, c: real, d: real, fx: real, fy: real): real {
    a * (1.0 - fx) * (1.0 - fy) + b * fx * (1.0 - fy) + c * (1.0 - fx) * fy + d * fx * fy
  }

  lemma OneMore(n: int, x: real)
    ensures n as real * x == (n - 1) as real * x + x
  {
    assert n as real == (n - 1) as real + 1.0;
  }

  lemma QuotientIsBetween(sum: real, d: real, low: real, high: real)
    requires 0.0 < d && d * low <= sum <= d * high
    ensures low <= sum / d <= high
  {
    Quotient(sum, d);
    OrderOfProducts(low, sum / d, d);
    OrderOfProducts(sum / d, high, d);
  }

  function Blend(a: real, b: real, f: real): real {
    a * (1.0 - f) + b * f
  }

  lemma BlendIsBetween(a: real, b: real, f: real, low: real, high: real)
    requires 0.0 <= f <= 1.0 && low <= a <= high && low <= b <= high
    ensures low <= Blend(a, b, f) <= high
  {
    BlendIsNoLess(a, b, 1.0 - f, f, low);
    BlendIsNoLess(-a, -b, 1.0 - f, f, -high);
    Negated(a, 1.0 - f);
    Negated(b, f);
  }

  lemma BlendIsNoLess(a: real, b: real, g: real, f: real, low: real)
    requires 0.0 <= g && 0.0 <= f && g + f == 1.0 && low <= a && low <= b
    ensures low <= a * g + b * f
  {
    NonNegativeProduct(a - low, g);
    NonNegativeProduct(b - low, f);
    Distributes(a, low, g);
    Distributes(b, low, f);
    Shared(low, g, f);
  }

  lemma Shared(x: real, g: real, f: real)
    requires g + f == 1.0
    ensures x * g + x * f == x
  {
    assert x * (g + f) == x * g + x * f;
  }

  lemma Negated(a: real, g: real)
    ensures (-a) * g == -(a * g)
  {
  }

  lemma BilinearIsBlend(a: real, b: real, c: real, d: real, fx: real, fy: real)
    ensures Bilinear(a, b, c, d, fx, fy) == Blend(Blend(a, b, fx), Blend(c, d, fx), fy)
  {
  }

  lemma BilinearIsBetween(a: real, b: real, c: real, d: real, fx: real, fy: real, low: real, high: real)
    requires 0.0 <= fx <= 1.0 && 0.0 <= fy <= 1.0
    requires low <= a <= high && low <= b <= high && low <= c <= high && low <= d <= high
    ensures low <= Bilinear(a, b, c, d, fx, fy) <= high
  {
    BilinearIsBlend(a, b, c, d, fx, fy);
    BlendIsBetween(a, b, fx, low, high);
    BlendIsBetween(c, d, fx, low, high);
    BlendIsBetween(Blend(a, b, fx), Blend(c, d, fx), fy, low, high);
  }

  lemma BilinearIsNoMore(a: real, b: real, c: real, d: real, fx: real, fy: real, high: real)
    requires 0.0 <= fx <= 1.0 && 0.0 <= fy <= 1.0
    requires a <= high && b <= high && c <= high && d <= high
    ensures Bilinear(a, b, c, d, fx, fy) <= high
  {
    var corners := [a, b, c, d];
    var low := Lowest(corners);
    assert low <= corners[0] && low <= corners[1] && low <= corners[2] && low <= corners[3];
    BilinearIsBetween(a, b, c, d, fx, fy, low, high);
  }

  // ---------- The seeds ----------

  // The sphere the grid lies on: the angle between two points given by latitude and
  // longitude, the cosine of a latitude, and the metres a degree spans.
  datatype Globe = Globe(degrees: (real, real, real, real) -> real, cosine: real -> real, perDegree: real) {
    ghost predicate Valid() {
      && (forall a, b, c, d :: 0.0 <= degrees(a, b, c, d))
      && (forall lat :: 0.0 < cosine(lat)) && 0.0 < perDegree
    }
  }

  // Seconds over `metres` at a mean slowness, which counts below zero.
  function Delay(metres: real, mean: real): real {
    -(metres * mean)
  }

  lemma DelayTakes(metres: real, mean: real, low: real, high: real)
    requires 0.0 <= metres && low <= mean <= high
    ensures Takes(Delay(metres, mean), metres, low, high)
  {
    ProductKeepsOrder(low, mean, metres);
    ProductKeepsOrder(mean, high, metres);
  }

  // What the default seeder scans: an epicenter at column x and y rows from the south,
  // `reach` columns and SEED_CELLS rows to each side.
  datatype Window = Window(inner: seq<seq<Float>>, ny: nat, nx: nat, x: real, y: real, reach: real, cell: real,
                           metres: (int, int) -> real, steps: (int, int) -> nat) {

    ghost predicate Valid() {
      && 2 <= ny && 2 <= nx && Rectangular(inner, ny, nx) && 0.0 < cell
      && (forall r, c :: 0 <= r < ny && 0 <= c < nx ==> inner[r][c].NaN? || inner[r][c].Open())
      && (forall row, column :: 0.0 <= metres(row, column) && 2 <= steps(row, column))
    }

    function West(): int {
      Greatest(0, Ceiling(x - reach))
    }

    function East(): int {
      Greatest(West(), Least(nx - 1, (x + reach).Floor) + 1)
    }

    function South(): int {
      Greatest(0, Ceiling(y - SEED_CELLS))
    }

    function North(): int {
      Greatest(South(), Least(ny - 1, (y + SEED_CELLS).Floor) + 1)
    }

    // No farther than the reach in either direction.
    predicate Near(row: int, column: int) {
      NearColumn(column) && NearRow(row)
    }

    predicate NearColumn(column: int) {
      Abs(column as real - x) <= reach
    }

    predicate NearRow(row: int) {
      Abs((ny - 1 - row) as real - y) <= SEED_CELLS
    }

    predicate NearOnSphere(row: int, column: int) {
      metres(row, column) <= SEED_CELLS * cell
    }

    lemma WindowIsNear(row: int, column: int)
      requires 0 <= row < ny && 0 <= column < nx
      ensures Near(row, column) <==> West() <= column < East() && South() <= ny - 1 - row < North()
    {
    }

    function SegmentTo(row: int, column: int): Segment {
      Segment(inner, ny, nx, x, y, column as real, (ny - 1 - row) as real, steps(row, column))
    }

    // Close by, near enough on the sphere, water, and in sight of the epicenter.
    predicate Starts(row: int, column: int)
      requires Valid() && 0 <= row < ny && 0 <= column < nx
    {
      && Near(row, column) && NearOnSphere(row, column)
      && inner[row][column].Open() && SegmentTo(row, column).InSight()
    }

    function SeedAt(row: int, column: int): Seed
      requires Valid() && 0 <= row < ny && 0 <= column < nx && Starts(row, column)
    {
      Seed(NodeAt(nx, row, column), Delay(metres(row, column), SegmentTo(row, column).Mean().value))
    }

    predicate Kept(seeds: seq<Seed>, row: int, column: int)
      requires Valid() && 0 <= row < ny && 0 <= column < nx
    {
      Starts(row, column) ==> SeedAt(row, column) in seeds
    }

    // Scanned before row i from the south, column j.
    predicate Passed(row: int, column: int, i: int, j: int) {
      0 <= row < ny && 0 <= column < nx && (ny - 1 - row < i || (ny - 1 - row == i && column < j))
    }

    ghost predicate Found(s: Seed, i: int, j: int)
      requires Valid()
    {
      exists row, column :: Passed(row, column, i, j) && Starts(row, column) && s == SeedAt(row, column)
    }

    ghost predicate Scanned(seeds: seq<Seed>, i: int, j: int)
      requires Valid()
    {
      && (forall row, column :: Passed(row, column, i, j) ==> Kept(seeds, row, column))
      && (forall s :: s in seeds ==> Found(s, i, j))
    }

    // `seeds` are those of the nodes that start, all of them and no others.
    ghost predicate AllSeeds(seeds: seq<Seed>)
      requires Valid()
    {
      && (forall row, column :: 0 <= row < ny && 0 <= column < nx ==> Kept(seeds, row, column))
      && (forall s :: s in seeds ==> Found(s, ny, 0))
    }

    lemma LineEnds(seeds: seq<Seed>, i: int, j: int, i': int, j': int)
      requires Valid() && Scanned(seeds, i, j)
      requires forall row, column :: Passed(row, column, i, j) ==> Passed(row, column, i', j')
      requires forall row, column ::
                 Passed(row, column, i', j') && !Passed(row, column, i, j) ==> !Near(row, column)
      ensures Scanned(seeds, i', j')
    {
      forall row, column | Passed(row, column, i', j')
        ensures Kept(seeds, row, column)
      {
        if Passed(row, column, i, j) {
          assert Kept(seeds, row, column);
        }
      }
      forall s | s in seeds
        ensures Found(s, i', j')
      {
        assert Found(s, i, j);
        var row, column :| Passed(row, column, i, j) && Starts(row, column) && s == SeedAt(row, column);
        assert Passed(row, column, i', j');
      }
    }

    // From (i', j') to (i, j) the scan skips what lies outside the window.
    predicate Skips(i': int, j': int, i: int, j: int) {
      || (i == South() && j == West() && i' == 0 && j' == 0)
      || (i == i' + 1 && j == West() && j' == East() && South() <= i' < North())
      || (i == ny && j == 0 && i' == North() && j' == West())
    }

    lemma NothingOutside(i: int, j: int, i': int, j': int)
      requires 2 <= ny && 2 <= nx && Skips(i', j', i, j)
      ensures forall row, column :: Passed(row, column, i, j) && !Passed(row, column, i', j') ==> !Near(row, column)
      ensures forall row, column :: Passed(row, column, i', j') ==> Passed(row, column, i, j)
    {
      forall row, column | Passed(row, column, i, j) && !Passed(row, column, i', j')
        ensures !Near(row, column)
      {
        WindowIsNear(row, column);
      }
    }

    function Scan(seeds: seq<Seed>, row: int, column: int): seq<Seed>
      requires Valid() && 0 <= row < ny && 0 <= column < nx
    {
      if Starts(row, column) then seeds + [SeedAt(row, column)] else seeds
    }

    lemma ScanMoves(seeds: seq<Seed>, row: int, column: int)
      requires Valid() && 0 <= row < ny && 0 <= column < nx && Scanned(seeds, ny - 1 - row, column)
      ensures Scanned(Scan(seeds, row, column), ny - 1 - row, column + 1)
    {
      var i, more := ny - 1 - row, Scan(seeds, row, column);
      assert forall s :: s in seeds ==> s in more;
      forall r, c | Passed(r, c, i, column + 1)
        ensures Kept(more, r, c)
      {
        if r == row && c == column {
          assert Starts(row, column) ==> more[|seeds|] == SeedAt(row, column);
        } else {
          assert Passed(r, c, i, column) && Kept(seeds, r, c);
        }
      }
      forall s | s in more
        ensures Found(s, i, column + 1)
      {
        if s in seeds {
          assert Found(s, i, column);
          var r, c :| Passed(r, c, i, column) && Starts(r, c) && s == SeedAt(r, c);
          assert Passed(r, c, i, column + 1);
        } else {
          assert Passed(row, column, i, column + 1);
        }
      }
    }

    lemma NewSeedIsDistinct(seeds: seq<Seed>, row: int, column: int)
      requires Valid() && 0 <= row < ny && 0 <= column < nx && Scanned(seeds, ny - 1 - row, column)
      ensures forall s :: s in seeds ==> s.node != NodeAt(nx, row, column)
    {
      forall s | s in seeds
        ensures s.node != NodeAt(nx, row, column)
      {
        assert Found(s, ny - 1 - row, column);
        var r, c :| Passed(r, c, ny - 1 - row, column) && Starts(r, c) && s == SeedAt(r, c);
        if s.node == NodeAt(nx, row, column) {
          NodesAreDistinct(nx, r, c, row, column);
        }
      }
    }

    lemma SeedIsNotEarly(row: int, column: int)
      requires Valid() && 0 <= row < ny && 0 <= column < nx && Starts(row, column)
      ensures 0.0 <= SeedAt(row, column).time
    {
      SegmentTo(row, column).MeanIsNoMore(0.0);
      NonPositiveProduct(metres(row, column), SegmentTo(row, column).Mean().value);
    }

    lemma SeedIsOfItsNode(seeds: seq<Seed>, row: int, column: int)
      requires Valid() && AllSeeds(seeds) && 0 <= row < ny && 0 <= column < nx
      ensures (exists s :: s in seeds && s.node == NodeAt(nx, row, column)) <==> Starts(row, column)
    {
      assert Kept(seeds, row, column);
      if Starts(row, column) {
        assert SeedAt(row, column) in seeds;
      }
      if s :| s in seeds && s.node == NodeAt(nx, row, column) {
        assert Found(s, ny, 0);
        var r, c :| Passed(r, c, ny, 0) && Starts(r, c) && s == SeedAt(r, c);
        NodesAreDistinct(nx, r, c, row, column);
      }
    }

    // A seed takes its distance at a slowness between the least and the greatest of the sea.
    lemma SeedTakesItsMetres(row: int, column: int, low: real, high: real)
      requires Valid() && 0 <= row < ny && 0 <= column < nx && Starts(row, column)
      requires SegmentTo(row, column).Bounded(low, high)
      ensures Takes(SeedAt(row, column).time, metres(row, column), low, high)
    {
      SegmentTo(row, column).MeanIsBetween(low, high);
      DelayTakes(metres(row, column), SegmentTo(row, column).Mean().value, low, high);
    }

    lemma SeedIsTimed(seeds: seq<Seed>, s: Seed, low: real, high: real) returns (row: int, column: int)
      requires Valid() && AllSeeds(seeds) && s in seeds && WaterBetween(inner, ny, nx, low, high)
      ensures 0 <= row < ny && 0 <= column < nx && s.node == NodeAt(nx, row, column)
      ensures Takes(s.time, metres(row, column), low, high)
    {
      assert Found(s, ny, 0);
      row, column :| Passed(row, column, ny, 0) && Starts(row, column) && s == SeedAt(row, column);
      SeedTakesItsMetres(row, column, low, high);
    }

    // The node the epicenter rounds to is in sight of it whenever it is water: so it is
    // a seed exactly when it is near enough.
    lemma SourceStartsIffNear(row: int, column: int)
      requires Valid() && 0 <= row < ny && 0 <= column < nx && inner[row][column].Open()
      requires column == Round(x) && row == ny - 1 - Round(y)
      ensures Starts(row, column) <==> NearColumn(column) && NearOnSphere(row, column)
    {
      var segment := SegmentTo(row, column);
      forall i | 0 <= i <= segment.steps
        ensures segment.Nearest(i).Open()
      {
        segment.StaysInItsCell(i);
      }
      RoundIsNearest(x, column);
      RoundIsNearest(y, ny - 1 - row);
    }
  }

  lemma AlongIsAShare(i: nat, steps: nat)
    requires i <= steps && 0 < steps
    ensures 0.0 <= i as real / steps as real <= 1.0
  {
    QuotientIsBetween(i as real, steps as real, 0.0, 1.0);
  }

  // Every point between a number and the integer it rounds to rounds to it too.
  lemma RoundsAlike(x: real, share: real, way: real, p: real)
    requires 0.0 <= share <= 1.0 && way == Round(x) as real - x && p - x == share * way
    ensures Round(p) == Round(x)
  {
    ShareOfWay(share, way, p - x);
    RoundsBetween(x, p);
  }

  lemma ShareOfWay(share: real, way: real, part: real)
    requires 0.0 <= share <= 1.0 && part == share * way
    ensures if 0.0 <= way then 0.0 <= part <= way else way <= part <= 0.0
  {
    Distributes(1.0, share, way);
    if 0.0 <= way {
      NonNegativeProduct(share, way);
      NonNegativeProduct(1.0 - share, way);
    } else {
      NonPositiveProduct(share, way);
      NonPositiveProduct(1.0 - share, way);
    }
  }

  lemma RoundsBetween(x: real, p: real)
    requires x <= p <= Round(x) as real || Round(x) as real <= p <= x
    ensures Round(p) == Round(x)
  {
  }

  ghost predicate SeedsStart(sea: Sea, seeds: seq<Seed>) {
    SeedsValid(sea, seeds) && forall s :: s in seeds ==> 0.0 <= s.time
  }

  lemma SeedsGrow(sea: Sea, seeds: seq<Seed>, x: Seed)
    requires SeedsStart(sea, seeds) && sea.Water(x.node) && 0.0 <= x.time
    requires forall s :: s in seeds ==> s.node != x.node
    ensures SeedsStart(sea, seeds + [x])
  {
  }

  // Great-circle metres from the epicenter to a node, and the steps its segment is
  // sampled at: two for each cell, at least two.
  function MetresTo(g: Grid, lon: real, lat: real, globe: Globe, row: int, column: int): real
    requires g.Valid()
  {
    globe.degrees(lat, lon, g.Latitude(row), g.Longitude(column)) * globe.perDegree
  }

  function StepsOver(metres: real, cell: real): nat
    requires 0.0 < cell
  {
    Greatest(2, Ceiling(2.0 * (metres / cell)))
  }

  // Metres from one row to the next.
  function CellMetres(g: Grid, globe: Globe): (cell: real)
    requires g.Valid() && globe.Valid()
    ensures 0.0 < cell
  {
    g.y.IncIsPositive();
    PositiveProduct(g.y.Inc(), globe.perDegree);
    g.y.Inc() * globe.perDegree
  }

  // The window around an epicenter of the grid.
  function Around(g: Grid, inner: seq<seq<Float>>, lon: real, lat: real, globe: Globe): Window
    requires g.Valid() && globe.Valid()
  {
    g.x.IncIsPositive();
    PositiveProduct(g.x.Inc(), globe.cosine(lat));
    var cell := CellMetres(g, globe);
    Window(inner, g.y.n, g.x.n, g.x.Lines(lon), g.y.Lines(lat),
           SEED_CELLS * g.y.Inc() / (g.x.Inc() * globe.cosine(lat)), cell,
           (row, column) => MetresTo(g, lon, lat, globe, row, column),
           (row, column) => StepsOver(MetresTo(g, lon, lat, globe, row, column), cell))
  }

  lemma AroundIsValid(g: Grid, inner: seq<seq<Float>>, lon: real, lat: real, globe: Globe)
    requires g.Valid() && globe.Valid() && Rectangular(inner, g.y.n, g.x.n)
    requires forall r, c :: 0 <= r < g.y.n && 0 <= c < g.x.n ==> inner[r][c].NaN? || inner[r][c].Open()
    ensures Around(g, inner, lon, lat, globe).Valid()
  {
    var w := Around(g, inner, lon, lat, globe);
    g.y.IncIsPositive();
    PositiveProduct(g.y.Inc(), globe.perDegree);
    forall row, column
      ensures 0.0 <= w.metres(row, column)
    {
      NonNegativeProduct(globe.degrees(lat, lon, g.Latitude(row), g.Longitude(column)), globe.perDegree);
    }
  }

  // ---------- What the default seeder gives ----------

  // Within SEED_CELLS rows north or south, as far east or west, and as far on the sphere.
  predicate InRange(g: Grid, lon: real, lat: real, globe: Globe, row: int, column: int)
    requires g.Valid()
  {
    RowInRange(g, lat, row) && ColumnInRange(g, lon, lat, globe, column) && MetresInRange(g, lon, lat, globe, row, column)
  }

  predicate RowInRange(g: Grid, lat: real, row: int)
    requires g.Valid()
  {
    Abs(lat - g.Latitude(row)) <= SEED_CELLS * g.y.Inc()
  }

  predicate ColumnInRange(g: Grid, lon: real, lat: real, globe: Globe, column: int)
    requires g.Valid()
  {
    Abs(lon - g.Longitude(column)) * globe.cosine(lat) <= SEED_CELLS * g.y.Inc()
  }

  predicate MetresInRange(g: Grid, lon: real, lat: real, globe: Globe, row: int, column: int)
    requires g.Valid()
  {
    globe.degrees(lat, lon, g.Latitude(row), g.Longitude(column)) * globe.perDegree <= SEED_CELLS * (g.y.Inc() * globe.perDegree)
  }

  // The straight line from the epicenter to a node, sampled twice a cell, falls on no land.
  predicate Visible(g: Grid, inner: seq<seq<Float>>, lon: real, lat: real, globe: Globe, row: int, column: int)
    requires g.Valid() && globe.Valid() && Rectangular(inner, g.y.n, g.x.n)
    requires forall r, c :: 0 <= r < g.y.n && 0 <= c < g.x.n ==> inner[r][c].NaN? || inner[r][c].Open()
  {
    Sightline(g, inner, lon, lat, globe, row, column).InSight()
  }

  function Sightline(g: Grid, inner: seq<seq<Float>>, lon: real, lat: real, globe: Globe, row: int, column: int): (s: Segment)
    requires g.Valid() && globe.Valid()
    ensures 2 <= s.steps && s.inner == inner && s.ny == g.y.n && s.nx == g.x.n
  {
    Segment(inner, g.y.n, g.x.n, g.x.Lines(lon), g.y.Lines(lat), column as real, (g.y.n - 1 - row) as real,
            StepsOver(MetresTo(g, lon, lat, globe, row, column), CellMetres(g, globe)))
  }

  ghost predicate IsSeed(seeds: seq<Seed>, v: int) {
    exists s :: s in seeds && s.node == v
  }

  ghost predicate WaterBetween(inner: seq<seq<Float>>, ny: nat, nx: nat, low: real, high: real)
    requires Rectangular(inner, ny, nx)
  {
    forall r, c :: 0 <= r < ny && 0 <= c < nx && inner[r][c].Open() ==> low <= inner[r][c].value <= high
  }

  // Seed s starts at node (row, column), as late as its metres take.
  ghost predicate StartsInTime(g: Grid, lon: real, lat: real, globe: Globe, s: Seed, row: int, column: int, low: real,
                               high: real)
    requires g.Valid()
  {
    && s.node == NodeAt(g.x.n, row, column)
    && Takes(s.time, globe.degrees(lat, lon, g.Latitude(row), g.Longitude(column)) * globe.perDegree, low, high)
  }

  ghost predicate TimesWithin(g: Grid, lon: real, lat: real, globe: Globe, seeds: seq<Seed>, low: real, high: real)
    requires g.Valid()
  {
    forall s :: s in seeds ==> exists row, column ::
      0 <= row < g.y.n && 0 <= column < g.x.n && StartsInTime(g, lon, lat, globe, s, row, column, low, high)
  }

  lemma ReachInDegrees(x: real, inc: real, cosine: real, rows: real, degrees: real, reach: real)
    requires 0.0 < inc && 0.0 < cosine && 0.0 < inc * cosine && degrees == x * inc && reach * (inc * cosine) == rows
    ensures x <= reach <==> degrees * cosine <= rows
  {
    assert x * (inc * cosine) == degrees * cosine;
    if x <= reach {
      ProductKeepsOrder(x, reach, inc * cosine);
    } else if degrees * cosine <= rows {
      OrderOfProducts(x, reach, inc * cosine);
    }
  }

  lemma RowsInDegrees(y: real, inc: real, degrees: real)
    requires 0.0 < inc && degrees == y * inc
    ensures y <= SEED_CELLS <==> degrees <= SEED_CELLS * inc
  {
    if y <= SEED_CELLS {
      ProductKeepsOrder(y, SEED_CELLS, inc);
    } else if degrees <= SEED_CELLS * inc {
      OrderOfProducts(y, SEED_CELLS, inc);
    }
  }

  lemma DistanceInLines(axis: Axis, at: real, k: int)
    requires axis.Valid()
    ensures 0.0 < axis.Inc() && Abs(at - axis.FromLow(k)) == Abs(k as real - axis.Lines(at)) * axis.Inc()
  {
    axis.IncIsPositive();
    axis.WayToLine(at, k);
    AbsOfProduct(axis.Lines(at) - k as real, axis.Inc(), at - axis.FromLow(k));
  }

  lemma ReachIsDegrees(axis: Axis, rows: real, lon: real, cosine: real, column: int, longitude: real, reach: real)
    requires axis.Valid() && 0.0 < cosine && 0.0 < axis.Inc() * cosine && longitude == axis.FromLow(column)
    requires reach * (axis.Inc() * cosine) == rows
    ensures Abs(column as real - axis.Lines(lon)) <= reach <==> Abs(lon - longitude) * cosine <= rows
  {
    DistanceInLines(axis, lon, column);
    ReachInDegrees(Abs(column as real - axis.Lines(lon)), axis.Inc(), cosine, rows, Abs(lon - longitude), reach);
  }

  lemma ReachOfWindow(g: Grid, inner: seq<seq<Float>>, lon: real, lat: real, globe: Globe)
    requires g.Valid() && globe.Valid()
    ensures Around(g, inner, lon, lat, globe).x == g.x.Lines(lon)
    ensures 0.0 < g.x.Inc() * globe.cosine(lat)
    ensures Around(g, inner, lon, lat, globe).reach * (g.x.Inc() * globe.cosine(lat)) == SEED_CELLS * g.y.Inc()
  {
    g.x.IncIsPositive();
    PositiveProduct(g.x.Inc(), globe.cosine(lat));
    Quotient(SEED_CELLS * g.y.Inc(), g.x.Inc() * globe.cosine(lat));
  }

  lemma ColumnsAgree(g: Grid, inner: seq<seq<Float>>, lon: real, lat: real, globe: Globe, column: int)
    requires g.Valid() && globe.Valid()
    ensures Around(g, inner, lon, lat, globe).NearColumn(column) <==> ColumnInRange(g, lon, lat, globe, column)
  {
    var w := Around(g, inner, lon, lat, globe);
    ReachOfWindow(g, inner, lon, lat, globe);
    g.NodesLieOnLines(0, column);
    ReachIsDegrees(g.x, SEED_CELLS * g.y.Inc(), lon, globe.cosine(lat), column, g.Longitude(column), w.reach);
  }

  lemma RowsAgree(g: Grid, inner: seq<seq<Float>>, lon: real, lat: real, globe: Globe, row: int)
    requires g.Valid() && globe.Valid()
    ensures Around(g, inner, lon, lat, globe).NearRow(row) <==> RowInRange(g, lat, row)
  {
    g.NodesLieOnLines(row, 0);
    var k := g.y.n - 1 - row;
    DistanceInLines(g.y, lat, k);
    RowsInDegrees(Abs(k as real - g.y.Lines(lat)), g.y.Inc(), Abs(lat - g.Latitude(row)));
  }

  lemma MetresAgree(g: Grid, inner: seq<seq<Float>>, lon: real, lat: real, globe: Globe, row: int, column: int)
    requires g.Valid() && globe.Valid()
    ensures Around(g, inner, lon, lat, globe).NearOnSphere(row, column) <==> MetresInRange(g, lon, lat, globe, row, column)
  {
  }

  // Near in columns, rows and cells is near in degrees and metres.
  lemma NearIsInRange(g: Grid, inner: seq<seq<Float>>, lon: real, lat: real, globe: Globe, row: int, column: int)
    requires g.Valid() && globe.Valid()
    ensures Around(g, inner, lon, lat, globe).Near(row, column) && Around(g, inner, lon, lat, globe).NearOnSphere(row, column)
            <==> InRange(g, lon, lat, globe, row, column)
  {
    ColumnsAgree(g, inner, lon, lat, globe, column);
    RowsAgree(g, inner, lon, lat, globe, row);
    MetresAgree(g, inner, lon, lat, globe, row, column);
  }

  lemma SightlineIsSegment(g: Grid, inner: seq<seq<Float>>, lon: real, lat: real, globe: Globe, row: int, column: int)
    requires g.Valid() && globe.Valid()
    ensures Around(g, inner, lon, lat, globe).SegmentTo(row, column) == Sightline(g, inner, lon, lat, globe, row, column)
  {
  }

  lemma SeedsAreTheNodesInRange(g: Grid, inner: seq<seq<Float>>, lon: real, lat: real, globe: Globe, seeds: seq<Seed>,
                                row: int, column: int)
    requires g.Valid() && globe.Valid() && 0 <= row < g.y.n && 0 <= column < g.x.n && Rectangular(inner, g.y.n, g.x.n)
    requires forall r, c :: 0 <= r < g.y.n && 0 <= c < g.x.n ==> inner[r][c].NaN? || inner[r][c].Open()
    requires Around(g, inner, lon, lat, globe).Valid() && Around(g, inner, lon, lat, globe).AllSeeds(seeds)
    ensures IsSeed(seeds, NodeAt(g.x.n, row, column)) <==>
              InRange(g, lon, lat, globe, row, column) && inner[row][column].Open()
              && Visible(g, inner, lon, lat, globe, row, column)
  {
    var w := Around(g, inner, lon, lat, globe);
    NearIsInRange(g, inner, lon, lat, globe, row, column);
    SightlineIsSegment(g, inner, lon, lat, globe, row, column);
    w.SeedIsOfItsNode(seeds, row, column);
  }

  lemma SeedsTakeTheirMetres(g: Grid, inner: seq<seq<Float>>, lon: real, lat: real, globe: Globe, seeds: seq<Seed>,
                             low: real, high: real)
    requires g.Valid() && globe.Valid() && Rectangular(inner, g.y.n, g.x.n) && WaterBetween(inner, g.y.n, g.x.n, low, high)
    requires Around(g, inner, lon, lat, globe).Valid() && Around(g, inner, lon, lat, globe).AllSeeds(seeds)
    ensures TimesWithin(g, lon, lat, globe, seeds, low, high)
  {
    forall s | s in seeds
      ensures exists row, column :: 0 <= row < g.y.n && 0 <= column < g.x.n
                                    && StartsInTime(g, lon, lat, globe, s, row, column, low, high)
    {
      var row, column := Around(g, inner, lon, lat, globe).SeedIsTimed(seeds, s, low, high);
      assert StartsInTime(g, lon, lat, globe, s, row, column, low, high);
    }
  }

  // The default seeder: the seeds are the water nodes in range and in sight, each once,
  // and each starts as late as its distance takes at a slowness of the sea.
  method SeedAroundEpicenter(g: Grid, inner: seq<seq<Float>>, lon: real, lat: real, globe: Globe, ghost sea: Sea)
    returns (seeds: seq<Seed>)
    requires g.Valid() && globe.Valid() && Rectangular(inner, g.y.n, g.x.n)
    requires forall r, c :: 0 <= r < g.y.n && 0 <= c < g.x.n ==> inner[r][c].NaN? || inner[r][c].Open()
    requires forall r, c :: 0 <= r < g.y.n && 0 <= c < g.x.n && inner[r][c].Open() ==> sea.Water(NodeAt(g.x.n, r, c))
    ensures Around(g, inner, Wrapped(g.x.low, lon), lat, globe).Valid()
    ensures Around(g, inner, Wrapped(g.x.low, lon), lat, globe).AllSeeds(seeds)
    ensures SeedsStart(sea, seeds)
    ensures forall row, column :: 0 <= row < g.y.n && 0 <= column < g.x.n ==>
              (IsSeed(seeds, NodeAt(g.x.n, row, column)) <==>
                 InRange(g, Wrapped(g.x.low, lon), lat, globe, row, column) && inner[row][column].Open()
                 && Visible(g, inner, Wrapped(g.x.low, lon), lat, globe, row, column))
    ensures forall low, high :: WaterBetween(inner, g.y.n, g.x.n, low, high) ==>
              TimesWithin(g, Wrapped(g.x.low, lon), lat, globe, seeds, low, high)
  {
    var wrapped := WrapLongitude(g.x.low, lon);
    var w := Around(g, inner, wrapped, lat, globe);
    AroundIsValid(g, inner, wrapped, lat, globe);
    seeds := ScanWindow(w, sea);
    forall row, column | 0 <= row < g.y.n && 0 <= column < g.x.n
      ensures IsSeed(seeds, NodeAt(g.x.n, row, column)) <==>
                InRange(g, wrapped, lat, globe, row, column) && inner[row][column].Open()
                && Visible(g, inner, wrapped, lat, globe, row, column)
    {
      SeedsAreTheNodesInRange(g, inner, wrapped, lat, globe, seeds, row, column);
    }
    forall low, high | WaterBetween(inner, g.y.n, g.x.n, low, high)
      ensures TimesWithin(g, wrapped, lat, globe, seeds, low, high)
    {
      SeedsTakeTheirMetres(g, inner, wrapped, lat, globe, seeds, low, high);
    }
  }

  method ScanWindow(w: Window, ghost sea: Sea) returns (seeds: seq<Seed>)
    requires w.Valid() && Covers(sea, w)
    ensures w.AllSeeds(seeds) && SeedsStart(sea, seeds)
  {
    seeds := [];
    w.NothingOutside(w.South(), w.West(), 0, 0);
    w.LineEnds(seeds, 0, 0, w.South(), w.West());
    for i := w.South() to w.North()
      invariant w.Scanned(seeds, i, w.West()) && SeedsStart(sea, seeds)
    {
      seeds := ScanLine(w, i, seeds, sea);
      w.NothingOutside(i + 1, w.West(), i, w.East());
      w.LineEnds(seeds, i, w.East(), i + 1, w.West());
    }
    w.NothingOutside(w.ny, 0, w.North(), w.West());
    w.LineEnds(seeds, w.North(), w.West(), w.ny, 0);
  }

  // The sea has water where the window's grid has.
  ghost predicate Covers(sea: Sea, w: Window)
    requires w.Valid()
  {
    forall r, c :: 0 <= r < w.ny && 0 <= c < w.nx && w.inner[r][c].Open() ==> sea.Water(NodeAt(w.nx, r, c))
  }

  method ScanLine(w: Window, i: int, before: seq<Seed>, ghost sea: Sea) returns (seeds: seq<Seed>)
    requires w.Valid() && Covers(sea, w) && w.South() <= i < w.North()
    requires w.Scanned(before, i, w.West()) && SeedsStart(sea, before)
    ensures w.Scanned(seeds, i, w.East()) && SeedsStart(sea, seeds)
  {
    var row := w.ny - 1 - i;
    seeds := before;
    for j := w.West() to w.East()
      invariant w.Scanned(seeds, i, j) && SeedsStart(sea, seeds)
    {
      w.ScanMoves(seeds, row, j);
      if w.Starts(row, j) {
        w.NewSeedIsDistinct(seeds, row, j);
        w.SeedIsNotEarly(row, j);
        SeedsGrow(sea, seeds, w.SeedAt(row, j));
        seeds := seeds + [w.SeedAt(row, j)];
      }
    }
  }
}
