// What the seeder's samples of slowness are worth: where they lie, what they read, and
// how they are averaged.
module SampledSlowness {
  import opened Wrappers
  import opened Arithmetic
  import opened Ocean
  import opened Epicenter
  import opened Padding
  import opened Seeding

  // ---------- Where the samples lie ----------

  // The samples run from one end of the segment to the other, equally far apart.
  lemma SamplesRunStraight(s: Segment, i: nat)
    requires 2 <= s.steps && i < s.steps
    ensures s.X(0) == s.x0 && s.Y(0) == s.y0 && s.X(s.steps) == s.x1 && s.Y(s.steps) == s.y1
    ensures (s.X(i + 1) - s.X(i)) * s.steps as real == s.x1 - s.x0
    ensures (s.Y(i + 1) - s.Y(i)) * s.steps as real == s.y1 - s.y0
  {
    EndsAreReached(s.x0, s.x1 - s.x0, s.steps as real);
    EndsAreReached(s.y0, s.y1 - s.y0, s.steps as real);
    StepsAreEqual(s.x0, s.x1 - s.x0, i as real, (i + 1) as real, s.steps as real);
    StepsAreEqual(s.y0, s.y1 - s.y0, i as real, (i + 1) as real, s.steps as real);
  }

  lemma EndsAreReached(start: real, way: real, n: real)
    requires 0.0 < n
    ensures start + 0.0 / n * way == start && start + n / n * way == start + way
  {
    assert 0.0 / n == 0.0 && n / n == 1.0;
  }

  lemma StepsAreEqual(start: real, way: real, i: real, j: real, n: real)
    requires 0.0 < n && j == i + 1.0
    ensures (start + j / n * way - (start + i / n * way)) * n == way
  {
    var a, b := i / n, j / n;
    assert a * n == i && b * n == j;
    assert (b * way - a * way) * n == (b * n) * way - (a * n) * way;
    assert j * way - i * way == way;
  }

  // A sample is read in a cell whose middle is no more than half a cell off.
  lemma SampleIsInItsCell(s: Segment, i: nat) returns (row: int, column: int)
    requires s.Valid() && -0.5 <= s.X(i) <= s.nx as real - 0.5 && -0.5 <= s.Y(i) <= s.ny as real - 0.5
    ensures 0 <= row < s.ny && 0 <= column < s.nx && s.Nearest(i) == s.inner[row][column]
    ensures Abs(s.X(i) - column as real) <= 0.5 && Abs(s.Y(i) - (s.ny - 1 - row) as real) <= 0.5
  {
    row, column := s.ny - 1 - Clip(Round(s.Y(i)), s.ny), Clip(Round(s.X(i)), s.nx);
    RoundIsNearest(s.X(i), 0);
    RoundIsNearest(s.Y(i), 0);
  }

  // There are two samples for each cell of the way, and no more than that takes.
  lemma SamplesAreTwoACell(metres: real, cell: real, n: nat)
    requires 0.0 < cell && n == StepsOver(metres, cell)
    ensures 2 <= n && 2.0 * metres <= n as real * cell
    ensures 2 < n ==> (n - 1) as real * cell < 2.0 * metres
  {
    var q := metres / cell;
    assert q * cell == metres by {
      Quotient(metres, cell);
    }
    ProductKeepsOrder(2.0 * q, n as real, cell);
    assert 2.0 * q * cell == 2.0 * metres;
    if 2 < n {
      ProductIsLess((n - 1) as real, 2.0 * q, cell, 2.0 * metres);
    }
  }

  lemma ProductIsLess(a: real, b: real, c: real, p: real)
    requires a < b && 0.0 < c && p == b * c
    ensures a * c < p
  {
    PositiveProduct(b - a, c);
    Distributes(b, a, c);
  }

  // ---------- What a sample reads ----------

  // At line k of n, or off the grid beyond it.
  predicate AtLine(x: real, k: int, n: nat) {
    x == k as real || (k == 0 && x <= 0.0) || (k == n - 1 && k as real <= x)
  }

  // At a node, or off the grid beyond it, the node's own slowness.
  lemma NodeReadsItself(s: Segment, i: nat, row: int, column: int)
    requires s.Valid() && 0 <= row < s.ny && 0 <= column < s.nx && s.inner[row][column].Open()
    requires AtLine(s.X(i), column, s.nx) && AtLine(s.Y(i), s.ny - 1 - row, s.ny)
    ensures s.Nearest(i) == s.inner[row][column] && s.Slowness(i) == s.inner[row][column].value
  {
    RoundIsNearest(s.X(i), column);
    RoundIsNearest(s.Y(i), s.ny - 1 - row);
    ClippedLine(s.X(i), column, s.nx);
    ClippedLine(s.Y(i), s.ny - 1 - row, s.ny);
  }

  lemma ClippedLine(x: real, k: int, n: nat)
    requires 2 <= n && 0 <= k < n && AtLine(x, k, n)
    ensures Clip(Round(x), n) == k
    ensures var low := Clip(x.Floor, n - 1); Fraction(x - low as real) == (k - low) as real && low <= k <= low + 1
  {
  }

  // Slowness of every cell is linear in its column and its row from the south.
  ghost predicate LinearSea(s: Segment, a: real, b: real, e: real)
    requires s.Valid()
  {
    forall row, column :: 0 <= row < s.ny && 0 <= column < s.nx ==>
      s.inner[row][column].Open() && s.inner[row][column].value == LinearAt(a, b, e, column as real, (s.ny - 1 - row) as real)
  }

  function LinearAt(a: real, b: real, e: real, x: real, y: real): real {
    a + b * x + e * y
  }

  // Between nodes, exact where slowness is linear.
  lemma LinearIsRead(s: Segment, i: nat, a: real, b: real, e: real)
    requires s.Valid() && LinearSea(s, a, b, e)
    requires 0.0 <= s.X(i) <= (s.nx - 1) as real && 0.0 <= s.Y(i) <= (s.ny - 1) as real
    ensures s.Nearest(i).Open() && s.Slowness(i) == LinearAt(a, b, e, s.X(i), s.Y(i))
  {
    var x, y := s.X(i), s.Y(i);
    var column, south := Clip(x.Floor, s.nx - 1), Clip(y.Floor, s.ny - 1);
    assert 0.0 <= x - column as real <= 1.0 && 0.0 <= y - south as real <= 1.0;
    BilinearIsLinear(a, b, e, column as real, south as real, x - column as real, y - south as real);
    assert s.inner[s.ny - 2 - south][column].value == LinearAt(a, b, e, column as real, (south + 1) as real);
    assert s.inner[s.ny - 2 - south][column + 1].value == LinearAt(a, b, e, (column + 1) as real, (south + 1) as real);
  }

  lemma BilinearIsLinear(a: real, b: real, e: real, x: real, y: real, fx: real, fy: real)
    ensures Bilinear(LinearAt(a, b, e, x, y), LinearAt(a, b, e, x + 1.0, y), LinearAt(a, b, e, x, y + 1.0),
                     LinearAt(a, b, e, x + 1.0, y + 1.0), fx, fy) == LinearAt(a, b, e, x + fx, y + fy)
  {
    var z := LinearAt(a, b, e, x, y);
    BilinearIsBlend(z, z + b, z + e, z + b + e, fx, fy);
    assert Blend(z, z + b, fx) == z + b * fx && Blend(z + e, z + b + e, fx) == z + e + b * fx;
    assert Blend(z + b * fx, z + e + b * fx, fy) == z + b * fx + e * fy;
  }

  // ---------- How they are averaged ----------

  lemma {:induction false} SumFollows(s: seq<real>, i: nat, d: real)
    requires i < |s|
    ensures Sum(s[i := s[i] + d]) == Sum(s) + d
  {
    var n := |s| - 1;
    var t := s[i := s[i] + d];
    if i == n {
      assert t[..n] == s[..n];
    } else {
      SumFollows(s[..n], i, d);
      assert t[..n] == s[..n][i := s[i] + d];
    }
  }

  // An inner sample counts for one part in as many as there are steps, an end sample for
  // half of that.
  lemma EndsCountHalf(s: seq<real>, i: nat, d: real)
    requires 2 <= |s| && i < |s|
    ensures (Trapezoid(s[i := s[i] + d]) - Trapezoid(s)) * (|s| - 1) as real == if i == 0 || i == |s| - 1 then 0.5 * d else d
  {
    var t, n := s[i := s[i] + d], (|s| - 1) as real;
    SumFollows(s, i, d);
    var u, v := Sum(t) - 0.5 * (t[0] + t[|s| - 1]), Sum(s) - 0.5 * (s[0] + s[|s| - 1]);
    Quotient(u, n);
    Quotient(v, n);
    Distributes(u / n, v / n, n);
  }

  lemma {:induction false} SumOfLine(s: seq<real>, a: real, e: real)
    requires forall i :: 0 <= i < |s| ==> s[i] == a + i as real * e
    ensures 2.0 * Sum(s) == |s| as real * (2.0 * a + (|s| as real - 1.0) * e)
  {
    if s == [] {
    } else {
      SumOfLine(s[..|s| - 1], a, e);
      LineGrows(|s| as real, a, e);
    }
  }

  lemma LineGrows(m: real, a: real, e: real)
    ensures (m - 1.0) * (2.0 * a + (m - 1.0 - 1.0) * e) + 2.0 * (a + (m - 1.0) * e) == m * (2.0 * a + (m - 1.0) * e)
  {
  }

  // Equal steps average to the middle.
  lemma LineAveragesToMiddle(s: seq<real>, a: real, e: real)
    requires 2 <= |s| && forall i :: 0 <= i < |s| ==> s[i] == a + i as real * e
    ensures Trapezoid(s) == 0.5 * (s[0] + s[|s| - 1])
  {
    SumOfLine(s, a, e);
    MiddleOfLine(Sum(s), (|s| - 1) as real, a, e);
  }

  lemma MiddleOfLine(sum: real, n: real, a: real, e: real)
    requires 0.0 < n && 2.0 * sum == (n + 1.0) * (2.0 * a + (n + 1.0 - 1.0) * e)
    ensures (sum - 0.5 * (a + 0.0 * e + (a + n * e))) / n == 0.5 * (a + 0.0 * e + (a + n * e))
  {
    var m := 0.5 * (a + (a + n * e));
    assert sum == (n + 1.0) * m;
    assert sum - m == m * n;
    Quotient(m * n, n);
  }

  // The segment stays on the grid, edges included.
  predicate OnGrid(s: Segment) {
    && 0.0 <= s.x0 <= s.nx as real - 1.0 && 0.0 <= s.y0 <= s.ny as real - 1.0
    && 0.0 <= s.x1 <= s.nx as real - 1.0 && 0.0 <= s.y1 <= s.ny as real - 1.0
  }

  // Equal steps from `first` to `last`.
  ghost predicate IsLine(samples: seq<real>, first: real, gain: real, last: real) {
    && samples != [] && (forall i :: 0 <= i < |samples| ==> samples[i] == first + i as real * gain)
    && samples[0] == first && samples[|samples| - 1] == last
  }

  lemma LinearSamples(s: Segment, a: real, b: real, e: real) returns (gain: real)
    requires s.Valid() && LinearSea(s, a, b, e) && OnGrid(s)
    ensures s.InSight() && IsLine(s.Samples(), LinearAt(a, b, e, s.x0, s.y0), gain, LinearAt(a, b, e, s.x1, s.y1))
  {
    var first := LinearAt(a, b, e, s.x0, s.y0);
    gain := (b * (s.x1 - s.x0) + e * (s.y1 - s.y0)) / s.steps as real;
    forall i | 0 <= i <= s.steps
      ensures s.Nearest(i).Open() && s.Slowness(i) == first + i as real * gain
    {
      LinearSample(s, i, a, b, e, first, gain);
    }
    EndSamples(s, a, b, e);
    assert s.Samples()[0] == s.Slowness(0) && s.Samples()[s.steps] == s.Slowness(s.steps);
  }

  lemma EndSamples(s: Segment, a: real, b: real, e: real)
    requires s.Valid() && LinearSea(s, a, b, e) && OnGrid(s)
    ensures s.Nearest(0).Open() && s.Slowness(0) == LinearAt(a, b, e, s.x0, s.y0)
    ensures s.Nearest(s.steps).Open() && s.Slowness(s.steps) == LinearAt(a, b, e, s.x1, s.y1)
  {
    SamplesRunStraight(s, 0);
    LinearIsRead(s, 0, a, b, e);
    LinearIsRead(s, s.steps, a, b, e);
  }

  lemma LinearSample(s: Segment, i: nat, a: real, b: real, e: real, first: real, gain: real)
    requires s.Valid() && LinearSea(s, a, b, e) && OnGrid(s) && i <= s.steps && first == LinearAt(a, b, e, s.x0, s.y0)
    requires gain == (b * (s.x1 - s.x0) + e * (s.y1 - s.y0)) / s.steps as real
    ensures s.Nearest(i).Open() && s.Slowness(i) == LinearAt(a, b, e, s.X(i), s.Y(i)) == first + i as real * gain
  {
    SampleIsBetween(s, i);
    LinearIsRead(s, i, a, b, e);
    SampleOnLine(s, i, a, b, e, first, gain);
  }

  // Over a linear slowness the mean along a segment is that of its ends.
  lemma LinearMean(s: Segment, a: real, b: real, e: real)
    requires s.Valid() && LinearSea(s, a, b, e) && OnGrid(s)
    ensures s.Mean() == Some(0.5 * (LinearAt(a, b, e, s.x0, s.y0) + LinearAt(a, b, e, s.x1, s.y1)))
  {
    var gain := LinearSamples(s, a, b, e);
    LineAveragesToMiddle(s.Samples(), LinearAt(a, b, e, s.x0, s.y0), gain);
  }

  lemma SampleIsBetween(s: Segment, i: nat)
    requires s.Valid() && i <= s.steps && OnGrid(s)
    ensures 0.0 <= s.X(i) <= (s.nx - 1) as real && 0.0 <= s.Y(i) <= (s.ny - 1) as real
  {
    AlongIsAShare(i, s.steps);
    ShareOfWay(s.Along(i), s.x1 - s.x0, s.X(i) - s.x0);
    ShareOfWay(s.Along(i), s.y1 - s.y0, s.Y(i) - s.y0);
  }

  lemma SampleOnLine(s: Segment, i: nat, a: real, b: real, e: real, first: real, gain: real)
    requires 2 <= s.steps && first == LinearAt(a, b, e, s.x0, s.y0)
    requires gain == (b * (s.x1 - s.x0) + e * (s.y1 - s.y0)) / s.steps as real
    ensures LinearAt(a, b, e, s.X(i), s.Y(i)) == first + i as real * gain
  {
    LinearOnWay(a, b, e, s.x0, s.y0, s.x1 - s.x0, s.y1 - s.y0, i as real, s.steps as real);
  }

  lemma LinearOnWay(a: real, b: real, e: real, x: real, y: real, dx: real, dy: real, i: real, n: real)
    requires 0.0 < n
    ensures LinearAt(a, b, e, x + i / n * dx, y + i / n * dy) == LinearAt(a, b, e, x, y) + i * ((b * dx + e * dy) / n)
  {
    var t, w := i / n, b * dx + e * dy;
    assert b * (x + t * dx) == b * x + t * (b * dx) && e * (y + t * dy) == e * y + t * (e * dy);
    assert t * (b * dx) + t * (e * dy) == t * w;
    ShareMoves(i, w, n);
  }

  lemma ShareMoves(i: real, w: real, n: real)
    requires 0.0 < n
    ensures i / n * w == i * (w / n)
  {
  }
}
