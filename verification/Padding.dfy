// The bathymetry grid as the solver sees it: its slowness, padded on all sides.
module Padding {
  import opened Arithmetic
  import opened Ocean

  // Index of grid node (row, column) in the padded grid.
  function NodeAt(nx: nat, row: int, column: int): int {
    (row + PAD) * (nx + 2 * PAD) + column + PAD
  }

  lemma NodeCoordinates(nx: nat, row: int, column: int)
    requires 0 <= column < nx
    ensures NodeAt(nx, row, column) / (nx + 2 * PAD) == row + PAD
    ensures NodeAt(nx, row, column) % (nx + 2 * PAD) == column + PAD
  {
    var w := nx + 2 * PAD;
    var v := NodeAt(nx, row, column);
    Division(v, row + PAD, w, column + PAD);
  }

  lemma NodesAreDistinct(nx: nat, row: int, column: int, row': int, column': int)
    requires 0 <= column < nx && 0 <= column' < nx
    requires NodeAt(nx, row, column) == NodeAt(nx, row', column')
    ensures row == row' && column == column'
  {
    NodeCoordinates(nx, row, column);
    NodeCoordinates(nx, row', column');
  }

  // A patch cell lies as many columns east and rows north as its step says; row 0 is the
  // northern one.
  lemma CellLiesAtItsStep(nx: nat, row: int, column: int, s: Step)
    ensures NodeAt(nx, row, column) + s.Offset(nx + 2 * PAD) == NodeAt(nx, row - s.dj, column + s.di)
  {
    assert (row + PAD) * (nx + 2 * PAD) - s.dj * (nx + 2 * PAD) == (row - s.dj + PAD) * (nx + 2 * PAD);
  }

  predicate Rectangular<T>(grid: seq<seq<T>>, ny: nat, nx: nat) {
    |grid| == ny && forall r :: 0 <= r < ny ==> |grid[r]| == nx
  }

  // Slowness of one grid cell: NaN unless its depth is negative.
  function CellSlowness(depth: Float, speed: real): (slow: Float)
    requires 0.0 < speed
    ensures if depth.Open() then slow.Open() && slow.value * speed == -1.0 else slow.NaN?
  {
    if depth.Open() then
      var reciprocal := -1.0 / speed;
      assert reciprocal * speed == -1.0;
      Num(reciprocal)
    else NaN
  }

  // Slowness at index v of the grid padded with NaN.
  function Padded(inner: seq<seq<Float>>, ny: nat, nx: nat, v: int): Float
    requires Rectangular(inner, ny, nx)
  {
    var row, column := v / (nx + 2 * PAD) - PAD, v % (nx + 2 * PAD) - PAD;
    if 0 <= row < ny && 0 <= column < nx then inner[row][column] else NaN
  }

  function SeaOf(inner: seq<seq<Float>>, ny: nat, nx: nat, stencil: Stencil, length: seq<seq<real>>): Sea
    requires Rectangular(inner, ny, nx)
  {
    var width := nx + 2 * PAD;
    Sea(width, ny, seq((ny + 2 * PAD) * width, v requires 0 <= v => Padded(inner, ny, nx, v)), stencil, length)
  }

  // What `_slowness` and the length tables give the propagation.
  ghost predicate Inputs(inner: seq<seq<Float>>, ny: nat, nx: nat, stencil: Stencil, length: seq<seq<real>>) {
    && 0 < ny && 0 < nx && Rectangular(inner, ny, nx) && stencil.Valid()
    && (forall r, c :: 0 <= r < ny && 0 <= c < nx ==> inner[r][c].NaN? || inner[r][c].Open())
    && |length| == ny
    && (forall r :: 0 <= r < ny ==> |length[r]| == NEIGHBOURS)
    && (forall r, k :: 0 <= r < ny && 0 <= k < NEIGHBOURS ==> 0.0 <= length[r][k])
  }

  lemma PaddedSeaIsValid(inner: seq<seq<Float>>, ny: nat, nx: nat, stencil: Stencil, length: seq<seq<real>>)
    requires Inputs(inner, ny, nx, stencil, length)
    ensures SeaOf(inner, ny, nx, stencil, length).Valid()
  {
    var sea := SeaOf(inner, ny, nx, stencil, length);
    forall v | sea.Water(v)
      ensures sea.Inner(v)
    {
      assert sea.slow[v] == Padded(inner, ny, nx, v);
    }
  }

  lemma PaddedAt(inner: seq<seq<Float>>, ny: nat, nx: nat, stencil: Stencil, length: seq<seq<real>>, r: int, c: int)
    requires Inputs(inner, ny, nx, stencil, length) && 0 <= r < ny && 0 <= c < nx
    ensures var sea := SeaOf(inner, ny, nx, stencil, length);
            0 <= NodeAt(nx, r, c) < |sea.slow| && sea.slow[NodeAt(nx, r, c)] == inner[r][c]
  {
    NodeCoordinates(nx, r, c);
    Sea.RowMajor(r + PAD, c + PAD, nx + 2 * PAD, ny + 2 * PAD);
  }

  // A cell's slowness is that of its own depth in its own row: times the speed there it
  // is -1, and land and missing data have none.
  predicate SlowAtDepth(slow: Float, depth: Float, r: int, speed: (int, real) -> real) {
    if depth.Open() then slow.Open() && slow.value * speed(r, depth.value) == -1.0 else slow.NaN?
  }

  function InnerOf(depth: seq<seq<Float>>, ny: nat, nx: nat, speed: (int, real) -> real): (inner: seq<seq<Float>>)
    requires Rectangular(depth, ny, nx)
    requires forall r, d :: 0.0 < speed(r, d)
    ensures Rectangular(inner, ny, nx)
    ensures forall r, c :: 0 <= r < ny && 0 <= c < nx ==> SlowAtDepth(inner[r][c], depth[r][c], r, speed)
  {
    seq(ny, r requires 0 <= r < ny => InnerRow(depth[r], r, speed))
  }

  function InnerRow(depth: seq<Float>, r: int, speed: (int, real) -> real): (row: seq<Float>)
    requires forall r, d :: 0.0 < speed(r, d)
    ensures |row| == |depth|
    ensures forall c :: 0 <= c < |row| ==> SlowAtDepth(row[c], depth[c], r, speed)
  {
    if depth == [] then []
    else [CellSlowness(depth[0], if depth[0].Num? then speed(r, depth[0].value) else 1.0)] + InnerRow(depth[1..], r, speed)
  }
}
