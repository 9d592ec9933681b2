// The shallow-water kernels: in-place updates of staggered grids, each cell's new
// value a closed form of the grids before the call, whatever order its parallel
// loops run in.
module ShallowWater {
  import opened Arithmetic

  type Grid = seq<seq<real>>

  // Depth, latitude and momentum factors of one basin. `root` is the square root.
  datatype Basin = Basin(ia: nat, ja: nat, h: Grid, rx: seq<real>, cj: seq<real>, xx: Grid, yy: Grid,
                         flush: real, gravity: real, root: real -> real) {

    predicate Shaped(g: Grid) {
      |g| == ia && forall i :: 0 <= i < ia ==> |g[i]| == ja
    }

    predicate Valid() {
      && 3 <= ia && 3 <= ja && Shaped(h) && Shaped(xx) && Shaped(yy) && |rx| == |cj| == ja
      && 0.0 < flush && 0.0 < gravity
      && (forall j :: 0 <= j < ja ==> 0.0 < rx[j])
    }

    // No edge cell that the radiation condition divides for has depth zero.
    ghost predicate RingHasDepth()
      requires Valid()
    {
      && (forall x: real :: 0.0 < x ==> 0.0 < Root(x))
      && (forall i, j :: 1 <= i < ia && 1 <= j < ja && (i == 1 || i == ia - 1 || j == 1 || j == ja - 1) ==> h[i][j] != 0.0)
    }

    function Root(x: real): real {
      root(x)
    }

    predicate Wet(i: int, j: int)
      requires Valid() && 0 <= i < ia && 0 <= j < ja
    {
      0.0 < h[i][j]
    }

    function Flushed(x: real): real {
      if Abs(x) < flush then 0.0 else x
    }

    // ---------- Closed forms ----------

    // Continuity at a wet cell, before small elevations are flushed.
    function Continuity(z1: Grid, m1: Grid, n1: Grid, i: int, j: int): real
      requires Valid() && Shaped(z1) && Shaped(m1) && Shaped(n1) && 1 <= i < ia && 1 <= j < ja
    {
      Continued(z1[i][j], rx[j], m1[i][j], m1[i - 1][j], n1[i][j], cj[j], n1[i][j - 1], cj[j - 1])
    }

    function MassAt(z1: Grid, z2: Grid, m1: Grid, n1: Grid, i: int, j: int): real
      requires Valid() && Shaped(z1) && Shaped(z2) && Shaped(m1) && Shaped(n1) && 0 <= i < ia && 0 <= j < ja
    {
      if i == 0 || j == 0 then z2[i][j]
      else if Wet(i, j) then Flushed(Continuity(z1, m1, n1, i, j))
      else 0.0
    }

    // Radiation through the southern and northern edges, columns j = 1 and j = ja - 1.
    function ColumnEdge(m: Grid, n: Grid, i: int, j: int): real
      requires Valid() && RingHasDepth() && Shaped(m) && Shaped(n)
      requires 1 <= i < ia - 1 && (j == 1 || j == ja - 1) && 0.0 <= h[i][j]
    {
      var across := 0.5 * Abs(m[i][j] + m[i - 1][j]);
      var edge := if j == 1 then n[i][j] else n[i][j - 1];
      Radiated(across, edge, i, j, j == 1)
    }

    // Radiation through the western and eastern edges, rows i = 1 and i = ia - 1.
    function RowEdge(m: Grid, n: Grid, i: int, j: int): real
      requires Valid() && RingHasDepth() && Shaped(m) && Shaped(n)
      requires (i == 1 || i == ia - 1) && 1 <= j < ja - 1 && 0.0 <= h[i][j]
    {
      var across := 0.5 * Abs(n[i][j] + n[i][j - 1]);
      var edge := if i == 1 then m[i][j] else m[i - 1][j];
      Radiated(across, edge, i, j, i == 1)
    }

    function Discharge(across: real, edge: real): real {
      Root(across * across + edge * edge)
    }

    function WaveSpeed(i: int, j: int): (c: real)
      requires Valid() && RingHasDepth() && 0 <= i < ia && 0 <= j < ja && 0.0 < h[i][j]
      ensures 0.0 < c
    {
      PositiveProduct(gravity, h[i][j]);
      Root(gravity * h[i][j])
    }

    // A wave leaving over depth h: signed by the discharge through the edge.
    function Radiated(across: real, edge: real, i: int, j: int, first: bool): real
      requires Valid() && RingHasDepth() && 0 <= i < ia && 0 <= j < ja && 0.0 < h[i][j]
    {
      var height := Discharge(across, edge) / WaveSpeed(i, j);
      if (first && edge > 0.0) || (!first && edge < 0.0) then -height else height
    }

    predicate OnRowEdge(i: int, j: int) {
      (i == 1 || i == ia - 1) && 1 <= j < ja - 1
    }

    predicate OnColumnEdge(i: int, j: int) {
      (j == 1 || j == ja - 1) && 1 <= i < ia - 1
    }

    // The row pass comes second and owns the corner the two passes share.
    function BoutAt(z2: Grid, m: Grid, n: Grid, i: int, j: int): real
      requires Valid() && RingHasDepth() && Shaped(z2) && Shaped(m) && Shaped(n) && 0 <= i < ia && 0 <= j < ja
    {
      if OnRowEdge(i, j) && 0.0 <= h[i][j] then RowEdge(m, n, i, j)
      else if OnColumnEdge(i, j) && 0.0 <= h[i][j] then ColumnEdge(m, n, i, j)
      else z2[i][j]
    }

    function MomentumM(z2: Grid, m1: Grid, m2: Grid, i: int, j: int): real
      requires Valid() && Shaped(z2) && Shaped(m1) && Shaped(m2) && 0 <= i < ia && 0 <= j < ja
    {
      if !(1 <= i < ia - 1) || j == 0 then m2[i][j]
      else if Wet(i, j) && Wet(i + 1, j) then Flushed(Driven(m1[i][j], xx[i][j], z2[i + 1][j], z2[i][j]))
      else 0.0
    }

    function MomentumN(z2: Grid, n1: Grid, n2: Grid, i: int, j: int): real
      requires Valid() && Shaped(z2) && Shaped(n1) && Shaped(n2) && 0 <= i < ia && 0 <= j < ja
    {
      if i == 0 || !(1 <= j < ja - 1) then n2[i][j]
      else if Wet(i, j) && Wet(i, j + 1) then Flushed(Driven(n1[i][j], yy[i][j], z2[i][j + 1], z2[i][j]))
      else 0.0
    }

    function Each(f: (int, int) --> real): (g: Grid)
      requires forall i, j :: 0 <= i < ia && 0 <= j < ja ==> f.requires(i, j)
      ensures Shaped(g) && forall i, j :: 0 <= i < ia && 0 <= j < ja ==> g[i][j] == f(i, j)
    {
      seq(ia, i requires 0 <= i < ia => seq(ja, j requires 0 <= j < ja => f(i, j)))
    }
  }

  // Elevation z after the divergence of the momentum over one cell.
  function Continued(z: real, r: real, m: real, mBack: real, n: real, c: real, nBack: real, cBack: real): real {
    z - r * (m - mBack) - r * (n * c - nBack * cBack)
  }

  // Momentum m after the slope between two cells, scaled by x.
  function Driven(m: real, x: real, ahead: real, here: real): real {
    m - x * (ahead - here)
  }

  // The long-wave law at an open edge: height squared times g h is the discharge squared,
  // and flow from the edge into the basin lowers the edge.
  lemma RadiationLaw(b: Basin, across: real, edge: real, i: int, j: int, first: bool, zz: real)
    requires b.Valid() && b.RingHasDepth() && 0 <= i < b.ia && 0 <= j < b.ja && 0.0 < b.h[i][j]
    requires forall x: real :: 0.0 <= x ==> 0.0 <= b.Root(x) && b.Root(x) * b.Root(x) == x
    requires zz == b.Radiated(across, edge, i, j, first)
    ensures zz * zz * (b.gravity * b.h[i][j]) == across * across + edge * edge
    ensures 0.0 < (if first then edge else -edge) ==> zz <= 0.0
    ensures (if first then edge else -edge) <= 0.0 ==> 0.0 <= zz
  {
    var u, c := b.Discharge(across, edge), b.WaveSpeed(i, j);
    SquaresAdd(across, edge);
    PositiveProduct(b.gravity, b.h[i][j]);
    SquareOfQuotient(u, c);
    assert zz * zz == (u / c) * (u / c);
  }

  lemma SquaresAdd(x: real, y: real)
    ensures 0.0 <= x * x + y * y
  {
    NonNegativeSquare(x);
    NonNegativeSquare(y);
  }

  lemma NonNegativeSquare(x: real)
    ensures 0.0 <= x * x
  {
    if x < 0.0 {
      assert 0.0 < (-x) * (-x);
    }
  }

  lemma SquareOfQuotient(u: real, c: real)
    requires 0.0 < c && 0.0 <= u
    ensures 0.0 <= u / c && (u / c) * (u / c) * (c * c) == u * u
  {
    var q := u / c;
    assert q * c == u;
    assert q * q * (c * c) == (q * c) * (q * c);
  }

  // ---------- Arrays as grids ----------

  function RowOf(a: array2<real>, i: nat): (row: seq<real>)
    requires i < a.Length0
    reads a
    ensures |row| == a.Length1 && forall j :: 0 <= j < a.Length1 ==> row[j] == a[i, j]
  {
    seq(a.Length1, j requires 0 <= j < a.Length1 reads a => a[i, j])
  }

  function GridOf(a: array2<real>): (g: Grid)
    reads a
    ensures |g| == a.Length0 && forall i :: 0 <= i < |g| ==> |g[i]| == a.Length1
    ensures forall i, j :: 0 <= i < a.Length0 && 0 <= j < a.Length1 ==> g[i][j] == a[i, j]
  {
    seq(a.Length0, i requires 0 <= i < a.Length0 reads a => RowOf(a, i))
  }

  predicate Fits(b: Basin, a: array2<real>) {
    a.Length0 == b.ia && a.Length1 == b.ja
  }

  // Grids are told apart by their cells.
  lemma SameCells(b: Basin, g: Grid, k: Grid)
    requires b.Shaped(g) && b.Shaped(k)
    requires forall i, j :: 0 <= i < b.ia && 0 <= j < b.ja ==> g[i][j] == k[i][j]
    ensures g == k
  {
    forall i | 0 <= i < b.ia
      ensures g[i] == k[i]
    {
    }
  }

  // A parallel loop's order: every index from `low` up to `high`, in any sequence.
  predicate Schedule(order: seq<int>, low: int, high: int) {
    && (forall q :: 0 <= q < |order| ==> low <= order[q] < high)
    && (forall i :: low <= i < high ==> i in order)
  }

  // ---------- The kernels ----------

  // One iteration of the parallel loop: row i.
  method MassRow(b: Basin, z1: array2<real>, z2: array2<real>, m1: array2<real>, n1: array2<real>, i: nat)
    requires b.Valid() && Fits(b, z1) && Fits(b, z2) && Fits(b, m1) && Fits(b, n1)
    requires z2 != z1 && z2 != m1 && z2 != n1 && 1 <= i < b.ia
    modifies z2
    ensures forall j :: 0 <= j < b.ja ==>
              z2[i, j] == b.MassAt(GridOf(z1), old(GridOf(z2)), GridOf(m1), GridOf(n1), i, j)
    ensures forall r, c :: 0 <= r < b.ia && 0 <= c < b.ja && r != i ==> z2[r, c] == old(z2[r, c])
  {
    ghost var gz, gm, gn, was := GridOf(z1), GridOf(m1), GridOf(n1), GridOf(z2);
    for j := 1 to b.ja
      invariant forall c :: 0 <= c < b.ja ==> z2[i, c] == if c < j then b.MassAt(gz, was, gm, gn, i, c) else was[i][c]
      invariant forall r, c :: 0 <= r < b.ia && 0 <= c < b.ja && r != i ==> z2[r, c] == was[r][c]
    {
      if b.h[i][j] > 0.0 {
        assert z1[i, j] == gz[i][j] && m1[i, j] == gm[i][j] && m1[i - 1, j] == gm[i - 1][j];
        assert n1[i, j] == gn[i][j] && n1[i, j - 1] == gn[i][j - 1];
        var z := Continued(z1[i, j], b.rx[j], m1[i, j], m1[i - 1, j], n1[i, j], b.cj[j], n1[i, j - 1], b.cj[j - 1]);
        if Abs(z) < b.flush {
          z := 0.0;
        }
        z2[i, j] := z;
      } else {
        z2[i, j] := 0.0;
      }
    }
  }

  method Mass(b: Basin, z1: array2<real>, z2: array2<real>, m1: array2<real>, n1: array2<real>, rows: seq<int>)
    requires b.Valid() && Fits(b, z1) && Fits(b, z2) && Fits(b, m1) && Fits(b, n1)
    requires z2 != z1 && z2 != m1 && z2 != n1 && Schedule(rows, 1, b.ia)
    modifies z2
    ensures forall i, j :: 0 <= i < b.ia && 0 <= j < b.ja ==>
              z2[i, j] == b.MassAt(GridOf(z1), old(GridOf(z2)), GridOf(m1), GridOf(n1), i, j)
  {
    ghost var gz, gm, gn, was := GridOf(z1), GridOf(m1), GridOf(n1), GridOf(z2);
    for q := 0 to |rows|
      invariant forall i, j :: 0 <= i < b.ia && 0 <= j < b.ja ==>
                  z2[i, j] == if i in rows[..q] then b.MassAt(gz, was, gm, gn, i, j) else was[i][j]
    {
      ghost var now := GridOf(z2);
      MassRow(b, z1, z2, m1, n1, rows[q]);
      assert forall j :: 0 <= j < b.ja ==> b.MassAt(gz, now, gm, gn, rows[q], j) == b.MassAt(gz, was, gm, gn, rows[q], j);
      assert forall i :: i in rows[..q + 1] <==> i in rows[..q] || i == rows[q];
    }
    assert rows[..|rows|] == rows;
  }

  // The elevation a radiating edge cell takes.
  method Radiation(b: Basin, across: real, edge: real, i: int, j: int, first: bool) returns (zz: real)
    requires b.Valid() && b.RingHasDepth() && 0 <= i < b.ia && 0 <= j < b.ja && 0.0 < b.h[i][j]
    ensures zz == b.Radiated(across, edge, i, j, first)
  {
    var uu := b.Discharge(across, edge);
    var cc := b.WaveSpeed(i, j);
    zz := uu / cc;
    if (first && edge > 0.0) || (!first && edge < 0.0) {
      zz := -zz;
    }
  }

  method ColumnEdgeCell(b: Basin, m: array2<real>, n: array2<real>, i: int, j: int) returns (zz: real)
    requires b.Valid() && b.RingHasDepth() && Fits(b, m) && Fits(b, n)
    requires 1 <= i < b.ia - 1 && (j == 1 || j == b.ja - 1) && 0.0 <= b.h[i][j]
    ensures zz == b.ColumnEdge(GridOf(m), GridOf(n), i, j)
  {
    var across := 0.5 * Abs(m[i, j] + m[i - 1, j]);
    var edge := if j == 1 then n[i, j] else n[i, j - 1];
    zz := Radiation(b, across, edge, i, j, j == 1);
  }

  method RowEdgeCell(b: Basin, m: array2<real>, n: array2<real>, i: int, j: int) returns (zz: real)
    requires b.Valid() && b.RingHasDepth() && Fits(b, m) && Fits(b, n)
    requires (i == 1 || i == b.ia - 1) && 1 <= j < b.ja - 1 && 0.0 <= b.h[i][j]
    ensures zz == b.RowEdge(GridOf(m), GridOf(n), i, j)
  {
    var across := 0.5 * Abs(n[i, j] + n[i, j - 1]);
    var edge := if i == 1 then m[i, j] else m[i - 1, j];
    zz := Radiation(b, across, edge, i, j, i == 1);
  }

  // The pass over one column edge.
  method BoutColumn(b: Basin, z2: array2<real>, m: array2<real>, n: array2<real>, j: int, order: seq<int>)
    requires b.Valid() && b.RingHasDepth() && Fits(b, z2) && Fits(b, m) && Fits(b, n) && z2 != m && z2 != n
    requires (j == 1 || j == b.ja - 1) && Schedule(order, 1, b.ia - 1)
    modifies z2
    ensures forall r, c :: 0 <= r < b.ia && 0 <= c < b.ja ==>
              z2[r, c] == if c == j && 1 <= r < b.ia - 1 && 0.0 <= b.h[r][c]
                          then b.ColumnEdge(GridOf(m), GridOf(n), r, c) else old(z2[r, c])
  {
    ghost var gm, gn, was := GridOf(m), GridOf(n), GridOf(z2);
    for q := 0 to |order|
      invariant forall r, c :: 0 <= r < b.ia && 0 <= c < b.ja ==>
                  z2[r, c] == if c == j && r in order[..q] && 0.0 <= b.h[r][c] then b.ColumnEdge(gm, gn, r, c) else was[r][c]
    {
      var i := order[q];
      if b.h[i][j] >= 0.0 {
        z2[i, j] := ColumnEdgeCell(b, m, n, i, j);
      }
      assert forall r :: r in order[..q + 1] <==> r in order[..q] || r == i;
    }
    assert order[..|order|] == order;
  }

  method BoutRow(b: Basin, z2: array2<real>, m: array2<real>, n: array2<real>, i: int, order: seq<int>)
    requires b.Valid() && b.RingHasDepth() && Fits(b, z2) && Fits(b, m) && Fits(b, n) && z2 != m && z2 != n
    requires (i == 1 || i == b.ia - 1) && Schedule(order, 1, b.ja - 1)
    modifies z2
    ensures forall r, c :: 0 <= r < b.ia && 0 <= c < b.ja ==>
              z2[r, c] == if r == i && 1 <= c < b.ja - 1 && 0.0 <= b.h[r][c]
                          then b.RowEdge(GridOf(m), GridOf(n), r, c) else old(z2[r, c])
  {
    ghost var gm, gn, was := GridOf(m), GridOf(n), GridOf(z2);
    for q := 0 to |order|
      invariant forall r, c :: 0 <= r < b.ia && 0 <= c < b.ja ==>
                  z2[r, c] == if r == i && c in order[..q] && 0.0 <= b.h[r][c] then b.RowEdge(gm, gn, r, c) else was[r][c]
    {
      var j := order[q];
      if b.h[i][j] >= 0.0 {
        z2[i, j] := RowEdgeCell(b, m, n, i, j);
      }
      assert forall c :: c in order[..q + 1] <==> c in order[..q] || c == j;
    }
    assert order[..|order|] == order;
  }

  // The edge passes in their fixed order.
  method Bout(b: Basin, z2: array2<real>, m: array2<real>, n: array2<real>,
              south: seq<int>, north: seq<int>, west: seq<int>, east: seq<int>)
    requires b.Valid() && b.RingHasDepth() && Fits(b, z2) && Fits(b, m) && Fits(b, n) && z2 != m && z2 != n
    requires Schedule(south, 1, b.ia - 1) && Schedule(north, 1, b.ia - 1)
    requires Schedule(west, 1, b.ja - 1) && Schedule(east, 1, b.ja - 1)
    modifies z2
    ensures forall i, j :: 0 <= i < b.ia && 0 <= j < b.ja ==>
              z2[i, j] == b.BoutAt(old(GridOf(z2)), GridOf(m), GridOf(n), i, j)
  {
    BoutColumn(b, z2, m, n, 1, south);
    BoutColumn(b, z2, m, n, b.ja - 1, north);
    BoutRow(b, z2, m, n, 1, west);
    BoutRow(b, z2, m, n, b.ia - 1, east);
  }

  method MomentumMRow(b: Basin, z2: array2<real>, m1: array2<real>, m2: array2<real>, i: nat)
    requires b.Valid() && Fits(b, z2) && Fits(b, m1) && Fits(b, m2) && m2 != z2 && m2 != m1 && 1 <= i < b.ia - 1
    modifies m2
    ensures forall j :: 0 <= j < b.ja ==> m2[i, j] == b.MomentumM(GridOf(z2), GridOf(m1), old(GridOf(m2)), i, j)
    ensures forall r, c :: 0 <= r < b.ia && 0 <= c < b.ja && r != i ==> m2[r, c] == old(m2[r, c])
  {
    ghost var gz, gm, was := GridOf(z2), GridOf(m1), GridOf(m2);
    for j := 1 to b.ja
      invariant forall c :: 0 <= c < b.ja ==> m2[i, c] == if c < j then b.MomentumM(gz, gm, was, i, c) else was[i][c]
      invariant forall r, c :: 0 <= r < b.ia && 0 <= c < b.ja && r != i ==> m2[r, c] == was[r][c]
    {
      if b.h[i][j] > 0.0 && b.h[i + 1][j] > 0.0 {
        assert z2[i, j] == gz[i][j] && z2[i + 1, j] == gz[i + 1][j] && m1[i, j] == gm[i][j];
        var m := Driven(m1[i, j], b.xx[i][j], z2[i + 1, j], z2[i, j]);
        if Abs(m) < b.flush {
          m := 0.0;
        }
        m2[i, j] := m;
      } else {
        m2[i, j] := 0.0;
      }
    }
  }

  method MomentumNRow(b: Basin, z2: array2<real>, n1: array2<real>, n2: array2<real>, i: nat)
    requires b.Valid() && Fits(b, z2) && Fits(b, n1) && Fits(b, n2) && n2 != z2 && n2 != n1 && 1 <= i < b.ia
    modifies n2
    ensures forall j :: 0 <= j < b.ja ==> n2[i, j] == b.MomentumN(GridOf(z2), GridOf(n1), old(GridOf(n2)), i, j)
    ensures forall r, c :: 0 <= r < b.ia && 0 <= c < b.ja && r != i ==> n2[r, c] == old(n2[r, c])
  {
    ghost var gz, gn, was := GridOf(z2), GridOf(n1), GridOf(n2);
    for j := 1 to b.ja - 1
      invariant forall c :: 0 <= c < b.ja ==> n2[i, c] == if c < j then b.MomentumN(gz, gn, was, i, c) else was[i][c]
      invariant forall r, c :: 0 <= r < b.ia && 0 <= c < b.ja && r != i ==> n2[r, c] == was[r][c]
    {
      if b.h[i][j] > 0.0 && b.h[i][j + 1] > 0.0 {
        assert z2[i, j] == gz[i][j] && z2[i, j + 1] == gz[i][j + 1] && n1[i, j] == gn[i][j];
        var n := Driven(n1[i, j], b.yy[i][j], z2[i, j + 1], z2[i, j]);
        if Abs(n) < b.flush {
          n := 0.0;
        }
        n2[i, j] := n;
      } else {
        n2[i, j] := 0.0;
      }
    }
  }

  method Momentum(b: Basin, z2: array2<real>, m1: array2<real>, m2: array2<real>, n1: array2<real>, n2: array2<real>,
                  mRows: seq<int>, nRows: seq<int>)
    requires b.Valid() && Fits(b, z2) && Fits(b, m1) && Fits(b, m2) && Fits(b, n1) && Fits(b, n2)
    requires m2 !in {z2, m1, n1, n2} && n2 !in {z2, m1, n1}
    requires Schedule(mRows, 1, b.ia - 1) && Schedule(nRows, 1, b.ia)
    modifies m2, n2
    ensures forall i, j :: 0 <= i < b.ia && 0 <= j < b.ja ==>
              m2[i, j] == b.MomentumM(GridOf(z2), GridOf(m1), old(GridOf(m2)), i, j)
    ensures forall i, j :: 0 <= i < b.ia && 0 <= j < b.ja ==>
              n2[i, j] == b.MomentumN(GridOf(z2), GridOf(n1), old(GridOf(n2)), i, j)
  {
    ghost var gz, gm, gn, wasM, wasN := GridOf(z2), GridOf(m1), GridOf(n1), GridOf(m2), GridOf(n2);
    for q := 0 to |mRows|
      invariant forall i, j :: 0 <= i < b.ia && 0 <= j < b.ja ==>
                  m2[i, j] == if i in mRows[..q] then b.MomentumM(gz, gm, wasM, i, j) else wasM[i][j]
      invariant forall i, j :: 0 <= i < b.ia && 0 <= j < b.ja ==> n2[i, j] == wasN[i][j]
    {
      ghost var now := GridOf(m2);
      MomentumMRow(b, z2, m1, m2, mRows[q]);
      assert forall j :: 0 <= j < b.ja ==> b.MomentumM(gz, gm, now, mRows[q], j) == b.MomentumM(gz, gm, wasM, mRows[q], j);
      assert forall i :: i in mRows[..q + 1] <==> i in mRows[..q] || i == mRows[q];
    }
    assert mRows[..|mRows|] == mRows;
    for q := 0 to |nRows|
      invariant forall i, j :: 0 <= i < b.ia && 0 <= j < b.ja ==>
                  n2[i, j] == if i in nRows[..q] then b.MomentumN(gz, gn, wasN, i, j) else wasN[i][j]
      invariant forall i, j :: 0 <= i < b.ia && 0 <= j < b.ja ==> m2[i, j] == b.MomentumM(gz, gm, wasM, i, j)
    {
      ghost var now := GridOf(n2);
      MomentumNRow(b, z2, n1, n2, nRows[q]);
      assert forall j :: 0 <= j < b.ja ==> b.MomentumN(gz, gn, now, nRows[q], j) == b.MomentumN(gz, gn, wasN, nRows[q], j);
      assert forall i :: i in nRows[..q + 1] <==> i in nRows[..q] || i == nRows[q];
    }
    assert nRows[..|nRows|] == nRows;
  }
}
