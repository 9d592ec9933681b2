// Volume over a whole run of the shallow-water model: no momentum crosses a face that
// touches land or the outer edge, so continuity keeps the volume of the wet interior
// up to the elevations it flushes.
module Conservation {
  import opened Arithmetic
  import opened ShallowWater

  // ---------- Sums over the interior ----------

  type Field = (int, int) -> real

  // Sum of row i over columns 1 .. n-1.
  function RowSum(f: Field, i: int, n: int): real
    decreases n
  {
    if n <= 1 then 0.0 else RowSum(f, i, n - 1) + f(i, n - 1)
  }

  // Sum over rows 1 .. m-1 and columns 1 .. n-1.
  function Total(f: Field, m: int, n: int): real
    decreases m
  {
    if m <= 1 then 0.0 else Total(f, m - 1, n) + RowSum(f, m - 1, n)
  }

  // One cell gives up its flux differences and its losses.
  predicate Balances(after: Field, before: Field, a: Field, c: Field, lost: Field, i: int, j: int) {
    after(i, j) == before(i, j) - (a(i, j) - a(i - 1, j)) - (c(i, j) - c(i, j - 1)) - lost(i, j)
  }

  // No flux through either end of row i.
  predicate Closed(c: Field, i: int, n: int) {
    c(i, 0) == 0.0 && c(i, n - 1) == 0.0
  }

  // Fluxes along the row telescope; those across it stay.
  lemma {:induction false} RowBalances(after: Field, before: Field, a: Field, c: Field, lost: Field, i: int, n: int)
    requires 1 <= n && forall j :: 1 <= j < n ==> Balances(after, before, a, c, lost, i, j)
    ensures RowSum(after, i, n)
            == RowSum(before, i, n) - (RowSum(a, i, n) - RowSum(a, i - 1, n)) - (c(i, n - 1) - c(i, 0)) - RowSum(lost, i, n)
    decreases n
  {
    if n <= 1 {
    } else {
      RowBalances(after, before, a, c, lost, i, n - 1);
      assert Balances(after, before, a, c, lost, i, n - 1);
    }
  }

  // Over all rows, only the outer lines and the losses remain.
  lemma {:induction false} TotalBalances(after: Field, before: Field, a: Field, c: Field, lost: Field, m: int, n: int)
    requires 1 <= m && 1 <= n
    requires forall i, j :: 1 <= i < m && 1 <= j < n ==> Balances(after, before, a, c, lost, i, j)
    requires forall i :: 1 <= i < m ==> Closed(c, i, n)
    ensures Total(after, m, n) == Total(before, m, n) - (RowSum(a, m - 1, n) - RowSum(a, 0, n)) - Total(lost, m, n)
    decreases m
  {
    if m <= 1 {
    } else {
      TotalBalances(after, before, a, c, lost, m - 1, n);
      RowBalances(after, before, a, c, lost, m - 1, n);
      assert Closed(c, m - 1, n);
    }
  }

  lemma {:induction false} RowOfZeros(f: Field, i: int, n: int)
    requires forall j :: 1 <= j < n ==> f(i, j) == 0.0
    ensures RowSum(f, i, n) == 0.0
    decreases n
  {
    if n <= 1 {
    } else {
      RowOfZeros(f, i, n - 1);
    }
  }

  predicate Within(f: Field, g: Field, c: real, i: int, j: int) {
    Abs(f(i, j)) <= c * g(i, j)
  }

  lemma {:induction false} RowIsWithin(f: Field, g: Field, c: real, i: int, n: int)
    requires forall j :: 1 <= j < n ==> Within(f, g, c, i, j)
    ensures Abs(RowSum(f, i, n)) <= c * RowSum(g, i, n)
    decreases n
  {
    if n <= 1 {
    } else {
      RowIsWithin(f, g, c, i, n - 1);
      assert Within(f, g, c, i, n - 1);
      assert c * (RowSum(g, i, n - 1) + g(i, n - 1)) == c * RowSum(g, i, n - 1) + c * g(i, n - 1);
    }
  }

  lemma {:induction false} TotalIsWithin(f: Field, g: Field, c: real, m: int, n: int)
    requires forall i, j :: 1 <= i < m && 1 <= j < n ==> Within(f, g, c, i, j)
    ensures Abs(Total(f, m, n)) <= c * Total(g, m, n)
    decreases m
  {
    if m <= 1 {
    } else {
      TotalIsWithin(f, g, c, m - 1, n);
      RowIsWithin(f, g, c, m - 1, n);
      assert c * (Total(g, m - 1, n) + RowSum(g, m - 1, n)) == c * Total(g, m - 1, n) + c * RowSum(g, m - 1, n);
    }
  }

  // ---------- Momentum at the walls ----------

  ghost predicate Still(row: seq<real>) {
    forall j :: 0 <= j < |row| ==> row[j] == 0.0
  }

  // The faces the momentum kernel never writes.
  ghost predicate StillEdges(b: Basin, m: Grid, n: Grid)
    requires b.Valid() && b.Shaped(m) && b.Shaped(n)
  {
    && Still(m[0]) && Still(m[b.ia - 1])
    && (forall i :: 0 <= i < b.ia ==> n[i][0] == 0.0 && n[i][b.ja - 1] == 0.0)
  }

  // No momentum on the outer faces, nor on a face that touches a dry cell.
  ghost predicate Walled(b: Basin, m: Grid, n: Grid)
    requires b.Valid() && b.Shaped(m) && b.Shaped(n)
  {
    && StillEdges(b, m, n)
    && (forall i, j :: 1 <= i < b.ia - 1 && 1 <= j < b.ja && m[i][j] != 0.0 ==> 0.0 < b.h[i][j] && 0.0 < b.h[i + 1][j])
    && (forall i, j :: 1 <= i < b.ia && 1 <= j < b.ja - 1 && n[i][j] != 0.0 ==> 0.0 < b.h[i][j] && 0.0 < b.h[i][j + 1])
  }

  // ---------- Volume ----------

  // A field that is f on the wet interior and zero elsewhere.
  function OnWet(b: Basin, f: Field): Field
    requires b.Valid()
  {
    (i: int, j: int) => if 1 <= i < b.ia && 1 <= j < b.ja && 0.0 < b.h[i][j] then f(i, j) else 0.0
  }

  function Elevation(b: Basin, z: Grid): Field
    requires b.Valid() && b.Shaped(z)
  {
    (i: int, j: int) => if 0 <= i < b.ia && 0 <= j < b.ja then z[i][j] / b.rx[j] else 0.0
  }

  // Sum over wet interior cells of z / rx[j].
  function Volume(b: Basin, z: Grid): real
    requires b.Valid() && b.Shaped(z)
  {
    Total(OnWet(b, Elevation(b, z)), b.ia, b.ja)
  }

  // Sum over wet interior cells of 1 / rx[j].
  function Weight(b: Basin): real
    requires b.Valid()
  {
    Total(OnWet(b, Reciprocal(b)), b.ia, b.ja)
  }

  function Reciprocal(b: Basin): Field
    requires b.Valid()
  {
    (i: int, j: int) => if 0 <= j < b.ja then 1.0 / b.rx[j] else 0.0
  }

  function MassGrid(b: Basin, z1: Grid, z2: Grid, m1: Grid, n1: Grid): (g: Grid)
    requires b.Valid() && b.Shaped(z1) && b.Shaped(z2) && b.Shaped(m1) && b.Shaped(n1)
    ensures b.Shaped(g)
    ensures forall i, j :: 0 <= i < b.ia && 0 <= j < b.ja ==> g[i][j] == b.MassAt(z1, z2, m1, n1, i, j)
  {
    b.Each((i: int, j: int) requires 0 <= i < b.ia && 0 <= j < b.ja => b.MassAt(z1, z2, m1, n1, i, j))
  }

  // What flushing takes from a cell.
  function Flush(b: Basin, z1: Grid, m1: Grid, n1: Grid): Field
    requires b.Valid() && b.Shaped(z1) && b.Shaped(m1) && b.Shaped(n1)
  {
    (i: int, j: int) =>
      if 1 <= i < b.ia && 1 <= j < b.ja
      then (b.Continuity(z1, m1, n1, i, j) - b.Flushed(b.Continuity(z1, m1, n1, i, j))) / b.rx[j] else 0.0
  }

  // Momentum through the faces of a cell along i, and along j with its metric factor.
  function AlongI(b: Basin, m: Grid): Field
    requires b.Valid() && b.Shaped(m)
  {
    (i: int, j: int) => if 0 <= i < b.ia && 0 <= j < b.ja then m[i][j] else 0.0
  }

  function AlongJ(b: Basin, n: Grid): Field
    requires b.Valid() && b.Shaped(n)
  {
    (i: int, j: int) => if 0 <= i < b.ia && 0 <= j < b.ja then n[i][j] * b.cj[j] else 0.0
  }

  lemma DividedContinuity(z: real, r: real, x: real, y: real)
    requires 0.0 < r
    ensures (z - r * x - r * y) / r == z / r - x - y
  {
    assert (z - r * x - r * y) == r * (z / r - x - y);
  }

  lemma DividedDifference(c: real, f: real, r: real)
    requires 0.0 < r
    ensures f / r == c / r - (c - f) / r
  {
  }

  // Every face of a dry cell is still.
  lemma DryFaces(b: Basin, m: Grid, n: Grid, i: int, j: int)
    requires b.Valid() && b.Shaped(m) && b.Shaped(n) && Walled(b, m, n)
    requires 1 <= i < b.ia && 1 <= j < b.ja && b.h[i][j] <= 0.0
    ensures m[i][j] == 0.0 && m[i - 1][j] == 0.0 && n[i][j] == 0.0 && n[i][j - 1] == 0.0
  {
    assert m[0][j] == 0.0 && m[b.ia - 1][j] == 0.0 && n[i][0] == 0.0 && n[i][b.ja - 1] == 0.0;
    assert m[i - 1][j] == 0.0;
    assert n[i][j - 1] == 0.0;
  }

  // What continuity does to one interior cell, land or water.
  lemma CellBalances(b: Basin, z1: Grid, z2: Grid, m1: Grid, n1: Grid, i: int, j: int)
    requires b.Valid() && b.Shaped(z1) && b.Shaped(z2) && b.Shaped(m1) && b.Shaped(n1) && Walled(b, m1, n1)
    requires 1 <= i < b.ia && 1 <= j < b.ja
    ensures Balances(OnWet(b, Elevation(b, MassGrid(b, z1, z2, m1, n1))), OnWet(b, Elevation(b, z1)),
                     AlongI(b, m1), AlongJ(b, n1), OnWet(b, Flush(b, z1, m1, n1)), i, j)
  {
    if 0.0 < b.h[i][j] {
      var r, x := b.rx[j], m1[i][j] - m1[i - 1][j];
      var y := n1[i][j] * b.cj[j] - n1[i][j - 1] * b.cj[j - 1];
      var c := b.Continuity(z1, m1, n1, i, j);
      DividedContinuity(z1[i][j], r, x, y);
      DividedDifference(c, b.Flushed(c), r);
    } else {
      DryFaces(b, m1, n1, i, j);
    }
  }

  lemma StillFace(b: Basin, n: Grid, i: int, j: int)
    requires b.Valid() && b.Shaped(n) && 0 <= i < b.ia && 0 <= j < b.ja && n[i][j] == 0.0
    ensures AlongJ(b, n)(i, j) == 0.0
  {
  }

  // No flux crosses the outer lines.
  lemma OuterFluxesVanish(b: Basin, m: Grid, n: Grid)
    requires b.Valid() && b.Shaped(m) && b.Shaped(n) && StillEdges(b, m, n)
    ensures RowSum(AlongI(b, m), 0, b.ja) == RowSum(AlongI(b, m), b.ia - 1, b.ja) == 0.0
    ensures forall i :: 1 <= i < b.ia ==> Closed(AlongJ(b, n), i, b.ja)
  {
    RowOfZeros(AlongI(b, m), 0, b.ja);
    RowOfZeros(AlongI(b, m), b.ia - 1, b.ja);
    forall i | 1 <= i < b.ia
      ensures Closed(AlongJ(b, n), i, b.ja)
    {
      StillFace(b, n, i, 0);
      StillFace(b, n, i, b.ja - 1);
    }
  }

  // Continuity keeps the volume but for what it flushes.
  lemma MassKeepsVolume(b: Basin, z1: Grid, z2: Grid, m1: Grid, n1: Grid)
    requires b.Valid() && b.Shaped(z1) && b.Shaped(z2) && b.Shaped(m1) && b.Shaped(n1) && Walled(b, m1, n1)
    ensures Volume(b, MassGrid(b, z1, z2, m1, n1))
            == Volume(b, z1) - Total(OnWet(b, Flush(b, z1, m1, n1)), b.ia, b.ja)
  {
    forall i, j | 1 <= i < b.ia && 1 <= j < b.ja
      ensures Balances(OnWet(b, Elevation(b, MassGrid(b, z1, z2, m1, n1))), OnWet(b, Elevation(b, z1)),
                       AlongI(b, m1), AlongJ(b, n1), OnWet(b, Flush(b, z1, m1, n1)), i, j)
    {
      CellBalances(b, z1, z2, m1, n1, i, j);
    }
    OuterFluxesVanish(b, m1, n1);
    TotalBalances(OnWet(b, Elevation(b, MassGrid(b, z1, z2, m1, n1))), OnWet(b, Elevation(b, z1)),
                  AlongI(b, m1), AlongJ(b, n1), OnWet(b, Flush(b, z1, m1, n1)), b.ia, b.ja);
  }

  lemma FlushIsSmall(b: Basin, z1: Grid, m1: Grid, n1: Grid, i: int, j: int)
    requires b.Valid() && b.Shaped(z1) && b.Shaped(m1) && b.Shaped(n1) && 1 <= i < b.ia && 1 <= j < b.ja
    ensures Abs(Flush(b, z1, m1, n1)(i, j)) <= b.flush * (1.0 / b.rx[j])
  {
    var c := b.Continuity(z1, m1, n1, i, j);
    QuotientBounded(c - b.Flushed(c), b.rx[j], b.flush);
  }

  lemma QuotientBounded(x: real, r: real, bound: real)
    requires 0.0 < r && Abs(x) <= bound
    ensures Abs(x / r) <= bound * (1.0 / r)
  {
    var q := 1.0 / r;
    assert 0.0 < q && x / r == x * q;
    assert -bound * q <= x * q <= bound * q;
  }

  // The volume changes by at most the flush threshold times the weight of the water.
  lemma VolumeIsConserved(b: Basin, z1: Grid, z2: Grid, m1: Grid, n1: Grid)
    requires b.Valid() && b.Shaped(z1) && b.Shaped(z2) && b.Shaped(m1) && b.Shaped(n1) && Walled(b, m1, n1)
    ensures Abs(Volume(b, MassGrid(b, z1, z2, m1, n1)) - Volume(b, z1)) <= b.flush * Weight(b)
  {
    FlushesAreSmall(b, z1, m1, n1);
    MassKeepsVolume(b, z1, z2, m1, n1);
  }

  lemma FlushesAreSmall(b: Basin, z1: Grid, m1: Grid, n1: Grid)
    requires b.Valid() && b.Shaped(z1) && b.Shaped(m1) && b.Shaped(n1)
    ensures Abs(Total(OnWet(b, Flush(b, z1, m1, n1)), b.ia, b.ja)) <= b.flush * Weight(b)
  {
    forall i, j | 1 <= i < b.ia && 1 <= j < b.ja
      ensures Within(OnWet(b, Flush(b, z1, m1, n1)), OnWet(b, Reciprocal(b)), b.flush, i, j)
    {
      FlushIsSmall(b, z1, m1, n1, i, j);
    }
    TotalIsWithin(OnWet(b, Flush(b, z1, m1, n1)), OnWet(b, Reciprocal(b)), b.flush, b.ia, b.ja);
  }
}
