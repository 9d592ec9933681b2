// The laws of the kernels, in terms of the grids alone: what a cell gives to the next
// one, what leaves through an open edge, and how a slope drives the water.
module ShallowLaws {
  import opened Arithmetic
  import opened ShallowWater

  // ---------- Momentum ----------

  // What happens at a face between two wet cells: `d` is how much higher the water stands
  // ahead of the face than behind it, x > 0 what a unit of that drives, and momentum
  // smaller than `flush` counts as none.
  ghost predicate DrivenDownhill(before: real, after: real, x: real, d: real, flush: real) {
    // A level surface leaves the momentum as it was, up to the flush.
    && (d == 0.0 ==> after == before || (after == 0.0 && Abs(before) < flush))
    // From rest, water never flows towards the higher side ...
    && (before == 0.0 && 0.0 <= d ==> after <= 0.0)
    && (before == 0.0 && d <= 0.0 ==> 0.0 <= after)
    // ... and flows as soon as the slope drives the flush threshold.
    && (before == 0.0 && flush <= Abs(x * d) ==> after != 0.0)
    // A higher water ahead never speeds the flow up, nor a lower one slows it down.
    && (0.0 <= d ==> after <= before + flush)
    && (d <= 0.0 ==> before - flush <= after)
  }

  lemma SlopeDrives(before: real, after: real, x: real, d: real, flush: real)
    requires 0.0 < x && 0.0 < flush
    requires after == before - x * d || (after == 0.0 && Abs(before - x * d) < flush)
    requires Abs(before - x * d) < flush ==> after == 0.0
    ensures DrivenDownhill(before, after, x, d, flush)
  {
    if 0.0 <= d {
      NonNegativeProduct(x, d);
    } else {
      NonPositiveProduct(x, d);
    }
  }

  // The face between cells i and i + 1 of column j.
  lemma FaceAlongI(b: Basin, z: Grid, m1: Grid, m2: Grid, i: int, j: int)
    requires b.Valid() && b.Shaped(z) && b.Shaped(m1) && b.Shaped(m2) && 1 <= i < b.ia - 1 && 1 <= j < b.ja
    requires 0.0 < b.h[i][j] && 0.0 < b.h[i + 1][j] && 0.0 < b.xx[i][j]
    ensures DrivenDownhill(m1[i][j], b.MomentumM(z, m1, m2, i, j), b.xx[i][j], z[i + 1][j] - z[i][j], b.flush)
  {
    SlopeDrives(m1[i][j], b.MomentumM(z, m1, m2, i, j), b.xx[i][j], z[i + 1][j] - z[i][j], b.flush);
  }

  // The face between cells j and j + 1 of row i.
  lemma FaceAlongJ(b: Basin, z: Grid, n1: Grid, n2: Grid, i: int, j: int)
    requires b.Valid() && b.Shaped(z) && b.Shaped(n1) && b.Shaped(n2) && 1 <= i < b.ia && 1 <= j < b.ja - 1
    requires 0.0 < b.h[i][j] && 0.0 < b.h[i][j + 1] && 0.0 < b.yy[i][j]
    ensures DrivenDownhill(n1[i][j], b.MomentumN(z, n1, n2, i, j), b.yy[i][j], z[i][j + 1] - z[i][j], b.flush)
  {
    SlopeDrives(n1[i][j], b.MomentumN(z, n1, n2, i, j), b.yy[i][j], z[i][j + 1] - z[i][j], b.flush);
  }

  // ---------- A line of wet cells ----------

  // Sum of f over first .. last - 1.
  function LineSum(f: int -> real, first: int, last: int): real
    decreases last - first
  {
    if last <= first then 0.0 else LineSum(f, first, last - 1) + f(last - 1)
  }

  // Each term is the rise of z across its face, up to c times g.
  ghost predicate RiseIs(f: int -> real, g: int -> real, z: int -> real, c: real, k: int) {
    Abs(f(k) - (z(k + 1) - z(k))) <= c * g(k)
  }

  // The sum is the rise from `low` to `high`, up to c times the weight.
  predicate AddsUpTo(sum: real, high: real, low: real, c: real, weight: real) {
    Abs(sum - (high - low)) <= c * weight
  }

  lemma {:induction false} RisesAddUp(f: int -> real, g: int -> real, z: int -> real, c: real, first: int, last: int)
    requires first <= last && forall k :: first <= k < last ==> RiseIs(f, g, z, c, k)
    ensures AddsUpTo(LineSum(f, first, last), z(last), z(first), c, LineSum(g, first, last))
    decreases last - first
  {
    if first == last {
    } else {
      RisesAddUp(f, g, z, c, first, last - 1);
      assert RiseIs(f, g, z, c, last - 1);
      assert c * (LineSum(g, first, last - 1) + g(last - 1)) == c * LineSum(g, first, last - 1) + c * g(last - 1);
    }
  }

  // What a step takes from the momentum of a face, over what a unit of slope drives.
  lemma TakenIsTheRise(before: real, after: real, x: real, d: real, flush: real)
    requires 0.0 < x && 0.0 < flush
    requires after == before - x * d || (after == 0.0 && Abs(before - x * d) < flush)
    ensures Abs((before - after) / x - d) <= flush * (1.0 / x)
  {
    var e := before - after - x * d;
    assert Abs(e) <= flush;
    OverUnit(before - after, e, x, d);
    ErrorOverUnit(e, x, flush);
  }

  lemma OverUnit(a: real, e: real, x: real, d: real)
    requires 0.0 < x && a == x * d + e
    ensures a / x - d == e / x
  {
    assert a / x * x == a && e / x * x == e;
    assert (a / x - d) * x == a - x * d;
    assert (a / x - d) * x == e / x * x;
  }

  lemma ErrorOverUnit(e: real, x: real, flush: real)
    requires 0.0 < x && Abs(e) <= flush
    ensures Abs(e / x) <= flush * (1.0 / x)
  {
    var u := 1.0 / x;
    assert 0.0 < u && e / x == e * u;
    assert -flush * u <= e * u <= flush * u;
  }

  function MTaken(b: Basin, z: Grid, m1: Grid, m2: Grid, j: int): int -> real
    requires b.Valid() && b.Shaped(z) && b.Shaped(m1) && b.Shaped(m2) && 0 <= j < b.ja
  {
    (i: int) => if 0 <= i < b.ia && b.xx[i][j] != 0.0 then (m1[i][j] - b.MomentumM(z, m1, m2, i, j)) / b.xx[i][j] else 0.0
  }

  function NTaken(b: Basin, z: Grid, n1: Grid, n2: Grid, i: int): int -> real
    requires b.Valid() && b.Shaped(z) && b.Shaped(n1) && b.Shaped(n2) && 0 <= i < b.ia
  {
    (j: int) => if 0 <= j < b.ja && b.yy[i][j] != 0.0 then (n1[i][j] - b.MomentumN(z, n1, n2, i, j)) / b.yy[i][j] else 0.0
  }

  function MUnit(b: Basin, j: int): int -> real
    requires b.Valid() && 0 <= j < b.ja
  {
    (i: int) => if 0 <= i < b.ia && b.xx[i][j] != 0.0 then 1.0 / b.xx[i][j] else 0.0
  }

  function NUnit(b: Basin, i: int): int -> real
    requires b.Valid() && 0 <= i < b.ia
  {
    (j: int) => if 0 <= j < b.ja && b.yy[i][j] != 0.0 then 1.0 / b.yy[i][j] else 0.0
  }

  function ColumnOf(b: Basin, z: Grid, j: int): int -> real
    requires b.Shaped(z) && 0 <= j < b.ja
  {
    (i: int) => if 0 <= i < b.ia then z[i][j] else 0.0
  }

  function RowAlong(b: Basin, z: Grid, i: int): int -> real
    requires b.Shaped(z) && 0 <= i < b.ia
  {
    (j: int) => if 0 <= j < b.ja then z[i][j] else 0.0
  }

  lemma RiseAlongI(b: Basin, z: Grid, m1: Grid, m2: Grid, i: int, j: int)
    requires b.Valid() && b.Shaped(z) && b.Shaped(m1) && b.Shaped(m2) && 1 <= i < b.ia - 1 && 1 <= j < b.ja
    requires 0.0 < b.h[i][j] && 0.0 < b.h[i + 1][j] && 0.0 < b.xx[i][j]
    ensures RiseIs(MTaken(b, z, m1, m2, j), MUnit(b, j), ColumnOf(b, z, j), b.flush, i)
  {
    TakenIsTheRise(m1[i][j], b.MomentumM(z, m1, m2, i, j), b.xx[i][j], z[i + 1][j] - z[i][j], b.flush);
  }

  lemma RiseAlongJ(b: Basin, z: Grid, n1: Grid, n2: Grid, i: int, j: int)
    requires b.Valid() && b.Shaped(z) && b.Shaped(n1) && b.Shaped(n2) && 1 <= i < b.ia && 1 <= j < b.ja - 1
    requires 0.0 < b.h[i][j] && 0.0 < b.h[i][j + 1] && 0.0 < b.yy[i][j]
    ensures RiseIs(NTaken(b, z, n1, n2, i), NUnit(b, i), RowAlong(b, z, i), b.flush, j)
  {
    TakenIsTheRise(n1[i][j], b.MomentumN(z, n1, n2, i, j), b.yy[i][j], z[i][j + 1] - z[i][j], b.flush);
  }

  // Over the faces between two cells of a line of water, what the step takes from the
  // momentum is the difference of their elevations, up to the flush.
  lemma MomentumFallsAlongI(b: Basin, z: Grid, m1: Grid, m2: Grid, j: int, first: int, last: int)
    requires b.Valid() && b.Shaped(z) && b.Shaped(m1) && b.Shaped(m2) && 1 <= j < b.ja && 1 <= first <= last < b.ia
    requires forall i :: first <= i <= last ==> 0.0 < b.h[i][j]
    requires forall i :: first <= i < last ==> 0.0 < b.xx[i][j]
    ensures AddsUpTo(LineSum(MTaken(b, z, m1, m2, j), first, last), z[last][j], z[first][j], b.flush, LineSum(MUnit(b, j), first, last))
  {
    forall i | first <= i < last
      ensures RiseIs(MTaken(b, z, m1, m2, j), MUnit(b, j), ColumnOf(b, z, j), b.flush, i)
    {
      assert 0.0 < b.h[i][j] && 0.0 < b.h[i + 1][j];
      RiseAlongI(b, z, m1, m2, i, j);
    }
    RisesAddUp(MTaken(b, z, m1, m2, j), MUnit(b, j), ColumnOf(b, z, j), b.flush, first, last);
  }

  lemma MomentumFallsAlongJ(b: Basin, z: Grid, n1: Grid, n2: Grid, i: int, first: int, last: int)
    requires b.Valid() && b.Shaped(z) && b.Shaped(n1) && b.Shaped(n2) && 1 <= i < b.ia && 1 <= first <= last < b.ja
    requires forall j :: first <= j <= last ==> 0.0 < b.h[i][j]
    requires forall j :: first <= j < last ==> 0.0 < b.yy[i][j]
    ensures AddsUpTo(LineSum(NTaken(b, z, n1, n2, i), first, last), z[i][last], z[i][first], b.flush, LineSum(NUnit(b, i), first, last))
  {
    forall j | first <= j < last
      ensures RiseIs(NTaken(b, z, n1, n2, i), NUnit(b, i), RowAlong(b, z, i), b.flush, j)
    {
      assert 0.0 < b.h[i][j] && 0.0 < b.h[i][j + 1];
      RiseAlongJ(b, z, n1, n2, i, j);
    }
    RisesAddUp(NTaken(b, z, n1, n2, i), NUnit(b, i), RowAlong(b, z, i), b.flush, first, last);
  }

  // ---------- Continuity ----------

  // A cell's elevation falls by its factor times what leaves it through its four faces,
  // those along j with their metric factors, up to the flush.
  ghost predicate FallsByOutflow(b: Basin, before: real, after: real, m: Grid, n: Grid, i: int, j: int)
    requires b.Valid() && b.Shaped(m) && b.Shaped(n) && 1 <= i < b.ia && 1 <= j < b.ja
  {
    var outflow := (m[i][j] + n[i][j] * b.cj[j]) - (m[i - 1][j] + n[i][j - 1] * b.cj[j - 1]);
    before - after == b.rx[j] * outflow || (after == 0.0 && Abs(before - b.rx[j] * outflow) < b.flush)
  }

  lemma WetCellFalls(b: Basin, z1: Grid, z2: Grid, m: Grid, n: Grid, i: int, j: int)
    requires b.Valid() && b.Shaped(z1) && b.Shaped(z2) && b.Shaped(m) && b.Shaped(n) && 1 <= i < b.ia && 1 <= j < b.ja
    requires 0.0 < b.h[i][j]
    ensures FallsByOutflow(b, z1[i][j], b.MassAt(z1, z2, m, n, i, j), m, n, i, j)
  {
    OutflowIsSplit(b.rx[j], m[i][j], m[i - 1][j], n[i][j] * b.cj[j], n[i][j - 1] * b.cj[j - 1]);
  }

  lemma OutflowIsSplit(r: real, m: real, mBack: real, n: real, nBack: real)
    ensures r * ((m + n) - (mBack + nBack)) == r * (m - mBack) + r * (n - nBack)
  {
  }

  // ---------- Open edges ----------

  // At an open edge the square of the elevation times g h is the square of the discharge:
  // the mean momentum along the edge, and the momentum through the inner face. The edge
  // stands low where that flows into the basin, and high where it flows out.
  ghost predicate Radiates(b: Basin, zz: real, i: int, j: int, along: real, inward: real)
    requires b.Valid() && 0 <= i < b.ia && 0 <= j < b.ja
  {
    && zz * zz * (b.gravity * b.h[i][j]) == along * along + inward * inward
    && (0.0 < inward ==> zz <= 0.0) && (inward <= 0.0 ==> 0.0 <= zz)
  }

  // A true square root.
  ghost predicate TrueRoot(b: Basin) {
    forall x: real :: 0.0 <= x ==> 0.0 <= b.Root(x) && b.Root(x) * b.Root(x) == x
  }

  lemma RowEdgeRadiates(b: Basin, z2: Grid, m: Grid, n: Grid, i: int, j: int)
    requires b.Valid() && b.RingHasDepth() && TrueRoot(b) && b.Shaped(z2) && b.Shaped(m) && b.Shaped(n)
    requires (i == 1 || i == b.ia - 1) && 1 <= j < b.ja - 1 && 0.0 <= b.h[i][j]
    ensures Radiates(b, b.BoutAt(z2, m, n, i, j), i, j, (n[i][j] + n[i][j - 1]) / 2.0, if i == 1 then m[1][j] else -m[i - 1][j])
  {
    var along := (n[i][j] + n[i][j - 1]) / 2.0;
    assert 0.5 * Abs(n[i][j] + n[i][j - 1]) == Abs(along);
    var edge := if i == 1 then m[i][j] else m[i - 1][j];
    EdgeRadiates(b, along, edge, i, j, i == 1);
  }

  // The passes along j end one cell short of the corners that the passes along i own.
  lemma ColumnEdgeRadiates(b: Basin, z2: Grid, m: Grid, n: Grid, i: int, j: int)
    requires b.Valid() && b.RingHasDepth() && TrueRoot(b) && b.Shaped(z2) && b.Shaped(m) && b.Shaped(n)
    requires (j == 1 || j == b.ja - 1) && 1 <= i < b.ia - 1 && 0.0 <= b.h[i][j] && !(i == 1 && j == 1)
    ensures Radiates(b, b.BoutAt(z2, m, n, i, j), i, j, (m[i][j] + m[i - 1][j]) / 2.0, if j == 1 then n[i][1] else -n[i][j - 1])
  {
    var along := (m[i][j] + m[i - 1][j]) / 2.0;
    assert 0.5 * Abs(m[i][j] + m[i - 1][j]) == Abs(along);
    var edge := if j == 1 then n[i][j] else n[i][j - 1];
    EdgeRadiates(b, along, edge, i, j, j == 1);
  }

  lemma EdgeRadiates(b: Basin, along: real, edge: real, i: int, j: int, near: bool)
    requires b.Valid() && b.RingHasDepth() && TrueRoot(b) && 0 <= i < b.ia && 0 <= j < b.ja && 0.0 < b.h[i][j]
    ensures Radiates(b, b.Radiated(Abs(along), edge, i, j, near), i, j, along, if near then edge else -edge)
  {
    RadiationLaw(b, Abs(along), edge, i, j, near, b.Radiated(Abs(along), edge, i, j, near));
    SquareOfAbs(along);
    SquareOfAbs(edge);
  }

  lemma SquareOfAbs(x: real)
    ensures Abs(x) * Abs(x) == x * x && (-x) * (-x) == x * x
  {
  }

  // Elsewhere radiation changes nothing.
  lemma OthersKeep(b: Basin, z2: Grid, m: Grid, n: Grid, i: int, j: int)
    requires b.Valid() && b.RingHasDepth() && b.Shaped(z2) && b.Shaped(m) && b.Shaped(n) && 0 <= i < b.ia && 0 <= j < b.ja
    requires b.h[i][j] < 0.0 || !OnOpenEdge(b, i, j)
    ensures b.BoutAt(z2, m, n, i, j) == z2[i][j]
  {
  }

  // Cells of the four edge passes: the far corners of each belong to none of them.
  predicate OnOpenEdge(b: Basin, i: int, j: int) {
    || ((i == 1 || i == b.ia - 1) && 1 <= j < b.ja - 1)
    || ((j == 1 || j == b.ja - 1) && 1 <= i < b.ia - 1)
  }
}
