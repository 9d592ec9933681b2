// A whole tsunami run: every step applies the three kernels, samples gauges and the
// maximum grid, and swaps the buffers. Walls hold at every step, so every continuity
// step of every run conserves volume.
module TsunamiRun {
  import opened Arithmetic
  import opened ShallowWater
  import opened Conservation
  import opened ShallowLaws

  const KE: nat := 33602
  const KD: nat := 20
  const DT := 3.0

  // One gauge row: minutes since the start and the height at each gauge.
  datatype Sample = Sample(minutes: real, heights: seq<real>)

  datatype Levels = Levels(z1: Grid, z2: Grid, m1: Grid, m2: Grid, n1: Grid, n2: Grid, zmax: Grid, gauges: seq<Sample>)

  // The inputs of a run: basin, gauge cells and deformed sea surface.
  datatype Setup = Setup(b: Basin, points: seq<(int, int)>, surface: Grid) {
    ghost predicate Valid() {
      && b.Valid() && b.RingHasDepth() && b.Shaped(surface)
      && forall p :: p in points ==> 0 <= p.0 < b.ia && 0 <= p.1 < b.ja
    }

    function Start(): (s: Levels)
      ensures Fit(s) && forall i, j :: 0 <= i < b.ia && 0 <= j < b.ja && b.Shaped(surface) ==> s.z1[i][j] == surface[i][j]
    {
      var still := Flat(b.ia, b.ja);
      Levels(if b.Shaped(surface) then surface else still, still, still, still, still, still, still, [])
    }

    predicate Fit(s: Levels) {
      && b.Shaped(s.z1) && b.Shaped(s.z2) && b.Shaped(s.m1) && b.Shaped(s.m2)
      && b.Shaped(s.n1) && b.Shaped(s.n2) && b.Shaped(s.zmax)
      && forall r :: 0 <= r < |s.gauges| ==> |s.gauges[r].heights| == |points|
    }

    // ---------- One step ----------

    function Surface(s: Levels): (z: Grid)
      requires Valid() && Fit(s)
      ensures b.Shaped(z)
    {
      BoutGrid(b, MassGrid(b, s.z1, s.z2, s.m1, s.n1), s.m1, s.n1)
    }

    function Heights(z: Grid): (r: seq<real>)
      requires Valid() && b.Shaped(z)
      ensures |r| == |points|
    {
      seq(|points|, g requires 0 <= g < |points| => HeightAt(z, points[g]))
    }

    function HeightAt(z: Grid, p: (int, int)): real
      requires b.Shaped(z) && 0 <= p.0 < b.ia && 0 <= p.1 < b.ja
    {
      z[p.0][p.1]
    }

    function Taken(kk: nat, z: Grid): Sample
      requires Valid() && b.Shaped(z)
    {
      Sample(kk as real * DT / 60.0, Heights(z))
    }

    // Step k: kernels, sampling, swap.
    function Step(k: nat, s: Levels): (t: Levels)
      requires Valid() && Fit(s) && 1 <= k
      ensures Fit(t)
    {
      var z := Surface(s);
      var sampled := (k - 1) % KD == 0;
      Levels(z, s.z1, MomentumMGrid(b, z, s.m1, s.m2), s.m1, MomentumNGrid(b, z, s.n1, s.n2), s.n1,
             if sampled then Highest(b, s.zmax, z) else s.zmax,
             if sampled then s.gauges + [Taken(k - 1, z)] else s.gauges)
    }

    // The levels after k steps from the start.
    function After(k: nat): (s: Levels)
      requires Valid()
      ensures Fit(s)
      decreases k
    {
      if k == 0 then Start() else Step(k, After(k - 1))
    }
  }

  function Flat(m: nat, n: nat): (g: Grid)
    ensures |g| == m && forall i :: 0 <= i < m ==> |g[i]| == n
    ensures forall i, j :: 0 <= i < m && 0 <= j < n ==> g[i][j] == 0.0
  {
    seq(m, i requires 0 <= i < m => seq(n, j => 0.0))
  }

  function BoutGrid(b: Basin, z: Grid, m: Grid, n: Grid): (g: Grid)
    requires b.Valid() && b.RingHasDepth() && b.Shaped(z) && b.Shaped(m) && b.Shaped(n)
    ensures b.Shaped(g) && forall i, j :: 0 <= i < b.ia && 0 <= j < b.ja ==> g[i][j] == b.BoutAt(z, m, n, i, j)
  {
    b.Each((i: int, j: int) requires 0 <= i < b.ia && 0 <= j < b.ja => b.BoutAt(z, m, n, i, j))
  }

  function MomentumMGrid(b: Basin, z: Grid, m1: Grid, m2: Grid): (g: Grid)
    requires b.Valid() && b.Shaped(z) && b.Shaped(m1) && b.Shaped(m2)
    ensures b.Shaped(g) && forall i, j :: 0 <= i < b.ia && 0 <= j < b.ja ==> g[i][j] == b.MomentumM(z, m1, m2, i, j)
  {
    b.Each((i: int, j: int) requires 0 <= i < b.ia && 0 <= j < b.ja => b.MomentumM(z, m1, m2, i, j))
  }

  function MomentumNGrid(b: Basin, z: Grid, n1: Grid, n2: Grid): (g: Grid)
    requires b.Valid() && b.Shaped(z) && b.Shaped(n1) && b.Shaped(n2)
    ensures b.Shaped(g) && forall i, j :: 0 <= i < b.ia && 0 <= j < b.ja ==> g[i][j] == b.MomentumN(z, n1, n2, i, j)
  {
    b.Each((i: int, j: int) requires 0 <= i < b.ia && 0 <= j < b.ja => b.MomentumN(z, n1, n2, i, j))
  }

  function Larger(x: real, y: real): real {
    if x < y then y else x
  }

  function Highest(b: Basin, a: Grid, z: Grid): (g: Grid)
    requires b.Valid() && b.Shaped(a) && b.Shaped(z)
    ensures b.Shaped(g) && forall i, j :: 0 <= i < b.ia && 0 <= j < b.ja ==> g[i][j] == Larger(a[i][j], z[i][j])
  {
    b.Each((i: int, j: int) requires 0 <= i < b.ia && 0 <= j < b.ja => Larger(a[i][j], z[i][j]))
  }

  // ---------- Walls ----------

  // The live momentum is walled; the other buffer has still edges.
  ghost predicate Walls(x: Setup, s: Levels)
    requires x.Valid() && x.Fit(s)
  {
    Walled(x.b, s.m1, s.n1) && StillEdges(x.b, s.m2, s.n2)
  }

  lemma StartIsWalled(x: Setup)
    requires x.Valid()
    ensures Walls(x, x.Start())
  {
  }

  // The kernel leaves the outer faces of the buffer it writes and closes every dry face.
  lemma MomentumIsWalled(b: Basin, z: Grid, m1: Grid, m2: Grid, n1: Grid, n2: Grid)
    requires b.Valid() && b.Shaped(z) && b.Shaped(m1) && b.Shaped(m2) && b.Shaped(n1) && b.Shaped(n2)
    requires StillEdges(b, m2, n2)
    ensures Walled(b, MomentumMGrid(b, z, m1, m2), MomentumNGrid(b, z, n1, n2))
  {
    var m, n := MomentumMGrid(b, z, m1, m2), MomentumNGrid(b, z, n1, n2);
    assert forall j :: 0 <= j < b.ja ==> m[0][j] == m2[0][j];
    var last := b.ia - 1;
    assert forall j :: 0 <= j < b.ja ==> m[last][j] == m2[last][j];
  }

  lemma StepKeepsWalls(x: Setup, k: nat, s: Levels)
    requires x.Valid() && x.Fit(s) && 1 <= k && Walls(x, s)
    ensures Walls(x, x.Step(k, s))
  {
    MomentumIsWalled(x.b, x.Surface(s), s.m1, s.m2, s.n1, s.n2);
  }

  // ---------- Runs ----------

  // Entry k of a run: the start, or one step on from the entry before.
  ghost predicate Linked(x: Setup, run: seq<Levels>, k: nat)
    requires x.Valid() && k < |run|
  {
    x.Fit(run[k]) && if k == 0 then run[k] == x.Start() else x.Fit(run[k - 1]) && run[k] == x.Step(k, run[k - 1])
  }

  // A run of any length.
  ghost predicate IsRun(x: Setup, run: seq<Levels>)
    requires x.Valid()
  {
    forall k :: 0 <= k < |run| ==> Linked(x, run, k)
  }

  lemma {:induction false} RunsAgree(x: Setup, run: seq<Levels>, k: nat)
    requires x.Valid() && IsRun(x, run) && k < |run|
    ensures run[k] == x.After(k)
    decreases k
  {
    assert Linked(x, run, k);
    if k == 0 {
    } else {
      RunsAgree(x, run, k - 1);
    }
  }

  // The run of k steps.
  ghost function RunOf(x: Setup, k: nat): (run: seq<Levels>)
    requires x.Valid()
    ensures |run| == k + 1 && IsRun(x, run)
    decreases k
  {
    if k == 0 then [x.Start()] else Extended(x, RunOf(x, k - 1))
  }

  ghost function Extended(x: Setup, run: seq<Levels>): (longer: seq<Levels>)
    requires x.Valid() && IsRun(x, run) && 0 < |run|
    ensures |longer| == |run| + 1 && IsRun(x, longer)
  {
    ExtendedRun(x, run);
    run + [x.Step(|run|, run[|run| - 1])]
  }

  lemma ExtendedRun(x: Setup, run: seq<Levels>)
    requires x.Valid() && IsRun(x, run) && 0 < |run|
    ensures x.Fit(run[|run| - 1]) && IsRun(x, run + [x.Step(|run|, run[|run| - 1])])
  {
    assert Linked(x, run, |run| - 1);
    var longer := run + [x.Step(|run|, run[|run| - 1])];
    forall k | 0 <= k < |longer|
      ensures Linked(x, longer, k)
    {
      assert k < |run| ==> Linked(x, run, k);
    }
  }

  lemma RunStep(x: Setup, run: seq<Levels>, k: nat)
    requires x.Valid() && IsRun(x, run) && k + 1 < |run|
    ensures x.Fit(run[k]) && run[k + 1] == x.Step(k + 1, run[k])
  {
    assert Linked(x, run, k + 1);
  }

  lemma {:induction false} RunIsWalled(x: Setup, run: seq<Levels>, k: nat)
    requires x.Valid() && IsRun(x, run) && k < |run|
    ensures x.Fit(run[k]) && Walls(x, run[k])
    decreases k
  {
    assert Linked(x, run, k);
    if k == 0 {
      StartIsWalled(x);
    } else {
      RunIsWalled(x, run, k - 1);
      StepKeepsWalls(x, k, run[k - 1]);
    }
  }

  // Whatever the basin and surface, every continuity step of the run keeps the volume
  // over the water up to the flush threshold.
  lemma RunConservesVolume(x: Setup, run: seq<Levels>, k: nat, s: Levels)
    requires x.Valid() && IsRun(x, run) && k < |run| && s == run[k]
    ensures x.Fit(s)
    ensures Abs(Volume(x.b, MassGrid(x.b, s.z1, s.z2, s.m1, s.n1)) - Volume(x.b, s.z1)) <= x.b.flush * Weight(x.b)
  {
    RunIsWalled(x, run, k);
    WalledStepConserves(x, s);
  }

  lemma WalledStepConserves(x: Setup, s: Levels)
    requires x.Valid() && x.Fit(s) && Walls(x, s)
    ensures Abs(Volume(x.b, MassGrid(x.b, s.z1, s.z2, s.m1, s.n1)) - Volume(x.b, s.z1)) <= x.b.flush * Weight(x.b)
  {
    VolumeIsConserved(x.b, s.z1, s.z2, s.m1, s.n1);
  }

  // ---------- What a step does to the water ----------

  // One step of the model. Off the open edges the level of a wet cell falls by its
  // outflow and land stays at zero; at an open edge the level obeys the radiation law of
  // the momentum before the step; the new momentum is driven by the slope of the new
  // surface and none crosses land; and the old levels are kept in the other buffers.
  ghost predicate StepObeys(x: Setup, s: Levels, t: Levels)
    requires x.Valid() && x.Fit(s) && x.Fit(t)
  {
    && (forall i, j :: 1 <= i < x.b.ia && 1 <= j < x.b.ja ==> SurfaceObeys(x.b, s, t.z1, i, j))
    && (forall i, j :: 1 <= i < x.b.ia - 1 && 1 <= j < x.b.ja ==> MomentumMObeys(x.b, s.m1, t, i, j))
    && (forall i, j :: 1 <= i < x.b.ia && 1 <= j < x.b.ja - 1 ==> MomentumNObeys(x.b, s.n1, t, i, j))
    && t.z2 == s.z1 && t.m2 == s.m1 && t.n2 == s.n1
  }

  ghost predicate SurfaceObeys(b: Basin, s: Levels, z: Grid, i: int, j: int)
    requires b.Valid() && b.Shaped(s.z1) && b.Shaped(s.m1) && b.Shaped(s.n1) && b.Shaped(z) && 1 <= i < b.ia && 1 <= j < b.ja
  {
    if OnOpenEdge(b, i, j) && 0.0 <= b.h[i][j] then
      if (i == 1 || i == b.ia - 1) && j < b.ja - 1 then
        Radiates(b, z[i][j], i, j, (s.n1[i][j] + s.n1[i][j - 1]) / 2.0, if i == 1 then s.m1[1][j] else -s.m1[i - 1][j])
      else
        Radiates(b, z[i][j], i, j, (s.m1[i][j] + s.m1[i - 1][j]) / 2.0, if j == 1 then s.n1[i][1] else -s.n1[i][j - 1])
    else if 0.0 < b.h[i][j] then FallsByOutflow(b, s.z1[i][j], z[i][j], s.m1, s.n1, i, j)
    else z[i][j] == 0.0
  }

  ghost predicate MomentumMObeys(b: Basin, m: Grid, t: Levels, i: int, j: int)
    requires b.Valid() && b.Shaped(m) && b.Shaped(t.m1) && b.Shaped(t.z1) && 1 <= i < b.ia - 1 && 1 <= j < b.ja
  {
    if 0.0 < b.h[i][j] && 0.0 < b.h[i + 1][j] then
      0.0 < b.xx[i][j] ==> DrivenDownhill(m[i][j], t.m1[i][j], b.xx[i][j], t.z1[i + 1][j] - t.z1[i][j], b.flush)
    else t.m1[i][j] == 0.0
  }

  ghost predicate MomentumNObeys(b: Basin, n: Grid, t: Levels, i: int, j: int)
    requires b.Valid() && b.Shaped(n) && b.Shaped(t.n1) && b.Shaped(t.z1) && 1 <= i < b.ia && 1 <= j < b.ja - 1
  {
    if 0.0 < b.h[i][j] && 0.0 < b.h[i][j + 1] then
      0.0 < b.yy[i][j] ==> DrivenDownhill(n[i][j], t.n1[i][j], b.yy[i][j], t.z1[i][j + 1] - t.z1[i][j], b.flush)
    else t.n1[i][j] == 0.0
  }

  lemma NewSurfaceObeys(x: Setup, s: Levels, i: int, j: int)
    requires x.Valid() && x.Fit(s) && TrueRoot(x.b) && 1 <= i < x.b.ia && 1 <= j < x.b.ja
    ensures SurfaceObeys(x.b, s, x.Surface(s), i, j)
  {
    var b, z := x.b, MassGrid(x.b, s.z1, s.z2, s.m1, s.n1);
    assert x.Surface(s)[i][j] == b.BoutAt(z, s.m1, s.n1, i, j);
    if OnOpenEdge(b, i, j) && 0.0 <= b.h[i][j] {
      if (i == 1 || i == b.ia - 1) && j < b.ja - 1 {
        RowEdgeRadiates(b, z, s.m1, s.n1, i, j);
      } else {
        ColumnEdgeRadiates(b, z, s.m1, s.n1, i, j);
      }
    } else {
      OthersKeep(b, z, s.m1, s.n1, i, j);
      if 0.0 < b.h[i][j] {
        WetCellFalls(b, s.z1, s.z2, s.m1, s.n1, i, j);
      }
    }
  }

  lemma NewMObeys(x: Setup, k: nat, s: Levels, t: Levels, i: int, j: int)
    requires x.Valid() && x.Fit(s) && 1 <= k && t == x.Step(k, s) && 1 <= i < x.b.ia - 1 && 1 <= j < x.b.ja
    ensures MomentumMObeys(x.b, s.m1, t, i, j)
  {
    var b, z := x.b, x.Surface(s);
    assert t.m1[i][j] == b.MomentumM(z, s.m1, s.m2, i, j);
    if 0.0 < b.h[i][j] && 0.0 < b.h[i + 1][j] && 0.0 < b.xx[i][j] {
      FaceAlongI(b, z, s.m1, s.m2, i, j);
    }
  }

  lemma NewNObeys(x: Setup, k: nat, s: Levels, t: Levels, i: int, j: int)
    requires x.Valid() && x.Fit(s) && 1 <= k && t == x.Step(k, s) && 1 <= i < x.b.ia && 1 <= j < x.b.ja - 1
    ensures MomentumNObeys(x.b, s.n1, t, i, j)
  {
    var b, z := x.b, x.Surface(s);
    assert t.n1[i][j] == b.MomentumN(z, s.n1, s.n2, i, j);
    if 0.0 < b.h[i][j] && 0.0 < b.h[i][j + 1] && 0.0 < b.yy[i][j] {
      FaceAlongJ(b, z, s.n1, s.n2, i, j);
    }
  }

  // Every step of every run obeys these laws.
  lemma RunObeysLaws(x: Setup, run: seq<Levels>, k: nat)
    requires x.Valid() && IsRun(x, run) && k + 1 < |run| && TrueRoot(x.b)
    ensures x.Fit(run[k]) && x.Fit(run[k + 1]) && StepObeys(x, run[k], run[k + 1])
  {
    RunStep(x, run, k);
    var s, t := run[k], run[k + 1];
    forall i, j | 1 <= i < x.b.ia && 1 <= j < x.b.ja
      ensures SurfaceObeys(x.b, s, t.z1, i, j)
    {
      NewSurfaceObeys(x, s, i, j);
    }
    forall i, j | 1 <= i < x.b.ia - 1 && 1 <= j < x.b.ja
      ensures MomentumMObeys(x.b, s.m1, t, i, j)
    {
      NewMObeys(x, k + 1, s, t, i, j);
    }
    forall i, j | 1 <= i < x.b.ia && 1 <= j < x.b.ja - 1
      ensures MomentumNObeys(x.b, s.n1, t, i, j)
    {
      NewNObeys(x, k + 1, s, t, i, j);
    }
  }

  // A run starts from the deformed surface, still and with nothing sampled.
  lemma RunStartsStill(x: Setup, run: seq<Levels>)
    requires x.Valid() && IsRun(x, run) && run != []
    ensures x.Fit(run[0]) && run[0].z1 == x.surface && run[0].gauges == []
    ensures forall i, j :: 0 <= i < x.b.ia && 0 <= j < x.b.ja ==>
              run[0].m1[i][j] == run[0].n1[i][j] == run[0].zmax[i][j] == 0.0
  {
    assert Linked(x, run, 0);
  }

  // ---------- Gauges and maximum ----------

  function Samples(k: nat): nat {
    (k + KD - 1) / KD
  }

  // Every KD steps one more sample is taken.
  lemma OneMoreSample(k: nat)
    requires 1 <= k
    ensures (k - 1) % KD == 0 ==> Samples(k) == Samples(k - 1) + 1 && KD * Samples(k - 1) + 1 == k
    ensures (k - 1) % KD != 0 ==> Samples(k) == Samples(k - 1)
  {
  }

  lemma StepSamples(x: Setup, k: nat, s: Levels, t: Levels)
    requires x.Valid() && x.Fit(s) && 1 <= k && t == x.Step(k, s)
    ensures (k - 1) % KD == 0 ==> t.gauges == s.gauges + [x.Taken(k - 1, t.z1)]
    ensures (k - 1) % KD != 0 ==> t.gauges == s.gauges
    ensures forall i, j :: 0 <= i < x.b.ia && 0 <= j < x.b.ja ==>
              t.zmax[i][j] == if (k - 1) % KD == 0 then Larger(s.zmax[i][j], t.z1[i][j]) else s.zmax[i][j]
  {
  }

  // Row r says r minutes, and for each gauge the height of its cell after step KD * r + 1.
  ghost predicate RowIs(x: Setup, run: seq<Levels>, row: Sample, r: nat)
    requires x.Valid()
  {
    && KD * r + 1 < |run| && x.Fit(run[KD * r + 1])
    && row.minutes == r as real && |row.heights| == |x.points|
    && forall g :: 0 <= g < |x.points| ==> row.heights[g] == run[KD * r + 1].z1[x.points[g].0][x.points[g].1]
  }

  // A sample taken at a multiple of KD is a row: 20 steps of 3 seconds are a minute.
  lemma TakenIsRow(x: Setup, run: seq<Levels>, r: nat)
    requires x.Valid() && KD * r + 1 < |run| && x.Fit(run[KD * r + 1])
    ensures RowIs(x, run, x.Taken(KD * r, run[KD * r + 1].z1), r)
  {
    assert (KD * r) as real * DT / 60.0 == r as real;
  }

  // One row for each multiple of KD below k, in order, and no other.
  lemma {:induction false} GaugeRows(x: Setup, run: seq<Levels>, k: nat)
    requires x.Valid() && IsRun(x, run) && k < |run|
    ensures |run[k].gauges| == Samples(k)
    ensures forall r :: 0 <= r < Samples(k) ==> RowIs(x, run, run[k].gauges[r], r)
    decreases k
  {
    assert Linked(x, run, k);
    if k == 0 {
    } else {
      GaugeRows(x, run, k - 1);
      OneMoreSample(k);
      StepSamples(x, k, run[k - 1], run[k]);
      if (k - 1) % KD == 0 {
        TakenIsRow(x, run, Samples(k - 1));
      }
    }
  }

  lemma FullRunHasItsRows(x: Setup, run: seq<Levels>)
    requires x.Valid() && IsRun(x, run) && |run| == KE + 1
    ensures |run[|run| - 1].gauges| == 1681
  {
    GaugeRows(x, run, |run| - 1);
  }

  // Height h is cell (i, j) of the surface sample r saw.
  ghost predicate Seen(x: Setup, run: seq<Levels>, i: int, j: int, h: real, r: nat)
    requires x.Valid() && 0 <= i < x.b.ia && 0 <= j < x.b.ja
  {
    KD * r + 1 < |run| && x.Fit(run[KD * r + 1]) && h == run[KD * r + 1].z1[i][j]
  }

  // The maximum grid is the maximum of zero and the sampled surfaces, in every cell.
  lemma {:induction false} MaximumOfSamples(x: Setup, run: seq<Levels>, k: nat, i: int, j: int) returns (top: nat)
    requires x.Valid() && IsRun(x, run) && k < |run| && 0 <= i < x.b.ia && 0 <= j < x.b.ja
    ensures x.Fit(run[k]) && 0.0 <= run[k].zmax[i][j]
    ensures forall h, r: nat :: r < Samples(k) && Seen(x, run, i, j, h, r) ==> h <= run[k].zmax[i][j]
    ensures run[k].zmax[i][j] == 0.0 || (top < Samples(k) && Seen(x, run, i, j, run[k].zmax[i][j], top))
    decreases k
  {
    assert Linked(x, run, k);
    if k == 0 {
      top := 0;
    } else {
      top := MaximumOfSamples(x, run, k - 1, i, j);
      StepSamples(x, k, run[k - 1], run[k]);
      if (k - 1) % KD == 0 {
        var r := (k - 1) / KD;
        assert Samples(k) == r + 1 && Samples(k - 1) == r && KD * r + 1 == k;
        if run[k - 1].zmax[i][j] < run[k].z1[i][j] {
          top := r;
        }
      } else {
        assert Samples(k) == Samples(k - 1);
      }
    }
  }
}
