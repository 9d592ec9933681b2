// What the settled order means once the queue is empty: which nodes have a time,
// and how that time compares with paths over the untouched slowness.
module ArrivalTheory {
  import opened Ocean
  import opened Wavefront

  ghost predicate SettledBy(order: seq<Arrival>, v: int, time: real) {
    exists j :: 0 <= j < |order| && order[j].node == v && order[j].time <= time
  }

  // The equations of a finished run. A node's time is a seed's time or that of a
  // segment from an earlier node; and every segment whose blocking cells were
  // open when its start was settled bounds the time of its end.
  ghost predicate Solved(sea: Sea, seeds: seq<Seed>, order: seq<Arrival>)
    requires sea.Valid()
  {
    && (forall i :: 0 <= i < |order| ==> sea.Water(order[i].node))
    && InOrder(order)
    && (forall i :: 0 <= i < |order| ==> Earned(sea, seeds, order[..i], order[i].node, order[i].time))
    && (forall s :: s in seeds ==> SettledBy(order, s.node, s.time))
    && (forall i, k :: 0 <= i < |order| && 0 <= k < NEIGHBOURS ==> OfferTaken(sea, order, i, k))
  }

  ghost predicate OfferTaken(sea: Sea, order: seq<Arrival>, i: int, k: int)
    requires sea.Valid() && 0 <= i < |order| && sea.Water(order[i].node) && 0 <= k < NEIGHBOURS
  {
    var p := order[i].node;
    ClearAfter(sea, order[..i], p, k) ==> SettledBy(order, sea.At(p, k), order[i].time + sea.Cost(p, k))
  }

  lemma EmptyQueueIsSolved(sea: Sea, seeds: seq<Seed>, h: Horizon, f: Front)
    requires sea.Valid() && Inv(sea, seeds, h, f, NEIGHBOURS)
    requires forall v :: 0 <= v < |f.key| ==> !Queued(f, v)
    ensures Solved(sea, seeds, f.order)
  {
    forall i, k | 0 <= i < |f.order| && 0 <= k < NEIGHBOURS
      ensures OfferTaken(sea, f.order, i, k)
    {
      assert OfferMet(sea, f, i, k);
    }
    forall s | s in seeds
      ensures SettledBy(f.order, s.node, s.time)
    {
      assert ArrivesBy(f, s.node, s.time);
    }
  }

  // ---------- Flood fill ----------

  // v is one cell away from u, diagonals included.
  ghost predicate Beside(sea: Sea, u: int, v: int) {
    exists s: Step :: s.Unit() && v == u + s.Offset(sea.width)
  }

  ghost predicate WaterPath(sea: Sea, path: seq<int>) {
    && path != []
    && (forall i :: 0 <= i < |path| ==> sea.Water(path[i]))
    && (forall i :: 1 <= i < |path| ==> Beside(sea, path[i - 1], path[i]))
  }

  ghost predicate PathBetween(sea: Sea, path: seq<int>, u: int, v: int) {
    WaterPath(sea, path) && path[0] == u && path[|path| - 1] == v
  }

  // v is water joined to a seed by an 8-connected chain of water cells.
  ghost predicate Joined(sea: Sea, seeds: seq<Seed>, v: int) {
    exists s, path :: s in seeds && PathBetween(sea, path, s.node, v)
  }

  // A clear segment's blocking cells hold a water path to its end.
  lemma SegmentFollowsWater(sea: Sea, p: int, k: int) returns (path: seq<int>)
    requires sea.Valid() && sea.Water(p) && 0 <= k < NEIGHBOURS && sea.Clear(p, k)
    ensures PathBetween(sea, path, p, sea.At(p, k))
  {
    var st := sea.stencil;
    assert st.RowValid(k);
    var chain :| st.IsChain(chain, k);
    path := [p] + seq(|chain|, i requires 0 <= i < |chain| => sea.At(p, chain[i]));
    forall i | 1 <= i < |path|
      ensures Beside(sea, path[i - 1], path[i])
    {
      var c := st.cells[chain[i - 1]];
      var step := if i == 1 then c else c.Minus(st.cells[chain[i - 2]]);
      assert step.Unit();
      var before := if i == 1 then Step(0, 0) else st.cells[chain[i - 2]];
      OffsetsAdd(before, step, sea.width);
      assert path[i] == path[i - 1] + step.Offset(sea.width);
    }
  }

  lemma OffsetsAdd(a: Step, d: Step, width: nat)
    ensures Step(a.di + d.di, a.dj + d.dj).Offset(width) == a.Offset(width) + d.Offset(width)
  {
  }

  lemma PathsJoin(sea: Sea, a: seq<int>, b: seq<int>, u: int, v: int, w: int)
    requires PathBetween(sea, a, u, v) && PathBetween(sea, b, v, w)
    ensures PathBetween(sea, a + b[1..], u, w)
  {
    var c := a + b[1..];
    forall i | 1 <= i < |c|
      ensures Beside(sea, c[i - 1], c[i])
    {
      if i < |a| {
        assert Beside(sea, a[i - 1], a[i]);
      } else {
        assert Beside(sea, b[i - |a|], b[i - |a| + 1]);
      }
    }
  }

  lemma {:induction false} SettledIsJoined(sea: Sea, seeds: seq<Seed>, order: seq<Arrival>, i: int)
    requires sea.Valid() && Solved(sea, seeds, order) && 0 <= i < |order|
    ensures Joined(sea, seeds, order[i].node)
    decreases i
  {
    var v := order[i].node;
    if Seed(v, order[i].time) in seeds {
      assert PathBetween(sea, [v], Seed(v, order[i].time).node, v);
    } else {
      var j, k :| 0 <= j < |order[..i]| && Leads(sea, order[..i], j, k, v, order[i].time);
      SettledIsJoined(sea, seeds, order, j);
      var u := order[j].node;
      var s, path :| s in seeds && PathBetween(sea, path, s.node, u);
      var more := SegmentFollowsWater(sea, u, k);
      PathsJoin(sea, path, more, s.node, u, v);
    }
  }

  // A water cell beside a settled node is settled, no later than the unit segment
  // from that node arrives.
  lemma UnitStepIsTaken(sea: Sea, seeds: seq<Seed>, order: seq<Arrival>, i: int, k: int)
    requires sea.Valid() && Solved(sea, seeds, order) && 0 <= i < |order| && 0 <= k < 8
    requires sea.Water(sea.At(order[i].node, k))
    ensures sea.Clear(order[i].node, k)
    ensures SettledBy(order, sea.At(order[i].node, k), order[i].time + sea.Cost(order[i].node, k))
  {
    var p := order[i].node;
    var q := sea.At(p, k);
    assert sea.stencil.blocks[k] == [k];
    assert sea.Clear(p, k);
    sea.CostIsNonNegative(p, k);
    if SettledIn(order[..i], q) {
      var j :| 0 <= j < i && order[..i][j].node == q;
      assert order[j].node == q && Before(order[j].time, order[j].rank, order[i].time, order[i].rank);
    } else {
      assert OfferTaken(sea, order, i, k);
    }
  }

  lemma UnitDirection(sea: Sea, u: int, v: int) returns (k: int)
    requires sea.Valid() && Beside(sea, u, v)
    ensures 0 <= k < 8 && sea.At(u, k) == v
  {
    var step: Step :| step.Unit() && v == u + step.Offset(sea.width);
    assert step in sea.stencil.cells[..8];
    k :| 0 <= k < 8 && sea.stencil.cells[..8][k] == step;
  }

  // Water beside a settled node is settled.
  lemma NextIsSettled(sea: Sea, seeds: seq<Seed>, order: seq<Arrival>, u: int, v: int)
    requires sea.Valid() && Solved(sea, seeds, order) && SettledIn(order, u) && sea.Water(v) && Beside(sea, u, v)
    ensures SettledIn(order, v)
  {
    var i :| 0 <= i < |order| && order[i].node == u;
    var k := UnitDirection(sea, u, v);
    UnitStepIsTaken(sea, seeds, order, i, k);
  }

  lemma SeedIsSettled(sea: Sea, seeds: seq<Seed>, order: seq<Arrival>, s: Seed)
    requires sea.Valid() && Solved(sea, seeds, order) && s in seeds
    ensures SettledIn(order, s.node)
  {
    assert SettledBy(order, s.node, s.time);
  }

  lemma {:induction false} JoinedIsSettled(sea: Sea, seeds: seq<Seed>, order: seq<Arrival>, path: seq<int>)
    requires sea.Valid() && Solved(sea, seeds, order)
    requires WaterPath(sea, path) && exists s :: s in seeds && s.node == path[0]
    ensures SettledIn(order, path[|path| - 1])
    decreases |path|
  {
    var n := |path| - 1;
    if n == 0 {
      var s :| s in seeds && s.node == path[0];
      SeedIsSettled(sea, seeds, order, s);
    } else {
      JoinedIsSettled(sea, seeds, order, path[..n]);
      NextIsSettled(sea, seeds, order, path[n - 1], path[n]);
    }
  }

  // The nodes with a time are exactly the water joined to a seed.
  lemma FloodFill(sea: Sea, seeds: seq<Seed>, order: seq<Arrival>, v: int)
    requires sea.Valid() && Solved(sea, seeds, order)
    ensures SettledIn(order, v) <==> Joined(sea, seeds, v)
  {
    if SettledIn(order, v) {
      var i :| 0 <= i < |order| && order[i].node == v;
      SettledIsJoined(sea, seeds, order, i);
    }
    if Joined(sea, seeds, v) {
      var s, path :| s in seeds && PathBetween(sea, path, s.node, v);
      JoinedIsSettled(sea, seeds, order, path);
    }
  }

  ghost function WaterCells(sea: Sea): set<int> {
    set v | 0 <= v < |sea.slow| && sea.Water(v)
  }

  // The water no chain of water cells joins to a seed.
  ghost function Cut(sea: Sea, seeds: seq<Seed>): set<int> {
    set v | v in WaterCells(sea) && !Joined(sea, seeds, v)
  }

  // `water - settled` counts the water outside the seeds' components.
  lemma UnreachedCount(sea: Sea, seeds: seq<Seed>, order: seq<Arrival>)
    requires sea.Valid() && Solved(sea, seeds, order)
    ensures |WaterCells(sea)| - |order| == |Cut(sea, seeds)|
  {
    var reached := NodesOf(order);
    var out := Cut(sea, seeds);
    forall v
      ensures v in reached <==> v in WaterCells(sea) && Joined(sea, seeds, v)
    {
      FloodFill(sea, seeds, order, v);
    }
    assert WaterCells(sea) == reached + out && reached !! out;
  }

  lemma {:induction false} NodesOf(order: seq<Arrival>) returns (nodes: set<int>)
    requires InOrder(order)
    ensures |nodes| == |order| && forall v :: v in nodes <==> SettledIn(order, v)
  {
    if order == [] {
      nodes := {};
    } else {
      var n := |order| - 1;
      var rest := NodesOf(order[..n]);
      nodes := rest + {order[n].node};
      assert !SettledIn(order[..n], order[n].node);
      forall v
        ensures v in nodes <==> SettledIn(order, v)
      {
        if SettledIn(order, v) {
          var i :| 0 <= i < |order| && order[i].node == v;
          if i < n {
            assert order[..n][i].node == v;
          }
        }
        if v in rest {
          var i :| 0 <= i < n && order[..n][i].node == v;
          assert order[i].node == v;
        }
      }
    }
  }

  // ---------- Times against paths ----------

  datatype Leg = Leg(from: int, dir: int)

  // A walk from a seed to `end` along segments that avoid land.
  ghost predicate Walk(sea: Sea, start: Seed, legs: seq<Leg>, end: int)
    requires sea.Valid()
  {
    if legs == [] then start.node == end && sea.Water(end)
    else
      var l := legs[|legs| - 1];
      && Walk(sea, start, legs[..|legs| - 1], l.from)
      && sea.Water(l.from) && 0 <= l.dir < NEIGHBOURS && sea.Clear(l.from, l.dir)
      && sea.At(l.from, l.dir) == end
  }

  // Its time, every segment taken at the original slowness.
  ghost function WalkTime(sea: Sea, start: Seed, legs: seq<Leg>, end: int): real
    requires sea.Valid() && Walk(sea, start, legs, end)
  {
    if legs == [] then start.time
    else
      var l := legs[|legs| - 1];
      WalkTime(sea, start, legs[..|legs| - 1], l.from) + sea.Cost(l.from, l.dir)
  }

  // Lower bound: a settled time is the time of some walk from a seed over segments
  // that avoid land, so it is at least the cheapest such walk.
  lemma {:induction false} TimeIsAWalk(sea: Sea, seeds: seq<Seed>, order: seq<Arrival>, i: int)
    returns (start: Seed, legs: seq<Leg>)
    requires sea.Valid() && Solved(sea, seeds, order) && 0 <= i < |order|
    ensures start in seeds && Walk(sea, start, legs, order[i].node)
    ensures WalkTime(sea, start, legs, order[i].node) == order[i].time
    decreases i
  {
    var v, time := order[i].node, order[i].time;
    if Seed(v, time) in seeds {
      start, legs := Seed(v, time), [];
    } else {
      var j, k :| 0 <= j < |order[..i]| && Leads(sea, order[..i], j, k, v, time);
      var before;
      start, before := TimeIsAWalk(sea, seeds, order, j);
      legs := before + [Leg(order[j].node, k)];
      assert legs[..|legs| - 1] == before;
    }
  }

  // No cell the leg crosses, its end aside, was settled before its start.
  ghost predicate Unobstructed(sea: Sea, order: seq<Arrival>, l: Leg)
    requires sea.Valid() && sea.Water(l.from) && 0 <= l.dir < NEIGHBOURS
  {
    assert sea.stencil.RowValid(l.dir);
    forall i, c :: 0 <= i < |order| && order[i].node == l.from && c in sea.stencil.blocks[l.dir] ==>
      sea.At(l.from, c) == sea.At(l.from, l.dir) || !SettledIn(order[..i], sea.At(l.from, c))
  }

  lemma LegIsTaken(sea: Sea, seeds: seq<Seed>, order: seq<Arrival>, i: int, l: Leg)
    requires sea.Valid() && Solved(sea, seeds, order) && 0 <= i < |order| && order[i].node == l.from
    requires 0 <= l.dir < NEIGHBOURS && sea.Clear(l.from, l.dir) && Unobstructed(sea, order, l)
    ensures SettledBy(order, sea.At(l.from, l.dir), order[i].time + sea.Cost(l.from, l.dir))
  {
    var q := sea.At(l.from, l.dir);
    sea.CostIsNonNegative(l.from, l.dir);
    if SettledIn(order[..i], q) {
      var j :| 0 <= j < i && order[..i][j].node == q;
      assert order[j].node == q && Before(order[j].time, order[j].rank, order[i].time, order[i].rank);
    } else {
      assert OfferTaken(sea, order, i, l.dir);
    }
  }

  // Upper bound: no walk of unobstructed segments arrives before the settled time.
  lemma {:induction false} WalksBoundTimes(sea: Sea, seeds: seq<Seed>, order: seq<Arrival>,
                                           start: Seed, legs: seq<Leg>, end: int)
    requires sea.Valid() && Solved(sea, seeds, order)
    requires start in seeds && Walk(sea, start, legs, end)
    requires forall n :: 0 <= n < |legs| ==>
               sea.Water(legs[n].from) && 0 <= legs[n].dir < NEIGHBOURS && Unobstructed(sea, order, legs[n])
    ensures SettledBy(order, end, WalkTime(sea, start, legs, end))
    decreases |legs|
  {
    if legs == [] {
    } else {
      var l := legs[|legs| - 1];
      WalksBoundTimes(sea, seeds, order, start, legs[..|legs| - 1], l.from);
      var i :| 0 <= i < |order| && order[i].node == l.from
        && order[i].time <= WalkTime(sea, start, legs[..|legs| - 1], l.from);
      LegIsTaken(sea, seeds, order, i, l);
    }
  }

  // A walk by single cells is unobstructed whatever was settled, so the time is at
  // most that of the cheapest 8-neighbour water walk.
  lemma UnitWalksBoundTimes(sea: Sea, seeds: seq<Seed>, order: seq<Arrival>, start: Seed, legs: seq<Leg>, end: int)
    requires sea.Valid() && Solved(sea, seeds, order)
    requires start in seeds && Walk(sea, start, legs, end)
    requires forall n :: 0 <= n < |legs| ==> 0 <= legs[n].dir < 8
    ensures SettledBy(order, end, WalkTime(sea, start, legs, end))
  {
    forall n | 0 <= n < |legs|
      ensures sea.Water(legs[n].from) && Unobstructed(sea, order, legs[n])
    {
      WalkStarts(sea, start, legs, end, n);
      assert sea.stencil.blocks[legs[n].dir] == [legs[n].dir];
    }
    WalksBoundTimes(sea, seeds, order, start, legs, end);
  }

  lemma {:induction false} WalkStarts(sea: Sea, start: Seed, legs: seq<Leg>, end: int, n: int)
    requires sea.Valid() && Walk(sea, start, legs, end) && 0 <= n < |legs|
    ensures sea.Water(legs[n].from)
    decreases |legs|
  {
    if n == |legs| - 1 {
    } else {
      WalkStarts(sea, start, legs[..|legs| - 1], legs[|legs| - 1].from, n);
    }
  }
}
