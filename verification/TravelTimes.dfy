// From a bathymetry grid and an epicenter to travel times: the wavefront's seeds, the
// propagation, and what the returned hours and count mean.
module TravelTimes {
  import opened Wrappers
  import opened Arithmetic
  import opened Ocean
  import opened Wavefront
  import opened ArrivalTheory
  import opened Propagation
  import opened StencilTable
  import opened SegmentCost
  import opened Epicenter
  import opened Padding
  import opened Seeding

  datatype Times = Times(hours: seq<seq<Float>>, unreached: int)

  // ---------- Hours ----------

  // Seconds in hours, with the correction for the stencil's bias.
  function InHours(seconds: real, bias: real): real {
    (1.0 / 3600.0) * seconds * bias
  }

  // A grid node's hours: its settled time, scaled; NaN on land and where nothing came.
  ghost predicate HoursAt(sea: Sea, seeds: seq<Seed>, order: seq<Arrival>, v: int, bias: real, hours: Float) {
    && (hours.NaN? <==> !Joined(sea, seeds, v))
    && forall i :: 0 <= i < |order| && order[i].node == v ==> hours == Num(InHours(order[i].time, bias))
  }

  ghost predicate AllHours(sea: Sea, seeds: seq<Seed>, order: seq<Arrival>, ny: nat, nx: nat, bias: real,
                           hours: seq<seq<Float>>)
  {
    && Rectangular(hours, ny, nx)
    && forall r, c :: 0 <= r < ny && 0 <= c < nx ==> HoursAt(sea, seeds, order, NodeAt(nx, r, c), bias, hours[r][c])
  }

  // How a final slowness cell is read back as hours.
  function CellHours(cell: Float, bias: real): Float {
    if cell.Open() then NaN else if cell.NaN? then NaN else Num(cell.value * bias)
  }

  lemma CellHoursMean(sea: Sea, seeds: seq<Seed>, order: seq<Arrival>, now: seq<Float>, v: int, bias: real)
    requires sea.Valid() && Solved(sea, seeds, order) && Written(sea.slow, now, order) && 0 <= v < |now|
    requires forall i :: 0 <= i < |order| ==> 0.0 <= order[i].time
    ensures HoursAt(sea, seeds, order, v, bias, CellHours(now[v], bias))
  {
    SettledCell(sea, order, now, v);
    HoursOfCell(order, v, now[v], bias);
    FloodFill(sea, seeds, order, v);
  }

  lemma HoursOfCell(order: seq<Arrival>, v: int, cell: Float, bias: real)
    requires SettledIn(order, v) <==> cell.Num? && !cell.Open()
    requires forall i :: 0 <= i < |order| && order[i].node == v ==> cell == Num((1.0 / 3600.0) * order[i].time)
    ensures CellHours(cell, bias).NaN? <==> !SettledIn(order, v)
    ensures forall i :: 0 <= i < |order| && order[i].node == v ==>
              CellHours(cell, bias) == Num(InHours(order[i].time, bias))
  {
  }

  // A final cell holds a time exactly when its node was settled, and that time.
  lemma SettledCell(sea: Sea, order: seq<Arrival>, now: seq<Float>, v: int)
    requires sea.Valid() && InOrder(order) && Written(sea.slow, now, order) && 0 <= v < |now|
    requires forall i :: 0 <= i < |order| ==> 0.0 <= order[i].time
    ensures SettledIn(order, v) <==> now[v].Num? && !now[v].Open()
    ensures forall i :: 0 <= i < |order| && order[i].node == v ==> now[v] == Num((1.0 / 3600.0) * order[i].time)
  {
    if SettledIn(order, v) {
      var i :| 0 <= i < |order| && order[i].node == v;
      assert now[order[i].node] == Num((1.0 / 3600.0) * order[i].time);
    } else {
      assert sea.slow[v].NaN? || sea.slow[v].Open();
    }
  }

  method CountWater(key: array<real>, ghost sea: Sea) returns (water: nat)
    requires sea.Valid() && key[..] == Unsettled(sea).key
    ensures water == |WaterCells(sea)|
  {
    water := 0;
    ghost var seen: set<int> := {};
    for v := 0 to key.Length
      invariant water == |seen| && forall u :: u in seen <==> 0 <= u < v && sea.Water(u)
    {
      assert key[v] == Unsettled(sea).key[v];
      if key[v] == UNREACHED {
        seen := seen + {v};
        water := water + 1;
      }
    }
    assert seen == WaterCells(sea);
  }

  // The source of a wave that starts at one node at time zero has no delay, and the
  // nodes with hours are those a chain of water cells joins to it.
  lemma OneSeedHours(sea: Sea, source: int, order: seq<Arrival>, v: int, bias: real, hours: Float)
    requires sea.Valid() && Solved(sea, [Seed(source, 0.0)], order) && sea.Water(source)
    requires forall i :: 0 <= i < |order| ==> 0.0 <= order[i].time
    requires HoursAt(sea, [Seed(source, 0.0)], order, v, bias, hours)
    ensures hours.Num? <==> exists path :: PathBetween(sea, path, source, v)
    ensures v == source ==> hours == Num(0.0)
  {
    var seeds := [Seed(source, 0.0)];
    if path :| PathBetween(sea, path, source, v) {
      assert seeds[0] in seeds && PathBetween(sea, path, seeds[0].node, v);
    }
    if v == source {
      assert seeds[0] in seeds;
      assert SettledBy(order, source, 0.0);
    }
  }

  lemma HourOfAnArrival(sea: Sea, seeds: seq<Seed>, order: seq<Arrival>, v: int, bias: real, hours: Float) returns (i: int)
    requires sea.Valid() && Solved(sea, seeds, order) && HoursAt(sea, seeds, order, v, bias, hours) && hours.Num?
    ensures 0 <= i < |order| && order[i].node == v && hours == Num(InHours(order[i].time, bias))
  {
    FloodFill(sea, seeds, order, v);
    i :| 0 <= i < |order| && order[i].node == v;
  }

  lemma SeedIsReached(sea: Sea, seeds: seq<Seed>, s: Seed)
    requires s in seeds && sea.Water(s.node)
    ensures Joined(sea, seeds, s.node)
  {
    assert PathBetween(sea, [s.node], s.node, s.node);
  }

  // ---------- The propagation ----------

  // From the seeds to the hours of every node and the count of water never reached.
  method Spread(inner: seq<seq<Float>>, ny: nat, nx: nat, stencil: Stencil, length: seq<seq<real>>,
                seeds: seq<Seed>, bias: real, ghost h: Horizon)
    returns (times: Times, ghost order: seq<Arrival>)
    requires Inputs(inner, ny, nx, stencil, length)
    requires SeaOf(inner, ny, nx, stencil, length).Valid()
    requires SeedsValid(SeaOf(inner, ny, nx, stencil, length), seeds)
    requires h.Holds(SeaOf(inner, ny, nx, stencil, length), seeds)
    ensures Solved(SeaOf(inner, ny, nx, stencil, length), seeds, order)
    ensures forall i :: 0 <= i < |order| ==> 0.0 <= order[i].time < UNREACHED
    ensures AllHours(SeaOf(inner, ny, nx, stencil, length), seeds, order, ny, nx, bias, times.hours)
    ensures times.unreached == |Cut(SeaOf(inner, ny, nx, stencil, length), seeds)|
  {
    var sea := SeaOf(inner, ny, nx, stencil, length);
    var slowness := new Float[|sea.slow|](v requires 0 <= v < |sea.slow| => sea.slow[v]);
    var key := new real[|sea.slow|](v requires 0 <= v < |sea.slow| => if sea.slow[v].NaN? then BLOCKED else UNREACHED);
    assert slowness[..] == sea.slow && key[..] == Unsettled(sea).key;
    var water := CountWater(key, sea);
    var settled;
    settled, order := Propagate(slowness, key, seeds, nx + 2 * PAD, stencil, length, sea, h);
    UnreachedCount(sea, seeds, order);
    GridIsHeld(inner, ny, nx, stencil, length);
    var hours := ReadHours(slowness, ny, nx, bias);
    HoursMean(sea, seeds, order, slowness[..], ny, nx, bias, hours);
    times := Times(hours, water - settled);
  }

  method ReadLine(slowness: array<Float>, ny: nat, nx: nat, bias: real, r: nat) returns (line: seq<Float>)
    requires r < ny && forall c :: 0 <= c < nx ==> 0 <= NodeAt(nx, r, c) < slowness.Length
    ensures |line| == nx && forall c :: 0 <= c < nx ==> line[c] == CellHours(slowness[NodeAt(nx, r, c)], bias)
  {
    line := [];
    for c := 0 to nx
      invariant |line| == c
      invariant forall d :: 0 <= d < c ==> line[d] == CellHours(slowness[NodeAt(nx, r, d)], bias)
    {
      line := line + [CellHours(slowness[NodeAt(nx, r, c)], bias)];
    }
  }

  // Every node of the grid is a cell of the padded array.
  predicate Holds(cells: int, ny: nat, nx: nat) {
    forall r, c :: 0 <= r < ny && 0 <= c < nx ==> 0 <= NodeAt(nx, r, c) < cells
  }

  ghost predicate ReadBack(now: seq<Float>, ny: nat, nx: nat, bias: real, hours: seq<seq<Float>>)
    requires Holds(|now|, ny, nx)
  {
    && Rectangular(hours, ny, nx)
    && forall r, c :: 0 <= r < ny && 0 <= c < nx ==> hours[r][c] == CellHours(now[NodeAt(nx, r, c)], bias)
  }

  method ReadHours(slowness: array<Float>, ny: nat, nx: nat, bias: real) returns (hours: seq<seq<Float>>)
    requires Holds(slowness.Length, ny, nx)
    ensures ReadBack(slowness[..], ny, nx, bias, hours)
  {
    hours := [];
    for r := 0 to ny
      invariant |hours| == r && forall q :: 0 <= q < r ==> |hours[q]| == nx
      invariant forall q, c :: 0 <= q < r && 0 <= c < nx ==> hours[q][c] == CellHours(slowness[NodeAt(nx, q, c)], bias)
    {
      var line := ReadLine(slowness, ny, nx, bias, r);
      hours := hours + [line];
    }
  }

  lemma GridIsHeld(inner: seq<seq<Float>>, ny: nat, nx: nat, stencil: Stencil, length: seq<seq<real>>)
    requires Inputs(inner, ny, nx, stencil, length)
    ensures Holds(|SeaOf(inner, ny, nx, stencil, length).slow|, ny, nx)
  {
    forall r, c | 0 <= r < ny && 0 <= c < nx
      ensures 0 <= NodeAt(nx, r, c) < |SeaOf(inner, ny, nx, stencil, length).slow|
    {
      PaddedAt(inner, ny, nx, stencil, length, r, c);
    }
  }

  lemma HoursMean(sea: Sea, seeds: seq<Seed>, order: seq<Arrival>, now: seq<Float>, ny: nat, nx: nat, bias: real,
                  hours: seq<seq<Float>>)
    requires sea.Valid() && Solved(sea, seeds, order) && Written(sea.slow, now, order)
    requires forall i :: 0 <= i < |order| ==> 0.0 <= order[i].time
    requires Holds(|now|, ny, nx) && ReadBack(now, ny, nx, bias, hours)
    ensures AllHours(sea, seeds, order, ny, nx, bias, hours)
  {
    forall r, c | 0 <= r < ny && 0 <= c < nx
      ensures HoursAt(sea, seeds, order, NodeAt(nx, r, c), bias, hours[r][c])
    {
      CellHoursMean(sea, seeds, order, now, NodeAt(nx, r, c), bias);
    }
  }

  // ---------- The solve ----------

  // The two ways to start the wavefront.
  datatype Seeder = NearestNode | AroundEpicenter

  // A grid of depths and what the solver computes from it: the speed of each cell, the
  // segments' lengths, and the sphere the seeds are measured on.
  datatype Chart = Chart(grid: Grid, depth: seq<seq<Float>>, speed: (int, real) -> real, length: seq<seq<real>>,
                         globe: Globe) {

    ghost predicate Valid() {
      && grid.Valid() && globe.Valid() && Rectangular(depth, grid.y.n, grid.x.n)
      && (forall r, d :: 0.0 < speed(r, d))
      && |length| == grid.y.n
      && (forall r :: 0 <= r < grid.y.n ==> |length[r]| == NEIGHBOURS)
      && (forall r, k :: 0 <= r < grid.y.n && 0 <= k < NEIGHBOURS ==> 0.0 <= length[r][k])
    }

    function Inner(): seq<seq<Float>>
      requires Valid()
    {
      InnerOf(depth, grid.y.n, grid.x.n, speed)
    }

    ghost function Waters(stencil: Stencil): Sea
      requires Valid()
    {
      SeaOf(Inner(), grid.y.n, grid.x.n, stencil, length)
    }

    // The solver's sea is this chart: every node lies where it should and is as slow as
    // its depth makes it, the padding is land, and the segments have the chart's lengths.
    ghost predicate Charted(stencil: Stencil)
      requires Valid()
    {
      var sea := Waters(stencil);
      && sea.width == grid.x.n + 2 * PAD && sea.ny == grid.y.n && |sea.slow| == (sea.ny + 2 * PAD) * sea.width
      && sea.stencil == stencil && sea.length == length
      && (forall r, c :: 0 <= r < grid.y.n && 0 <= c < grid.x.n ==> DepthAt(stencil, r, c))
      && (forall v :: 0 <= v < |sea.slow| && !sea.Inner(v) ==> sea.slow[v].NaN?)
    }

    ghost predicate DepthAt(stencil: Stencil, r: int, c: int)
      requires Valid() && 0 <= r < grid.y.n && 0 <= c < grid.x.n
    {
      var v := (r + PAD) * (grid.x.n + 2 * PAD) + c + PAD;
      0 <= v < |Waters(stencil).slow| && SlowAtDepth(Waters(stencil).slow[v], depth[r][c], r, speed)
    }

    lemma WatersAreCharted(stencil: Stencil)
      requires Valid() && stencil.Valid()
      ensures Charted(stencil)
    {
      WatersAreValid(stencil);
      forall r, c | 0 <= r < grid.y.n && 0 <= c < grid.x.n
        ensures DepthAt(stencil, r, c)
      {
        PaddedAt(Inner(), grid.y.n, grid.x.n, stencil, length, r, c);
      }
      forall v | 0 <= v < |Waters(stencil).slow| && !Waters(stencil).Inner(v)
        ensures Waters(stencil).slow[v].NaN?
      {
        assert Waters(stencil).slow[v] == Padded(Inner(), grid.y.n, grid.x.n, v);
      }
    }

    function East(lon: real): real {
      Wrapped(grid.x.low, lon)
    }

    // The epicenter lies on the grid, and not on an edge that it is rounded past.
    predicate Placeable(lon: real, lat: real) {
      grid.x.Inside(East(lon)) && grid.y.Inside(lat) && !grid.x.PastTheEnd(East(lon)) && !grid.y.PastTheEnd(lat)
    }

    lemma SourceIsANode(lon: real, lat: real)
      requires grid.Valid() && Placeable(lon, lat)
      ensures 0 <= Source(lon, lat).0 < grid.y.n && 0 <= Source(lon, lat).1 < grid.x.n
    {
      SourceIsLocated(grid, East(lon), lat);
    }

    function Source(lon: real, lat: real): (int, int)
      requires grid.Valid()
    {
      SourceOf(grid, East(lon), lat)
    }

    ghost function SourceNode(lon: real, lat: real): int
      requires grid.Valid()
    {
      NodeAt(grid.x.n, Source(lon, lat).0, Source(lon, lat).1)
    }

    predicate SourceIsWater(lon: real, lat: real)
      requires Valid() && Placeable(lon, lat)
    {
      SourceIsANode(lon, lat);
      depth[Source(lon, lat).0][Source(lon, lat).1].Open()
    }

    function Window(lon: real, lat: real): Window
      requires Valid()
    {
      Around(grid, Inner(), East(lon), lat, globe)
    }

    // The seeds each way to start gives.
    ghost predicate Starts(seeder: Seeder, lon: real, lat: real, seeds: seq<Seed>)
      requires Valid()
    {
      match seeder
      case NearestNode => seeds == [Seed(SourceNode(lon, lat), 0.0)]
      case AroundEpicenter => Window(lon, lat).Valid() && Window(lon, lat).AllSeeds(seeds)
    }

    // What a solve returns: the nodes with hours are the water joined to a seed, each at
    // its settled time, and the rest of the water is counted.
    ghost predicate Answers(stencil: Stencil, seeds: seq<Seed>, order: seq<Arrival>, bias: real, times: Times)
      requires Valid() && Waters(stencil).Valid()
    {
      && Solved(Waters(stencil), seeds, order)
      && (forall i :: 0 <= i < |order| ==> 0.0 <= order[i].time < UNREACHED)
      && AllHours(Waters(stencil), seeds, order, grid.y.n, grid.x.n, bias, times.hours)
      && times.unreached == |Cut(Waters(stencil), seeds)|
    }

    // No chain of segments reaches the sentinel times.
    ghost predicate InHorizon(stencil: Stencil, seeder: Seeder, lon: real, lat: real, h: Horizon)
      requires Valid()
    {
      Waters(stencil).Valid() ==>
        forall seeds :: Starts(seeder, lon, lat, seeds) ==> h.Holds(Waters(stencil), seeds)
    }

    // Near enough to the epicenter to be one of the default seeds.
    predicate SourceIsNear(lon: real, lat: real)
      requires Valid()
    {
      var (row, column) := Source(lon, lat);
      ColumnInRange(grid, East(lon), lat, globe, column) && MetresInRange(grid, East(lon), lat, globe, row, column)
    }

    lemma SourceIsSeeded(lon: real, lat: real, seeds: seq<Seed>)
      requires Valid() && Placeable(lon, lat) && SourceIsWater(lon, lat)
      requires Starts(AroundEpicenter, lon, lat, seeds)
      ensures IsSeed(seeds, SourceNode(lon, lat)) <==> SourceIsNear(lon, lat)
    {
      var w := Window(lon, lat);
      var (row, column) := Source(lon, lat);
      SourceIsANode(lon, lat);
      ColumnsAgree(grid, Inner(), East(lon), lat, globe, column);
      MetresAgree(grid, Inner(), East(lon), lat, globe, row, column);
      w.SourceStartsIffNear(row, column);
      w.SeedIsOfItsNode(seeds, row, column);
    }

    // Every hour is the metres of a walk over water from a seed, at a slowness between the
    // least and the greatest of the chart, in scaled seconds after that seed.
    lemma HoursAreOfAWalk(stencil: Stencil, seeds: seq<Seed>, order: seq<Arrival>, bias: real, times: Times, r: int,
                          c: int, low: real, high: real)
      returns (start: Seed, legs: seq<Leg>, seconds: real)
      requires Valid() && Waters(stencil).Valid() && Answers(stencil, seeds, order, bias, times)
      requires 0 <= r < grid.y.n && 0 <= c < grid.x.n && times.hours[r][c].Num? && AllBetween(Waters(stencil), low, high)
      ensures times.hours[r][c] == Num(InHours(seconds, bias))
      ensures IsOfAWalk(Waters(stencil), seeds, start, legs, NodeAt(grid.x.n, r, c), seconds, low, high)
    {
      var i := HourOfAnArrival(Waters(stencil), seeds, order, NodeAt(grid.x.n, r, c), bias, times.hours[r][c]);
      seconds := order[i].time;
      start, legs := SettledTimeIsMetres(Waters(stencil), seeds, order, i, low, high);
    }

    lemma NearestNodeAnswers(stencil: Stencil, lon: real, lat: real, order: seq<Arrival>, bias: real, times: Times)
      requires Valid() && stencil.Valid() && Placeable(lon, lat) && SourceIsWater(lon, lat) && Waters(stencil).Valid()
      requires Answers(stencil, [Seed(SourceNode(lon, lat), 0.0)], order, bias, times)
      ensures StartsAtOnce(lon, lat, times) && ReachesTheJoined(stencil, lon, lat, times)
    {
      var source := SourceNode(lon, lat);
      SourceIsANode(lon, lat);
      OpenCellsAreWater(stencil);
      forall r, c | 0 <= r < grid.y.n && 0 <= c < grid.x.n
        ensures times.hours[r][c].Num? <==> exists path :: PathBetween(Waters(stencil), path, source, NodeAt(grid.x.n, r, c))
        ensures (r, c) == Source(lon, lat) ==> times.hours[r][c] == Num(0.0)
      {
        OneSeedHours(Waters(stencil), source, order, NodeAt(grid.x.n, r, c), bias, times.hours[r][c]);
      }
    }

    lemma DefaultAnswers(stencil: Stencil, lon: real, lat: real, seeds: seq<Seed>, order: seq<Arrival>, bias: real,
                         times: Times)
      requires Valid() && stencil.Valid() && Placeable(lon, lat) && SourceIsWater(lon, lat) && Waters(stencil).Valid()
      requires Starts(AroundEpicenter, lon, lat, seeds) && Answers(stencil, seeds, order, bias, times)
      ensures SourceIsNear(lon, lat) ==> ReachesTheSource(lon, lat, times)
    {
      SourceIsANode(lon, lat);
      OpenCellsAreWater(stencil);
      if SourceIsNear(lon, lat) {
        SourceIsSeeded(lon, lat, seeds);
        var s :| s in seeds && s.node == SourceNode(lon, lat);
        SeedIsReached(Waters(stencil), seeds, s);
      }
    }

    predicate ReachesTheSource(lon: real, lat: real, times: Times)
      requires Valid() && Placeable(lon, lat) && Rectangular(times.hours, grid.y.n, grid.x.n)
    {
      SourceIsANode(lon, lat);
      times.hours[Source(lon, lat).0][Source(lon, lat).1].Num?
    }

    predicate StartsAtOnce(lon: real, lat: real, times: Times)
      requires Valid() && Placeable(lon, lat) && Rectangular(times.hours, grid.y.n, grid.x.n)
    {
      SourceIsANode(lon, lat);
      times.hours[Source(lon, lat).0][Source(lon, lat).1] == Num(0.0)
    }

    // The nodes with hours are those a chain of water cells joins to the source.
    ghost predicate ReachesTheJoined(stencil: Stencil, lon: real, lat: real, times: Times)
      requires Valid() && Rectangular(times.hours, grid.y.n, grid.x.n)
    {
      forall r, c :: 0 <= r < grid.y.n && 0 <= c < grid.x.n ==>
        (times.hours[r][c].Num? <==>
           exists path :: PathBetween(Waters(stencil), path, SourceNode(lon, lat), NodeAt(grid.x.n, r, c)))
    }

    lemma WatersAreValid(stencil: Stencil)
      requires Valid() && stencil.Valid()
      ensures Inputs(Inner(), grid.y.n, grid.x.n, stencil, length) && Waters(stencil).Valid()
    {
      PaddedSeaIsValid(Inner(), grid.y.n, grid.x.n, stencil, length);
    }

    lemma OpenCellsAreWater(stencil: Stencil)
      requires Valid() && stencil.Valid()
      ensures forall r, c :: 0 <= r < grid.y.n && 0 <= c < grid.x.n && depth[r][c].Open() ==>
                Inner()[r][c].Open() && Waters(stencil).Water(NodeAt(grid.x.n, r, c))
    {
      WatersAreValid(stencil);
      forall r, c | 0 <= r < grid.y.n && 0 <= c < grid.x.n && depth[r][c].Open()
        ensures Inner()[r][c].Open() && Waters(stencil).Water(NodeAt(grid.x.n, r, c))
      {
        PaddedAt(Inner(), grid.y.n, grid.x.n, stencil, length, r, c);
      }
    }
  }

  // Why there is no answer.
  ghost predicate RefusedFor(chart: Chart, lon: real, lat: real, why: Refusal)
    requires chart.Valid()
  {
    match why
    case SpansTheGlobe => false
    case LatitudeOutside => !chart.grid.y.Inside(lat)
    case LongitudeOutside => chart.grid.y.Inside(lat) && forall turns: int :: !chart.grid.x.Inside(Turned(lon, turns))
    case LandEpicenter => chart.Placeable(lon, lat) && !chart.SourceIsWater(lon, lat)
  }

  method LocateOn(chart: Chart, lon: real, lat: real) returns (located: Result<(int, int), Refusal>)
    requires chart.Valid()
    requires !chart.grid.x.PastTheEnd(chart.East(lon)) && !chart.grid.y.PastTheEnd(lat)
    ensures located.Ok? <==> chart.Placeable(lon, lat)
    ensures located.Ok? ==> located.value == chart.Source(lon, lat)
    ensures located.Err? ==> forall why :: located == Err(why) <==> RefusedFor(chart, lon, lat, why)
  {
    located := LocateSource(chart.grid, lon, lat);
    OnTheGridOrNot(chart, lon, lat);
    match located {
      case Ok(_) =>
      case Err(LatitudeOutside) =>
      case Err(LongitudeOutside) =>
      case Err(_) =>
    }
  }

  lemma OnTheGridOrNot(chart: Chart, lon: real, lat: real)
    requires chart.Valid()
    ensures RefusedFor(chart, lon, lat, LongitudeOutside) || RefusedFor(chart, lon, lat, LatitudeOutside) ==>
              !chart.Placeable(lon, lat)
    ensures !(RefusedFor(chart, lon, lat, LongitudeOutside) && RefusedFor(chart, lon, lat, LatitudeOutside))
  {
    var turns := -((lon - chart.grid.x.low) / 360.0).Floor;
    assert chart.East(lon) == Turned(lon, turns);
  }

  ghost predicate Answered(chart: Chart, stencil: Stencil, seeder: Seeder, lon: real, lat: real, bias: real, times: Times)
    requires chart.Valid()
  {
    && chart.Placeable(lon, lat) && chart.SourceIsWater(lon, lat)
    && chart.Waters(stencil).Valid() && chart.Charted(stencil)
    && (exists seeds, order ::
          chart.Starts(seeder, lon, lat, seeds) && chart.Answers(stencil, seeds, order, bias, times))
    && (seeder == NearestNode ==>
          chart.StartsAtOnce(lon, lat, times) && chart.ReachesTheJoined(stencil, lon, lat, times))
    && (seeder == AroundEpicenter && chart.SourceIsNear(lon, lat) ==> chart.ReachesTheSource(lon, lat, times))
  }

  method SeedsFor(chart: Chart, stencil: Stencil, seeder: Seeder, lon: real, lat: real, row: nat, column: nat)
    returns (seeds: seq<Seed>)
    requires chart.Valid() && stencil.Valid() && chart.Placeable(lon, lat) && chart.SourceIsWater(lon, lat)
    requires (row, column) == chart.Source(lon, lat)
    ensures chart.Starts(seeder, lon, lat, seeds) && SeedsValid(chart.Waters(stencil), seeds)
  {
    chart.SourceIsANode(lon, lat);
    chart.OpenCellsAreWater(stencil);
    if seeder == NearestNode {
      seeds := [Seed(NodeAt(chart.grid.x.n, row, column), 0.0)];
    } else {
      seeds := SeedAroundEpicenter(chart.grid, chart.Inner(), lon, lat, chart.globe, chart.Waters(stencil));
    }
  }

  // Times from the epicenter, or why there are none.
  method Solve(chart: Chart, stencil: Stencil, seeder: Seeder, lon: real, lat: real, bias: real, ghost h: Horizon)
    returns (result: Result<Times, Refusal>)
    requires chart.Valid() && stencil.Valid() && chart.InHorizon(stencil, seeder, lon, lat, h)
    requires !chart.grid.x.PastTheEnd(chart.East(lon)) && !chart.grid.y.PastTheEnd(lat)
    ensures forall why :: result == Err(why) <==> RefusedFor(chart, lon, lat, why)
    ensures result.Ok? ==> Answered(chart, stencil, seeder, lon, lat, bias, result.value)
  {
    var located := LocateOn(chart, lon, lat);
    if located.Err? {
      return Err(located.error);
    }
    var (row, column) := located.value;
    chart.SourceIsANode(lon, lat);
    if !chart.depth[row][column].Open() {
      return Err(LandEpicenter);
    }
    var times := SolveFrom(chart, stencil, seeder, lon, lat, row, column, bias, h);
    result := Ok(times);
  }

  method SolveFrom(chart: Chart, stencil: Stencil, seeder: Seeder, lon: real, lat: real, row: nat, column: nat,
                   bias: real, ghost h: Horizon)
    returns (times: Times)
    requires chart.Valid() && stencil.Valid() && chart.InHorizon(stencil, seeder, lon, lat, h)
    requires chart.Placeable(lon, lat) && chart.SourceIsWater(lon, lat) && (row, column) == chart.Source(lon, lat)
    ensures Answered(chart, stencil, seeder, lon, lat, bias, times)
  {
    chart.WatersAreValid(stencil);
    chart.WatersAreCharted(stencil);
    var seeds := SeedsFor(chart, stencil, seeder, lon, lat, row, column);
    ghost var order;
    times, order := Spread(chart.Inner(), chart.grid.y.n, chart.grid.x.n, stencil, chart.length, seeds, bias, h);
    assert chart.Starts(seeder, lon, lat, seeds) && chart.Answers(stencil, seeds, order, bias, times);
    if seeder == NearestNode {
      chart.NearestNodeAnswers(stencil, lon, lat, order, bias, times);
    } else {
      chart.DefaultAnswers(stencil, lon, lat, seeds, order, bias, times);
    }
  }

  // The solver over its own stencil table.
  method TimesFrom(chart: Chart, clientCompatible: bool, lon: real, lat: real, bias: real, ghost h: Horizon)
    returns (result: Result<Times, Refusal>)
    requires chart.Valid()
    requires chart.InHorizon(Table(), if clientCompatible then NearestNode else AroundEpicenter, lon, lat, h)
    requires !chart.grid.x.PastTheEnd(chart.East(lon)) && !chart.grid.y.PastTheEnd(lat)
    ensures result == Err(SpansTheGlobe) <==> Abs(chart.grid.x.high - chart.grid.x.low - 360.0) < 0.00000001
    ensures result != Err(SpansTheGlobe) ==> forall why :: result == Err(why) <==> RefusedFor(chart, lon, lat, why)
    ensures result.Ok? ==>
              Answered(chart, Table(), if clientCompatible then NearestNode else AroundEpicenter, lon, lat, bias, result.value)
  {
    if Abs(chart.grid.x.high - chart.grid.x.low - 360.0) < 0.00000001 {
      return Err(SpansTheGlobe);
    }
    TableIsValid();
    var seeder := if clientCompatible then NearestNode else AroundEpicenter;
    result := Solve(chart, Table(), seeder, lon, lat, bias, h);
  }
}
