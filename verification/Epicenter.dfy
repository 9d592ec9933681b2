// Placing an epicenter on the grid: longitudes are wrapped into the grid's turn,
// and the source is the node the wrapped epicenter rounds to.
module Epicenter {
  import opened Wrappers
  import opened Arithmetic

  datatype Refusal = SpansTheGlobe | LatitudeOutside | LongitudeOutside | LandEpicenter

  // n parallel grid lines between two edges: the outer lines lie on the edges, or half
  // a cell inside them when the grid is registered by pixels.
  datatype Axis = Axis(low: real, high: real, n: nat, byPixel: bool) {
    predicate Valid() {
      low < high && 2 <= n
    }

    function Offset(): real {
      if byPixel then 0.5 else 0.0
    }

    function Cells(): int {
      if byPixel then n else n - 1
    }

    function Inc(): real
      requires Valid()
    {
      (high - low) / Cells() as real
    }

    predicate Inside(at: real) {
      low <= at <= high
    }

    // Where `at` lies, in lines from the low edge.
    function Lines(at: real): real
      requires Valid()
    {
      IncIsPositive();
      (at - low) / Inc() - Offset()
    }

    // Line k counted from the low edge, and from the high edge.
    function FromLow(k: int): real
      requires Valid()
    {
      low + (k as real + Offset()) * Inc()
    }

    function FromHigh(k: int): real
      requires Valid()
    {
      high - (k as real + Offset()) * Inc()
    }

    lemma IncIsPositive()
      requires Valid()
      ensures 0.0 < Inc() && Inc() * Cells() as real == high - low
    {
      PositiveQuotient(high - low, Cells() as real);
      Quotient(high - low, Cells() as real);
    }

    // Both ways of counting name the same lines.
    lemma LinesAgree(k: int)
      requires Valid()
      ensures FromHigh(n - 1 - k) == FromLow(k)
    {
      IncIsPositive();
      assert (n - 1 - k) as real + Offset() == Cells() as real - (k as real + Offset());
      Distributes(Cells() as real, k as real + Offset(), Inc());
    }

    // The way to a line is the way counted in lines, times their spacing.
    lemma WayToLine(at: real, k: int)
      requires Valid()
      ensures at - FromLow(k) == (Lines(at) - k as real) * Inc()
    {
      IncIsPositive();
      Quotient(at - low, Inc());
      Distributes((at - low) / Inc(), k as real + Offset(), Inc());
    }

    // The line `at` rounds to is no farther than any other.
    lemma RoundedIsNearest(at: real, m: int)
      requires Valid()
      ensures Abs(at - FromLow(Round(Lines(at)))) <= Abs(at - FromLow(m))
    {
      var x := Lines(at);
      IncIsPositive();
      WayToLine(at, Round(x));
      WayToLine(at, m);
      RoundIsNearest(x, m);
      AbsKeepsOrder(x - Round(x) as real, x - m as real, Inc(), at - FromLow(Round(x)), at - FromLow(m));
    }

    // The one way to round past the last line: an even number of pixels, and a point on
    // the high edge, which ties between the last line and the one after it.
    predicate PastTheEnd(at: real) {
      byPixel && n % 2 == 0 && at == high
    }

    lemma RoundedIsALine(at: real)
      requires Valid() && Inside(at)
      ensures 0 <= Round(Lines(at)) <= n
      ensures Round(Lines(at)) == n <==> PastTheEnd(at)
    {
      IncIsPositive();
      var x := Lines(at) + Offset();
      Quotient(at - low, Inc());
      assert x * Inc() == at - low;
      OrderOfProducts(0.0, x, Inc());
      OrderOfProducts(x, Cells() as real, Inc());
      assert at != high ==> x != Cells() as real;
      RoundsWithin(Lines(at), n, byPixel);
    }
  }

  // Python's round: to the nearest integer, halves to the even one.
  function Round(x: real): int {
    var low := x.Floor;
    var part := x - low as real;
    if part < 0.5 then low
    else if 0.5 < part then low + 1
    else if low % 2 == 0 then low else low + 1
  }

  lemma RoundIsNearest(x: real, n: int)
    ensures Abs(x - Round(x) as real) <= 0.5
    ensures Abs(x - Round(x) as real) <= Abs(x - n as real)
  {
    var r := Round(x);
    assert -0.5 <= x - r as real <= 0.5;
    if n < r {
      assert n as real <= r as real - 1.0;
    } else if r < n {
      assert r as real + 1.0 <= n as real;
    }
  }

  lemma RoundsWithin(x: real, n: nat, byPixel: bool)
    requires if byPixel then -0.5 <= x <= n as real - 0.5 else 0.0 <= x <= n as real - 1.0
    ensures 0 <= Round(x) <= n
    ensures Round(x) == n <==> byPixel && n % 2 == 0 && x == n as real - 0.5
  {
  }

  datatype Grid = Grid(x: Axis, y: Axis) {
    predicate Valid() {
      x.Valid() && y.Valid()
    }

    // Longitude of a column and latitude of a row, row 0 the northern one. The last of
    // each is taken from the far edge.
    function Longitude(column: int): real
      requires Valid()
    {
      if column == x.n - 1 then x.FromHigh(0) else x.FromLow(column)
    }

    function Latitude(row: int): real
      requires Valid()
    {
      if row == y.n - 1 then y.FromLow(0) else y.FromHigh(row)
    }

    lemma NodesLieOnLines(row: int, column: int)
      requires Valid()
      ensures Longitude(column) == x.FromLow(column) && Latitude(row) == y.FromLow(y.n - 1 - row)
    {
      x.LinesAgree(x.n - 1);
      y.LinesAgree(y.n - 1 - row);
    }
  }

  // `lon` after whole turns east.
  function Turned(lon: real, turns: int): real {
    lon + 360.0 * turns as real
  }

  // `lon` brought within one turn east of the grid's western edge.
  function Wrapped(low: real, lon: real): real {
    Turned(lon, -((lon - low) / 360.0).Floor)
  }

  lemma WrappedIsInTurn(low: real, lon: real)
    ensures low <= Wrapped(low, lon) < low + 360.0
  {
    Quotient(lon - low, 360.0);
  }

  // Any two longitudes within one turn of the edge that differ by whole turns agree:
  // the wrapped longitude is the only one.
  lemma WrappedIsUnique(low: real, a: real, b: real, turns: int)
    requires low <= a < low + 360.0 && low <= b < low + 360.0
    requires a == Turned(b, turns)
    ensures a == b
  {
    assert -1.0 < turns as real < 1.0;
  }

  function TurnsIn(degrees: real): int {
    (degrees / 360.0).Floor
  }

  method WrapLongitude(low: real, lon: real) returns (wrapped: real)
    ensures wrapped == Wrapped(low, lon) && low <= wrapped < low + 360.0
  {
    wrapped := lon;
    ghost var turns := 0;
    while wrapped > low
      invariant wrapped == Turned(lon, turns)
      invariant wrapped <= low ==> low - 360.0 < wrapped || wrapped == lon
      decreases TurnsIn(wrapped - low)
    {
      wrapped := wrapped - 360.0;
      turns := turns - 1;
    }
    while wrapped < low
      invariant wrapped == Turned(lon, turns) && wrapped < low + 360.0
      decreases TurnsIn(low - wrapped)
    {
      wrapped := wrapped + 360.0;
      turns := turns + 1;
    }
    WrappedIsInTurn(low, lon);
    WrappedIsUnique(low, wrapped, Wrapped(low, lon), turns + ((lon - low) / 360.0).Floor);
  }

  // A wrapped longitude east of the grid has no other turn on it.
  lemma NoOtherTurn(x: Axis, lon: real, turns: int)
    requires x.Valid() && x.high < Wrapped(x.low, lon)
    ensures !x.Inside(Turned(lon, turns))
  {
    WrappedIsInTurn(x.low, lon);
    if x.Inside(Turned(lon, turns)) {
      WrappedIsUnique(x.low, Wrapped(x.low, lon), Turned(lon, turns), -((lon - x.low) / 360.0).Floor - turns);
    }
  }

  // (row, column) is the nearest node in latitude and in longitude to a point inside
  // the grid; on the north or east edge of an even number of pixels it is one past it.
  ghost predicate Located(g: Grid, lon: real, lat: real, row: int, column: int)
    requires g.Valid()
  {
    && g.x.Inside(lon) && g.y.Inside(lat)
    && (forall c: int :: Abs(lon - g.Longitude(column)) <= Abs(lon - g.Longitude(c)))
    && (forall r: int :: Abs(lat - g.Latitude(row)) <= Abs(lat - g.Latitude(r)))
    && -1 <= row < g.y.n && (row == -1 <==> g.y.PastTheEnd(lat))
    && 0 <= column <= g.x.n && (column == g.x.n <==> g.x.PastTheEnd(lon))
  }

  // Row and column of a wrapped epicenter.
  function SourceOf(g: Grid, lon: real, lat: real): (int, int)
    requires g.Valid()
  {
    (g.y.n - 1 - Round(g.y.Lines(lat)), Round(g.x.Lines(lon)))
  }

  lemma SourceIsLocated(g: Grid, lon: real, lat: real)
    requires g.Valid() && g.x.Inside(lon) && g.y.Inside(lat)
    ensures Located(g, lon, lat, SourceOf(g, lon, lat).0, SourceOf(g, lon, lat).1)
  {
    var (row, column) := SourceOf(g, lon, lat);
    g.x.RoundedIsALine(lon);
    g.y.RoundedIsALine(lat);
    forall c: int
      ensures Abs(lon - g.Longitude(column)) <= Abs(lon - g.Longitude(c))
    {
      g.NodesLieOnLines(row, column);
      g.NodesLieOnLines(row, c);
      g.x.RoundedIsNearest(lon, c);
    }
    forall r: int
      ensures Abs(lat - g.Latitude(row)) <= Abs(lat - g.Latitude(r))
    {
      g.NodesLieOnLines(row, column);
      g.NodesLieOnLines(r, column);
      g.y.RoundedIsNearest(lat, g.y.n - 1 - r);
    }
  }

  // The node nearest the epicenter, or why there is none.
  method LocateSource(g: Grid, lon: real, lat: real) returns (r: Result<(int, int), Refusal>)
    requires g.Valid()
    ensures r == Err(LatitudeOutside) <==> !g.y.Inside(lat)
    ensures r == Err(LongitudeOutside) <==> g.y.Inside(lat) && forall turns: int :: !g.x.Inside(Turned(lon, turns))
    ensures r != Err(LandEpicenter) && r != Err(SpansTheGlobe)
    ensures r.Ok? ==> Located(g, Wrapped(g.x.low, lon), lat, r.value.0, r.value.1)
                      && r.value == SourceOf(g, Wrapped(g.x.low, lon), lat)
  {
    if lat < g.y.low || lat > g.y.high {
      return Err(LatitudeOutside);
    }
    var wrapped := WrapLongitude(g.x.low, lon);
    if wrapped > g.x.high {
      forall turns: int
        ensures !g.x.Inside(Turned(lon, turns))
      {
        NoOtherTurn(g.x, lon, turns);
      }
      return Err(LongitudeOutside);
    }
    assert g.x.Inside(Turned(lon, -((lon - g.x.low) / 360.0).Floor));
    g.x.IncIsPositive();
    g.y.IncIsPositive();
    var column := Round((wrapped - g.x.low) / g.x.Inc() - g.x.Offset());
    var row := g.y.n - 1 - Round((lat - g.y.low) / g.y.Inc() - g.y.Offset());
    SourceIsLocated(g, wrapped, lat);
    r := Ok((row, column));
  }
}
