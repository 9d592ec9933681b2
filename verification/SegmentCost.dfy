// What a segment costs: its length at the slowness along it, whatever that slowness is.
// Over the solver's table the price is exact where slowness is uniform or linear.
module SegmentCost {
  import opened Arithmetic
  import opened Ocean
  import opened Wavefront
  import opened ArrivalTheory
  import opened StencilTable

  // Half the length, per cell step, of direction k's segment from p.
  ghost function HalfStep(sea: Sea, p: int, k: nat): real
    requires sea.Valid() && sea.Water(p) && k < NEIGHBOURS
  {
    assert sea.Inner(p);
    sea.length[p / sea.width - PAD][k]
  }

  // Half the length of a step, times the start's slowness and the weighted ones.
  predicate Priced(cost: real, half: real, own: real, sum: real) {
    cost == Price(half, own, sum)
  }

  // What so many half steps take at a slowness between low and high, which count below zero.
  predicate PricedBetween(cost: real, half: real, steps: real, low: real, high: real) {
    half * (steps * low) <= -cost <= half * (steps * high)
  }

  // `of` gives the slowness of each cell that carries weight in direction k from p.
  ghost predicate Gives(sea: Sea, p: int, k: nat, of: nat -> real)
    requires sea.Valid() && k < NEIGHBOURS
  {
    forall q :: 0 <= q < |sea.stencil.weights[k]| ==>
      var c := sea.stencil.weights[k][q].0;
      c < |sea.stencil.cells| && sea.Water(sea.At(p, c)) && sea.slow[sea.At(p, c)].value == of(c)
  }

  lemma {:induction false} WeightedIsSum(sea: Sea, p: int, k: nat, of: nat -> real, n: nat)
    requires sea.Valid() && k < NEIGHBOURS && sea.Clear(p, k) && Gives(sea, p, k, of) && n <= |sea.stencil.weights[k]|
    ensures sea.Weighted(p, k, n) == WeightSum(sea.stencil.weights[k][..n], of)
  {
    if n == 0 {
    } else {
      WeightedIsSum(sea, p, k, of, n - 1);
      OneMoreWeight(sea, p, k, of, n);
    }
  }

  lemma OneMoreWeight(sea: Sea, p: int, k: nat, of: nat -> real, n: nat)
    requires sea.Valid() && k < NEIGHBOURS && sea.Clear(p, k) && Gives(sea, p, k, of) && 0 < n <= |sea.stencil.weights[k]|
    requires sea.Weighted(p, k, n - 1) == WeightSum(sea.stencil.weights[k][..n - 1], of)
    ensures sea.Weighted(p, k, n) == WeightSum(sea.stencil.weights[k][..n], of)
  {
    var w := sea.stencil.weights[k][..n];
    assert w[..n - 1] == sea.stencil.weights[k][..n - 1] && w[n - 1] == sea.stencil.weights[k][n - 1];
    WeightSumFromTheEnd(w, of);
    sea.WeightedGrows(p, k, n - 1, of(w[n - 1].0));
  }

  lemma CostIsSum(sea: Sea, p: int, k: nat, of: nat -> real)
    requires sea.Valid() && sea.Water(p) && k < NEIGHBOURS && sea.Clear(p, k) && Gives(sea, p, k, of)
    ensures Priced(sea.Cost(p, k), HalfStep(sea, p, k), sea.slow[p].value, WeightSum(sea.stencil.weights[k], of))
  {
    WeightedIsSum(sea, p, k, of, |sea.stencil.weights[k]|);
    assert sea.stencil.weights[k][..|sea.stencil.weights[k]|] == sea.stencil.weights[k];
  }

  // The slowness that a sea has where direction k's weights fall.
  ghost function SlownessFrom(sea: Sea, p: int): nat -> real
    requires sea.Valid()
  {
    (c: nat) => if c < |sea.stencil.cells| && sea.Water(sea.At(p, c)) then sea.slow[sea.At(p, c)].value else 0.0
  }

  lemma SlownessIsGiven(sea: Sea, p: int, k: nat)
    requires sea.Valid() && k < NEIGHBOURS && sea.Clear(p, k)
    ensures Gives(sea, p, k, SlownessFrom(sea, p))
  {
    assert sea.stencil.RowValid(k);
  }

  // ---------- Bounds ----------

  predicate SumBetween(sum: real, total: real, low: real, high: real) {
    low * total <= sum <= high * total
  }

  lemma {:induction false} WeightSumIsBetween(w: seq<(nat, real)>, of: nat -> real, low: real, high: real)
    requires forall q :: 0 <= q < |w| ==> 0.0 <= w[q].1 && low <= of(w[q].0) <= high
    ensures SumBetween(WeightSum(w, of), TotalWeight(w), low, high)
  {
    if w == [] {
    } else {
      WeightSumIsBetween(w[1..], of, low, high);
      TermIsBetween(w[0].1, of(w[0].0), TotalWeight(w[1..]), low, high);
      assert TotalWeight(w) == w[0].1 + TotalWeight(w[1..]);
    }
  }

  lemma TermIsBetween(share: real, x: real, rest: real, low: real, high: real)
    requires 0.0 <= share && low <= x <= high
    ensures low * (share + rest) <= share * x + low * rest
    ensures share * x + high * rest <= high * (share + rest)
  {
    ProductKeepsOrder(low, x, share);
    ProductKeepsOrder(x, high, share);
  }

  // Slowness at the start and wherever direction k's weights fall is between low and high.
  ghost predicate Between(sea: Sea, p: int, k: nat, low: real, high: real)
    requires sea.Valid() && sea.Water(p) && k < NEIGHBOURS
  {
    && low <= sea.slow[p].value <= high
    && forall q :: 0 <= q < |sea.stencil.weights[k]| ==>
         var c := sea.stencil.weights[k][q].0;
         c < |sea.stencil.cells| && sea.Water(sea.At(p, c)) ==> low <= sea.slow[sea.At(p, c)].value <= high
  }

  lemma SegmentSum(sea: Sea, p: int, k: nat, low: real, high: real)
    requires sea.Valid() && sea.Water(p) && k < NEIGHBOURS && sea.Clear(p, k) && Between(sea, p, k, low, high)
    ensures SumBetween(WeightSum(sea.stencil.weights[k], SlownessFrom(sea, p)), TotalWeight(sea.stencil.weights[k]), low, high)
  {
    SlownessIsGiven(sea, p, k);
    assert sea.stencil.RowValid(k);
    WeightSumIsBetween(sea.stencil.weights[k], SlownessFrom(sea, p), low, high);
  }

  lemma HalfStepIsNonNegative(sea: Sea, p: int, k: nat)
    requires sea.Valid() && sea.Water(p) && k < NEIGHBOURS
    ensures 0.0 <= HalfStep(sea, p, k)
  {
    assert sea.Inner(p);
  }

  // A segment takes its length at a slowness between the extremes along it. `steps` is
  // the weight of the whole segment, its start included.
  lemma CostIsBetween(sea: Sea, p: int, k: nat, low: real, high: real, steps: real)
    requires sea.Valid() && sea.Water(p) && k < NEIGHBOURS && sea.Clear(p, k) && Between(sea, p, k, low, high)
    requires steps == 1.0 + TotalWeight(sea.stencil.weights[k])
    ensures PricedBetween(sea.Cost(p, k), HalfStep(sea, p, k), steps, low, high)
  {
    SlownessIsGiven(sea, p, k);
    CostIsSum(sea, p, k, SlownessFrom(sea, p));
    SegmentSum(sea, p, k, low, high);
    HalfStepIsNonNegative(sea, p, k);
    LengthTimes(sea.Cost(p, k), HalfStep(sea, p, k), sea.slow[p].value,
                WeightSum(sea.stencil.weights[k], SlownessFrom(sea, p)), TotalWeight(sea.stencil.weights[k]), low, high, steps);
  }

  lemma LengthTimes(cost: real, half: real, own: real, sum: real, total: real, low: real, high: real, steps: real)
    requires Priced(cost, half, own, sum) && steps == 1.0 + total
    requires 0.0 <= half && low <= own <= high && SumBetween(sum, total, low, high)
    ensures PricedBetween(cost, half, steps, low, high)
  {
    assert (1.0 + total) * low == low + low * total && (1.0 + total) * high == high + high * total;
    OrderIsScaled(steps * low, own + sum, half);
    OrderIsScaled(own + sum, steps * high, half);
  }

  lemma OrderIsScaled(a: real, b: real, c: real)
    requires a <= b && 0.0 <= c
    ensures c * a <= c * b
  {
    ProductKeepsOrder(a, b, c);
  }

  // Over a sea of one slowness, direction k of the table takes its whole length at it:
  // two half steps for every step along its major axis.
  lemma UniformCost(sea: Sea, p: int, k: nat, s: real, steps: real)
    requires sea.Valid() && sea.Water(p) && k < NEIGHBOURS && sea.Clear(p, k) && sea.stencil == Table()
    requires Between(sea, p, k, s, s) && steps == 2.0 * Major(Cell(k)) as real
    ensures sea.Cost(p, k) == -(HalfStep(sea, p, k) * (steps * s))
  {
    TableSteps(sea.stencil, k);
    CostIsBetween(sea, p, k, s, s, steps);
    ExactPrice(sea.Cost(p, k), HalfStep(sea, p, k), steps, s);
  }

  lemma ExactPrice(cost: real, half: real, steps: real, s: real)
    requires PricedBetween(cost, half, steps, s, s)
    ensures cost == -(half * (steps * s))
  {
  }

  lemma TableSteps(t: Stencil, k: nat)
    requires k < NEIGHBOURS && t == Table()
    ensures k < |t.weights| && 1.0 + TotalWeight(t.weights[k]) == 2.0 * Major(Cell(k)) as real
  {
    WeightsSumToSteps(k);
  }

  // ---------- Over a linear slowness ----------

  lemma {:induction false} SumOfCombination(w: seq<(nat, real)>, of: nat -> real, a: nat -> real, d: real, b: nat -> real)
    requires forall q :: 0 <= q < |w| ==> of(w[q].0) == a(w[q].0) + d * b(w[q].0)
    ensures Combined(WeightSum(w, of), WeightSum(w, a), d, WeightSum(w, b))
  {
    if w == [] {
    } else {
      var c := w[0].0;
      SumOfCombination(w[1..], of, a, d, b);
      CombinationAdds(w[0], of(c), a(c), d, b(c), WeightSum(w[1..], of), WeightSum(w[1..], a), WeightSum(w[1..], b));
    }
  }

  predicate Combined(x: real, a: real, d: real, b: real) {
    x == a + d * b
  }

  lemma CombinationAdds(w: (nat, real), x: real, a: real, d: real, b: real, restX: real, restA: real, restB: real)
    requires Combined(x, a, d, b) && Combined(restX, restA, d, restB)
    ensures Combined(Part(w, x) + restX, Part(w, a) + restA, d, Part(w, b) + restB)
  {
    var s := w.1;
    assert s * (a + d * b) == s * a + d * (s * b);
    assert d * (s * b + restB) == d * (s * b) + d * restB;
  }

  function Linear(base: real, f: Form): nat -> real {
    (c: nat) => base + f.Of(Cell(c))
  }

  // Slowness is `base` at p and grows linearly with the columns and rows of the cells
  // that direction k goes over.
  ghost predicate LinearAlong(sea: Sea, p: int, k: nat, base: real, f: Form)
    requires sea.Valid() && sea.Water(p) && k < NEIGHBOURS
  {
    && sea.slow[p].value == base
    && Gives(sea, p, k, Linear(base, f))
    && sea.Water(sea.At(p, k)) && sea.slow[sea.At(p, k)].value == base + f.Of(Cell(k))
  }

  // What m whole steps take at the mean of two slownesses.
  predicate MeanPriced(cost: real, half: real, m: real, start: real, end: real) {
    cost == -(half * (m * (start + end)))
  }

  // There the segment takes its length at the mean of its two ends.
  lemma LinearCost(sea: Sea, p: int, k: nat, base: real, f: Form, m: real)
    requires sea.Valid() && sea.Water(p) && k < NEIGHBOURS && sea.Clear(p, k) && sea.stencil == Table()
    requires LinearAlong(sea, p, k, base, f) && m == Major(Cell(k)) as real
    ensures MeanPriced(sea.Cost(p, k), HalfStep(sea, p, k), m, sea.slow[p].value, sea.slow[sea.At(p, k)].value)
  {
    CostIsSum(sea, p, k, Linear(base, f));
    LinearSum(sea.stencil, k, base, f, m);
    LinearPrice(sea.Cost(p, k), HalfStep(sea, p, k), base, WeightSum(sea.stencil.weights[k], Linear(base, f)),
                f.Of(Cell(k)), m, sea.slow[sea.At(p, k)].value);
  }

  // To a neighbouring cell that is the mean of the two cells, whatever they are.
  lemma UnitCost(sea: Sea, p: int, k: nat)
    requires sea.Valid() && sea.Water(p) && k < 8 && sea.Clear(p, k) && sea.stencil == Table()
    ensures sea.Water(sea.At(p, k))
    ensures MeanPriced(sea.Cost(p, k), HalfStep(sea, p, k), 1.0, sea.slow[p].value, sea.slow[sea.At(p, k)].value)
  {
    TableUnit(sea.stencil, k);
    assert k in sea.stencil.blocks[k];
    var f := Towards(Cell(k), sea.slow[sea.At(p, k)].value - sea.slow[p].value);
    UnitRowIsLinear(sea, p, k, f);
    LinearCost(sea, p, k, sea.slow[p].value, f, 1.0);
  }

  lemma TableUnit(t: Stencil, k: nat)
    requires k < 8 && t == Table()
    ensures Cell(k).Unit() && Major(Cell(k)) == 1 && |t.blocks| == NEIGHBOURS && t.blocks[k] == [k]
  {
    UnitRow(k);
  }

  // A form that gains so much on a unit step.
  function Towards(s: Step, gain: real): (f: Form)
    requires s.Unit()
    ensures f.Of(s) == gain
  {
    if s.di != 0 then Form(if s.di == 1 then gain else -gain, 0.0) else Form(0.0, if s.dj == 1 then gain else -gain)
  }

  lemma UnitRowIsLinear(sea: Sea, p: int, k: nat, f: Form)
    requires sea.Valid() && sea.Water(p) && k < 8 && sea.stencil.blocks[k] == [k] && sea.Water(sea.At(p, k))
    requires f.Of(Cell(k)) == sea.slow[sea.At(p, k)].value - sea.slow[p].value
    ensures LinearAlong(sea, p, k, sea.slow[p].value, f)
  {
    assert sea.stencil.RowValid(k);
  }

  // The sum of a linear slowness over direction k's weights.
  predicate LinearSummed(sum: real, base: real, gain: real, m: real) {
    sum == (2.0 * m - 1.0) * base + m * gain
  }

  lemma LinearSum(t: Stencil, k: nat, base: real, f: Form, m: real)
    requires k < NEIGHBOURS && t == Table() && m == Major(Cell(k)) as real
    ensures k < |t.weights| && LinearSummed(WeightSum(t.weights[k], Linear(base, f)), base, f.Of(Cell(k)), m)
  {
    TableSteps(t, k);
    TableReads(t, k, f, m);
    LinearSplits(t.weights[k], base, f);
    LinearTotal(WeightSum(t.weights[k], Linear(base, f)), WeightSum(t.weights[k], Reading(f)), TotalWeight(t.weights[k]),
                base, f.Of(Cell(k)), m);
  }

  predicate Balanced(moment: real, m: real, gain: real) {
    moment == m * gain
  }

  lemma TableReads(t: Stencil, k: nat, f: Form, m: real)
    requires k < NEIGHBOURS && t == Table() && m == Major(Cell(k)) as real
    ensures k < |t.weights| && Balanced(WeightSum(t.weights[k], Reading(f)), m, f.Of(Cell(k)))
  {
    WeightsBalance(k, f);
  }

  lemma LinearSplits(w: seq<(nat, real)>, base: real, f: Form)
    ensures Combined(WeightSum(w, Linear(base, f)), WeightSum(w, Reading(f)), base, TotalWeight(w))
  {
    SumOfCombination(w, Linear(base, f), Reading(f), base, Once());
  }

  lemma LinearTotal(sum: real, moment: real, total: real, base: real, gain: real, m: real)
    requires Combined(sum, moment, base, total) && Balanced(moment, m, gain) && 1.0 + total == 2.0 * m
    ensures LinearSummed(sum, base, gain, m)
  {
  }

  lemma LinearPrice(cost: real, half: real, base: real, sum: real, gain: real, m: real, end: real)
    requires Priced(cost, half, base, sum) && LinearSummed(sum, base, gain, m) && end == base + gain
    ensures MeanPriced(cost, half, m, base, end)
  {
    assert base + sum == m * (base + end);
  }

  // ---------- When slowness changes ----------

  // The sea with the slowness of one water cell changed by d.
  function Changed(sea: Sea, v: int, d: real): Sea
    requires sea.Water(v)
  {
    sea.(slow := sea.slow[v := Num(sea.slow[v].value + d)])
  }

  lemma ChangedIsValid(sea: Sea, v: int, d: real)
    requires sea.Valid() && sea.Water(v) && sea.slow[v].value + d < 0.0
    ensures Changed(sea, v, d).Valid() && forall u :: sea.Water(u) <==> Changed(sea, v, d).Water(u)
  {
    forall u | Changed(sea, v, d).Water(u)
      ensures sea.Water(u) && Changed(sea, v, d).Inner(u)
    {
      assert sea.Water(u);
    }
  }

  // Which patch cells of p are v.
  function Hits(sea: Sea, p: int, v: int): nat -> real {
    (c: nat) => if c < |sea.stencil.cells| && sea.At(p, c) == v then 1.0 else 0.0
  }

  // What v weighs in direction k from p, the start counting once.
  function WeightAt(sea: Sea, p: int, k: nat, v: int): real
    requires k < |sea.stencil.weights|
  {
    (if v == p then 1.0 else 0.0) + WeightSum(sea.stencil.weights[k], Hits(sea, p, v))
  }

  predicate PriceMoves(after: real, before: real, half: real, weight: real, d: real) {
    after == before - half * (weight * d)
  }

  // A segment's price follows the slowness of each cell by that cell's weight.
  lemma CostFollows(sea: Sea, p: int, k: nat, v: int, d: real)
    requires sea.Valid() && sea.Water(p) && k < NEIGHBOURS && sea.Clear(p, k)
    requires sea.Water(v) && sea.slow[v].value + d < 0.0
    ensures Changed(sea, v, d).Valid() && Changed(sea, v, d).Water(p) && Changed(sea, v, d).Clear(p, k)
    ensures PriceMoves(Changed(sea, v, d).Cost(p, k), sea.Cost(p, k), HalfStep(sea, p, k), WeightAt(sea, p, k, v), d)
  {
    var after, w := Changed(sea, v, d), sea.stencil.weights[k];
    ChangedIsValid(sea, v, d);
    ChangedIsClear(sea, p, k, v, d);
    var of, of' := SlownessFrom(sea, p), SlownessFrom(after, p);
    ChangedCost(sea, p, k);
    ChangedCost(after, p, k);
    SlownessChanges(sea, p, k, v, d);
    SumOfCombination(w, of', of, d, Hits(sea, p, v));
    PriceFollows(after.Cost(p, k), sea.Cost(p, k), HalfStep(sea, p, k), after.slow[p].value, sea.slow[p].value,
                 WeightSum(w, of'), WeightSum(w, of), d, if v == p then 1.0 else 0.0, WeightSum(w, Hits(sea, p, v)));
  }

  lemma ChangedCost(sea: Sea, p: int, k: nat)
    requires sea.Valid() && sea.Water(p) && k < NEIGHBOURS && sea.Clear(p, k)
    ensures Priced(sea.Cost(p, k), HalfStep(sea, p, k), sea.slow[p].value, WeightSum(sea.stencil.weights[k], SlownessFrom(sea, p)))
  {
    SlownessIsGiven(sea, p, k);
    CostIsSum(sea, p, k, SlownessFrom(sea, p));
  }

  lemma ChangedIsClear(sea: Sea, p: int, k: nat, v: int, d: real)
    requires sea.Valid() && sea.Water(p) && k < NEIGHBOURS && sea.Clear(p, k) && sea.Water(v)
    requires Changed(sea, v, d).Valid() && forall u :: sea.Water(u) <==> Changed(sea, v, d).Water(u)
    ensures Changed(sea, v, d).Clear(p, k) && HalfStep(Changed(sea, v, d), p, k) == HalfStep(sea, p, k)
    ensures Combined(Changed(sea, v, d).slow[p].value, sea.slow[p].value, d, if v == p then 1.0 else 0.0)
  {
    assert sea.stencil.RowValid(k);
    forall c | c in sea.stencil.blocks[k]
      ensures Changed(sea, v, d).Water(Changed(sea, v, d).At(p, c))
    {
      assert sea.Water(sea.At(p, c));
    }
  }

  lemma SlownessChanges(sea: Sea, p: int, k: nat, v: int, d: real)
    requires sea.Valid() && k < NEIGHBOURS && sea.Clear(p, k) && sea.Water(v) && sea.slow[v].value + d < 0.0
    requires Changed(sea, v, d).Valid()
    ensures forall q :: 0 <= q < |sea.stencil.weights[k]| ==>
              var c := sea.stencil.weights[k][q].0;
              SlownessFrom(Changed(sea, v, d), p)(c) == SlownessFrom(sea, p)(c) + d * Hits(sea, p, v)(c)
  {
    assert sea.stencil.RowValid(k);
  }

  lemma PriceFollows(cost': real, cost: real, half: real, own': real, own: real, sum': real, sum: real, d: real,
                     here: real, there: real)
    requires Priced(cost', half, own', sum') && Priced(cost, half, own, sum)
    requires Combined(own', own, d, here) && Combined(sum', sum, d, there)
    ensures PriceMoves(cost', cost, half, here + there, d)
  {
    assert own' + sum' == (own + sum) + (here + there) * d;
    assert half * ((own + sum) + (here + there) * d) == half * (own + sum) + half * ((here + there) * d);
  }

  // ---------- Whole walks ----------

  // Metres of a walk, from the lengths of its segments alone.
  ghost function WalkMetres(sea: Sea, start: Seed, legs: seq<Leg>, end: int): real
    requires sea.Valid() && Walk(sea, start, legs, end)
  {
    if legs == [] then 0.0
    else
      var l := legs[|legs| - 1];
      WalkMetres(sea, start, legs[..|legs| - 1], l.from) + LegMetres(sea, l)
  }

  // The half steps of a leg, as many as its cells weigh with its start.
  ghost function LegMetres(sea: Sea, l: Leg): real
    requires sea.Valid() && sea.Water(l.from) && 0 <= l.dir < NEIGHBOURS
  {
    HalfStep(sea, l.from, l.dir) * (1.0 + TotalWeight(sea.stencil.weights[l.dir]))
  }

  ghost predicate AllBetween(sea: Sea, low: real, high: real) {
    forall v :: sea.Water(v) ==> low <= sea.slow[v].value <= high
  }

  lemma LegTakes(sea: Sea, l: Leg, low: real, high: real)
    requires sea.Valid() && sea.Water(l.from) && 0 <= l.dir < NEIGHBOURS && sea.Clear(l.from, l.dir)
    requires AllBetween(sea, low, high)
    ensures Takes(sea.Cost(l.from, l.dir), LegMetres(sea, l), low, high)
  {
    var steps := 1.0 + TotalWeight(sea.stencil.weights[l.dir]);
    assert Between(sea, l.from, l.dir, low, high);
    CostIsBetween(sea, l.from, l.dir, low, high, steps);
    PriceTakes(sea.Cost(l.from, l.dir), HalfStep(sea, l.from, l.dir), steps, low, high, LegMetres(sea, l));
  }

  lemma PriceTakes(cost: real, half: real, steps: real, low: real, high: real, metres: real)
    requires PricedBetween(cost, half, steps, low, high) && metres == half * steps
    ensures Takes(cost, metres, low, high)
  {
    assert half * steps * low == half * (steps * low) && half * steps * high == half * (steps * high);
  }

  lemma {:induction false} WalkTimeIsBetween(sea: Sea, start: Seed, legs: seq<Leg>, end: int, low: real, high: real)
    requires sea.Valid() && Walk(sea, start, legs, end) && AllBetween(sea, low, high)
    ensures Takes(WalkTime(sea, start, legs, end) - start.time, WalkMetres(sea, start, legs, end), low, high)
    decreases |legs|
  {
    if legs == [] {
    } else {
      var l := legs[|legs| - 1];
      WalkTimeIsBetween(sea, start, legs[..|legs| - 1], l.from, low, high);
      LegTakes(sea, l, low, high);
      TimesAdd(WalkTime(sea, start, legs[..|legs| - 1], l.from) - start.time,
               WalkMetres(sea, start, legs[..|legs| - 1], l.from), sea.Cost(l.from, l.dir), LegMetres(sea, l), low, high,
               WalkTime(sea, start, legs, end) - start.time, WalkMetres(sea, start, legs, end));
    }
  }

  lemma TimesAdd(time: real, metres: real, cost: real, leg: real, low: real, high: real, time': real, metres': real)
    requires Takes(time, metres, low, high) && Takes(cost, leg, low, high)
    requires time' == time + cost && metres' == metres + leg
    ensures Takes(time', metres', low, high)
  {
    assert (metres + leg) * low == metres * low + leg * low;
    assert (metres + leg) * high == metres * high + leg * high;
  }

  // `time` is a seed's, and the metres of a walk over water from it at a slowness between
  // low and high.
  ghost predicate IsOfAWalk(sea: Sea, seeds: seq<Seed>, start: Seed, legs: seq<Leg>, end: int, time: real, low: real,
                            high: real)
    requires sea.Valid()
  {
    start in seeds && Walk(sea, start, legs, end) && Takes(time - start.time, WalkMetres(sea, start, legs, end), low, high)
  }

  // Every settled time is a seed's, and the metres of a walk over water from that seed at
  // a slowness between the least and the greatest of the sea.
  lemma SettledTimeIsMetres(sea: Sea, seeds: seq<Seed>, order: seq<Arrival>, i: int, low: real, high: real)
    returns (start: Seed, legs: seq<Leg>)
    requires sea.Valid() && Solved(sea, seeds, order) && 0 <= i < |order| && AllBetween(sea, low, high)
    ensures IsOfAWalk(sea, seeds, start, legs, order[i].node, order[i].time, low, high)
  {
    start, legs := TimeIsAWalk(sea, seeds, order, i);
    WalkTimeIsBetween(sea, start, legs, order[i].node, low, high);
  }
}
