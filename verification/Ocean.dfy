// The grid the travel-time solver works on: slowness on a padded grid held row by
// row in one sequence, and the stencil of 120 directions with the patch cells
// each direction's straight segment is averaged over and blocked by.
module Ocean {

  const PAD: int := 13
  const NEIGHBOURS: int := 120
  // Sentinels of the key table, above every arrival time.
  const UNREACHED: real := 1000000000000000000000000000000000.0
  const SETTLED: real := 10000000000000000000000000000000000.0
  const BLOCKED: real := 100000000000000000000000000000000000.0

  // `time` is what a way of `metres` takes at a slowness between low and high, which
  // count below zero.
  predicate Takes(time: real, metres: real, low: real, high: real) {
    metres * low <= -time <= metres * high
  }

  // A number or NaN. A cell of the slowness array holds a negative slowness on open
  // water, a time (never negative) once its node is settled, and NaN on land.
  datatype Float = NaN | Num(value: real) {
    // The comparison `v < 0`, which is false of NaN.
    predicate Open() {
      Num? && value < 0.0
    }
  }

  // Columns east and rows north of a node.
  datatype Step = Step(di: int, dj: int) {
    function Offset(width: nat): int {
      di - dj * width
    }

    predicate Unit() {
      -1 <= di <= 1 && -1 <= dj <= 1 && (di != 0 || dj != 0)
    }

    predicate Near() {
      -PAD <= di <= PAD && -PAD <= dj <= PAD
    }

    function Minus(s: Step): Step {
      Step(di - s.di, dj - s.dj)
    }
  }

  // `cells` is the patch; its first 120 cells are the neighbours. For direction k,
  // `weights[k]` are the cells of its slowness integral and `blocks[k]` the cells
  // that must be open for the segment to be used.
  datatype Stencil = Stencil(cells: seq<Step>, weights: seq<seq<(nat, real)>>, blocks: seq<seq<nat>>) {

    ghost predicate Valid() {
      && NEIGHBOURS <= |cells| && |weights| == |blocks| == NEIGHBOURS
      && (forall c :: 0 <= c < |cells| ==> cells[c].Near())
      && (forall k :: 0 <= k < NEIGHBOURS ==> RowValid(k))
      && (forall k :: 0 <= k < 8 ==> cells[k].Unit() && blocks[k] == [k])
      && (forall s: Step :: s.Unit() ==> s in cells[..8])
    }

    ghost predicate RowValid(k: nat)
      requires k < NEIGHBOURS <= |cells| && |weights| == |blocks| == NEIGHBOURS
    {
      && (forall q :: 0 <= q < |blocks[k]| ==> blocks[k][q] < |cells|)
      && (forall q :: 0 <= q < |weights[k]| ==> weights[k][q].0 in blocks[k] && 0.0 <= weights[k][q].1)
      && exists chain :: IsChain(chain, k)
    }

    // A neighbour's own cell is among the cells that block it.
    lemma OwnCell(k: nat)
      requires k < NEIGHBOURS && Valid()
      ensures k in blocks[k]
    {
      assert RowValid(k);
      var chain :| IsChain(chain, k);
    }

    // A walk by single cells from the node to the neighbour, over blocking cells.
    ghost predicate IsChain(chain: seq<nat>, k: nat)
      requires k < NEIGHBOURS <= |cells| && |weights| == |blocks| == NEIGHBOURS
    {
      && chain != [] && chain[|chain| - 1] == k
      && (forall i :: 0 <= i < |chain| ==> chain[i] in blocks[k] && chain[i] < |cells|)
      && cells[chain[0]].Unit()
      && (forall i :: 1 <= i < |chain| ==> cells[chain[i]].Minus(cells[chain[i - 1]]).Unit())
    }
  }

  // A weighted cell's part, when it counts for `value`.
  function Part(w: (nat, real), value: real): real {
    w.1 * value
  }

  // Seconds for a segment of weighted slowness `sum` beyond its start's own; slowness
  // counts below zero.
  function Price(half: real, own: real, sum: real): real {
    -(half * (own + sum))
  }

  // A row of weights, each times what its patch cell counts for.
  function WeightSum(w: seq<(nat, real)>, of: nat -> real): real {
    if w == [] then 0.0 else Part(w[0], of(w[0].0)) + WeightSum(w[1..], of)
  }

  // Every cell counts for one.
  function Once(): nat -> real {
    (c: nat) => 1.0
  }

  lemma {:induction false} WeightSumFromTheEnd(w: seq<(nat, real)>, of: nat -> real)
    requires w != []
    ensures WeightSum(w, of) == WeightSum(w[..|w| - 1], of) + Part(w[|w| - 1], of(w[|w| - 1].0))
  {
    if |w| == 1 {
      assert w[1..] == [] && w[..0] == [];
    } else {
      WeightSumFromTheEnd(w[1..], of);
      assert w[1..][..|w| - 2] == w[..|w| - 1][1..];
    }
  }

  // `length[r][k]` is half the length, per cell step, of direction k's segment
  // from a node of grid row r.
  datatype Sea = Sea(width: nat, ny: nat, slow: seq<Float>, stencil: Stencil, length: seq<seq<real>>) {

    predicate Water(v: int) {
      0 <= v < |slow| && slow[v].Open()
    }

    // A node of the grid proper, inside the padding.
    predicate Inner(v: int)
      requires 0 < width
    {
      PAD <= v / width < ny + PAD && PAD <= v % width < width - PAD
    }

    ghost predicate Valid() {
      && 2 * PAD < width && 0 < ny
      && |slow| == (ny + 2 * PAD) * width
      && stencil.Valid()
      && (forall v :: 0 <= v < |slow| ==> slow[v].NaN? || slow[v].Open())
      && (forall v :: Water(v) ==> Inner(v))
      && |length| == ny
      && (forall r :: 0 <= r < ny ==> |length[r]| == NEIGHBOURS)
      && (forall r, k :: 0 <= r < ny && 0 <= k < NEIGHBOURS ==> 0.0 <= length[r][k])
    }

    // The node at patch cell c of node p.
    function At(p: int, c: nat): int
      requires c < |stencil.cells|
    {
      p + stencil.cells[c].Offset(width)
    }

    // Every cell that blocks direction k from p is water.
    ghost predicate Clear(p: int, k: nat)
      requires Valid() && k < NEIGHBOURS
    {
      assert stencil.RowValid(k);
      forall c :: c in stencil.blocks[k] ==> Water(At(p, c))
    }

    // The weighted slowness over the first n weight cells of direction k.
    ghost function Weighted(p: int, k: nat, n: nat): real
      requires Valid() && k < NEIGHBOURS && Clear(p, k) && n <= |stencil.weights[k]|
    {
      if n == 0 then 0.0
      else
        assert stencil.RowValid(k);
        var w := stencil.weights[k][n - 1];
        assert Water(At(p, w.0));
        Weighted(p, k, n - 1) + Part(w, slow[At(p, w.0)].value)
    }

    lemma WeightedGrows(p: int, k: nat, q: nat, value: real)
      requires Valid() && k < NEIGHBOURS && Clear(p, k) && q < |stencil.weights[k]|
      requires var c := stencil.weights[k][q].0;
               c < |stencil.cells| && Water(At(p, c)) && value == slow[At(p, c)].value
      ensures Weighted(p, k, q + 1) == Weighted(p, k, q) + Part(stencil.weights[k][q], value)
    {
    }

    // Seconds along direction k from p, from the original slowness alone.
    ghost function Cost(p: int, k: nat): real
      requires Valid() && Water(p) && k < NEIGHBOURS && Clear(p, k)
    {
      Price(length[p / width - PAD][k], slow[p].value, Weighted(p, k, |stencil.weights[k]|))
    }

    // Every patch cell of a water node lies inside the padded grid.
    lemma PatchInside(p: int, c: nat)
      requires Valid() && Water(p) && c < |stencil.cells|
      ensures 0 <= At(p, c) < |slow|
    {
      var s := stencil.cells[c];
      var row, col := p / width, p % width;
      assert p == row * width + col;
      assert At(p, c) == (row - s.dj) * width + (col + s.di);
      assert 0 <= row - s.dj < ny + 2 * PAD && 0 <= col + s.di < width;
      RowMajor(row - s.dj, col + s.di, width, ny + 2 * PAD);
    }

    static lemma RowMajor(row: int, col: int, width: nat, rows: nat)
      requires 0 <= row < rows && 0 <= col < width
      ensures 0 <= row * width + col < rows * width
    {
      assert 0 <= row * width;
      assert row * width + width == (row + 1) * width <= rows * width;
    }

    lemma {:induction false} WeightedIsNegative(p: int, k: nat, n: nat)
      requires Valid() && k < NEIGHBOURS && Clear(p, k) && n <= |stencil.weights[k]|
      ensures Weighted(p, k, n) <= 0.0
    {
      if n == 0 {
      } else {
        WeightedIsNegative(p, k, n - 1);
        var w := stencil.weights[k][n - 1];
        assert stencil.RowValid(k);
        assert Water(At(p, w.0));
        ProductSign(w.1, slow[At(p, w.0)].value);
      }
    }

    static lemma ProductSign(a: real, b: real)
      requires 0.0 <= a && b <= 0.0
      ensures a * b <= 0.0
    {
    }

    // No segment arrives before it leaves.
    lemma CostIsNonNegative(p: int, k: nat)
      requires Valid() && Water(p) && k < NEIGHBOURS && Clear(p, k)
      ensures 0.0 <= Cost(p, k)
    {
      WeightedIsNegative(p, k, |stencil.weights[k]|);
      assert Inner(p);
      ProductSign(length[p / width - PAD][k], slow[p].value + Weighted(p, k, |stencil.weights[k]|));
    }
  }
}
