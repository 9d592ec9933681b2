// The propagation loop over mutable arrays: the indexed heap, the key table and
// the slowness array that settled times are written into.
module Propagation {
  import opened Ocean
  import opened Wavefront
  import opened ArrivalTheory
  import opened IndexedHeap

  // The slowness array after `order` was settled: a settled cell holds its time in
  // hours, every other cell what it held at the start.
  ghost predicate Written(slow: seq<Float>, now: seq<Float>, order: seq<Arrival>) {
    && |now| == |slow|
    && (forall v :: 0 <= v < |slow| && !SettledIn(order, v) ==> now[v] == slow[v])
    && (forall i :: 0 <= i < |order| && 0 <= order[i].node < |now| ==>
          now[order[i].node] == Num((1.0 / 3600.0) * order[i].time))
  }

  class Wave {
    const slowness: array<Float>
    const key: array<real>
    const rank: array<int>
    const heap: array<int>
    const pos: array<int>
    const openCell: array<bool>
    const value: array<Float>
    var size: nat
    var counter: int
    ghost var order: seq<Arrival>

    ghost function Now(): Front
      reads this, key, rank
    {
      Front(key[..], rank[..], counter, order)
    }

    ghost predicate Separate() {
      && slowness.Length == key.Length == rank.Length == heap.Length == pos.Length
      && rank != heap && rank != pos && heap != pos && value != slowness
    }

    // The heap holds exactly the nodes with a time in the key table.
    ghost predicate Valid()
      reads this, key, rank, heap, pos
    {
      && Separate()
      && Indexed(heap[..], pos[..], size)
      && Ordered(heap[..], key[..], rank[..], size)
      && forall v :: 0 <= v < key.Length ==> (0 <= pos[v] <==> key[v] < UNREACHED)
    }

    constructor (slowness: array<Float>, key: array<real>, patch: nat)
      requires slowness.Length == key.Length
      requires forall v :: 0 <= v < key.Length ==> key[v] >= UNREACHED
      ensures Valid() && this.slowness == slowness && this.key == key
      ensures fresh(rank) && fresh(heap) && fresh(pos) && fresh(openCell) && fresh(value)
      ensures openCell.Length == value.Length == patch
      ensures Now() == Front(key[..], seq(key.Length, _ => 0), 1, [])
    {
      this.slowness, this.key := slowness, key;
      heap := new int[key.Length](_ => 0);
      pos := new int[key.Length](_ => -1);
      rank := new int[key.Length](_ => 0);
      openCell := new bool[patch](_ => false);
      value := new Float[patch](_ => NaN);
      size, counter, order := 0, 1, [];
      new;
      assert rank[..] == seq(key.Length, _ => 0);
    }

    lemma RoomFor(v: int)
      requires Valid() && 0 <= v < key.Length && pos[v] < 0
      ensures size < heap.Length
    {
      var s := heap[..size] + [v];
      assert forall i :: 0 <= i < size ==> s[i] == heap[i] && pos[heap[i]] == i;
      DistinctFit(s, key.Length);
    }

    // Queue a node that was never queued.
    method Push(v: int, time: real)
      requires Valid() && 0 <= v < key.Length && key[v] >= UNREACHED && time < UNREACHED
      modifies this`size, this`counter, key, rank, heap, pos
      ensures Valid() && Now() == Enqueue(old(Now()), v, time)
      ensures size == old(size) + 1
    {
      RoomFor(v);
      ghost var h, k, r, p := heap[..], key[..], rank[..], pos[..];
      Appended(h, p, k, r, size, v, time, counter);
      key[v] := time;
      rank[v] := counter;
      counter := counter + 1;
      heap[size] := v;
      size := size + 1;
      assert heap[..] == h[size - 1 := v] && pos[..] == p;
      assert key[..] == k[v := time] && rank[..] == r[v := counter - 1];
      SiftUp(heap, pos, key, rank, size, size - 1);
    }

    static lemma Appended(h: seq<int>, p: seq<int>, k: seq<real>, r: seq<int>, size: nat, v: int, time: real, c: int)
      requires size < |h| && |p| == |k| == |r| && 0 <= v < |p| && p[v] < 0
      requires Indexed(h, p, size) && Ordered(h, k, r, size)
      ensures Indexed(h[size := v], p[v := size], size + 1)
      ensures OrderedBelow(h[size := v], k[v := time], r[v := c], size + 1, size)
    {
      assert forall i :: 0 <= i < size ==> p[h[i]] == i;
      AppendNeedsOnlySiftUp(h, h[size := v], k, r, k[v := time], r[v := c], size);
    }

    // Give a queued node an earlier time and a new rank.
    method Lower(v: int, time: real)
      requires Valid() && 0 <= v < key.Length && time < key[v] < UNREACHED
      modifies this`counter, key, rank, heap, pos
      ensures Valid() && Now() == Enqueue(old(Now()), v, time)
    {
      DecreaseNeedsOnlySiftUp(heap[..], pos[..], key[..], rank[..], size, v, time, counter);
      ghost var k, r, p := key[..], rank[..], pos[..];
      key[v] := time;
      rank[v] := counter;
      counter := counter + 1;
      assert key[..] == k[v := time] && rank[..] == r[v := counter - 1];
      assert heap[pos[v]] == v && p[v := p[v]] == p;
      SiftUp(heap, pos, key, rank, size, pos[v]);
    }

    // Take the root off the heap: the last leaf replaces it and sinks.
    method RemoveRoot() returns (v: int)
      requires Valid() && 0 < size
      modifies this`size, heap, pos
      ensures v == old(heap[0]) && 0 <= v < key.Length && size == old(size) - 1
      ensures Indexed(heap[..], pos[..], size) && Ordered(heap[..], key[..], rank[..], size)
      ensures SameQueue(pos[..], old(pos[..]), v) && pos[v] < 0
    {
      v := heap[0];
      ghost var h, k, r, p := heap[..], key[..], rank[..], pos[..];
      size := size - 1;
      pos[v] := -1;
      if size > 0 {
        heap[0] := heap[size];
        pos[heap[0]] := 0;
        RootReplaced(h, p, k, r, size);
        assert heap[..] == h[0 := h[size]] && pos[..] == p[v := -1][h[size] := 0];
        SiftDown(heap, pos, key, rank, size, 0);
      } else {
        assert pos[..] == p[v := -1];
        LastTaken(h, p);
      }
    }

    // Take the first node by (time, rank) off the queue.
    method Pop() returns (v: int, t: real)
      requires Valid() && 0 < size
      modifies this`size, this`order, key, heap, pos
      ensures Valid() && size == old(size) - 1
      ensures IsNext(old(Now()), v) && t == old(key[v])
      ensures Now() == Settle(old(Now()), v)
    {
      RootIsNext();
      v := RemoveRoot();
      t := key[v];
      StaysOrdered(heap[..], pos[..], key[..], rank[..], size, v);
      ghost var k := key[..];
      key[v] := SETTLED;
      order := order + [Arrival(v, t, rank[v])];
      assert key[..] == k[v := SETTLED];
    }

    lemma RootIsNext()
      requires Valid() && 0 < size
      ensures IsNext(Now(), heap[0])
    {
      var f := Now();
      assert pos[heap[0]] == 0;
      forall u | Queued(f, u)
        ensures !Before(f.key[u], f.rank[u], f.key[heap[0]], f.rank[heap[0]])
      {
        assert heap[pos[u]] == u;
        RootIsLeast(heap[..], key[..], rank[..], size, pos[u]);
      }
    }

    static lemma LastTaken(h: seq<int>, p: seq<int>)
      requires |h| == |p| && Indexed(h, p, 1)
      ensures Indexed(h, p[h[0] := -1], 0)
    {
      assert p[h[0]] == 0;
    }

    // The key of a node that is not queued does not matter to the heap.
    static lemma StaysOrdered(h: seq<int>, p: seq<int>, k: seq<real>, r: seq<int>, size: nat, v: int)
      requires Indexed(h, p, size) && |k| == |r| == |p| && Ordered(h, k, r, size)
      requires 0 <= v < |p| && p[v] < 0
      ensures Ordered(h, k[v := SETTLED], r, size)
    {
      assert forall i :: 0 <= i < size ==> p[h[i]] == i;
    }

    static lemma RootReplaced(h: seq<int>, p: seq<int>, k: seq<real>, r: seq<int>, size: nat)
      requires size + 1 <= |h| && 0 < size && |p| == |k| == |r|
      requires Indexed(h, p, size + 1) && Ordered(h, k, r, size + 1)
      ensures Indexed(h[0 := h[size]], p[h[0] := -1][h[size] := 0], size)
      ensures OrderedAbove(h[0 := h[size]], k, r, size, 0)
      ensures SameQueue(p[h[0] := -1][h[size] := 0], p, h[0]) && h[0] != h[size]
    {
      assert p[h[0]] == 0 && p[h[size]] == size;
    }

    // ---------- One settled node ----------

    // What the patch around p held before p's own cell was overwritten.
    static ghost predicate PatchRead(sea: Sea, p: int, pre: seq<Arrival>, closed: nat, open: seq<bool>, value: seq<Float>)
      requires sea.Valid() && sea.Water(p)
    {
      && |open| == |value| == |sea.stencil.cells|
      && (forall c :: 0 <= c < |open| ==> (open[c] <==> sea.Water(sea.At(p, c)) && !SettledIn(pre, sea.At(p, c))))
      && (forall c :: 0 <= c < |open| && open[c] ==> value[c] == sea.slow[sea.At(p, c)])
      && (closed == 0 ==> forall c :: 0 <= c < |open| ==> open[c])
    }

    method ReadPatch(ghost sea: Sea, width: nat, stencil: Stencil, p: int, ghost pre: seq<Arrival>)
      returns (closed: nat)
      requires Separate() && sea.Valid() && sea.Water(p) && width == sea.width && stencil == sea.stencil
      requires openCell.Length == value.Length == |stencil.cells|
      requires Written(sea.slow, slowness[..], pre)
      requires Past(sea, pre)
      modifies openCell, value
      ensures PatchRead(sea, p, pre, closed, openCell[..], value[..])
    {
      closed := 0;
      for c := 0 to |stencil.cells|
        invariant forall d :: 0 <= d < c ==>
          (openCell[d] <==> sea.Water(sea.At(p, d)) && !SettledIn(pre, sea.At(p, d)))
        invariant forall d :: 0 <= d < c && openCell[d] ==> value[d] == sea.slow[sea.At(p, d)]
        invariant closed == 0 ==> forall d :: 0 <= d < c ==> openCell[d]
      {
        sea.PatchInside(p, c);
        var v := slowness[p + stencil.cells[c].Offset(width)];
        CellState(sea, slowness[..], pre, sea.At(p, c));
        value[c] := v;
        openCell[c] := v.Open();
        if !openCell[c] {
          closed := closed + 1;
        }
      }
    }

    // A cell reads as open exactly while it is unsettled water: a settled cell holds
    // a time, and times are not negative.
    static lemma CellState(sea: Sea, now: seq<Float>, pre: seq<Arrival>, v: int)
      requires sea.Valid() && 0 <= v < |sea.slow| && Written(sea.slow, now, pre)
      requires Past(sea, pre)
      ensures now[v].Open() <==> sea.Water(v) && !SettledIn(pre, v)
      ensures now[v].Open() ==> now[v] == sea.slow[v]
    {
      if SettledIn(pre, v) {
        var i :| 0 <= i < |pre| && pre[i].node == v;
        assert now[pre[i].node] == Num((1.0 / 3600.0) * pre[i].time);
      }
    }

    // Whether every blocking cell of direction k is open. With no closed cell in the
    // whole patch the walk over the blocking cells is skipped.
    method SegmentOpen(ghost sea: Sea, stencil: Stencil, ghost p: int, ghost pre: seq<Arrival>, closed: nat, k: nat)
      returns (free: bool)
      requires sea.Valid() && sea.Water(p) && stencil == sea.stencil && k < NEIGHBOURS
      requires PatchRead(sea, p, pre, closed, openCell[..], value[..])
      ensures free <==> ClearAfter(sea, pre, p, k)
    {
      assert stencil.RowValid(k);
      free := true;
      if closed > 0 {
        for q := 0 to |stencil.blocks[k]|
          invariant free && forall r :: 0 <= r < q ==> openCell[stencil.blocks[k][r]]
        {
          if !openCell[stencil.blocks[k][q]] {
            assert stencil.blocks[k][q] in stencil.blocks[k];
            return false;
          }
        }
      }
    }

    // The weight cells of a clear direction were read while they were open.
    ghost predicate WeightsRead(sea: Sea, p: int, k: nat)
      requires sea.Valid() && k < NEIGHBOURS
      reads value
    {
      forall q :: 0 <= q < |sea.stencil.weights[k]| ==>
        var c := sea.stencil.weights[k][q].0;
        c < value.Length && c < |sea.stencil.cells| && sea.Water(sea.At(p, c)) && value[c] == sea.slow[sea.At(p, c)]
    }

    lemma ClearWeightsRead(sea: Sea, p: int, pre: seq<Arrival>, closed: nat, k: nat)
      requires sea.Valid() && sea.Water(p) && k < NEIGHBOURS
      requires PatchRead(sea, p, pre, closed, openCell[..], value[..]) && ClearAfter(sea, pre, p, k)
      ensures WeightsRead(sea, p, k)
    {
      assert sea.stencil.RowValid(k);
      forall q | 0 <= q < |sea.stencil.weights[k]|
        ensures sea.stencil.weights[k][q].0 in sea.stencil.blocks[k]
      {
      }
    }

    method MeanSlowness(ghost sea: Sea, weights: seq<(nat, real)>, ghost p: int, own: real, ghost k: nat)
      returns (mean: real)
      requires sea.Valid() && k < NEIGHBOURS && weights == sea.stencil.weights[k]
      requires sea.Clear(p, k) && WeightsRead(sea, p, k)
      ensures mean == own + sea.Weighted(p, k, |weights|)
    {
      mean := own;
      for q := 0 to |weights|
        invariant mean == own + sea.Weighted(p, k, q)
      {
        var w := weights[q];
        sea.WeightedGrows(p, k, q, value[w.0].value);
        mean := mean + w.1 * value[w.0].value;
      }
    }

    // The time direction k brings its neighbour, when its segment is open.
    method SegmentArrival(ghost sea: Sea, stencil: Stencil, length: seq<seq<real>>, p: int, ghost pre: seq<Arrival>,
                          t: real, row: int, own: real, closed: nat, k: nat)
      returns (free: bool, arrival: real)
      requires sea.Valid() && sea.Water(p) && stencil == sea.stencil && length == sea.length && k < NEIGHBOURS
      requires row == p / sea.width - PAD && own == sea.slow[p].value
      requires PatchRead(sea, p, pre, closed, openCell[..], value[..])
      ensures free <==> ClearAfter(sea, pre, p, k)
      ensures free ==> arrival == t + sea.Cost(p, k)
    {
      arrival := 0.0;
      free := SegmentOpen(sea, stencil, p, pre, closed, k);
      if free {
        ClearWeightsRead(sea, p, pre, closed, k);
        assert sea.Inner(p);
        var mean := MeanSlowness(sea, stencil.weights[k], p, own, k);
        var cost := length[row][k] * mean;
        arrival := t - cost;
      }
    }

    // Queue a node, or move it forward in the queue, if that is an improvement.
    method Take(kk: int, arrival: real)
      requires Valid() && 0 <= kk < key.Length && key[kk] <= UNREACHED && arrival < UNREACHED
      modifies this`size, this`counter, key, rank, heap, pos
      ensures Valid()
      ensures Now() == if old(key[kk]) == UNREACHED || arrival < old(key[kk])
                       then Enqueue(old(Now()), kk, arrival) else old(Now())
    {
      if key[kk] == UNREACHED {
        Push(kk, arrival);
      } else if arrival < key[kk] {
        Lower(kk, arrival);
      }
    }

    // Offer one neighbour of the node just settled.
    method Offer(ghost sea: Sea, width: nat, stencil: Stencil, length: seq<seq<real>>, p: int, t: real,
                 ghost pre: seq<Arrival>, row: int, own: real, closed: nat, k: nat)
      requires Valid() && sea.Valid() && Shaped(sea, Now())
      requires width == sea.width && stencil == sea.stencil && length == sea.length && k < NEIGHBOURS
      requires order != [] && order[|order| - 1].node == p && order[|order| - 1].time == t && order[..|order| - 1] == pre
      requires row == p / width - PAD && own == sea.slow[p].value
      requires OfferDecided(sea, Now(), k) && PatchRead(sea, p, pre, closed, openCell[..], value[..])
      modifies this`size, this`counter, key, rank, heap, pos
      ensures Valid() && Now() == Relax(sea, old(Now()), k)
    {
      var kk := p + stencil.cells[k].Offset(width);
      if key[kk] > UNREACHED {
        return;
      }
      var free, arrival := SegmentArrival(sea, stencil, length, p, pre, t, row, own, closed, k);
      if free {
        Take(kk, arrival);
      }
    }

    // The settled nodes are water, at times that are not negative.
    static ghost predicate Past(sea: Sea, pre: seq<Arrival>) {
      forall i :: 0 <= i < |pre| ==> sea.Water(pre[i].node) && 0.0 <= pre[i].time
    }

    // Take the first node off the queue, read the patch around it and overwrite its
    // cell with its time.
    method SettleFirst(ghost sea: Sea, width: nat, stencil: Stencil)
      returns (p: int, t: real, own: real, closed: nat)
      requires Valid() && sea.Valid() && 0 < size
      requires width == sea.width && stencil == sea.stencil
      requires openCell.Length == value.Length == |stencil.cells|
      requires Shaped(sea, Now()) && Labelled(sea, Now()) && Past(sea, order)
      requires Written(sea.slow, slowness[..], order)
      modifies this`size, this`order, key, heap, pos, slowness, openCell, value
      ensures Valid() && IsNext(old(Now()), p) && Now() == Settle(old(Now()), p) && t == old(key[p])
      ensures Written(sea.slow, slowness[..], order)
      ensures sea.Water(p) && own == sea.slow[p].value && PatchRead(sea, p, old(order), closed, openCell[..], value[..])
    {
      ghost var f := Now();
      p, t := Pop();
      SettleShaped(sea, f, p);
      own, closed := Overwrite(sea, width, stencil, p, t, f.order, Arrival(p, t, f.rank[p]));
    }

    method Overwrite(ghost sea: Sea, width: nat, stencil: Stencil, p: int, t: real,
                     ghost pre: seq<Arrival>, ghost a: Arrival)
      returns (own: real, closed: nat)
      requires Separate() && sea.Valid() && sea.Water(p) && width == sea.width && stencil == sea.stencil
      requires openCell.Length == value.Length == |stencil.cells|
      requires Written(sea.slow, slowness[..], pre) && Past(sea, pre)
      requires a.node == p && a.time == t && !SettledIn(pre, p)
      modifies slowness, openCell, value
      ensures own == sea.slow[p].value && PatchRead(sea, p, pre, closed, openCell[..], value[..])
      ensures Written(sea.slow, slowness[..], pre + [a])
    {
      closed := ReadPatch(sea, width, stencil, p, pre);
      own := slowness[p].value;
      WrittenGrows(sea.slow, slowness[..], pre, a);
      slowness[p] := Num((1.0 / 3600.0) * t);
    }

    lemma OfferCarries(sea: Sea, seeds: seq<Seed>, h: Horizon, k: nat)
      requires Valid() && sea.Valid() && h.Holds(sea, seeds) && k < NEIGHBOURS
      requires Inv(sea, seeds, h, Now(), k) && order != []
      ensures Shaped(sea, Now()) && OfferDecided(sea, Now(), k)
      ensures Inv(sea, seeds, h, Relax(sea, Now(), k), k + 1)
    {
      RelaxKeeps(sea, seeds, h, Now(), k);
      OfferIsDecided(sea, seeds, h, Now(), k);
    }

    // Everything offering the node `p` just settled needs, its first k offers made.
    ghost predicate Offering(sea: Sea, seeds: seq<Seed>, h: Horizon, p: int, t: real, pre: seq<Arrival>, own: real,
                             closed: nat, k: nat)
      requires sea.Valid() && h.Holds(sea, seeds)
      reads this, key, rank, heap, pos, openCell, value
    {
      && Valid() && Inv(sea, seeds, h, Now(), k)
      && order != [] && order[|order| - 1].node == p && order[|order| - 1].time == t && order[..|order| - 1] == pre
      && sea.Water(p) && own == sea.slow[p].value && PatchRead(sea, p, pre, closed, openCell[..], value[..])
    }

    method OfferNext(ghost sea: Sea, ghost seeds: seq<Seed>, ghost h: Horizon, width: nat, stencil: Stencil,
                     length: seq<seq<real>>, p: int, t: real, ghost pre: seq<Arrival>, row: int, own: real, closed: nat,
                     k: nat)
      requires sea.Valid() && h.Holds(sea, seeds) && k < NEIGHBOURS
      requires width == sea.width && stencil == sea.stencil && length == sea.length && row == p / width - PAD
      requires Offering(sea, seeds, h, p, t, pre, own, closed, k)
      modifies this`size, this`counter, key, rank, heap, pos
      ensures Offering(sea, seeds, h, p, t, pre, own, closed, k + 1)
    {
      OfferCarries(sea, seeds, h, k);
      ghost var open, read := openCell[..], value[..];
      Offer(sea, width, stencil, length, p, t, pre, row, own, closed, k);
      assert openCell[..] == open && value[..] == read;
    }

    // Offer the node just settled to all its neighbours.
    method OfferAll(ghost sea: Sea, ghost seeds: seq<Seed>, ghost h: Horizon, width: nat, stencil: Stencil,
                    length: seq<seq<real>>, p: int, t: real, ghost pre: seq<Arrival>, own: real, closed: nat)
      requires sea.Valid() && h.Holds(sea, seeds)
      requires width == sea.width && stencil == sea.stencil && length == sea.length
      requires Offering(sea, seeds, h, p, t, pre, own, closed, 0)
      modifies this`size, this`counter, key, rank, heap, pos
      ensures Offering(sea, seeds, h, p, t, pre, own, closed, NEIGHBOURS)
    {
      var row := p / width - PAD;
      for k := 0 to NEIGHBOURS
        invariant Offering(sea, seeds, h, p, t, pre, own, closed, k)
      {
        OfferNext(sea, seeds, h, width, stencil, length, p, t, pre, row, own, closed, k);
      }
    }

    method SettleToOffer(ghost sea: Sea, ghost seeds: seq<Seed>, ghost h: Horizon, width: nat, stencil: Stencil)
      returns (p: int, t: real, own: real, closed: nat)
      requires Valid() && sea.Valid() && h.Holds(sea, seeds) && 0 < size
      requires width == sea.width && stencil == sea.stencil
      requires openCell.Length == value.Length == |stencil.cells|
      requires Inv(sea, seeds, h, Now(), NEIGHBOURS) && Written(sea.slow, slowness[..], order)
      modifies this`size, this`order, key, heap, pos, slowness, openCell, value
      ensures Offering(sea, seeds, h, p, t, old(order), own, closed, 0) && Written(sea.slow, slowness[..], order)
      ensures |order| == |old(order)| + 1
    {
      ghost var f := Now();
      p, t, own, closed := SettleFirst(sea, width, stencil);
      SettleKeeps(sea, seeds, h, f, p);
      assert order[..|order| - 1] == f.order;
    }

    // Settle the first node in the queue and offer all its neighbours.
    method SettleNext(ghost sea: Sea, ghost seeds: seq<Seed>, ghost h: Horizon, width: nat, stencil: Stencil,
                      length: seq<seq<real>>)
      requires Valid() && sea.Valid() && h.Holds(sea, seeds) && 0 < size
      requires width == sea.width && stencil == sea.stencil && length == sea.length
      requires openCell.Length == value.Length == |stencil.cells|
      requires Inv(sea, seeds, h, Now(), NEIGHBOURS) && Written(sea.slow, slowness[..], order)
      modifies this, key, rank, heap, pos, slowness, openCell, value
      ensures Valid() && |order| == |old(order)| + 1
      ensures Inv(sea, seeds, h, Now(), NEIGHBOURS) && Written(sea.slow, slowness[..], order)
    {
      ghost var pre := order;
      var p, t, own, closed := SettleToOffer(sea, seeds, h, width, stencil);
      ghost var now := slowness[..];
      OfferAll(sea, seeds, h, width, stencil, length, p, t, pre, own, closed);
      assert slowness[..] == now;
    }

    static lemma WrittenGrows(slow: seq<Float>, now: seq<Float>, pre: seq<Arrival>, a: Arrival)
      requires Written(slow, now, pre) && 0 <= a.node < |now| && !SettledIn(pre, a.node)
      ensures Written(slow, now[a.node := Num((1.0 / 3600.0) * a.time)], pre + [a])
    {
      var order := pre + [a];
      assert forall i :: 0 <= i < |pre| ==> order[i] == pre[i];
      assert order[|pre|] == a;
      forall v | 0 <= v < |slow| && !SettledIn(order, v)
        ensures v != a.node && !SettledIn(pre, v)
      {
        assert forall i :: 0 <= i < |pre| ==> order[i].node != v;
      }
    }
  }

  // Settle nodes in order of arrival and return how many were settled. `key` and
  // `slowness` are the caller's tables; a settled cell of `slowness` is left holding
  // its time in hours.
  method Propagate(slowness: array<Float>, key: array<real>, seeds: seq<Seed>, width: nat, stencil: Stencil,
                   length: seq<seq<real>>, ghost sea: Sea, ghost h: Horizon)
    returns (settled: nat, ghost order: seq<Arrival>)
    requires slowness.Length == key.Length
    requires sea == Sea(width, |length|, slowness[..], stencil, length) && sea.Valid()
    requires key[..] == Unsettled(sea).key
    requires SeedsValid(sea, seeds) && h.Holds(sea, seeds)
    modifies slowness, key
    ensures settled == |order|
    ensures Solved(sea, seeds, order)
    ensures forall i :: 0 <= i < |order| ==> 0.0 <= order[i].time < UNREACHED
    ensures Written(sea.slow, slowness[..], order)
  {
    var wave := QueueSeeds(slowness, key, seeds, |stencil.cells|, sea, h);
    settled := 0;
    while wave.size > 0
      invariant wave.Valid() && Inv(sea, seeds, h, wave.Now(), NEIGHBOURS)
      invariant Written(sea.slow, slowness[..], wave.order)
      invariant settled == |wave.order| <= |sea.slow|
      decreases |sea.slow| - |wave.order|
    {
      wave.SettleNext(sea, seeds, h, width, stencil, length);
      OrderFits(sea, wave.order);
      settled := settled + 1;
    }
    order := wave.order;
    Finished(sea, seeds, h, wave.Now());
  }

  // Queue the seeds in turn, each at its own time.
  method QueueSeeds(slowness: array<Float>, key: array<real>, seeds: seq<Seed>, patch: nat, ghost sea: Sea, ghost h: Horizon)
    returns (wave: Wave)
    requires slowness.Length == key.Length && slowness[..] == sea.slow && sea.Valid()
    requires key[..] == Unsettled(sea).key
    requires SeedsValid(sea, seeds) && h.Holds(sea, seeds)
    modifies key
    ensures wave.slowness == slowness && wave.key == key && slowness[..] == sea.slow
    ensures fresh(wave) && fresh(wave.rank) && fresh(wave.heap) && fresh(wave.pos)
    ensures fresh(wave.openCell) && fresh(wave.value) && wave.openCell.Length == wave.value.Length == patch
    ensures wave.Valid() && wave.order == [] && Inv(sea, seeds, h, wave.Now(), NEIGHBOURS)
  {
    assert forall v :: 0 <= v < key.Length ==> key[v] == Unsettled(sea).key[v];
    wave := new Wave(slowness, key, patch);
    assert wave.Now() == Unsettled(sea);
    UnsettledIsSeeded(sea, seeds, h);
    for s := 0 to |seeds|
      invariant wave.Valid() && Seeded(sea, seeds, h, wave.Now(), s)
    {
      SeedKeeps(sea, seeds, h, wave.Now(), s);
      wave.Push(seeds[s].node, seeds[s].time);
    }
    SeededIsInv(sea, seeds, h, wave.Now());
  }

  lemma Finished(sea: Sea, seeds: seq<Seed>, h: Horizon, f: Front)
    requires sea.Valid() && h.Holds(sea, seeds) && Inv(sea, seeds, h, f, NEIGHBOURS)
    requires forall v :: 0 <= v < |f.key| ==> !Queued(f, v)
    ensures Solved(sea, seeds, f.order)
    ensures forall i :: 0 <= i < |f.order| ==> 0.0 <= f.order[i].time < UNREACHED
  {
    EmptyQueueIsSolved(sea, seeds, h, f);
  }
}
