// The travel-time solver as a value: which nodes are queued with what tentative
// time, and the order in which nodes were settled. One step settles the first
// queued node by (time, rank); one relaxation offers it to one neighbour.
module Wavefront {
  import opened Ocean

  datatype Seed = Seed(node: int, time: real)

  // A settled node: its final time and the rank at which it was last queued.
  datatype Arrival = Arrival(node: int, time: real, rank: int)

  datatype Front = Front(key: seq<real>, rank: seq<int>, counter: int, order: seq<Arrival>)

  ghost predicate Before(t: real, r: int, t': real, r': int) {
    t < t' || (t == t' && r < r')
  }

  ghost predicate SettledIn(pre: seq<Arrival>, v: int) {
    exists i :: 0 <= i < |pre| && pre[i].node == v
  }

  // Every blocking cell of direction k from p is water that is not in `pre`.
  ghost predicate ClearAfter(sea: Sea, pre: seq<Arrival>, p: int, k: int)
    requires sea.Valid() && 0 <= k < NEIGHBOURS
  {
    assert sea.stencil.RowValid(k);
    sea.Clear(p, k) && forall c :: c in sea.stencil.blocks[k] ==> !SettledIn(pre, sea.At(p, c))
  }

  predicate Queued(f: Front, v: int) {
    0 <= v < |f.key| && f.key[v] < UNREACHED
  }

  ghost predicate IsNext(f: Front, v: int)
    requires |f.rank| == |f.key|
  {
    Queued(f, v) && forall u :: Queued(f, u) && u != v ==> !Before(f.key[u], f.rank[u], f.key[v], f.rank[v])
  }

  // ---------- Steps ----------

  function Enqueue(f: Front, v: int, time: real): Front
    requires 0 <= v < |f.key| == |f.rank|
  {
    f.(key := f.key[v := time], rank := f.rank[v := f.counter], counter := f.counter + 1)
  }

  function Settle(f: Front, v: int): Front
    requires 0 <= v < |f.key| == |f.rank|
  {
    f.(key := f.key[v := SETTLED], order := f.order + [Arrival(v, f.key[v], f.rank[v])])
  }

  // Offer the last settled node's direction k to the neighbour there.
  ghost function Relax(sea: Sea, f: Front, k: int): Front
    requires sea.Valid() && Shaped(sea, f) && f.order != [] && 0 <= k < NEIGHBOURS
  {
    var n := |f.order| - 1;
    var p := f.order[n].node;
    sea.PatchInside(p, k);
    var q := sea.At(p, k);
    if f.key[q] > UNREACHED || !ClearAfter(sea, f.order[..n], p, k) then f
    else
      var arrival := f.order[n].time + sea.Cost(p, k);
      if f.key[q] == UNREACHED || arrival < f.key[q] then Enqueue(f, q, arrival) else f
  }

  function Unsettled(sea: Sea): Front {
    var key := seq(|sea.slow|, v requires 0 <= v < |sea.slow| => if sea.slow[v].NaN? then BLOCKED else UNREACHED);
    Front(key, seq(|sea.slow|, _ => 0), 1, [])
  }

  // ---------- What every step keeps ----------

  ghost predicate Shaped(sea: Sea, f: Front) {
    && |f.key| == |f.rank| == |sea.slow|
    && forall i :: 0 <= i < |f.order| ==> sea.Water(f.order[i].node)
  }

  // The key table tells land, settled and unsettled water apart.
  ghost predicate Labelled(sea: Sea, f: Front)
    requires Shaped(sea, f)
  {
    forall v :: 0 <= v < |f.key| ==>
      && (!sea.Water(v) ==> f.key[v] == BLOCKED)
      && (SettledIn(f.order, v) ==> f.key[v] == SETTLED)
      && (sea.Water(v) && !SettledIn(f.order, v) ==> f.key[v] <= UNREACHED)
  }

  // Settled (time, rank) pairs strictly increase, queued pairs come after them
  // all, and no two nodes are queued at the same rank.
  ghost predicate InOrder(order: seq<Arrival>) {
    && (forall i, j :: 0 <= i < j < |order| ==> order[i].node != order[j].node)
    && (forall i, j :: 0 <= i < j < |order| ==> Before(order[i].time, order[i].rank, order[j].time, order[j].rank))
  }

  ghost predicate Ranked(f: Front)
    requires |f.key| == |f.rank|
  {
    && InOrder(f.order)
    && (forall i :: 0 <= i < |f.order| ==> f.order[i].rank < f.counter)
    && (forall v :: Queued(f, v) ==> f.rank[v] < f.counter)
    && (forall u, v :: Queued(f, u) && Queued(f, v) && u != v ==> f.rank[u] != f.rank[v])
    && (forall i, v :: 0 <= i < |f.order| && Queued(f, v) ==>
          Before(f.order[i].time, f.order[i].rank, f.key[v], f.rank[v]))
  }

  // A time that v really can be reached at: a seed's, or that of a segment from a
  // node of `pre` whose blocking cells were all open when that node was settled.
  ghost predicate Earned(sea: Sea, seeds: seq<Seed>, pre: seq<Arrival>, v: int, time: real)
    requires sea.Valid() && forall i :: 0 <= i < |pre| ==> sea.Water(pre[i].node)
  {
    || Seed(v, time) in seeds
    || exists i, k :: 0 <= i < |pre| && Leads(sea, pre, i, k, v, time)
  }

  ghost predicate Leads(sea: Sea, pre: seq<Arrival>, i: int, k: int, v: int, time: real)
    requires sea.Valid() && 0 <= i < |pre| && sea.Water(pre[i].node)
  {
    && 0 <= k < NEIGHBOURS
    && sea.At(pre[i].node, k) == v
    && ClearAfter(sea, pre[..i], pre[i].node, k)
    && time == pre[i].time + sea.Cost(pre[i].node, k)
  }

  ghost predicate AllEarned(sea: Sea, seeds: seq<Seed>, f: Front)
    requires sea.Valid() && Shaped(sea, f)
  {
    && (forall i {:trigger Earned(sea, seeds, f.order[..i], f.order[i].node, f.order[i].time)} :: 0 <= i < |f.order| ==> Earned(sea, seeds, f.order[..i], f.order[i].node, f.order[i].time))
    && (forall v :: Queued(f, v) ==> Earned(sea, seeds, f.order, v, f.key[v]))
  }

  // v is settled or queued, at `time` or sooner.
  ghost predicate ArrivesBy(f: Front, v: int, time: real) {
    || (Queued(f, v) && f.key[v] <= time)
    || exists j :: 0 <= j < |f.order| && f.order[j].node == v && f.order[j].time <= time
  }

  // Every offer made so far was taken or bettered; the last settled node has made
  // its first `done` offers.
  ghost predicate AllOffered(sea: Sea, seeds: seq<Seed>, f: Front, done: int)
    requires sea.Valid() && Shaped(sea, f)
  {
    && (forall s :: s in seeds ==> ArrivesBy(f, s.node, s.time))
    && (forall i, k ::
          0 <= i < |f.order| && 0 <= k < NEIGHBOURS && (i < |f.order| - 1 || k < done) ==>
            OfferMet(sea, f, i, k))
  }

  ghost predicate OfferMet(sea: Sea, f: Front, i: int, k: int)
    requires sea.Valid() && Shaped(sea, f) && 0 <= i < |f.order| && 0 <= k < NEIGHBOURS
  {
    var p := f.order[i].node;
    ClearAfter(sea, f.order[..i], p, k) ==> ArrivesBy(f, sea.At(p, k), f.order[i].time + sea.Cost(p, k))
  }

  // Bounds that keep every arrival below the sentinels.
  datatype Horizon = Horizon(start: real, segment: real) {
    ghost function After(n: nat): real {
      if n == 0 then start else After(n - 1) + segment
    }

    ghost predicate Holds(sea: Sea, seeds: seq<Seed>)
      requires sea.Valid()
    {
      && 0.0 <= segment
      && (forall s :: s in seeds ==> 0.0 <= s.time <= start)
      && (forall p, k :: sea.Water(p) && 0 <= k < NEIGHBOURS && sea.Clear(p, k) ==> sea.Cost(p, k) <= segment)
      && After(|sea.slow|) < UNREACHED
    }

    lemma {:induction false} Grows(m: nat, n: nat)
      requires 0.0 <= segment && m <= n
      ensures After(m) <= After(n)
      decreases n
    {
      if m == n {
      } else {
        Grows(m, n - 1);
      }
    }
  }

  ghost predicate Timely(f: Front, h: Horizon) {
    && (forall i :: 0 <= i < |f.order| ==> 0.0 <= f.order[i].time < UNREACHED)
    && (f.order != [] ==> f.order[|f.order| - 1].time <= h.After(|f.order| - 1))
    && (forall v :: Queued(f, v) ==> 0.0 <= f.key[v] <= h.After(|f.order|))
  }

  ghost predicate Inv(sea: Sea, seeds: seq<Seed>, h: Horizon, f: Front, done: int)
    requires sea.Valid()
  {
    && Shaped(sea, f) && Labelled(sea, f) && Ranked(f)
    && AllEarned(sea, seeds, f) && AllOffered(sea, seeds, f, done) && Timely(f, h)
  }

  // ---------- Settling ----------

  lemma SettleShaped(sea: Sea, f: Front, v: int)
    requires Shaped(sea, f) && Labelled(sea, f) && Queued(f, v)
    ensures sea.Water(v) && !SettledIn(f.order, v)
    ensures Shaped(sea, Settle(f, v)) && Labelled(sea, Settle(f, v))
  {
    var f' := Settle(f, v);
    assert forall i :: 0 <= i < |f.order| ==> f'.order[i] == f.order[i];
    forall u | 0 <= u < |f.key|
      ensures SettledIn(f'.order, u) <==> SettledIn(f.order, u) || u == v
    {
      assert f'.order[|f.order|].node == v;
      if SettledIn(f.order, u) {
        var i :| 0 <= i < |f.order| && f.order[i].node == u;
        assert f'.order[i].node == u;
      }
    }
  }

  lemma SettleRanked(f: Front, v: int)
    requires |f.key| == |f.rank| && Ranked(f) && IsNext(f, v) && !SettledIn(f.order, v)
    ensures Ranked(Settle(f, v))
  {
    var f' := Settle(f, v);
    assert forall u :: Queued(f', u) ==> Queued(f, u) && u != v;
    assert forall i :: 0 <= i < |f.order| ==> f.order[i].node != v;
  }

  lemma SettleEarned(sea: Sea, seeds: seq<Seed>, f: Front, v: int)
    requires sea.Valid() && Shaped(sea, f) && AllEarned(sea, seeds, f) && Queued(f, v) && sea.Water(v)
    ensures Shaped(sea, Settle(f, v)) && AllEarned(sea, seeds, Settle(f, v))
  {
    var f' := Settle(f, v);
    assert f'.order[..|f.order|] == f.order;
    forall i | 0 <= i < |f'.order|
      ensures Earned(sea, seeds, f'.order[..i], f'.order[i].node, f'.order[i].time)
    {
      if i < |f.order| {
        assert f'.order[..i] == f.order[..i];
      }
    }
    forall u | Queued(f', u)
      ensures Earned(sea, seeds, f'.order, u, f'.key[u])
    {
      EarnedGrows(sea, seeds, f.order, f'.order[|f.order|], u, f.key[u]);
    }
  }

  lemma EarnedGrows(sea: Sea, seeds: seq<Seed>, pre: seq<Arrival>, a: Arrival, v: int, time: real)
    requires sea.Valid() && (forall i :: 0 <= i < |pre| ==> sea.Water(pre[i].node)) && sea.Water(a.node)
    requires Earned(sea, seeds, pre, v, time)
    ensures Earned(sea, seeds, pre + [a], v, time)
  {
    if Seed(v, time) !in seeds {
      var i, k :| 0 <= i < |pre| && Leads(sea, pre, i, k, v, time);
      assert (pre + [a])[..i] == pre[..i];
      assert Leads(sea, pre + [a], i, k, v, time);
    }
  }

  lemma SettleArrives(f: Front, v: int, u: int, time: real)
    requires |f.key| == |f.rank| && Queued(f, v) && ArrivesBy(f, u, time)
    ensures ArrivesBy(Settle(f, v), u, time)
  {
    var f' := Settle(f, v);
    if Queued(f, u) && f.key[u] <= time {
      if u == v {
        assert f'.order[|f.order|].node == u;
      }
    } else {
      var j :| 0 <= j < |f.order| && f.order[j].node == u && f.order[j].time <= time;
      assert f'.order[j] == f.order[j];
    }
  }

  lemma SettleOffered(sea: Sea, seeds: seq<Seed>, f: Front, v: int)
    requires sea.Valid() && Shaped(sea, f) && Queued(f, v) && sea.Water(v)
    requires AllOffered(sea, seeds, f, NEIGHBOURS)
    ensures Shaped(sea, Settle(f, v)) && AllOffered(sea, seeds, Settle(f, v), 0)
  {
    var f' := Settle(f, v);
    forall s | s in seeds
      ensures ArrivesBy(f', s.node, s.time)
    {
      SettleArrives(f, v, s.node, s.time);
    }
    forall i, k | 0 <= i < |f'.order| - 1 && 0 <= k < NEIGHBOURS
      ensures OfferMet(sea, f', i, k)
    {
      assert f'.order[..i] == f.order[..i] && f'.order[i] == f.order[i];
      assert OfferMet(sea, f, i, k);
      if ClearAfter(sea, f.order[..i], f.order[i].node, k) {
        SettleArrives(f, v, sea.At(f.order[i].node, k), f.order[i].time + sea.Cost(f.order[i].node, k));
      }
    }
  }

  lemma SettleTimely(f: Front, h: Horizon, v: int)
    requires |f.key| == |f.rank| && Queued(f, v) && Timely(f, h) && 0.0 <= h.segment
    ensures Timely(Settle(f, v), h)
  {
    h.Grows(|f.order|, |f.order| + 1);
  }

  lemma SettleKeeps(sea: Sea, seeds: seq<Seed>, h: Horizon, f: Front, v: int)
    requires sea.Valid() && h.Holds(sea, seeds)
    requires Inv(sea, seeds, h, f, NEIGHBOURS) && IsNext(f, v)
    ensures Inv(sea, seeds, h, Settle(f, v), 0)
  {
    SettleShaped(sea, f, v);
    SettleRanked(f, v);
    SettleEarned(sea, seeds, f, v);
    SettleOffered(sea, seeds, f, v);
    SettleTimely(f, h, v);
  }

  // ---------- Queueing ----------

  lemma EnqueueRanked(f: Front, v: int, time: real)
    requires |f.key| == |f.rank| && Ranked(f) && 0 <= v < |f.key|
    requires time < UNREACHED && forall i :: 0 <= i < |f.order| ==> f.order[i].time <= time
    ensures Ranked(Enqueue(f, v, time))
  {
    var f' := Enqueue(f, v, time);
    forall u | Queued(f', u)
      ensures u == v || (Queued(f, u) && f'.rank[u] == f.rank[u] && f'.key[u] == f.key[u])
    {
    }
  }

  lemma EnqueueArrives(f: Front, v: int, time: real, u: int, t: real)
    requires |f.key| == |f.rank| && 0 <= v < |f.key|
    requires time < UNREACHED && (f.key[v] == UNREACHED || time < f.key[v])
    requires ArrivesBy(f, u, t)
    ensures ArrivesBy(Enqueue(f, v, time), u, t)
  {
  }

  lemma EnqueueOffered(sea: Sea, seeds: seq<Seed>, f: Front, done: int, v: int, time: real)
    requires sea.Valid() && Shaped(sea, f) && AllOffered(sea, seeds, f, done) && 0 <= v < |f.key|
    requires time < UNREACHED && (f.key[v] == UNREACHED || time < f.key[v])
    ensures AllOffered(sea, seeds, Enqueue(f, v, time), done)
  {
    var f' := Enqueue(f, v, time);
    forall s | s in seeds
      ensures ArrivesBy(f', s.node, s.time)
    {
      EnqueueArrives(f, v, time, s.node, s.time);
    }
    forall i, k | 0 <= i < |f.order| && 0 <= k < NEIGHBOURS && (i < |f.order| - 1 || k < done)
      ensures OfferMet(sea, f', i, k)
    {
      assert OfferMet(sea, f, i, k);
      var p := f.order[i].node;
      if ClearAfter(sea, f.order[..i], p, k) {
        EnqueueArrives(f, v, time, sea.At(p, k), f.order[i].time + sea.Cost(p, k));
      }
    }
  }

  lemma EnqueueEarned(sea: Sea, seeds: seq<Seed>, f: Front, v: int, time: real)
    requires sea.Valid() && Shaped(sea, f) && Labelled(sea, f) && AllEarned(sea, seeds, f)
    requires sea.Water(v) && !SettledIn(f.order, v) && time < UNREACHED && Earned(sea, seeds, f.order, v, time)
    ensures Shaped(sea, Enqueue(f, v, time)) && Labelled(sea, Enqueue(f, v, time))
    ensures AllEarned(sea, seeds, Enqueue(f, v, time))
  {
  }

  lemma EnqueueKeeps(sea: Sea, seeds: seq<Seed>, h: Horizon, f: Front, done: int, v: int, time: real)
    requires sea.Valid()
    requires Inv(sea, seeds, h, f, done)
    requires sea.Water(v) && !SettledIn(f.order, v)
    requires f.key[v] == UNREACHED || time < f.key[v]
    requires time < UNREACHED && 0.0 <= time <= h.After(|f.order|)
    requires forall i :: 0 <= i < |f.order| ==> f.order[i].time <= time
    requires Earned(sea, seeds, f.order, v, time)
    ensures Inv(sea, seeds, h, Enqueue(f, v, time), done)
  {
    EnqueueRanked(f, v, time);
    EnqueueOffered(sea, seeds, f, done, v, time);
    EnqueueEarned(sea, seeds, f, v, time);
  }

  // A clear direction from the last settled node earns its neighbour a time.
  lemma OfferIsEarned(sea: Sea, seeds: seq<Seed>, f: Front, k: int, a: Arrival, q: int, time: real)
    requires sea.Valid() && Shaped(sea, f)
    requires f.order != [] && a == f.order[|f.order| - 1] && 0 <= k < NEIGHBOURS
    requires ClearAfter(sea, f.order[..|f.order| - 1], a.node, k)
    requires q == sea.At(a.node, k) && time == a.time + sea.Cost(a.node, k)
    ensures Earned(sea, seeds, f.order, q, time)
  {
    assert Leads(sea, f.order, |f.order| - 1, k, q, time);
  }

  // That time is not before anything settled, and stays under the sentinels.
  lemma OfferIsTimely(sea: Sea, order: seq<Arrival>, h: Horizon, a: Arrival, time: real)
    requires InOrder(order) && 0 < |order| <= |sea.slow| && a == order[|order| - 1]
    requires 0.0 <= a.time <= h.After(|order| - 1)
    requires 0.0 <= h.segment && a.time <= time <= a.time + h.segment && h.After(|sea.slow|) < UNREACHED
    ensures 0.0 <= time <= h.After(|order|) && time < UNREACHED
    ensures forall i :: 0 <= i < |order| ==> order[i].time <= time
  {
    var n := |order| - 1;
    h.Grows(n + 1, |sea.slow|);
    assert forall i :: 0 <= i < n ==> Before(order[i].time, order[i].rank, order[n].time, order[n].rank);
  }

  // No more nodes are settled than there are cells.
  lemma OrderFits(sea: Sea, order: seq<Arrival>)
    requires forall i :: 0 <= i < |order| ==> sea.Water(order[i].node)
    requires InOrder(order)
    ensures |order| <= |sea.slow|
  {
    var nodes := seq(|order|, i requires 0 <= i < |order| => order[i].node);
    DistinctFit(nodes, |sea.slow|);
  }

  lemma {:induction false} DistinctFit(s: seq<int>, n: nat)
    requires forall i :: 0 <= i < |s| ==> 0 <= s[i] < n
    requires forall i, j :: 0 <= i < j < |s| ==> s[i] != s[j]
    ensures |s| <= n
  {
    if s == [] {
    } else if i :| 0 <= i < |s| && s[i] == n - 1 {
      var t := s[..i] + s[i + 1..];
      DistinctFit(t, n - 1);
    } else {
      assert 0 <= s[0] < n;
      DistinctFit(s, n - 1);
    }
  }

  // A clear direction leads to a node that is not settled, or back to its start.
  lemma OfferTarget(sea: Sea, f: Front, k: int, a: Arrival, q: int)
    requires sea.Valid() && Shaped(sea, f)
    requires f.order != [] && a == f.order[|f.order| - 1] && 0 <= k < NEIGHBOURS
    requires ClearAfter(sea, f.order[..|f.order| - 1], a.node, k) && q == sea.At(a.node, k)
    ensures sea.Water(q) && (q == a.node || !SettledIn(f.order, q))
  {
    sea.stencil.OwnCell(k);
  }

  lemma OneMoreOffer(sea: Sea, seeds: seq<Seed>, f: Front, k: int)
    requires sea.Valid() && Shaped(sea, f) && f.order != [] && 0 <= k < NEIGHBOURS
    requires AllOffered(sea, seeds, f, k) && OfferMet(sea, f, |f.order| - 1, k)
    ensures AllOffered(sea, seeds, f, k + 1)
  {
  }

  // What a clear direction's offer needs before it may be queued.
  ghost predicate Offerable(sea: Sea, seeds: seq<Seed>, h: Horizon, f: Front, q: int, time: real)
    requires sea.Valid() && Shaped(sea, f)
  {
    && sea.Water(q)
    && time < UNREACHED && 0.0 <= time <= h.After(|f.order|)
    && (forall i :: 0 <= i < |f.order| ==> f.order[i].time <= time)
    && Earned(sea, seeds, f.order, q, time)
  }

  lemma OfferInTime(sea: Sea, seeds: seq<Seed>, h: Horizon, f: Front, k: int, a: Arrival, time: real)
    requires sea.Valid() && h.Holds(sea, seeds) && Shaped(sea, f) && InOrder(f.order) && Timely(f, h)
    requires f.order != [] && a == f.order[|f.order| - 1] && 0 <= k < NEIGHBOURS
    requires sea.Clear(a.node, k) && time == a.time + sea.Cost(a.node, k)
    ensures 0.0 <= time <= h.After(|f.order|) && time < UNREACHED
    ensures forall i :: 0 <= i < |f.order| ==> f.order[i].time <= time
  {
    sea.CostIsNonNegative(a.node, k);
    OrderFits(sea, f.order);
    OfferIsTimely(sea, f.order, h, a, time);
  }

  lemma OfferIsSound(sea: Sea, seeds: seq<Seed>, h: Horizon, f: Front, done: int, k: int,
                     a: Arrival, q: int, time: real)
    requires sea.Valid() && h.Holds(sea, seeds) && Inv(sea, seeds, h, f, done)
    requires f.order != [] && a == f.order[|f.order| - 1] && 0 <= k < NEIGHBOURS
    requires ClearAfter(sea, f.order[..|f.order| - 1], a.node, k)
    requires q == sea.At(a.node, k) && time == a.time + sea.Cost(a.node, k)
    ensures Offerable(sea, seeds, h, f, q, time)
    ensures q == a.node || !SettledIn(f.order, q)
  {
    OfferTarget(sea, f, k, a, q);
    OfferIsEarned(sea, seeds, f, k, a, q, time);
    OfferInTime(sea, seeds, h, f, k, a, time);
  }

  lemma EnqueueOffer(sea: Sea, seeds: seq<Seed>, h: Horizon, f: Front, done: int, q: int, time: real)
    requires sea.Valid() && Inv(sea, seeds, h, f, done) && Offerable(sea, seeds, h, f, q, time)
    requires !SettledIn(f.order, q) && (f.key[q] == UNREACHED || time < f.key[q])
    ensures Inv(sea, seeds, h, Enqueue(f, q, time), done) && ArrivesBy(Enqueue(f, q, time), q, time)
  {
    EnqueueKeeps(sea, seeds, h, f, done, q, time);
  }

  // Taking a clear direction either queues its neighbour or leaves all as it is.
  lemma RelaxCases(sea: Sea, f: Front, k: int, a: Arrival, q: int, time: real)
    requires sea.Valid() && Shaped(sea, f) && Labelled(sea, f) && f.order != [] && 0 <= k < NEIGHBOURS
    requires a == f.order[|f.order| - 1] && ClearAfter(sea, f.order[..|f.order| - 1], a.node, k)
    requires q == sea.At(a.node, k) && time == a.time + sea.Cost(a.node, k)
    ensures sea.Water(q)
    ensures q != a.node && (f.key[q] == UNREACHED || time < f.key[q]) ==> Relax(sea, f, k) == Enqueue(f, q, time)
    ensures q == a.node || (f.key[q] != UNREACHED && f.key[q] <= time) ==>
              Relax(sea, f, k) == f && (a.time <= time ==> ArrivesBy(f, q, time))
  {
    OfferTarget(sea, f, k, a, q);
    var n := |f.order| - 1;
    assert SettledIn(f.order, f.order[n].node);
  }

  // The same in the words of the loop: what to do once the segment was tested.
  lemma RelaxByCases(sea: Sea, seeds: seq<Seed>, h: Horizon, f: Front, k: int,
                     a: Arrival, q: int, free: bool, arrival: real)
    requires sea.Valid() && h.Holds(sea, seeds) && Inv(sea, seeds, h, f, k)
    requires f.order != [] && a == f.order[|f.order| - 1] && 0 <= k < NEIGHBOURS && q == sea.At(a.node, k)
    requires 0 <= q < |f.key| && f.key[q] <= UNREACHED
    requires free <==> ClearAfter(sea, f.order[..|f.order| - 1], a.node, k)
    requires free ==> arrival == a.time + sea.Cost(a.node, k)
    ensures free ==> arrival < UNREACHED
    ensures Relax(sea, f, k) ==
            if free && (f.key[q] == UNREACHED || arrival < f.key[q]) then Enqueue(f, q, arrival) else f
  {
    if free {
      OfferIsSound(sea, seeds, h, f, k, k, a, q, arrival);
      RelaxCases(sea, f, k, a, q, arrival);
      assert SettledIn(f.order, a.node);
    }
  }

  // All the loop has to know to offer direction k: where it leads, and what to do once
  // its segment is tested.
  ghost predicate OfferDecided(sea: Sea, f: Front, k: int)
    requires sea.Valid() && Shaped(sea, f) && f.order != [] && 0 <= k < NEIGHBOURS
  {
    var n := |f.order| - 1;
    var a := f.order[n];
    var q := sea.At(a.node, k);
    && 0 <= q < |f.key|
    && (f.key[q] > UNREACHED || !ClearAfter(sea, f.order[..n], a.node, k) ==> Relax(sea, f, k) == f)
    && (f.key[q] <= UNREACHED && ClearAfter(sea, f.order[..n], a.node, k) ==>
          TakesOffer(f, q, a.time + sea.Cost(a.node, k), Relax(sea, f, k)))
  }

  ghost predicate TakesOffer(f: Front, q: int, arrival: real, f': Front)
    requires |f.key| == |f.rank| && 0 <= q < |f.key|
  {
    && arrival < UNREACHED
    && f' == if f.key[q] == UNREACHED || arrival < f.key[q] then Enqueue(f, q, arrival) else f
  }

  lemma OfferIsDecided(sea: Sea, seeds: seq<Seed>, h: Horizon, f: Front, k: int)
    requires sea.Valid() && h.Holds(sea, seeds) && Inv(sea, seeds, h, f, k) && f.order != [] && 0 <= k < NEIGHBOURS
    ensures OfferDecided(sea, f, k)
  {
    var n := |f.order| - 1;
    var a := f.order[n];
    sea.PatchInside(a.node, k);
    var q := sea.At(a.node, k);
    if f.key[q] <= UNREACHED {
      var free := ClearAfter(sea, f.order[..n], a.node, k);
      RelaxByCases(sea, seeds, h, f, k, a, q, free, if free then a.time + sea.Cost(a.node, k) else 0.0);
    }
  }

  lemma RelaxMeetsOffer(sea: Sea, seeds: seq<Seed>, h: Horizon, f: Front, k: int)
    requires sea.Valid() && h.Holds(sea, seeds)
    requires Inv(sea, seeds, h, f, k) && f.order != [] && 0 <= k < NEIGHBOURS
    requires ClearAfter(sea, f.order[..|f.order| - 1], f.order[|f.order| - 1].node, k)
    ensures Inv(sea, seeds, h, Relax(sea, f, k), k) && Relax(sea, f, k).order == f.order
    ensures var a := f.order[|f.order| - 1];
            ArrivesBy(Relax(sea, f, k), sea.At(a.node, k), a.time + sea.Cost(a.node, k))
  {
    var a := f.order[|f.order| - 1];
    var q, time := sea.At(a.node, k), a.time + sea.Cost(a.node, k);
    RelaxCases(sea, f, k, a, q, time);
    OfferIsSound(sea, seeds, h, f, k, k, a, q, time);
    if q != a.node && (f.key[q] == UNREACHED || time < f.key[q]) {
      EnqueueOffer(sea, seeds, h, f, k, q, time);
    }
  }

  lemma RelaxKeeps(sea: Sea, seeds: seq<Seed>, h: Horizon, f: Front, k: int)
    requires sea.Valid() && h.Holds(sea, seeds)
    requires Inv(sea, seeds, h, f, k) && f.order != [] && 0 <= k < NEIGHBOURS
    ensures Inv(sea, seeds, h, Relax(sea, f, k), k + 1) && Relax(sea, f, k).order == f.order
  {
    var n := |f.order| - 1;
    if ClearAfter(sea, f.order[..n], f.order[n].node, k) {
      RelaxMeetsOffer(sea, seeds, h, f, k);
    } else {
      sea.PatchInside(f.order[n].node, k);
    }
    assert OfferMet(sea, Relax(sea, f, k), n, k);
    OneMoreOffer(sea, seeds, Relax(sea, f, k), k);
  }

  // ---------- Seeding ----------

  // Distinct water nodes to start from.
  ghost predicate SeedsValid(sea: Sea, seeds: seq<Seed>) {
    && (forall i :: 0 <= i < |seeds| ==> sea.Water(seeds[i].node))
    && (forall i, j :: 0 <= i < j < |seeds| ==> seeds[i].node != seeds[j].node)
  }

  // The first n seeds are queued and nothing is settled.
  ghost predicate Seeded(sea: Sea, seeds: seq<Seed>, h: Horizon, f: Front, n: int)
    requires sea.Valid()
  {
    && 0 <= n <= |seeds| && f.order == []
    && Shaped(sea, f) && Labelled(sea, f) && Ranked(f) && AllEarned(sea, seeds, f) && Timely(f, h)
    && (forall i :: 0 <= i < n ==> ArrivesBy(f, seeds[i].node, seeds[i].time))
    && (forall i :: n <= i < |seeds| && sea.Water(seeds[i].node) ==> f.key[seeds[i].node] == UNREACHED)
  }

  lemma SeedKeeps(sea: Sea, seeds: seq<Seed>, h: Horizon, f: Front, n: int)
    requires sea.Valid() && h.Holds(sea, seeds) && SeedsValid(sea, seeds)
    requires Seeded(sea, seeds, h, f, n) && n < |seeds|
    ensures seeds[n].time < UNREACHED && f.key[seeds[n].node] == UNREACHED
    ensures Seeded(sea, seeds, h, Enqueue(f, seeds[n].node, seeds[n].time), n + 1)
  {
    var v, time := seeds[n].node, seeds[n].time;
    var f' := Enqueue(f, v, time);
    assert seeds[n] in seeds && h.After(0) == h.start;
    h.Grows(0, |sea.slow|);
    EnqueueRanked(f, v, time);
    assert Earned(sea, seeds, f.order, v, time);
    forall i | 0 <= i < n
      ensures ArrivesBy(f', seeds[i].node, seeds[i].time)
    {
      EnqueueArrives(f, v, time, seeds[i].node, seeds[i].time);
    }
  }

  lemma UnsettledIsSeeded(sea: Sea, seeds: seq<Seed>, h: Horizon)
    requires sea.Valid() && SeedsValid(sea, seeds)
    ensures Seeded(sea, seeds, h, Unsettled(sea), 0)
  {
  }

  lemma SeededIsInv(sea: Sea, seeds: seq<Seed>, h: Horizon, f: Front)
    requires sea.Valid() && Seeded(sea, seeds, h, f, |seeds|)
    ensures Inv(sea, seeds, h, f, NEIGHBOURS)
  {
    forall s | s in seeds
      ensures ArrivesBy(f, s.node, s.time)
    {
      var i :| 0 <= i < |seeds| && seeds[i] == s;
    }
  }
}
