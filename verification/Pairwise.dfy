// Test cases from lists of parameter values: every combination, or a greedy cover of
// every pair of values of two parameters.
module Pairwise {

  import opened Wrappers
  import opened Collections

  // Python's max of no candidates raises.
  datatype Failure = EmptyList

  // Value a of parameter i together with value b of a later parameter j.
  datatype Pair<V> = Pair(i: nat, a: V, j: nat, b: V)

  // A case takes, for each parameter, one of its listed values.
  predicate Listed<V(==)>(values: seq<seq<V>>, combo: seq<V>) {
    |combo| == |values| && forall k :: 0 <= k < |values| ==> combo[k] in values[k]
  }

  predicate AllListed<V(==)>(values: seq<seq<V>>, cases: seq<seq<V>>) {
    forall k :: 0 <= k < |cases| ==> Listed(values, cases[k])
  }

  lemma ListGrows<V>(values: seq<seq<V>>, cases: seq<seq<V>>, combo: seq<V>)
    requires AllListed(values, cases) && Listed(values, combo)
    ensures AllListed(values, cases + [combo])
  {
  }

  // ---------- Every combination ----------

  // One case for each value of the last parameter.
  function Extended<V>(combo: seq<V>, last: seq<V>): (cases: seq<seq<V>>)
    ensures |cases| == |last| && forall k :: 0 <= k < |last| ==> cases[k] == combo + [last[k]]
  {
    seq(|last|, k requires 0 <= k < |last| => combo + [last[k]])
  }

  function ExtendAll<V>(combos: seq<seq<V>>, last: seq<V>): (cases: seq<seq<V>>)
    ensures |cases| == |combos| * |last|
    decreases |combos|
  {
    if combos == [] then []
    else
      assert |combos| * |last| == (|combos| - 1) * |last| + |last|;
      ExtendAll(combos[..|combos| - 1], last) + Extended(combos[|combos| - 1], last)
  }

  // The product of the lists, the last parameter varying fastest.
  function Exhaustive<V>(values: seq<seq<V>>): (cases: seq<seq<V>>)
    decreases |values|
  {
    if values == [] then [[]] else ExtendAll(Exhaustive(values[..|values| - 1]), values[|values| - 1])
  }

  lemma {:induction false} ExtendAllHolds<V>(combos: seq<seq<V>>, last: seq<V>, c: seq<V>)
    ensures c in ExtendAll(combos, last) <==> c != [] && c[..|c| - 1] in combos && c[|c| - 1] in last
    decreases |combos|
  {
    if combos == [] {
    } else {
      var front, end := combos[..|combos| - 1], combos[|combos| - 1];
      ExtendAllHolds(front, last, c);
      assert combos == front + [end];
      if c != [] && c[..|c| - 1] == end && c[|c| - 1] in last {
        var k :| 0 <= k < |last| && last[k] == c[|c| - 1];
        assert c == end + [last[k]] && Extended(end, last)[k] == c;
      }
      if c in Extended(end, last) {
        var k :| 0 <= k < |last| && Extended(end, last)[k] == c;
        assert c[..|c| - 1] == end;
      }
    }
  }

  // The product holds the listed combinations and no others.
  lemma {:induction false} ExhaustiveIsListed<V>(values: seq<seq<V>>, c: seq<V>)
    ensures c in Exhaustive(values) <==> Listed(values, c)
    decreases |values|
  {
    if values == [] {
    } else {
      var front := values[..|values| - 1];
      ExtendAllHolds(Exhaustive(front), values[|values| - 1], c);
      if c != [] {
        var rest := c[..|c| - 1];
        ExhaustiveIsListed(front, rest);
        if Listed(front, rest) && c[|c| - 1] in values[|values| - 1] {
          assert forall k :: 0 <= k < |front| ==> c[k] == rest[k] && front[k] == values[k];
          assert Listed(values, c);
        }
        if Listed(values, c) {
          assert forall k :: 0 <= k < |front| ==> c[k] == rest[k] && front[k] == values[k];
          assert Listed(front, rest);
        }
      }
    }
  }

  lemma {:induction false} ExtendAllAt<V>(combos: seq<seq<V>>, last: seq<V>, k: nat, q: nat)
    requires k < |combos| && q < |last|
    ensures 0 <= k * |last| + q < |ExtendAll(combos, last)|
    ensures ExtendAll(combos, last)[k * |last| + q] == combos[k] + [last[q]]
    decreases |combos|
  {
    var front, n := combos[..|combos| - 1], |last|;
    assert |front| * n == (|combos| - 1) * n == |combos| * n - n;
    if k == |combos| - 1 {
    } else {
      ExtendAllAt(front, last, k, q);
    }
  }

  // The cases come in the order of their first parts, each with the last values in turn.
  lemma ExhaustiveIsInOrder<V>(values: seq<seq<V>>, k: nat, q: nat)
    requires values != []
    requires k < |Exhaustive(values[..|values| - 1])| && q < |values[|values| - 1]|
    ensures 0 <= k * |values[|values| - 1]| + q < |Exhaustive(values)|
    ensures |Exhaustive(values)| == |Exhaustive(values[..|values| - 1])| * |values[|values| - 1]|
    ensures Exhaustive(values)[k * |values[|values| - 1]| + q]
            == Exhaustive(values[..|values| - 1])[k] + [values[|values| - 1][q]]
  {
    ExtendAllAt(Exhaustive(values[..|values| - 1]), values[|values| - 1], k, q);
  }

  // ---------- Pairs ----------

  function AllPairs<V(==)>(values: seq<seq<V>>): set<Pair<V>> {
    set i, j, a, b | 0 <= i < |values| && i < j < |values| && a in values[i] && b in values[j] :: Pair(i, a, j, b)
  }

  function PairsIn<V(==)>(combo: seq<V>): set<Pair<V>> {
    set i, j | 0 <= i < |combo| && i < j < |combo| :: Pair(i, combo[i], j, combo[j])
  }

  function PairKey<V>(i: nat, a: V, j: nat, b: V): Pair<V> {
    if i < j then Pair(i, a, j, b) else Pair(j, b, i, a)
  }

  // ---------- The greedy choice ----------

  // Uncovered pairs a candidate would complete with the values chosen so far.
  function NewlyCovered<V(==)>(candidate: V, index: nat, chosen: map<nat, V>, uncovered: set<Pair<V>>): nat {
    |set other | other in chosen && PairKey(other, chosen[other], index, candidate) in uncovered|
  }

  // The pairs of the values chosen so far.
  ghost function PairsOf<V>(chosen: map<nat, V>): set<Pair<V>> {
    set i, j | i in chosen && j in chosen && i < j :: Pair(i, chosen[i], j, chosen[j])
  }

  lemma CompleteChoiceHasItsPairs<V>(combo: seq<V>)
    ensures PairsOf(AsMap(combo)) == PairsIn(combo)
  {
    var chosen := AsMap(combo);
    forall p | p in PairsOf(chosen)
      ensures p in PairsIn(combo)
    {
      assert p.i < |combo| && p.j < |combo| && p == Pair(p.i, combo[p.i], p.j, combo[p.j]);
    }
    forall p | p in PairsIn(combo)
      ensures p in PairsOf(chosen)
    {
      assert p.i in chosen && p.j in chosen && p == Pair(p.i, chosen[p.i], p.j, chosen[p.j]);
    }
  }

  // Those a candidate for `index` would add.
  ghost function PairsWith<V>(others: set<nat>, candidate: V, index: nat, chosen: map<nat, V>): set<Pair<V>>
    requires others <= chosen.Keys
  {
    set other | other in others :: PairKey(other, chosen[other], index, candidate)
  }

  lemma {:induction false} OnePairEach<V>(others: set<nat>, candidate: V, index: nat, chosen: map<nat, V>)
    requires others <= chosen.Keys && index !in chosen
    ensures |PairsWith(others, candidate, index, chosen)| == |others|
    decreases others
  {
    if others == {} {
      assert PairsWith(others, candidate, index, chosen) == {};
    } else {
      var k := Member(others);
      var rest := others - {k};
      OnePairEach(rest, candidate, index, chosen);
      var key := PairKey(k, chosen[k], index, candidate);
      assert PairsWith(others, candidate, index, chosen) == PairsWith(rest, candidate, index, chosen) + {key};
      assert key !in PairsWith(rest, candidate, index, chosen);
    }
  }

  lemma GrownPair<V>(candidate: V, index: nat, chosen: map<nat, V>, others: set<nat>, p: Pair<V>)
    requires index !in chosen && others <= chosen.Keys
    ensures p in PairsOf(chosen[index := candidate]) && p !in PairsOf(chosen) ==> p in PairsWith(chosen.Keys, candidate, index, chosen)
    ensures p in PairsOf(chosen) || p in PairsWith(others, candidate, index, chosen) ==> p in PairsOf(chosen[index := candidate])
    ensures p in PairsWith(others, candidate, index, chosen) ==> p !in PairsOf(chosen)
  {
    var after := chosen[index := candidate];
    if p in PairsOf(after) && p !in PairsOf(chosen) {
      assert p.i == index || p.j == index;
      var other := if p.i == index then p.j else p.i;
      assert other in chosen && p == PairKey(other, chosen[other], index, candidate);
    }
    if p in PairsOf(chosen) {
      assert p.i in after && p.j in after && p == Pair(p.i, after[p.i], p.j, after[p.j]);
    }
    if p in PairsWith(others, candidate, index, chosen) {
      var other :| other in others && p == PairKey(other, chosen[other], index, candidate);
      assert p.i in after && p.j in after && p == Pair(p.i, after[p.i], p.j, after[p.j]);
    }
  }

  lemma UncoveredPair<V>(candidate: V, index: nat, chosen: map<nat, V>, uncovered: set<Pair<V>>, others: set<nat>, p: Pair<V>)
    requires others == set other | other in chosen && PairKey(other, chosen[other], index, candidate) in uncovered
    ensures p in PairsWith(others, candidate, index, chosen) <==> p in PairsWith(chosen.Keys, candidate, index, chosen) && p in uncovered
  {
    if p in PairsWith(chosen.Keys, candidate, index, chosen) && p in uncovered {
      var other :| other in chosen.Keys && p == PairKey(other, chosen[other], index, candidate);
      assert other in others;
    }
  }

  // A candidate counts for the uncovered pairs that the choice grows by when it is taken.
  lemma CandidateCountsItsGrowth<V>(candidate: V, index: nat, chosen: map<nat, V>, uncovered: set<Pair<V>>)
    requires index !in chosen
    ensures |PairsOf(chosen[index := candidate]) * uncovered|
            == |PairsOf(chosen) * uncovered| + NewlyCovered(candidate, index, chosen, uncovered)
  {
    var others := set other | other in chosen && PairKey(other, chosen[other], index, candidate) in uncovered;
    var before, added := PairsOf(chosen) * uncovered, PairsWith(others, candidate, index, chosen);
    OnePairEach(others, candidate, index, chosen);
    forall p
      ensures p in PairsOf(chosen[index := candidate]) * uncovered <==> p in before + added
      ensures !(p in before && p in added)
    {
      GrownPair(candidate, index, chosen, others, p);
      UncoveredPair(candidate, index, chosen, uncovered, others, p);
    }
    assert PairsOf(chosen[index := candidate]) * uncovered == before + added;
  }

  // Candidate k completes the most uncovered pairs, and none before it as many.
  ghost predicate FirstBest<V>(candidates: seq<V>, index: nat, chosen: map<nat, V>, uncovered: set<Pair<V>>, k: nat) {
    && k < |candidates|
    && (forall q :: 0 <= q < |candidates| ==>
          NewlyCovered(candidates[q], index, chosen, uncovered) <= NewlyCovered(candidates[k], index, chosen, uncovered))
    && (forall q :: 0 <= q < k ==>
          NewlyCovered(candidates[q], index, chosen, uncovered) < NewlyCovered(candidates[k], index, chosen, uncovered))
  }

  method BestValue<V(==)>(candidates: seq<V>, index: nat, chosen: map<nat, V>, uncovered: set<Pair<V>>)
    returns (r: Result<V, Failure>, k: nat)
    ensures r.Err? <==> candidates == []
    ensures r.Ok? ==> FirstBest(candidates, index, chosen, uncovered, k) && r.value == candidates[k]
  {
    k := 0;
    if candidates == [] {
      return Err(EmptyList), k;
    }
    for q := 1 to |candidates|
      invariant k < q
      invariant forall p :: 0 <= p < q ==>
                  NewlyCovered(candidates[p], index, chosen, uncovered)
                  <= NewlyCovered(candidates[k], index, chosen, uncovered)
      invariant forall p :: 0 <= p < k ==>
                  NewlyCovered(candidates[p], index, chosen, uncovered)
                  < NewlyCovered(candidates[k], index, chosen, uncovered)
    {
      if NewlyCovered(candidates[k], index, chosen, uncovered) < NewlyCovered(candidates[q], index, chosen, uncovered) {
        k := q;
      }
    }
    r := Ok(candidates[k]);
  }

  // A parameter the seed leaves open has no value to take.
  ghost predicate Stuck<V>(values: seq<seq<V>>, seed: Pair<V>) {
    exists k :: 0 <= k < |values| && k != seed.i && k != seed.j && values[k] == []
  }

  // What is settled when parameter `index` takes its value: the seed and the earlier ones.
  ghost function Settled<V>(chosen: map<nat, V>, seed: Pair<V>, index: nat): map<nat, V> {
    map k | k in chosen && (k < index || k == seed.i || k == seed.j) :: chosen[k]
  }

  // Parameter `index` took the first best value for what was settled then.
  ghost predicate Greedy<V>(values: seq<seq<V>>, uncovered: set<Pair<V>>, seed: Pair<V>, chosen: map<nat, V>, index: nat)
    requires index < |values|
  {
    index == seed.i || index == seed.j ||
    (index in chosen && exists k: nat ::
       FirstBest(values[index], index, Settled(chosen, seed, index), uncovered, k) && chosen[index] == values[index][k])
  }

  ghost function AsMap<V>(combo: seq<V>): map<nat, V> {
    map k: nat | k < |combo| :: combo[k]
  }

  // Choosing for `index` leaves the earlier choices greedy.
  lemma GreedyStays<V>(values: seq<seq<V>>, uncovered: set<Pair<V>>, seed: Pair<V>, chosen: map<nat, V>, index: nat, at: nat,
                       after: map<nat, V>)
    requires index < |values| && index !in chosen && seed.i in chosen && seed.j in chosen
    requires forall k: nat :: k in chosen ==> k < index || k == seed.i || k == seed.j
    requires forall k :: 0 <= k < index ==> Greedy(values, uncovered, seed, chosen, k)
    requires FirstBest(values[index], index, chosen, uncovered, at) && after == chosen[index := values[index][at]]
    ensures forall k :: 0 <= k <= index ==> Greedy(values, uncovered, seed, after, k)
  {
    assert Settled(after, seed, index) == chosen;
    forall k | 0 <= k < index
      ensures Greedy(values, uncovered, seed, after, k)
    {
      assert Greedy(values, uncovered, seed, chosen, k);
      assert Settled(after, seed, k) == Settled(chosen, seed, k);
    }
  }

  // One case that holds the seed pair, filled up greedily in parameter order.
  method GreedyCombination<V(==)>(values: seq<seq<V>>, uncovered: set<Pair<V>>, seed: Pair<V>) returns (r: Result<seq<V>, Failure>)
    requires seed in AllPairs(values)
    ensures r.Err? <==> Stuck(values, seed)
    ensures r.Ok? ==> Listed(values, r.value) && seed in PairsIn(r.value)
    ensures r.Ok? ==> forall k :: 0 <= k < |values| ==> Greedy(values, uncovered, seed, AsMap(r.value), k)
  {
    var chosen: map<nat, V> := map[seed.i := seed.a, seed.j := seed.b];
    for index := 0 to |values|
      invariant forall k: nat :: k in chosen <==> k < index || k == seed.i || k == seed.j
      invariant forall k: nat :: k in chosen ==> k < |values| && chosen[k] in values[k]
      invariant chosen[seed.i] == seed.a && chosen[seed.j] == seed.b
      invariant forall k :: 0 <= k < index && k != seed.i && k != seed.j ==> values[k] != []
      invariant forall k :: 0 <= k < index ==> Greedy(values, uncovered, seed, chosen, k)
    {
      if index !in chosen {
        var best, at := BestValue(values[index], index, chosen, uncovered);
        if best.Err? {
          return Err(EmptyList);
        }
        GreedyStays(values, uncovered, seed, chosen, index, at, chosen[index := best.value]);
        chosen := chosen[index := best.value];
      }
    }
    r := Ok(seq(|values|, k requires 0 <= k < |values| && k in chosen => chosen[k]));
    assert r.value[seed.i] == seed.a && r.value[seed.j] == seed.b;
    assert AsMap(r.value) == chosen;
  }

  // ---------- The cover ----------

  ghost predicate Covered<V>(p: Pair<V>, cases: seq<seq<V>>) {
    exists k :: 0 <= k < |cases| && p in PairsIn(cases[k])
  }

  // Some list is empty while two others are not.
  ghost predicate Unfillable<V>(values: seq<seq<V>>) {
    exists i, j, k :: 0 <= i < j < |values| && 0 <= k < |values| && k != i && k != j
                      && values[i] != [] && values[j] != [] && values[k] == []
  }

  // Two parameters with a value each and a third with none have no covering cases.
  lemma EmptyThirdIsUnfillable()
    ensures Unfillable([[0], [1], []]) && Pair(0, 0, 1, 1) in AllPairs([[0], [1], []])
  {
    var values := [[0], [1], []];
    assert values[0] != [] && values[1] != [] && values[2] == [];
  }

  lemma CoverShrinks<T>(uncovered: set<T>, done: set<T>, seed: T)
    requires seed in uncovered && seed in done
    ensures |uncovered - done| < |uncovered|
  {
    SubsetIsNoLarger(uncovered - done, uncovered - {seed});
  }

  // A pair of values exists once two lists have values.
  lemma UnfillableSticksAtOnce<V>(values: seq<seq<V>>, seed: Pair<V>)
    requires seed in AllPairs(values)
    ensures Stuck(values, seed) <==> Unfillable(values)
  {
    if Stuck(values, seed) {
      var k :| 0 <= k < |values| && k != seed.i && k != seed.j && values[k] == [];
      assert values[seed.i] != [] && values[seed.j] != [];
    }
    if Unfillable(values) {
      var i, j, k :| 0 <= i < j < |values| && 0 <= k < |values| && k != i && k != j
                     && values[i] != [] && values[j] != [] && values[k] == [];
      assert k != seed.i && k != seed.j;
    }
  }

  lemma UnfillableHasPairs<V>(values: seq<seq<V>>) returns (p: Pair<V>)
    requires Unfillable(values)
    ensures p in AllPairs(values)
  {
    var i, j, k :| 0 <= i < j < |values| && 0 <= k < |values| && k != i && k != j
                   && values[i] != [] && values[j] != [] && values[k] == [];
    p := Pair(i, values[i][0], j, values[j][0]);
  }

  lemma CoverGrows<V>(all: set<Pair<V>>, uncovered: set<Pair<V>>, cases: seq<seq<V>>, combo: seq<V>)
    requires forall p :: p in all ==> p in uncovered || Covered(p, cases)
    ensures forall p :: p in all ==> p in uncovered - PairsIn(combo) || Covered(p, cases + [combo])
  {
    var more := cases + [combo];
    forall p | p in all && p !in uncovered - PairsIn(combo)
      ensures Covered(p, more)
    {
      if p in uncovered {
        assert p in PairsIn(more[|cases|]);
      } else {
        var k :| 0 <= k < |cases| && p in PairsIn(cases[k]);
        assert p in PairsIn(more[k]);
      }
    }
  }

  // One turn of the loop, from any uncovered pair.
  method CoverMore<V(==)>(values: seq<seq<V>>, uncovered: set<Pair<V>>) returns (combo: Result<seq<V>, Failure>)
    requires uncovered != {} && uncovered <= AllPairs(values)
    ensures combo.Err? <==> Unfillable(values)
    ensures combo.Ok? ==> Listed(values, combo.value) && |uncovered - PairsIn(combo.value)| < |uncovered|
  {
    assert (forall p :: p !in uncovered) ==> uncovered == {};
    var seed :| seed in uncovered;
    UnfillableSticksAtOnce(values, seed);
    combo := GreedyCombination(values, uncovered, seed);
    if combo.Ok? {
      CoverShrinks(uncovered, PairsIn(combo.value), seed);
    }
  }

  // Some case gives parameter i the value a and parameter j the value b.
  ghost predicate Together<V>(cases: seq<seq<V>>, i: nat, a: V, j: nat, b: V) {
    exists k :: 0 <= k < |cases| && i < |cases[k]| && j < |cases[k]| && cases[k][i] == a && cases[k][j] == b
  }

  lemma CoveredAreTogether<V>(values: seq<seq<V>>, cases: seq<seq<V>>, i: nat, a: V, j: nat, b: V)
    requires i < j < |values| && a in values[i] && b in values[j]
    requires forall p :: p in AllPairs(values) ==> Covered(p, cases)
    ensures Together(cases, i, a, j, b)
  {
    var p := Pair(i, a, j, b);
    assert p in AllPairs(values);
    var k :| 0 <= k < |cases| && p in PairsIn(cases[k]);
    assert cases[k][i] == a && cases[k][j] == b;
  }

  // Whichever uncovered pair seeds each case, the cases cover every pair with listed
  // values, and are no more than the pairs. It fails exactly when a list is empty while
  // two others are not.
  method Cover<V(==)>(values: seq<seq<V>>) returns (r: Result<seq<seq<V>>, Failure>)
    ensures r.Err? <==> Unfillable(values)
    ensures r.Ok? ==> forall p :: p in AllPairs(values) ==> Covered(p, r.value)
    ensures r.Ok? ==> forall i: nat, j: nat, a, b :: i < j < |values| && a in values[i] && b in values[j] ==>
              Together(r.value, i, a, j, b)
    ensures r.Ok? ==> AllListed(values, r.value)
    ensures r.Ok? ==> |r.value| <= |AllPairs(values)|
  {
    ghost var all, fails := AllPairs(values), Unfillable(values);
    var uncovered, cases := AllPairs(values), [];
    while uncovered != {}
      invariant uncovered <= all && |cases| + |uncovered| <= |all|
      invariant forall p :: p in all ==> p in uncovered || Covered(p, cases)
      invariant AllListed(values, cases)
      invariant fails ==> cases == []
      decreases |uncovered|
    {
      var combo := CoverMore(values, uncovered);
      if combo.Err? {
        return Err(EmptyList);
      }
      CoverGrows(all, uncovered, cases, combo.value);
      ListGrows(values, cases, combo.value);
      cases := cases + [combo.value];
      uncovered := uncovered - PairsIn(combo.value);
    }
    if fails {
      var p := UnfillableHasPairs(values);
      assert false;
    }
    forall i: nat, j: nat, a, b | i < j < |values| && a in values[i] && b in values[j]
      ensures Together(cases, i, a, j, b)
    {
      CoveredAreTogether(values, cases, i, a, j, b);
    }
    r := Ok(cases);
  }

  // The cases for any parameters: with fewer than two there are no pairs to cover.
  method Cases<V(==)>(values: seq<seq<V>>) returns (r: Result<seq<seq<V>>, Failure>)
    ensures |values| < 2 ==> r == Ok(Exhaustive(values))
    ensures |values| >= 2 ==> (r.Err? <==> Unfillable(values))
    ensures |values| >= 2 && r.Ok? ==>
              forall i: nat, j: nat, a, b :: i < j < |values| && a in values[i] && b in values[j] ==>
                Together(r.value, i, a, j, b)
    ensures r.Ok? ==> AllListed(values, r.value)
    ensures |values| >= 2 && r.Ok? ==> |r.value| <= |AllPairs(values)|
  {
    if |values| < 2 {
      forall k | 0 <= k < |Exhaustive(values)|
        ensures Listed(values, Exhaustive(values)[k])
      {
        ExhaustiveIsListed(values, Exhaustive(values)[k]);
      }
      return Ok(Exhaustive(values));
    }
    r := Cover(values);
  }
}
