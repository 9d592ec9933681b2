// The indexed binary heap of the travel-time solver: `heap` lists the queued
// nodes, `pos` gives each queued node its place in `heap` (-1 for a node that is
// not queued), and nodes are compared by (key, rank).
module IndexedHeap {

  // ---------- Order ----------

  predicate Less(key: seq<real>, rank: seq<int>, a: int, b: int)
    requires 0 <= a < |key| && 0 <= b < |key| && |rank| == |key|
  {
    key[a] < key[b] || (key[a] == key[b] && rank[a] < rank[b])
  }

  function Parent(j: int): int {
    (j - 1) / 2
  }

  // ---------- Shape ----------

  // `h[..size]` and `pos` are inverse to each other, and `pos` is -1 elsewhere.
  ghost predicate Indexed(h: seq<int>, pos: seq<int>, size: nat) {
    && size <= |h|
    && (forall i :: 0 <= i < size ==> 0 <= h[i] < |pos| && pos[h[i]] == i)
    && (forall v :: 0 <= v < |pos| ==> -1 <= pos[v] < size && (0 <= pos[v] ==> h[pos[v]] == v))
  }

  ghost predicate Keyed(h: seq<int>, key: seq<real>, rank: seq<int>, size: nat) {
    && size <= |h|
    && |rank| == |key|
    && (forall i :: 0 <= i < size ==> 0 <= h[i] < |key|)
  }

  // No child is before its parent.
  ghost predicate Ordered(h: seq<int>, key: seq<real>, rank: seq<int>, size: nat)
    requires Keyed(h, key, rank, size)
  {
    forall j :: 1 <= j < size ==> !Less(key, rank, h[j], h[Parent(j)])
  }

  // Ordered, except that the node at `i` may belong nearer the root.
  ghost predicate OrderedBelow(h: seq<int>, key: seq<real>, rank: seq<int>, size: nat, i: int)
    requires Keyed(h, key, rank, size) && 0 <= i < size
  {
    && (forall j :: 1 <= j < size && j != i ==> !Less(key, rank, h[j], h[Parent(j)]))
    && (0 < i ==> forall j :: 1 <= j < size && Parent(j) == i ==> !Less(key, rank, h[j], h[Parent(i)]))
  }

  // Ordered, except that the node at `i` may belong nearer the leaves.
  ghost predicate OrderedAbove(h: seq<int>, key: seq<real>, rank: seq<int>, size: nat, i: int)
    requires Keyed(h, key, rank, size) && 0 <= i < size
  {
    && (forall j :: 1 <= j < size && Parent(j) != i ==> !Less(key, rank, h[j], h[Parent(j)]))
    && (0 < i ==> forall j :: 1 <= j < size && Parent(j) == i ==> !Less(key, rank, h[j], h[Parent(i)]))
  }

  // No child of `i` is before the node at `c`.
  ghost predicate BeforeChildren(h: seq<int>, key: seq<real>, rank: seq<int>, size: nat, i: int, c: int)
    requires Keyed(h, key, rank, size) && 0 <= c < size
  {
    forall j :: 1 <= j < size && Parent(j) == i ==> !Less(key, rank, h[j], h[c])
  }

  // The same nodes are queued in `p` and `q`, leaving `node` aside.
  ghost predicate SameQueue(p: seq<int>, q: seq<int>, node: int) {
    && |p| == |q|
    && (forall v :: 0 <= v < |p| && v != node ==> (0 <= p[v] <==> 0 <= q[v]))
  }

  // ---------- Consequences of the order ----------

  // The root is a lexicographic minimum of (key, rank).
  lemma {:induction false} RootIsLeast(h: seq<int>, key: seq<real>, rank: seq<int>, size: nat, j: int)
    requires Keyed(h, key, rank, size) && Ordered(h, key, rank, size) && 0 <= j < size
    ensures !Less(key, rank, h[j], h[0])
  {
    if j == 0 {
    } else {
      RootIsLeast(h, key, rank, size, Parent(j));
      assert !Less(key, rank, h[j], h[Parent(j)]);
    }
  }

  // Lowering a key leaves the heap ordered but for that node, whatever its new
  // rank: sifting up alone restores the order.
  lemma DecreaseNeedsOnlySiftUp(h: seq<int>, pos: seq<int>, key: seq<real>, rank: seq<int>, size: nat,
                                v: int, newKey: real, newRank: int)
    requires Indexed(h, pos, size) && |key| == |pos| == |rank|
    requires Ordered(h, key, rank, size)
    requires 0 <= v < |pos| && 0 <= pos[v] && newKey < key[v]
    ensures OrderedBelow(h, key[v := newKey], rank[v := newRank], size, pos[v])
  {
    var i := pos[v];
    var key', rank' := key[v := newKey], rank[v := newRank];
    forall j | 1 <= j < size && j != i
      ensures !Less(key', rank', h[j], h[Parent(j)])
    {
      assert pos[h[j]] == j && pos[h[Parent(j)]] == Parent(j);
      assert !Less(key, rank, h[j], h[Parent(j)]);
    }
    if 0 < i {
      forall j | 1 <= j < size && Parent(j) == i
        ensures !Less(key', rank', h[j], h[Parent(i)])
      {
        assert pos[h[j]] == j && pos[h[Parent(i)]] == Parent(i);
        assert !Less(key, rank, h[j], h[i]) && !Less(key, rank, h[i], h[Parent(i)]);
      }
    }
  }

  // A node appended after an ordered heap can only be too far from the root.
  lemma AppendNeedsOnlySiftUp(h: seq<int>, h': seq<int>, key: seq<real>, rank: seq<int>,
                              key': seq<real>, rank': seq<int>, size: nat)
    requires Keyed(h, key, rank, size) && Ordered(h, key, rank, size)
    requires Keyed(h', key', rank', size + 1) && h'[..size] == h[..size]
    requires |key'| == |key|
    requires forall i :: 0 <= i < size ==> key'[h[i]] == key[h[i]] && rank'[h[i]] == rank[h[i]]
    ensures OrderedBelow(h', key', rank', size + 1, size)
  {
    assert forall i :: 0 <= i < size ==> h'[i] == h'[..size][i] == h[..size][i] == h[i];
    forall j | 1 <= j < size
      ensures !Less(key', rank', h'[j], h'[Parent(j)])
    {
      assert !Less(key, rank, h[j], h[Parent(j)]);
    }
  }

  // ---------- One exchange ----------

  function Swapped(h: seq<int>, i: int, k: int): seq<int>
    requires 0 <= i < |h| && 0 <= k < |h|
  {
    h[i := h[k]][k := h[i]]
  }

  lemma SwapKeepsIndex(h: seq<int>, pos: seq<int>, size: nat, i: int, k: int)
    requires Indexed(h, pos, size)
    requires 0 <= i < size && 0 <= k < size && i != k
    ensures Indexed(Swapped(h, i, k), pos[h[k] := i][h[i] := k], size)
  {
    assert pos[h[i]] == i && pos[h[k]] == k;
  }

  lemma SwapUp(h: seq<int>, key: seq<real>, rank: seq<int>, size: nat, i: int)
    requires Keyed(h, key, rank, size) && 0 < i < size
    requires OrderedBelow(h, key, rank, size, i)
    requires Less(key, rank, h[i], h[Parent(i)])
    ensures var h' := Swapped(h, i, Parent(i));
            Keyed(h', key, rank, size) && OrderedBelow(h', key, rank, size, Parent(i))
  {
    var p := Parent(i);
    var h' := Swapped(h, i, p);
    forall j | 1 <= j < size && j != p
      ensures !Less(key, rank, h'[j], h'[Parent(j)])
    {
      if j != i {
        assert !Less(key, rank, h[j], h[Parent(j)]);
      }
    }
    if 0 < p {
      forall j | 1 <= j < size && Parent(j) == p
        ensures !Less(key, rank, h'[j], h'[Parent(p)])
      {
        assert !Less(key, rank, h[p], h[Parent(p)]);
        if j != i {
          assert !Less(key, rank, h[j], h[p]);
        }
      }
    }
  }

  lemma SwapDown(h: seq<int>, key: seq<real>, rank: seq<int>, size: nat, i: int, c: int)
    requires Keyed(h, key, rank, size) && 0 <= i < c < size && Parent(c) == i
    requires OrderedAbove(h, key, rank, size, i)
    requires Less(key, rank, h[c], h[i])
    requires BeforeChildren(h, key, rank, size, i, c)
    ensures var h' := Swapped(h, i, c);
            Keyed(h', key, rank, size) && OrderedAbove(h', key, rank, size, c)
  {
    var h' := Swapped(h, i, c);
    forall j | 1 <= j < size && Parent(j) != c
      ensures !Less(key, rank, h'[j], h'[Parent(j)])
    {
      if j == i {
        assert !Less(key, rank, h[c], h[Parent(i)]);
      } else if Parent(j) == i {
      } else {
        assert !Less(key, rank, h[j], h[Parent(j)]);
      }
    }
    forall j | 1 <= j < size && Parent(j) == c
      ensures !Less(key, rank, h'[j], h'[Parent(c)])
    {
      assert !Less(key, rank, h[j], h[Parent(j)]);
    }
  }

  lemma NoChildBefore(h: seq<int>, key: seq<real>, rank: seq<int>, size: nat, i: int, c: int)
    requires Keyed(h, key, rank, size) && 0 <= i < size && 0 <= c < size
    requires BeforeChildren(h, key, rank, size, i, c) && !Less(key, rank, h[c], h[i])
    ensures BeforeChildren(h, key, rank, size, i, i)
  {
  }

  // Nothing below `i` is before it: the heap is ordered.
  lemma SettledBelow(h: seq<int>, key: seq<real>, rank: seq<int>, size: nat, i: int)
    requires Keyed(h, key, rank, size) && 0 <= i < size
    requires OrderedAbove(h, key, rank, size, i)
    requires BeforeChildren(h, key, rank, size, i, i)
    ensures Ordered(h, key, rank, size)
  {
  }

  // ---------- The two sifts ----------

  // Both sifts hold `node` out of the heap and move other nodes into the hole it
  // left. The heap they stand for is the array with `node` put back at the hole.

  method MoveHole(heap: array<int>, pos: array<int>, ghost size: nat, node: int, hole: nat, from: nat)
    requires heap != pos && hole < size <= heap.Length && from < size && from != hole
    requires 0 <= node < pos.Length
    requires Indexed(heap[..][hole := node], pos[..][node := hole], size)
    modifies heap, pos
    ensures heap[..][from := node] == Swapped(old(heap[..])[hole := node], hole, from)
    ensures Indexed(heap[..][from := node], pos[..][node := from], size)
    ensures SameQueue(pos[..], old(pos[..]), node)
    ensures heap[size..] == old(heap[size..])
  {
    ghost var h, p := heap[..][hole := node], pos[..][node := hole];
    SwapKeepsIndex(h, p, size, hole, from);
    assert h[from] == heap[from] && p[h[from]] == from;
    heap[hole] := heap[from];
    pos[heap[hole]] := hole;
    assert heap[..][from := node] == Swapped(h, hole, from);
    assert pos[..][node := from] == p[h[from] := hole][h[hole] := from];
  }

  method SiftUp(heap: array<int>, pos: array<int>, key: array<real>, rank: array<int>, ghost size: nat, start: nat)
    requires heap != pos && heap != rank && pos != rank
    requires key.Length == rank.Length == pos.Length
    requires start < size <= heap.Length && 0 <= heap[start] < pos.Length
    requires Indexed(heap[..], pos[..][heap[start] := start], size)
    requires OrderedBelow(heap[..], key[..], rank[..], size, start)
    modifies heap, pos
    ensures Indexed(heap[..], pos[..], size)
    ensures Ordered(heap[..], key[..], rank[..], size)
    ensures 0 <= pos[old(heap[start])] && SameQueue(pos[..], old(pos[..]), old(heap[start]))
    ensures heap[size..] == old(heap[size..])
  {
    var i, node := start, heap[start];
    ghost var h, k, r := heap[..], key[..], rank[..];
    assert h == heap[..][i := node];
    while i > 0
      invariant 0 <= i < size && k == key[..] && r == rank[..]
      invariant h == heap[..][i := node]
      invariant Indexed(h, pos[..][node := i], size) && OrderedBelow(h, k, r, size, i)
      invariant SameQueue(pos[..], old(pos[..]), node) && heap[size..] == old(heap[size..])
    {
      var parent := (i - 1) / 2;
      assert heap[parent] == h[parent] && node == h[i];
      if !Less(key[..], rank[..], node, heap[parent]) {
        break;
      }
      SwapUp(h, k, r, size, i);
      MoveHole(heap, pos, size, node, i, parent);
      h := Swapped(h, i, parent);
      i := parent;
    }
    heap[i] := node;
    pos[node] := i;
    assert heap[..] == h;
  }

  // The child that may move up: the first one unless the second is before it.
  method LeastChild(heap: array<int>, key: array<real>, rank: array<int>, size: nat, i: nat, ghost node: int)
    returns (child: nat)
    requires 2 * i + 1 < size <= heap.Length && key.Length == rank.Length
    requires Keyed(heap[..][i := node], key[..], rank[..], size)
    ensures i < child < size && Parent(child) == i
    ensures BeforeChildren(heap[..][i := node], key[..], rank[..], size, i, child)
  {
    ghost var h := heap[..][i := node];
    child := 2 * i + 1;
    assert h[child] == heap[child] && (child + 1 < size ==> h[child + 1] == heap[child + 1]);
    if child + 1 < size && Less(key[..], rank[..], heap[child + 1], heap[child]) {
      child := child + 1;
    }
    assert forall j :: 1 <= j < size && Parent(j) == i ==> j == 2 * i + 1 || j == 2 * i + 2;
  }

  method SiftDown(heap: array<int>, pos: array<int>, key: array<real>, rank: array<int>, size: nat, start: nat)
    requires heap != pos && heap != rank && pos != rank
    requires key.Length == rank.Length == pos.Length
    requires start < size <= heap.Length
    requires Indexed(heap[..], pos[..], size)
    requires OrderedAbove(heap[..], key[..], rank[..], size, start)
    modifies heap, pos
    ensures Indexed(heap[..], pos[..], size)
    ensures Ordered(heap[..], key[..], rank[..], size)
    ensures SameQueue(pos[..], old(pos[..]), -1)
    ensures heap[size..] == old(heap[size..])
  {
    var i, node := start, heap[start];
    ghost var h, k, r := heap[..], key[..], rank[..];
    assert h == heap[..][i := node] && pos[..] == pos[..][node := i];
    while 2 * i + 1 < size
      invariant 0 <= i < size && k == key[..] && r == rank[..]
      invariant h == heap[..][i := node]
      invariant 0 <= node < pos.Length && 0 <= old(pos[node])
      invariant Indexed(h, pos[..][node := i], size) && OrderedAbove(h, k, r, size, i)
      invariant SameQueue(pos[..], old(pos[..]), node) && heap[size..] == old(heap[size..])
      decreases size - i
    {
      var child := LeastChild(heap, key, rank, size, i, node);
      assert heap[child] == h[child] && node == h[i];
      if !Less(key[..], rank[..], heap[child], node) {
        NoChildBefore(h, k, r, size, i, child);
        break;
      }
      SwapDown(h, k, r, size, i, child);
      MoveHole(heap, pos, size, node, i, child);
      h := Swapped(h, i, child);
      i := child;
    }
    heap[i] := node;
    pos[node] := i;
    assert heap[..] == h;
    SettledBelow(h, k, r, size, i);
  }
}
