/** The priority queue of tree nodes inside the heap array of trees.c. */
module TreeHeap {
  import opened Sums

  const HEAP_SIZE: nat := 573

  /** Node n is to come before node m: frequency first, depth as tie breaker. */
  predicate Smaller(f: seq<nat>, d: seq<nat>, n: nat, m: nat)
    requires n < |f| && m < |f| && n < |d| && m < |d|
  {
    f[n] < f[m] || (f[n] == f[m] && d[n] <= d[m])
  }

  /** The height of a node whose sons have heights a and b. */
  function Taller(a: nat, b: nat): nat
  {
    1 + if a >= b then a else b
  }

  /** Entries 1 to len of the heap array are distinct nodes, and pos gives their positions. */
  ghost predicate Indexed(h: seq<nat>, pos: seq<nat>, len: nat)
  {
    && len < |h|
    && (forall i :: 1 <= i <= len ==> h[i] < |pos| && pos[h[i]] == i)
    && (forall x :: 0 <= x < |pos| && 1 <= pos[x] <= len ==> h[pos[x]] == x)
  }

  /** Fathers from position k on come before their sons. */
  ghost predicate HeapFrom(h: seq<nat>, f: seq<nat>, d: seq<nat>, pos: seq<nat>, len: nat, k: nat)
    requires Indexed(h, pos, len) && |f| >= |pos| && |d| >= |pos|
  {
    forall j :: 2 <= j <= len && j / 2 >= k ==> Smaller(f, d, h[j / 2], h[j])
  }

  /** Same nodes at positions 1 to len, possibly in another order; the rest is untouched. */
  ghost predicate Rearranged(h: seq<nat>, pos: seq<nat>, h': seq<nat>, pos': seq<nat>, len: nat)
  {
    && |h'| == |h| && |pos'| == |pos|
    && Indexed(h', pos', len)
    && (forall x :: 0 <= x < |pos| ==> pos'[x] == pos[x] || (1 <= pos[x] <= len && 1 <= pos'[x] <= len))
    && (forall i :: len < i < |h| ==> h'[i] == h[i])
  }

  /** Node v is looking for its place; position k is free, everything else from k0 on is ordered. */
  ghost predicate HoleAt(h: seq<nat>, f: seq<nat>, d: seq<nat>, len: nat, k0: nat, k: nat, v: nat)
  {
    && 1 <= k0 <= k <= len < |h| && |f| <= |d| && v < |f|
    && (forall i :: 1 <= i <= len ==> h[i] < |f|)
    && (forall i :: 2 <= i <= len && i / 2 >= k0 && i / 2 != k && i != k ==> Smaller(f, d, h[i / 2], h[i]))
    && (k > k0 ==> k / 2 >= k0 && Smaller(f, d, h[k / 2], v))
    && (k > k0 ==> forall i :: 2 <= i <= len && i / 2 == k ==> Smaller(f, d, h[k / 2], h[i]))
  }

  /** Node x may stand above the sons of position k. */
  ghost predicate AboveSons(h: seq<nat>, f: seq<nat>, d: seq<nat>, len: nat, k: nat, x: nat)
    requires len < |h| && |f| <= |d| && x < |f| && (forall i :: 1 <= i <= len ==> h[i] < |f|)
  {
    && (1 <= 2 * k <= len ==> Smaller(f, d, x, h[2 * k]))
    && (2 * k + 1 <= len ==> Smaller(f, d, x, h[2 * k + 1]))
  }

  lemma HoleStep(h: seq<nat>, f: seq<nat>, d: seq<nat>, len: nat, k0: nat, k: nat, v: nat, j: nat)
    requires HoleAt(h, f, d, len, k0, k, v)
    requires j <= len && (j == 2 * k || j == 2 * k + 1)
    requires AboveSons(h, f, d, len, k, h[j]) && Smaller(f, d, h[j], v)
    ensures HoleAt(h[k := h[j]], f, d, len, k0, j, v)
  {
  }

  lemma HoleFill(h: seq<nat>, f: seq<nat>, d: seq<nat>, pos: seq<nat>, len: nat, k0: nat, k: nat, v: nat)
    requires HoleAt(h, f, d, len, k0, k, v)
    requires Indexed(h[k := v], pos, len) && |f| == |pos| <= |d|
    requires AboveSons(h, f, d, len, k, v)
    ensures HeapFrom(h[k := v], f, d, pos, len, k0)
  {
  }

  lemma AboveSonsTrans(h: seq<nat>, f: seq<nat>, d: seq<nat>, len: nat, k: nat, v: nat, x: nat)
    requires len < |h| && |f| <= |d| && v < |f| && x < |f| && (forall i :: 1 <= i <= len ==> h[i] < |f|)
    requires AboveSons(h, f, d, len, k, x) && Smaller(f, d, v, x)
    ensures AboveSons(h, f, d, len, k, v)
  {
  }

  /** The position of the smaller of the two sons of position k. */
  method SmallestSon(heap: array<nat>, heapLen: nat, fc: array<nat>, depth: array<nat>, k: nat) returns (j: nat)
    requires 1 <= k && 2 * k <= heapLen < heap.Length && fc.Length <= depth.Length
    requires forall i :: 1 <= i <= heapLen ==> heap[i] < fc.Length
    ensures j == 2 * k || j == 2 * k + 1 <= heapLen
    ensures AboveSons(heap[..], fc[..], depth[..], heapLen, k, heap[j])
  {
    j := 2 * k;
    if j < heapLen && (fc[heap[j + 1]] < fc[heap[j]] ||
                       (fc[heap[j + 1]] == fc[heap[j]] && depth[heap[j + 1]] <= depth[heap[j]])) {
      j := j + 1;
    }
  }

  /** Move the node at position k0 down until its sons come after it. */
  method PqDownHeap(heap: array<nat>, heapLen: nat, fc: array<nat>, depth: array<nat>, k0: nat,
                    ghost pos: seq<nat>)
      returns (ghost pos': seq<nat>)
    requires heap != fc && heap != depth
    requires 1 <= k0 <= heapLen && fc.Length == |pos| && depth.Length >= |pos|
    requires Indexed(heap[..], pos, heapLen)
    requires HeapFrom(heap[..], fc[..], depth[..], pos, heapLen, k0 + 1)
    modifies heap
    ensures Rearranged(old(heap[..]), pos, heap[..], pos', heapLen)
    ensures HeapFrom(heap[..], fc[..], depth[..], pos', heapLen, k0)
  {
    ghost var h0, f, d := heap[..], fc[..], depth[..];
    var k := k0;
    var v := heap[k];
    ghost var h := h0;
    pos' := pos;
    assert h0[k := v] == h0;
    var j := 2 * k;
    while j <= heapLen
      invariant k0 <= k <= heapLen && j == 2 * k
      invariant h == heap[..]
      invariant Rearranged(h0, pos, h[k := v], pos', heapLen)
      invariant HoleAt(h, f, d, heapLen, k0, k, v)
      invariant fc[..] == f && depth[..] == d
      decreases heapLen - k
    {
      j := SmallestSon(heap, heapLen, fc, depth, k);
      if fc[v] < fc[heap[j]] || (fc[v] == fc[heap[j]] && depth[v] <= depth[heap[j]]) {
        AboveSonsTrans(h, f, d, heapLen, k, v, h[j]);
        break;
      }
      HoleStep(h, f, d, heapLen, k0, k, v, j);
      pos' := MoveUp(h0, pos, h[k := v], pos', heapLen, k, j);
      UpdateTwice(h, k, j, v);
      heap[k] := heap[j];
      h := h[k := h[j]];
      k := j;
      j := 2 * j;
    }
    HoleFill(h, f, d, pos', heapLen, k0, k, v);
    heap[k] := v;
    assert heap[..] == h[k := v];
  }

  lemma UpdateTwice(h: seq<nat>, k: nat, j: nat, v: nat)
    requires k < |h| && j < |h| && k != j
    ensures h[k := v][k := h[k := v][j]][j := h[k := v][k]] == h[k := h[j]][j := v]
  {
  }

  /** Exchanging the nodes at positions k and j. */
  lemma MoveUp(h0: seq<nat>, pos0: seq<nat>, h: seq<nat>, pos: seq<nat>, len: nat, k: nat, j: nat)
      returns (pos': seq<nat>)
    requires Indexed(h0, pos0, len) && Rearranged(h0, pos0, h, pos, len)
    requires 1 <= k <= len && 1 <= j <= len && k != j
    ensures Rearranged(h0, pos0, h[k := h[j]][j := h[k]], pos', len)
  {
    pos' := pos[h[j] := k][h[k] := j];
  }

  lemma {:induction false} RootLightest(h: seq<nat>, f: seq<nat>, d: seq<nat>, pos: seq<nat>, len: nat, i: nat)
    requires Indexed(h, pos, len) && |f| >= |pos| && |d| >= |pos|
    requires HeapFrom(h, f, d, pos, len, 1) && 1 <= i <= len
    ensures Smaller(f, d, h[1], h[i])
  {
    if i > 1 {
      RootLightest(h, f, d, pos, len, i / 2);
    }
  }

  /** The root of the queue comes before all its nodes. */
  lemma RootLightestAll(h: seq<nat>, f: seq<nat>, d: seq<nat>, pos: seq<nat>, len: nat)
    requires Indexed(h, pos, len) && |f| >= |pos| && |d| >= |pos|
    requires HeapFrom(h, f, d, pos, len, 1)
    ensures forall x :: 0 <= x < |pos| && 1 <= pos[x] <= len ==> h[1] < |pos| && Smaller(f, d, h[1], x)
  {
    forall x | 0 <= x < |pos| && 1 <= pos[x] <= len ensures h[1] < |pos| && Smaller(f, d, h[1], x) {
      RootLightest(h, f, d, pos, len, pos[x]);
    }
  }

  /** Remove the least frequent node from the queue, the lowest one of several. */
  method PqRemove(heap: array<nat>, heapLen: nat, fc: array<nat>, depth: array<nat>, ghost pos: seq<nat>)
      returns (n: nat, ghost pos': seq<nat>)
    requires heap != fc && heap != depth
    requires 2 <= heapLen && fc.Length == |pos| && depth.Length >= |pos|
    requires Indexed(heap[..], pos, heapLen)
    requires HeapFrom(heap[..], fc[..], depth[..], pos, heapLen, 1)
    modifies heap
    ensures |pos'| == |pos| && Indexed(heap[..], pos', heapLen - 1)
    ensures HeapFrom(heap[..], fc[..], depth[..], pos', heapLen - 1, 1)
    ensures n < |pos| && pos[n] == 1 && pos'[n] == 0
    ensures forall x :: 0 <= x < |pos| && x != n ==>
              pos'[x] == pos[x] || (1 <= pos[x] <= heapLen && 1 <= pos'[x] <= heapLen - 1)
    ensures forall x :: 0 <= x < |pos| ==> pos'[x] != heapLen
    ensures forall i :: heapLen < i < heap.Length ==> heap[i] == old(heap[i])
    ensures forall x :: 0 <= x < |pos| && 1 <= pos[x] <= heapLen ==> Smaller(fc[..], depth[..], n, x)
    ensures heap[1] < |pos|
    ensures forall x :: 0 <= x < |pos| && 1 <= pos'[x] <= heapLen - 1 ==> Smaller(fc[..], depth[..], heap[1], x)
  {
    ghost var h0 := heap[..];
    RootLightestAll(h0, fc[..], depth[..], pos, heapLen);
    n := heap[1];
    heap[1] := heap[heapLen];
    ghost var pos1 := pos[heap[1] := 1][n := 0];
    assert heap[..] == h0[1 := h0[heapLen]];
    LastToFront(h0, pos, heapLen, pos1);
    pos' := PqDownHeap(heap, heapLen - 1, fc, depth, 1, pos1);
    RootLightestAll(heap[..], fc[..], depth[..], pos', heapLen - 1);
  }

  lemma LastToFront(h: seq<nat>, pos: seq<nat>, len: nat, pos1: seq<nat>)
    requires Indexed(h, pos, len) && len >= 2 && pos1 == pos[h[len] := 1][h[1] := 0]
    ensures Indexed(h[1 := h[len]], pos1, len - 1)
    ensures forall x :: 0 <= x < |pos1| ==> pos1[x] != len
  {
  }

  /** Put a node that is not in the queue in the place of its first node. */
  method PqReplace(heap: array<nat>, heapLen: nat, fc: array<nat>, depth: array<nat>, node: nat, ghost pos: seq<nat>)
      returns (ghost pos': seq<nat>)
    requires heap != fc && heap != depth
    requires 1 <= heapLen && fc.Length == |pos| && depth.Length >= |pos|
    requires Indexed(heap[..], pos, heapLen)
    requires HeapFrom(heap[..], fc[..], depth[..], pos, heapLen, 2)
    requires node < |pos| && pos[node] == 0
    modifies heap
    ensures |pos'| == |pos| && Indexed(heap[..], pos', heapLen)
    ensures HeapFrom(heap[..], fc[..], depth[..], pos', heapLen, 1)
    ensures 1 <= pos'[node] <= heapLen
    ensures old(heap[1]) < |pos| && pos'[old(heap[1])] == 0
    ensures forall x :: 0 <= x < |pos| && x != node && x != old(heap[1]) ==>
              pos'[x] == pos[x] || (1 <= pos[x] <= heapLen && 1 <= pos'[x] <= heapLen)
    ensures forall i :: heapLen < i < heap.Length ==> heap[i] == old(heap[i])
  {
    ghost var h0 := heap[..];
    ghost var pos1 := pos[heap[1] := 0][node := 1];
    heap[1] := node;
    assert heap[..] == h0[1 := node];
    pos' := PqDownHeap(heap, heapLen, fc, depth, 1, pos1);
  }
}
