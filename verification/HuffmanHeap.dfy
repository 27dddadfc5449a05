/** The binary heap of tree nodes that the Huffman code builder keeps in an array, smallest weight at
    entry 1. Entry 0 holds the sentinel node 0, whose weight is below all others. */
module HuffmanHeap {

  /** Entry i is not lighter than its parent entry. */
  ghost predicate Edge(t: seq<int>, w: seq<int>, i: int) {
    2 <= i < |t| && 0 <= t[i] < |w| && 0 <= t[i / 2] < |w| && w[t[i / 2]] <= w[t[i]]
  }

  /** The entries are nodes with a positive weight; node 0 is the sentinel. */
  ghost predicate Entries(t: seq<int>, w: seq<int>, n: nat) {
    && n < |t| && |w| > 0 && t[0] == 0 && w[0] == 0
    && forall i :: 1 <= i <= n ==> 0 <= t[i] < |w| && w[t[i]] > 0
  }

  ghost predicate HeapOk(t: seq<int>, w: seq<int>, n: nat) {
    Entries(t, w, n) && forall i :: 2 <= i <= n ==> Edge(t, w, i)
  }

  /** The heap order holds except that entry z may be too light for its place. */
  ghost predicate Rising(t: seq<int>, w: seq<int>, n: nat, z: int) {
    && Entries(t, w, n) && 1 <= z <= n
    && (forall i :: 2 <= i <= n && i != z ==> Edge(t, w, i))
    && (z >= 2 ==> forall i :: 2 <= i <= n && i / 2 == z ==> w[t[z / 2]] <= w[t[i]])
  }

  /** The heap order holds except that entry z may be too heavy for its place. */
  ghost predicate Sinking(t: seq<int>, w: seq<int>, n: nat, z: int) {
    && Entries(t, w, n) && 1 <= z && (n > 0 ==> z <= n)
    && (forall i :: 2 <= i <= n && i / 2 != z ==> Edge(t, w, i))
    && (2 <= z <= n ==> forall i :: 2 <= i <= n && i / 2 == z ==> w[t[z / 2]] <= w[t[i]])
  }

  /** Entries 1..n are the nodes with a nonzero place, each once. */
  ghost predicate Listed(t: seq<int>, n: nat, place: seq<int>) {
    && n < |t|
    && (forall i :: 1 <= i <= n ==> 0 <= t[i] < |place| && place[t[i]] == i)
    && (forall m :: 0 <= m < |place| && place[m] != 0 ==> 1 <= place[m] <= n && t[place[m]] == m)
  }

  /** Two entries exchanged, and their places. */
  function Swapped(t: seq<int>, i: int, j: int): seq<int>
    requires 0 <= i < |t| && 0 <= j < |t|
  {
    t[i := t[j]][j := t[i]]
  }

  function Replaced(place: seq<int>, t: seq<int>, i: int, j: int): seq<int>
    requires 0 <= i < |t| && 0 <= j < |t| && 0 <= t[i] < |place| && 0 <= t[j] < |place|
  {
    place[t[i] := j][t[j] := i]
  }

  /** The same nodes are listed. */
  ghost predicate SameNodes(p: seq<int>, q: seq<int>) {
    |p| == |q| && forall m :: 0 <= m < |p| ==> (p[m] != 0 <==> q[m] != 0)
  }

  lemma SwapListed(t: seq<int>, n: nat, place: seq<int>, i: int, j: int)
    requires Listed(t, n, place) && 1 <= i <= n && 1 <= j <= n && i != j
    ensures Listed(Swapped(t, i, j), n, Replaced(place, t, i, j))
    ensures SameNodes(place, Replaced(place, t, i, j))
  {
  }

  /* ---- UPHEAP ---- */

  lemma RiseStep(t: seq<int>, w: seq<int>, n: nat, z: int)
    requires Rising(t, w, n, z) && z >= 2 && w[t[z]] < w[t[z / 2]]
    ensures Rising(Swapped(t, z, z / 2), w, n, z / 2)
  {
    var y := z / 2;
    var u := Swapped(t, z, y);
    assert 1 <= y < z;
    forall i | 2 <= i <= n && i != y ensures Edge(u, w, i) {
      if i == z {
      } else {
        assert Edge(t, w, i);
        if i / 2 == y && y >= 2 { assert Edge(t, w, y); }
      }
    }
    if y >= 2 {
      assert Edge(t, w, y);
      forall i | 2 <= i <= n && i / 2 == y ensures w[u[y / 2]] <= w[u[i]] {
        if i != z { assert Edge(t, w, i); }
      }
    }
  }

  lemma RiseDone(t: seq<int>, w: seq<int>, n: nat, z: int)
    requires Rising(t, w, n, z) && (z >= 2 ==> w[t[z / 2]] <= w[t[z]])
    ensures HeapOk(t, w, n)
  {
  }

  /** The filled array t of an insertion into heap, whose hole is at entry z. */
  ghost predicate Hole(heap: seq<int>, t: seq<int>, z: int) {
    |heap| == |t| && forall k :: 0 <= k < |t| && k != z ==> heap[k] == t[k]
  }

  lemma RisingFacts(t: seq<int>, w: seq<int>, n: nat, z: int)
    requires Rising(t, w, n, z)
    ensures 1 <= z <= n < |t| && |w| > 0 && t[0] == 0 && w[0] == 0
    ensures 0 <= t[z] < |w| && w[t[z]] > 0 && 0 <= t[z / 2] < |w|
    ensures w[t[z]] < w[t[z / 2]] ==> z >= 2
  {
  }

  /** UPHEAP: the node at entry z rises to its place. */
  method UpHeap(heap: array<int>, weight: array<int>, z: int, nHeap: nat, ghost place: seq<int>)
    returns (ghost place': seq<int>)
    requires heap != weight && Rising(heap[..], weight[..], nHeap, z) && Listed(heap[..], nHeap, place)
    modifies heap
    ensures HeapOk(heap[..], weight[..], nHeap) && Listed(heap[..], nHeap, place') && SameNodes(place, place')
  {
    hide Rising, Listed, HeapOk, Entries, Edge, SameNodes, Swapped, Replaced;
    ghost var t, w := heap[..], weight[..];
    place' := place;
    SameAgain(place);
    RisingFacts(t, w, nHeap, z);
    var zz := z;
    var tmp := heap[zz];
    while weight[tmp] < weight[heap[zz / 2]]
      invariant Rising(t, w, nHeap, zz) && Listed(t, nHeap, place') && SameNodes(place, place')
      invariant Hole(heap[..], t, zz) && 1 <= zz < heap.Length == |t| && t[zz] == tmp && 0 <= tmp < |w|
      invariant 0 <= heap[zz / 2] < |w| && heap[zz / 2] == t[zz / 2]
      invariant weight[tmp] < weight[heap[zz / 2]] ==> zz >= 2
      decreases zz
    {
      RisingFacts(t, w, nHeap, zz);
      RiseStep(t, w, nHeap, zz);
      PlacesBounded(t, nHeap, place', zz, zz / 2);
      SwapListed(t, nHeap, place', zz, zz / 2);
      SameTwice(place, place', Replaced(place', t, zz, zz / 2));
      place' := Replaced(place', t, zz, zz / 2);
      ghost var u := Swapped(t, zz, zz / 2);
      SwapHole(heap[..], t, zz, zz / 2);
      ghost var s := heap[..];
      heap[zz] := heap[zz / 2];
      assert heap[..] == s[zz := s[zz / 2]];
      t := u;
      zz := zz / 2;
      RisingFacts(t, w, nHeap, zz);
    }
    ghost var s := heap[..];
    heap[zz] := tmp;
    assert heap[..] == s[zz := tmp] == t;
    RiseDone(t, w, nHeap, zz);
  }

  lemma SameAgain(p: seq<int>)
    ensures SameNodes(p, p)
  {
  }

  lemma SameTwice(p: seq<int>, q: seq<int>, r: seq<int>)
    requires SameNodes(p, q) && SameNodes(q, r)
    ensures SameNodes(p, r)
  {
  }

  lemma PlacesBounded(t: seq<int>, n: nat, place: seq<int>, i: int, j: int)
    requires Listed(t, n, place) && 1 <= i <= n && 1 <= j <= n
    ensures n < |t| && 0 <= t[i] < |place| && 0 <= t[j] < |place|
  {
  }

  lemma SwapHole(heap: seq<int>, t: seq<int>, i: int, j: int)
    requires Hole(heap, t, i) && 0 <= i < |t| && 0 <= j < |t| && i != j
    ensures Hole(heap[i := heap[j]], Swapped(t, i, j), j) && Swapped(t, i, j)[j] == t[i]
    ensures forall k :: 0 <= k < |t| && k != i && k != j ==> Swapped(t, i, j)[k] == t[k] == heap[k]
  {
  }

  /* ---- DOWNHEAP ---- */

  /** The lighter of the children of entry z. */
  ghost predicate LighterChild(t: seq<int>, w: seq<int>, n: nat, z: int, y: int) {
    && 1 <= z < y <= n < |t| && y / 2 == z && 0 <= t[y] < |w|
    && forall i :: 2 <= i <= n && i / 2 == z ==> 0 <= t[i] < |w| && w[t[y]] <= w[t[i]]
  }

  lemma SinkStep(t: seq<int>, w: seq<int>, n: nat, z: int, y: int)
    requires Sinking(t, w, n, z) && LighterChild(t, w, n, z, y) && 0 <= t[z] < |w| && w[t[y]] <= w[t[z]]
    ensures Sinking(Swapped(t, z, y), w, n, y)
  {
    var u := Swapped(t, z, y);
    forall i | 2 <= i <= n && i / 2 != y ensures Edge(u, w, i) {
      if i / 2 == z {
      } else {
        assert Edge(t, w, i);
      }
    }
    forall i | 2 <= i <= n && i / 2 == y ensures w[u[y / 2]] <= w[u[i]] {
      assert Edge(t, w, i);
    }
  }

  lemma SinkDone(t: seq<int>, w: seq<int>, n: nat, z: int, y: int)
    requires Sinking(t, w, n, z)
    requires 2 * z > n || (LighterChild(t, w, n, z, y) && 0 <= t[z] < |w| && w[t[z]] <= w[t[y]])
    ensures HeapOk(t, w, n)
  {
    forall i | 2 <= i <= n ensures Edge(t, w, i) {
      if i / 2 == z { assert i == 2 * z || i == 2 * z + 1; }
    }
  }

  lemma SinkingFacts(t: seq<int>, w: seq<int>, n: nat, z: int)
    requires Sinking(t, w, n, z)
    ensures 1 <= z && n < |t| && (n > 0 ==> z <= n)
    ensures forall i :: 1 <= i <= n ==> 0 <= t[i] < |w|
  {
  }

  lemma ChooseChild(t: seq<int>, w: seq<int>, n: nat, z: int, y: int)
    requires Sinking(t, w, n, z) && 2 * z <= n && 2 * z <= y <= n
    requires 0 <= t[2 * z] < |w| && (2 * z < n ==> 0 <= t[2 * z + 1] < |w|)
    requires y == if 2 * z < n && w[t[2 * z + 1]] < w[t[2 * z]] then 2 * z + 1 else 2 * z
    ensures LighterChild(t, w, n, z, y)
  {
    forall i | 2 <= i <= n && i / 2 == z ensures 0 <= t[i] < |w| && w[t[y]] <= w[t[i]] {
      assert i == 2 * z || i == 2 * z + 1;
    }
  }

  /** DOWNHEAP: the node at entry z sinks to its place. */
  method DownHeap(heap: array<int>, weight: array<int>, z: int, nHeap: nat, ghost place: seq<int>)
    returns (ghost place': seq<int>)
    requires heap != weight && Sinking(heap[..], weight[..], nHeap, z) && Listed(heap[..], nHeap, place)
    requires z < heap.Length
    modifies heap
    ensures HeapOk(heap[..], weight[..], nHeap) && Listed(heap[..], nHeap, place') && SameNodes(place, place')
  {
    hide Sinking, Listed, HeapOk, Entries, Edge, SameNodes, Swapped, Replaced, LighterChild;
    ghost var t, w := heap[..], weight[..];
    place' := place;
    SameAgain(place);
    SinkingFacts(t, w, nHeap, z);
    var zz := z;
    var tmp := heap[zz];
    ghost var y := 0;
    while true
      invariant Sinking(t, w, nHeap, zz) && Listed(t, nHeap, place') && SameNodes(place, place')
      invariant Hole(heap[..], t, zz) && 1 <= zz < heap.Length == |t| && t[zz] == tmp
      decreases heap.Length - zz
    {
      SinkingFacts(t, w, nHeap, zz);
      var yy := 2 * zz;
      if yy > nHeap {
        SinkDone(t, w, nHeap, zz, 0);
        break;
      }
      if yy < nHeap && weight[heap[yy + 1]] < weight[heap[yy]] { yy := yy + 1; }
      ChooseChild(t, w, nHeap, zz, yy);
      if weight[tmp] < weight[heap[yy]] {
        SinkDone(t, w, nHeap, zz, yy);
        break;
      }
      SinkStep(t, w, nHeap, zz, yy);
      PlacesBounded(t, nHeap, place', zz, yy);
      SwapListed(t, nHeap, place', zz, yy);
      SameTwice(place, place', Replaced(place', t, zz, yy));
      place' := Replaced(place', t, zz, yy);
      SwapHole(heap[..], t, zz, yy);
      ghost var s := heap[..];
      heap[zz] := heap[yy];
      assert heap[..] == s[zz := s[yy]];
      t := Swapped(t, zz, yy);
      zz := yy;
    }
    ghost var s := heap[..];
    heap[zz] := tmp;
    assert heap[..] == s[zz := tmp] == t;
  }

  /* ---- The two heap operations of the code builder ---- */

  /** Entry 1 is the lightest. */
  lemma {:induction false} Lightest(t: seq<int>, w: seq<int>, n: nat, i: int)
    requires HeapOk(t, w, n) && 1 <= i <= n
    ensures 0 <= t[1] < |w| && 0 <= t[i] < |w| && w[t[1]] <= w[t[i]]
    decreases i
  {
    if i > 1 {
      assert Edge(t, w, i);
      Lightest(t, w, n, i / 2);
    }
  }

  /** No listed node is lighter than x. */
  ghost predicate IsLightest(w: seq<int>, place: seq<int>, x: int) {
    && 0 <= x < |w| == |place| && place[x] != 0
    && forall m :: 0 <= m < |place| && place[m] != 0 ==> w[x] <= w[m]
  }

  lemma TopIsLightest(t: seq<int>, w: seq<int>, n: nat, place: seq<int>)
    requires HeapOk(t, w, n) && Listed(t, n, place) && n > 0 && |place| == |w|
    ensures IsLightest(w, place, t[1])
  {
    forall m | 0 <= m < |place| && place[m] != 0 ensures w[t[1]] <= w[m] {
      Lightest(t, w, n, place[m]);
    }
  }

  /** q lists the nodes of p without x. */
  ghost predicate Without(p: seq<int>, q: seq<int>, x: int) {
    |p| == |q| && forall m :: 0 <= m < |p| ==> (q[m] != 0 <==> p[m] != 0 && m != x)
  }

  /** q lists the nodes of p and x. */
  ghost predicate With(p: seq<int>, q: seq<int>, x: int) {
    |p| == |q| && forall m :: 0 <= m < |p| ==> (q[m] != 0 <==> p[m] != 0 || m == x)
  }

  lemma PopSinks(t: seq<int>, w: seq<int>, n: nat, place: seq<int>) returns (q: seq<int>)
    requires HeapOk(t, w, n) && Listed(t, n, place) && n > 0
    ensures Sinking(t[1 := t[n]], w, n - 1, 1) && Listed(t[1 := t[n]], n - 1, q) && Without(place, q, t[1])
  {
    var u := t[1 := t[n]];
    forall i | 2 <= i <= n - 1 && i / 2 != 1 ensures Edge(u, w, i) {
      assert Edge(t, w, i);
    }
    q := if n == 1 then place[t[1] := 0] else place[t[n] := 1][t[1] := 0];
  }

  lemma AfterPop(p: seq<int>, q: seq<int>, r: seq<int>, x: int)
    requires Without(p, q, x) && SameNodes(q, r)
    ensures Without(p, r, x)
  {
  }

  /** n1 = heap[1]; heap[1] = heap[nHeap]; nHeap--; DOWNHEAP(1) */
  method Pop(heap: array<int>, weight: array<int>, nHeap: nat, ghost place: seq<int>)
    returns (node: int, ghost place': seq<int>)
    requires heap != weight && nHeap > 0 && |place| == weight.Length
    requires HeapOk(heap[..], weight[..], nHeap) && Listed(heap[..], nHeap, place)
    modifies heap
    ensures HeapOk(heap[..], weight[..], nHeap - 1) && Listed(heap[..], nHeap - 1, place')
    ensures IsLightest(weight[..], place, node) && Without(place, place', node)
  {
    hide HeapOk, Listed, IsLightest, Without, Sinking, SameNodes;
    ghost var t := heap[..];
    TopIsLightest(t, weight[..], nHeap, place);
    ghost var q := PopSinks(t, weight[..], nHeap, place);
    HeapSize(t, weight[..], nHeap);
    node := heap[1];
    heap[1] := heap[nHeap];
    assert heap[..] == t[1 := t[nHeap]];
    place' := DownHeap(heap, weight, 1, nHeap - 1, q);
    AfterPop(place, q, place', node);
  }

  lemma HeapSize(t: seq<int>, w: seq<int>, n: nat)
    requires HeapOk(t, w, n)
    ensures n < |t|
  {
  }

  lemma PushRises(t: seq<int>, w: seq<int>, n: nat, place: seq<int>, x: int)
    requires HeapOk(t, w, n) && Listed(t, n, place) && n + 1 < |t| && 0 <= x < |w| == |place| && w[x] > 0
    requires place[x] == 0
    ensures Rising(t[n + 1 := x], w, n + 1, n + 1) && Listed(t[n + 1 := x], n + 1, place[x := n + 1])
    ensures With(place, place[x := n + 1], x)
  {
    var u := t[n + 1 := x];
    forall i | 2 <= i <= n ensures Edge(u, w, i) {
      assert Edge(t, w, i);
    }
  }

  lemma AfterPush(p: seq<int>, q: seq<int>, r: seq<int>, x: int)
    requires With(p, q, x) && SameNodes(q, r)
    ensures With(p, r, x)
  {
  }

  /** nHeap++; heap[nHeap] = x; UPHEAP(nHeap) */
  method Push(heap: array<int>, weight: array<int>, nHeap: nat, x: int, ghost place: seq<int>)
    returns (ghost place': seq<int>)
    requires heap != weight && nHeap + 1 < heap.Length && 0 <= x < weight.Length == |place| && weight[x] > 0
    requires place[x] == 0
    requires HeapOk(heap[..], weight[..], nHeap) && Listed(heap[..], nHeap, place)
    modifies heap
    ensures HeapOk(heap[..], weight[..], nHeap + 1) && Listed(heap[..], nHeap + 1, place') && With(place, place', x)
  {
    hide HeapOk, Listed, With, Rising, SameNodes;
    ghost var t := heap[..];
    PushRises(t, weight[..], nHeap, place, x);
    heap[nHeap + 1] := x;
    assert heap[..] == t[nHeap + 1 := x];
    place' := UpHeap(heap, weight, nHeap + 1, nHeap + 1, place[x := nHeap + 1]);
    AfterPush(place, place[x := nHeap + 1], place', x);
  }
}
