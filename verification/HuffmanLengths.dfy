/** Huffman code lengths: building the tree from a heap of weights, reading the depths of the leaves,
    and flattening the weights until no leaf is too deep. */
module HuffmanLengths {
  import opened Counting
  import opened HuffmanHeap
  import opened HuffmanOptimality
  import opened HuffmanTree
  import opened Powers

  /* ---- The three phases of a pass ---- */

  /** What the heap and the forest agree on. */
  ghost predicate Heaped(heap: seq<int>, wt: seq<int>, n: nat, place: seq<int>) {
    HeapOk(heap, wt, n) && Listed(heap, n, place) && |place| == |wt|
  }

  /** The first i leaves are in the heap, each a tree of its own. */
  ghost predicate Leafy(par: seq<int>, wt: seq<int>, a: nat, i: nat, place: seq<int>) {
    && 2 <= a && i <= a < |par| == |wt| == |place| && par[0] == -2
    && (forall m :: 1 <= m <= i ==> par[m] == -1)
    && (forall m :: 0 <= m < |place| ==> (place[m] != 0 <==> 1 <= m <= i))
    && (forall m :: 1 <= m <= a ==> wt[m] >= 256 && DepthOf(wt[m]) == 0)
  }

  lemma LeafStep(par: seq<int>, wt: seq<int>, a: nat, i: nat, place: seq<int>, q: seq<int>)
    requires Leafy(par, wt, a, i, place) && i < a && With(place, q, i + 1)
    ensures Leafy(par[i + 1 := -1], wt, a, i + 1, q)
  {
  }

  lemma LeavesGrow(par: seq<int>, wt: seq<int>, a: nat, place: seq<int>)
    requires Leafy(par, wt, a, a, place) && LeafSum(wt, a) < MAX_TOTAL
    ensures Growing(par, wt, a, a, place, LeafSum(wt, a))
  {
    assert Fib(1) == 1 && Fib(2) == 1;
    LeafCounts(par, a);
    LeafRoots(par, wt, a);
  }

  lemma {:induction false} LeafCounts(par: seq<int>, a: nat)
    requires a < |par| && par[0] == -2 && forall m :: 1 <= m <= a ==> par[m] == -1
    ensures CountEq(par, a + 1, -1) == a
  {
    if a > 0 {
      LeafCounts(par, a - 1);
    } else {
      assert CountEq(par, 0, -1) == 0;
    }
  }

  lemma {:induction false} LeafRoots(par: seq<int>, wt: seq<int>, a: nat)
    requires a < |par| == |wt| && forall m :: 1 <= m <= a ==> par[m] == -1
    ensures RootSum(par, wt, a) == LeafSum(wt, a)
  {
    if a > 0 { LeafRoots(par, wt, a - 1); }
  }

  lemma EmptyHeap(heap: seq<int>, wt: seq<int>, place: seq<int>)
    requires |heap| > 0 && |wt| > 0 && heap[0] == 0 && wt[0] == 0 && |place| == |wt|
    requires forall m :: 0 <= m < |place| ==> place[m] == 0
    ensures Heaped(heap, wt, 0, place)
  {
  }

  /** Puts all leaves into the heap. */
  method FillHeap(heap: array<int>, weight: array<int>, parent: array<int>, alphaSize: nat)
    returns (nHeap: nat, ghost place: seq<int>)
    requires heap != weight && heap != parent && weight != parent
    requires 2 <= alphaSize <= MAX_ALPHA_SIZE && heap.Length == MAX_ALPHA_SIZE + 2
    requires weight.Length == parent.Length == 2 * MAX_ALPHA_SIZE
    requires forall m :: 1 <= m <= alphaSize ==> weight[m] >= 256 && DepthOf(weight[m]) == 0
    modifies heap, weight, parent
    ensures weight[..] == old(weight[..])[0 := 0] && nHeap == alphaSize
    ensures Heaped(heap[..], weight[..], nHeap, place) && Leafy(parent[..], weight[..], alphaSize, alphaSize, place)
  {
    hide Heaped, Leafy, Listed, HeapOk, DepthOf, With;
    ghost var w0 := weight[..];
    nHeap := 0;
    heap[0] := 0;
    weight[0] := 0;
    parent[0] := -2;
    place := seq(2 * MAX_ALPHA_SIZE, _ => 0);
    EmptyHeap(heap[..], weight[..], place);
    LeafNone(parent[..], weight[..], alphaSize, place);
    for i := 1 to alphaSize + 1
      invariant nHeap == i - 1 && weight[..] == w0[0 := 0]
      invariant Heaped(heap[..], weight[..], nHeap, place) && Leafy(parent[..], weight[..], alphaSize, i - 1, place)
    {
      LeafFacts(heap[..], parent[..], weight[..], alphaSize, i - 1, place);
      ghost var p, q := parent[..], place;
      parent[i] := -1;
      assert parent[..] == p[i := -1];
      place := Push(heap, weight, nHeap, i, place);
      nHeap := nHeap + 1;
      LeafStep(p, weight[..], alphaSize, i - 1, q, place);
      HeapedIntro(heap[..], weight[..], nHeap, place, q, i);
    }
    assert nHeap < MAX_ALPHA_SIZE + 2;  // AssertH 2001
  }

  lemma HeapedIntro(heap: seq<int>, wt: seq<int>, n: nat, place: seq<int>, q: seq<int>, x: int)
    requires HeapOk(heap, wt, n) && Listed(heap, n, place) && (With(q, place, x) || Without(q, place, x)) && |q| == |wt|
    ensures Heaped(heap, wt, n, place)
  {
  }

  lemma LeafNone(par: seq<int>, wt: seq<int>, a: nat, place: seq<int>)
    requires 2 <= a < |par| == |wt| == |place| && par[0] == -2
    requires forall m :: 0 <= m < |place| ==> place[m] == 0
    requires forall m :: 1 <= m <= a ==> wt[m] >= 256 && DepthOf(wt[m]) == 0
    ensures Leafy(par, wt, a, 0, place)
  {
  }

  lemma LeafFacts(heap: seq<int>, par: seq<int>, wt: seq<int>, a: nat, i: nat, place: seq<int>)
    requires Leafy(par, wt, a, i, place) && Heaped(heap, wt, i, place)
    ensures HeapOk(heap, wt, i) && Listed(heap, i, place) && |place| == |wt| == |par| > a
    ensures i < a ==> wt[i + 1] > 0 && place[i + 1] == 0
  {
  }

  /** Merges the two lightest trees until one is left. */
  method GrowTree(heap: array<int>, weight: array<int>, parent: array<int>, alphaSize: nat, ghost place0: seq<int>,
                  ghost total: int)
    returns (nNodes: nat, ghost place: seq<int>)
    requires heap != weight && heap != parent && weight != parent
    requires 2 <= alphaSize <= MAX_ALPHA_SIZE && heap.Length == MAX_ALPHA_SIZE + 2
    requires weight.Length == parent.Length == 2 * MAX_ALPHA_SIZE
    requires Heaped(heap[..], weight[..], alphaSize, place0)
    requires Growing(parent[..], weight[..], alphaSize, alphaSize, place0, total)
    modifies heap, weight, parent
    ensures nNodes == 2 * alphaSize - 1 && Tree(parent[..], alphaSize, nNodes)
    ensures Growing(parent[..], weight[..], alphaSize, nNodes, place, total)
    ensures forall m :: 0 <= m <= alphaSize ==> weight[m] == old(weight[m])
  {
    hide Heaped, Listed, HeapOk, DepthOf, WeightOf, Growing, IsLightest, Without, With, JoinedPlaces, Lightest2,
      Joined, Tree;
    nNodes := alphaSize;
    var nHeap: nat := alphaSize;
    place := place0;
    while nHeap > 1
      invariant nNodes + nHeap == 2 * alphaSize && 1 <= nHeap <= alphaSize
      invariant Heaped(heap[..], weight[..], nHeap, place)
      invariant Growing(parent[..], weight[..], alphaSize, nNodes, place, total)
      invariant nNodes > alphaSize ==> parent[nNodes] == -1
      invariant forall m :: 0 <= m <= alphaSize ==> weight[m] == old(weight[m])
    {
      ghost var p, w := parent[..], weight[..];
      HeapedParts(heap[..], w, nHeap, place);
      var n1, n2;
      ghost var p1, p2;
      n1, p1 := Pop(heap, weight, nHeap, place);
      nHeap := nHeap - 1;
      WithoutSize(place, p1, n1);
      n2, p2 := Pop(heap, weight, nHeap, p1);
      nHeap := nHeap - 1;
      WithoutSize(p1, p2, n2);
      nNodes := nNodes + 1;
      TwoPops(w, place, p1, p2, n1, n2);
      JoinReady(p, w, alphaSize, nNodes - 1, place, total, n1, n2);
      parent[n1] := nNodes;
      parent[n2] := nNodes;
      weight[nNodes] := AddWeights(weight[n1], weight[n2]);
      parent[nNodes] := -1;
      assert parent[..] == Joined(p, n1, n2, nNodes) by { JoinedIs(p, n1, n2, nNodes); }
      assert weight[..] == w[nNodes := AddWeights(w[n1], w[n2])];
      HeapLight(heap[..], w, nHeap, p2, nNodes, weight[nNodes]);
      ghost var q := Push(heap, weight, nHeap, nNodes, p2);
      nHeap := nHeap + 1;
      JoinPlaces(place, p2, q, n1, n2, nNodes);
      Join(p, w, alphaSize, nNodes - 1, place, total, n1, n2, q);
      HeapedIntro(heap[..], weight[..], nHeap, q, p2, nNodes);
      place := q;
    }
    Rooted(parent[..], weight[..], alphaSize, nNodes, place, total);
    assert nNodes < 2 * MAX_ALPHA_SIZE;  // AssertH 2002
  }

  lemma HeapedParts(heap: seq<int>, wt: seq<int>, n: nat, place: seq<int>)
    requires Heaped(heap, wt, n, place)
    ensures HeapOk(heap, wt, n) && Listed(heap, n, place) && |place| == |wt|
  {
  }

  lemma WithoutSize(p: seq<int>, q: seq<int>, x: int)
    requires Without(p, q, x)
    ensures |p| == |q|
  {
  }

  lemma JoinReady(par: seq<int>, wt: seq<int>, a: nat, N: nat, place: seq<int>, total: int, n1: int, n2: int)
    requires Growing(par, wt, a, N, place, total) && Lightest2(wt, place, n1, n2) && N + 1 < |par|
    ensures 1 <= n1 <= N && 1 <= n2 <= N && |wt| == |par| == |place| && 1 + Max(DepthOf(wt[n1]), DepthOf(wt[n2])) < 256
    ensures AddWeights(wt[n1], wt[n2]) >= 256 && place[N + 1] == 0
  {
    HeightBound(par, wt, a, N, place, n1);
    HeightBound(par, wt, a, N, place, n2);
    SumParts(wt[n1], wt[n2]);
  }

  lemma JoinedIs(par: seq<int>, n1: int, n2: int, k: int)
    requires 0 <= n1 < |par| && 0 <= n2 < |par| && 0 <= k < |par|
    ensures Joined(par, n1, n2, k) == par[n1 := k][n2 := k][k := -1]
  {
  }

  lemma JoinPlaces(place: seq<int>, p2: seq<int>, q: seq<int>, n1: int, n2: int, k: int)
    requires With(p2, q, k) && |p2| == |place|
    requires forall m :: 0 <= m < |p2| ==> (p2[m] != 0 <==> place[m] != 0 && m != n1 && m != n2)
    ensures JoinedPlaces(place, q, n1, n2, k)
  {
  }

  /** The weight of a node not in the heap does not matter. */
  lemma HeapLight(t: seq<int>, w: seq<int>, n: nat, place: seq<int>, k: int, z: int)
    requires HeapOk(t, w, n) && Listed(t, n, place) && 0 < k < |w| == |place| && place[k] == 0
    ensures HeapOk(t, w[k := z], n)
  {
    var w2 := w[k := z];
    forall i | 2 <= i <= n ensures Edge(t, w2, i) {
      assert Edge(t, w, i);
    }
  }

  /* ---- Reading the lengths ---- */

  lemma DepthStep(par: seq<int>, a: nat, N: nat, k: nat)
    requires Tree(par, a, N) && 1 <= k <= N
    ensures par[k] >= 0 <==> k < N
    ensures k < N ==> k < par[k] <= N && Depth(par, N, k) == 1 + Depth(par, N, par[k])
    ensures k == N ==> Depth(par, N, k) == 0
  {
  }

  lemma TreeLinks(par: seq<int>, a: nat, N: nat)
    requires Tree(par, a, N)
    ensures 2 <= a < N < |par| && forall m :: 1 <= m < N ==> m < par[m] <= N
  {
  }

  /** The depth of one leaf, by walking up. */
  method ReadDepth(parent: array<int>, leaf: nat, ghost a: nat, ghost N: nat) returns (j: nat)
    requires Tree(parent[..], a, N) && 1 <= leaf <= a
    ensures N < parent.Length && a < N && forall m :: 1 <= m < N ==> m < parent[..][m] <= N
    ensures j == Depth(parent[..], N, leaf)
  {
    hide Tree, Depth;
    TreeLinks(parent[..], a, N);
    j := 0;
    var k := leaf;
    DepthStep(parent[..], a, N, k);
    while parent[k] >= 0
      invariant 1 <= k <= N && j + Depth(parent[..], N, k) == Depth(parent[..], N, leaf)
      invariant parent[k] >= 0 <==> k < N
      decreases N - k
    {
      DepthStep(parent[..], a, N, k);
      k := parent[k];
      j := j + 1;
      DepthStep(parent[..], a, N, k);
    }
    DepthStep(parent[..], a, N, k);
  }

  /** The depths of all leaves become the lengths. */
  method ReadLengths(len: array<int>, parent: array<int>, alphaSize: nat, maxLen: nat, ghost N: nat)
    returns (tooLong: bool)
    requires len != parent && Tree(parent[..], alphaSize, N) && alphaSize <= len.Length
    modifies len
    ensures alphaSize < N < parent.Length && forall m :: 1 <= m < N ==> m < parent[..][m] <= N
    ensures forall i :: 0 <= i < alphaSize ==> len[i] == Depth(parent[..], N, i + 1)
    ensures forall i :: alphaSize <= i < len.Length ==> len[i] == old(len[i])
    ensures !tooLong ==> forall i :: 0 <= i < alphaSize ==> len[i] <= maxLen
    ensures tooLong ==> exists i :: 0 <= i < alphaSize && len[i] > maxLen
  {
    hide Tree, Depth;
    TreeLinks(parent[..], alphaSize, N);
    tooLong := false;
    ghost var w := 0;
    for i := 1 to alphaSize + 1
      invariant forall m :: 0 <= m < i - 1 ==> len[m] == Depth(parent[..], N, m + 1)
      invariant forall m :: alphaSize <= m < len.Length ==> len[m] == old(len[m])
      invariant !tooLong ==> forall m :: 0 <= m < i - 1 ==> len[m] <= maxLen
      invariant tooLong ==> 0 <= w < i - 1 && len[w] > maxLen
    {
      var j := ReadDepth(parent, i, alphaSize, N);
      len[i - 1] := j;
      if j > maxLen {
        tooLong := true;
        w := i - 1;
      }
    }
  }

  /* ---- Flattening the weights ---- */

  /** Leaf weights carry no height and are at least one. */
  ghost predicate LeafWeights(wt: seq<int>, a: nat) {
    a < |wt| && forall m :: 1 <= m <= a ==> wt[m] >= 256 && DepthOf(wt[m]) == 0
  }

  /** w becomes 1 + w / 2. */
  function Flattened(z: int): int {
    (1 + WeightOf(z) / 2) * 256
  }

  lemma {:induction false} LeafSumSame(wt: seq<int>, w2: seq<int>, j: nat)
    requires j < |wt| && j < |w2| && forall m :: 1 <= m <= j ==> w2[m] == wt[m]
    ensures LeafSum(w2, j) == LeafSum(wt, j)
  {
    if j > 0 { LeafSumSame(wt, w2, j - 1); }
  }

  /** Flattening brings the total below its half plus one for every leaf. */
  lemma {:induction false} FlatSum(wt: seq<int>, w2: seq<int>, j: nat)
    requires j < |wt| == |w2| && forall m :: 1 <= m <= j ==> wt[m] >= 256 && w2[m] == Flattened(wt[m])
    ensures j <= LeafSum(w2, j) && 2 * LeafSum(w2, j) <= LeafSum(wt, j) + 2 * j
  {
    if j > 0 { FlatSum(wt, w2, j - 1); }
  }

  method Flatten(weight: array<int>, alphaSize: nat)
    requires LeafWeights(weight[..], alphaSize)
    modifies weight
    ensures LeafWeights(weight[..], alphaSize)
    ensures forall m :: 1 <= m <= alphaSize ==> weight[m] == Flattened(old(weight[m]))
    ensures 2 * LeafSum(weight[..], alphaSize) <= LeafSum(old(weight[..]), alphaSize) + 2 * alphaSize
  {
    hide LeafSum;
    ghost var w := weight[..];
    for i := 1 to alphaSize + 1
      invariant forall m :: 1 <= m < i ==> weight[m] == Flattened(w[m])
      invariant forall m :: i <= m <= alphaSize ==> weight[m] == w[m]
    {
      var j := weight[i] / 256;
      j := 1 + j / 2;
      weight[i] := j * 256;
    }
    FlatSum(w, weight[..], alphaSize);
  }

  /* ---- The whole procedure ---- */

  function Counted(f: int): int {
    if f == 0 then 1 else f
  }

  /** Total of the frequencies, unused symbols counting once. */
  function TotalFreq(freq: seq<int>, j: nat): int
    requires j <= |freq|
  {
    if j == 0 then 0 else TotalFreq(freq, j - 1) + Counted(freq[j - 1])
  }

  lemma {:induction false} FreqSum(freq: seq<int>, wt: seq<int>, j: nat)
    requires j <= |freq| && j < |wt| && forall i :: 0 <= i < j ==> wt[i + 1] == Counted(freq[i]) * 256
    ensures LeafSum(wt, j) == TotalFreq(freq, j)
  {
    if j > 0 { FreqSum(freq, wt, j - 1); }
  }

  /** A code within the limit that leaves no code word unused. */
  ghost predicate CompleteCode(len: seq<int>, a: nat, maxLen: nat) {
    && a <= |len| && (forall i :: 0 <= i < a ==> 1 <= len[i] <= maxLen)
    && Kraft(len, maxLen, a) == Pow2(maxLen)
  }

  lemma DepthsComplete(par: seq<int>, a: nat, N: nat, len: seq<int>, maxLen: nat)
    requires Tree(par, a, N) && a <= |len| && forall m :: 1 <= m < N ==> m < par[m] <= N
    requires forall i :: 0 <= i < a ==> len[i] == Depth(par, N, i + 1) && len[i] <= maxLen
    ensures CompleteCode(len, a, maxLen)
  {
    forall i | 0 <= i < a ensures 1 <= len[i] <= maxLen {
      DepthStep(par, a, N, i + 1);
    }
    KraftEquality(par, a, N, len, maxLen);
  }

  /** The frequencies as weights, and what flattening them n times makes of them. */
  function Counts(freq: seq<int>, a: nat): (w: seq<int>)
    requires a <= |freq|
  {
    seq(a, i requires 0 <= i < a => Counted(freq[i]))
  }

  function Scaled(w: seq<int>, n: nat): (r: seq<int>)
    ensures |r| == |w|
  {
    if n == 0 then w else
    var v := Scaled(w, n - 1);
    seq(|v|, i requires 0 <= i < |v| => 1 + v[i] / 2)
  }

  /** No best code for these weights is within the limit. */
  ghost predicate NoneWithin(w: seq<int>, a: nat, maxLen: nat) {
    forall l: seq<int> :: Best(w, l, a) ==> !UpTo(l, a, maxLen)
  }

  /** The lengths are best for the frequencies, flattened as often as needed: as long as no best code is
      within the limit, and no longer. */
  ghost predicate BestWithin(freq: seq<int>, len: seq<int>, a: nat, maxLen: nat) {
    a <= |freq| && exists n: nat :: BestAfter(Counts(freq, a), len, a, maxLen, n)
  }

  ghost predicate BestAfter(w: seq<int>, len: seq<int>, a: nat, maxLen: nat, n: nat) {
    && Best(Scaled(w, n), len, a) && UpTo(len, a, maxLen)
    && forall j: nat :: j < n ==> NoneWithin(Scaled(w, j), a, maxLen)
  }

  lemma NotNone(w: seq<int>, a: nat, maxLen: nat, l: seq<int>)
    requires Best(w, l, a) && UpTo(l, a, maxLen)
    ensures !NoneWithin(w, a, maxLen)
  {
  }

  /** Whenever a best code for the frequencies themselves is within the limit, the lengths are best for
      them, and more frequent symbols have no longer code words. */
  lemma BestIfPossible(freq: seq<int>, len: seq<int>, a: nat, maxLen: nat, l: seq<int>)
    requires BestWithin(freq, len, a, maxLen) && Best(Counts(freq, a), l, a) && UpTo(l, a, maxLen)
    ensures Best(Counts(freq, a), len, a)
    ensures forall i, j :: 0 <= i < a && 0 <= j < a && Counted(freq[i]) < Counted(freq[j]) ==> len[j] <= len[i]
  {
    hide Best;
    var w := Counts(freq, a);
    var n: nat :| BestAfter(w, len, a, maxLen, n);
    assert Scaled(w, 0) == w;
    NotNone(Scaled(w, 0), a, maxLen, l);
    hide BestWithin, BestAfter;
    assert a <= |len| by { BestSize(w, len, a); }
    forall i, j | 0 <= i < a && 0 <= j < a && Counted(freq[i]) < Counted(freq[j]) ensures len[j] <= len[i] {
      HeavierIsShorter(w, len, a, i, j);
    }
  }

  lemma BestSize(w: seq<int>, len: seq<int>, a: nat)
    requires Best(w, len, a)
    ensures a <= |w| && a <= |len|
  {
  }

  /** The leaf weights of the array are w. */
  ghost predicate Weighs(wt: seq<int>, w: seq<int>, a: nat) {
    a == |w| && a < |wt| && forall i :: 0 <= i < a ==> wt[i + 1] == w[i] * 256
  }

  lemma FlattenScales(wt: seq<int>, w2: seq<int>, w: seq<int>, a: nat, n: nat)
    requires Weighs(wt, Scaled(w, n), a) && |w2| == |wt|
    requires forall m :: 1 <= m <= a ==> w2[m] == Flattened(wt[m])
    ensures Weighs(w2, Scaled(w, n + 1), a)
  {
    var v := Scaled(w, n);
    var u := Scaled(w, n + 1);
    forall i | 0 <= i < a ensures w2[i + 1] == u[i] * 256 {
      assert wt[i + 1] == v[i] * 256;
    }
  }

  lemma GrowingParts(par: seq<int>, wt: seq<int>, a: nat, N: nat, place: seq<int>, total: int)
    requires Growing(par, wt, a, N, place, total)
    ensures Forest(par, wt, a, N, place) && Greedy(par, wt, N)
    ensures N < |wt| && forall m :: 1 <= m <= N ==> WeightOf(wt[m]) >= 1
  {
    hide Balanced, Branching, RootSum, Greedy;
    assert Greedy(par, wt, N);
  }

  /** The finished tree of one pass, with the lengths read from it. */
  lemma PassLeaves(par: seq<int>, wt: seq<int>, a: nat, N: nat, place: seq<int>, total: int, w: seq<int>, len: seq<int>)
    requires Growing(par, wt, a, N, place, total) && Tree(par, a, N) && Weighs(wt, w, a) && a <= |len|
    requires forall m :: 1 <= m < N ==> m < par[m] <= N
    requires forall i :: 0 <= i < a ==> len[i] == Depth(par, N, i + 1)
    ensures Leaves(par, wt, a, N, w, len) && Forest(par, wt, a, N, place)
  {
    hide Depth, Tree;
    GrowingParts(par, wt, a, N, place, total);
    hide Growing, Greedy, Forest;
    WeighsUnits(wt, w, a);
    hide Weighs, WeightOf, DepthOf;
  }

  lemma WeighsUnits(wt: seq<int>, w: seq<int>, a: nat)
    requires Weighs(wt, w, a)
    ensures a == |w| && a < |wt| && forall i :: 0 <= i < a ==> w[i] == WeightOf(wt[i + 1]) && DepthOf(wt[i + 1]) == 0
  {
    forall i | 0 <= i < a ensures w[i] == WeightOf(wt[i + 1]) && DepthOf(wt[i + 1]) == 0 {
      Unpacked(wt[i + 1], w[i]);
    }
  }

  lemma Unpacked(z: int, x: int)
    requires z == x * 256
    ensures WeightOf(z) == x && DepthOf(z) == 0
  {
  }

  /** A leaf too deep means that no best code is within the limit. */
  lemma TooLongMeansNone(par: seq<int>, wt: seq<int>, a: nat, N: nat, place: seq<int>, w: seq<int>, len: seq<int>,
                         maxLen: nat, i: nat)
    requires Leaves(par, wt, a, N, w, len) && Forest(par, wt, a, N, place) && i < a <= |len| && len[i] > maxLen
    ensures NoneWithin(w, a, maxLen)
  {
    hide Best, Leaves, Forest;
    forall l: seq<int> | Best(w, l, a) ensures !UpTo(l, a, maxLen) {
      if UpTo(l, a, maxLen) { HuffmanIsLow(par, wt, a, N, place, w, len, l, maxLen); }
    }
  }

  /** A leaf that is too deep means a total that flattening lowers. */
  lemma TooLongIsHeavy(par: seq<int>, wt: seq<int>, a: nat, N: nat, place: seq<int>, total: int, k: nat, maxLen: nat)
    requires Growing(par, wt, a, N, place, total) && Tree(par, a, N) && 1 <= k <= a
    requires Depth(par, N, k) > maxLen && 2 * a < Fib(maxLen + 3)
    ensures total > 2 * a
  {
    hide Fib, Growing;
    DeepIsHeavy(par, wt, a, N, place, total, k);
    FibGrows(maxLen + 3, Depth(par, N, k) + 2);
  }

  /** BZ2_hbMakeCodeLengths: for any frequencies the lengths are within the limit, form a complete code and
      are best for the frequencies, flattened as often as needed. The limit must leave the height Fibonacci
      trees need, which 17 does for 258 symbols. */
  method MakeCodeLengths(len: array<int>, freq: array<int>, alphaSize: nat, maxLen: nat)
    requires len != freq && 2 <= alphaSize <= MAX_ALPHA_SIZE && alphaSize <= len.Length && alphaSize <= freq.Length
    requires forall i :: 0 <= i < alphaSize ==> freq[i] >= 0
    requires TotalFreq(freq[..], alphaSize) < MAX_TOTAL
    requires 2 * alphaSize < Fib(maxLen + 3)
    modifies len
    ensures CompleteCode(len[..], alphaSize, maxLen)
    ensures BestWithin(freq[..], len[..], alphaSize, maxLen)
    ensures forall i :: alphaSize <= i < len.Length ==> len[i] == old(len[i])
  {
    hide Fib, Tree, Growing, Leafy, Heaped, CompleteCode, Depth, TotalFreq, LeafSum, DepthOf, Leaves, Forest, Weighs,
      Scaled, NoneWithin, Best, UpTo, BestWithin, Counts;
    var heap := new int[MAX_ALPHA_SIZE + 2];
    var weight := new int[2 * MAX_ALPHA_SIZE];
    var parent := new int[2 * MAX_ALPHA_SIZE];
    for i := 0 to alphaSize
      modifies weight
      invariant forall m :: 0 <= m < i ==> weight[m + 1] == Counted(freq[m]) * 256
    {
      weight[i + 1] := (if freq[i] == 0 then 1 else freq[i]) * 256;
    }
    FreqSum(freq[..], weight[..], alphaSize);
    FreqWeights(freq[..], weight[..], alphaSize);
    ghost var w0, n: nat := Counts(freq[..], alphaSize), 0;
    while true
      invariant LeafWeights(weight[..], alphaSize) && LeafSum(weight[..], alphaSize) < MAX_TOTAL
      invariant Weighs(weight[..], Scaled(w0, n), alphaSize)
      invariant forall j: nat :: j < n ==> NoneWithin(Scaled(w0, j), alphaSize, maxLen)
      invariant fresh(heap) && fresh(weight) && fresh(parent)
      invariant forall i :: alphaSize <= i < len.Length ==> len[i] == old(len[i])
      decreases LeafSum(weight[..], alphaSize)
    {
      ghost var w := weight[..];
      ghost var total := LeafSum(w, alphaSize);
      var nHeap; ghost var place0;
      nHeap, place0 := FillHeap(heap, weight, parent, alphaSize);
      LeafSumSame(w, weight[..], alphaSize);
      LeavesGrow(parent[..], weight[..], alphaSize, place0);
      ghost var w1 := weight[..];
      var nNodes; ghost var place;
      nNodes, place := GrowTree(heap, weight, parent, alphaSize, place0, total);
      LeafSumSame(w1, weight[..], alphaSize);
      LeavesKept(w, weight[..], alphaSize, Scaled(w0, n));
      var tooLong := ReadLengths(len, parent, alphaSize, maxLen, nNodes);
      PassLeaves(parent[..], weight[..], alphaSize, nNodes, place, total, Scaled(w0, n), len[..]);
      if !tooLong {
        DepthsComplete(parent[..], alphaSize, nNodes, len[..], maxLen);
        HuffmanIsBest(parent[..], weight[..], alphaSize, nNodes, Scaled(w0, n), len[..]);
        BestFound(freq[..], len[..], alphaSize, maxLen, n);
        break;
      }
      ghost var i :| 0 <= i < alphaSize && len[i] > maxLen;
      TooLongIsHeavy(parent[..], weight[..], alphaSize, nNodes, place, total, i + 1, maxLen);
      TooLongMeansNone(parent[..], weight[..], alphaSize, nNodes, place, Scaled(w0, n), len[..], maxLen, i);
      ghost var w2 := weight[..];
      Flatten(weight, alphaSize);
      FlattenScales(w2, weight[..], w0, alphaSize, n);
      n := n + 1;
      LeafSumPositive(weight[..], alphaSize);
    }
  }

  lemma BestFound(freq: seq<int>, len: seq<int>, a: nat, maxLen: nat, n: nat)
    requires a <= |freq| && a <= |len| && Best(Scaled(Counts(freq, a), n), len, a)
    requires forall i :: 0 <= i < a ==> len[i] <= maxLen
    requires forall j: nat :: j < n ==> NoneWithin(Scaled(Counts(freq, a), j), a, maxLen)
    ensures BestWithin(freq, len, a, maxLen)
  {
    hide Best, NoneWithin, Scaled;
    assert BestAfter(Counts(freq, a), len, a, maxLen, n);
  }

  lemma FreqWeights(freq: seq<int>, wt: seq<int>, a: nat)
    requires a <= |freq| && a < |wt| && forall i :: 0 <= i < a ==> freq[i] >= 0
    requires forall i :: 0 <= i < a ==> wt[i + 1] == Counted(freq[i]) * 256
    ensures LeafWeights(wt, a) && Weighs(wt, Scaled(Counts(freq, a), 0), a)
  {
    forall m | 1 <= m <= a ensures wt[m] >= 256 && DepthOf(wt[m]) == 0 {
      assert wt[(m - 1) + 1] == Counted(freq[m - 1]) * 256;
    }
  }

  lemma LeavesKept(wt: seq<int>, w2: seq<int>, a: nat, w: seq<int>)
    requires LeafWeights(wt, a) && |w2| == |wt| && forall m :: 1 <= m <= a ==> w2[m] == wt[m]
    requires Weighs(wt, w, a)
    ensures LeafWeights(w2, a) && Weighs(w2, w, a)
  {
  }

  lemma {:induction false} LeafSumPositive(wt: seq<int>, a: nat)
    requires LeafWeights(wt, a)
    ensures LeafSum(wt, a) >= 0
  {
    LeafSumFrom(wt, a);
  }

  lemma {:induction false} LeafSumFrom(wt: seq<int>, j: nat)
    requires j < |wt| && forall m :: 1 <= m <= j ==> wt[m] >= 256
    ensures LeafSum(wt, j) >= 0
  {
    if j > 0 { LeafSumFrom(wt, j - 1); }
  }

  /** The limit of 17 is enough for every alphabet of the compressor. */
  lemma SeventeenSuffices(alphaSize: nat)
    requires alphaSize <= MAX_ALPHA_SIZE
    ensures 2 * alphaSize < Fib(17 + 3)
  {
    FibNumbers();
  }
}
