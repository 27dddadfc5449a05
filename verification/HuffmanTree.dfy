/** The trees of the Huffman code builder: forests of weighted nodes, joining the two lightest trees, the
    heights this leads to, and the code space that the depths of the leaves take up. */
module HuffmanTree {
  import opened Counting
  import opened HuffmanHeap
  import opened Powers

  const MAX_ALPHA_SIZE := 258
  const MAX_TOTAL := 0x80_0000

  /* ---- Weights carry the height of their subtree in the low eight bits ---- */

  function WeightOf(z: int): int { z / 256 }
  function DepthOf(z: int): int { z % 256 }
  function Max(x: int, y: int): int { if x > y then x else y }

  /** ADDWEIGHTS, where or-ing in the height is adding it. */
  function AddWeights(z1: int, z2: int): int
    requires 1 + Max(DepthOf(z1), DepthOf(z2)) < 256
  {
    (WeightOf(z1) + WeightOf(z2)) * 256 + (1 + Max(DepthOf(z1), DepthOf(z2)))
  }

  function Fib(n: nat): nat {
    if n < 2 then n else Fib(n - 1) + Fib(n - 2)
  }

  lemma {:induction false} FibGrows(i: nat, j: nat)
    requires i <= j
    ensures Fib(i) <= Fib(j)
  {
    if i < j { FibGrows(i, j - 1); }
  }

  lemma FibNumbers()
    ensures Fib(20) == 6765 && Fib(35) == 9227465
  {
    assert Fib(10) == 55 && Fib(11) == 89;
    assert Fib(14) == 377 && Fib(15) == 610;
    assert Fib(19) == 4181 && Fib(20) == 6765;
    assert Fib(24) == 46368 && Fib(25) == 75025;
    assert Fib(29) == 514229 && Fib(30) == 832040;
  }

  /* ---- The forest ---- */

  /** Nodes 1..N, leaves first; parents come after their children and have two of them; the nodes with
      a place in the heap are the roots; heights grow upwards. */
  ghost predicate Forest(par: seq<int>, wt: seq<int>, a: nat, N: nat, place: seq<int>) {
    && 2 <= a <= N < |par| == |wt| == |place| && par[0] == -2
    && (forall m :: 1 <= m <= N ==> par[m] == -1 || (m < par[m] <= N && a < par[m]))
    && (forall m :: 0 <= m < |place| ==> (place[m] != 0 <==> 1 <= m <= N && par[m] == -1))
    && (forall m :: 1 <= m <= N ==> wt[m] >= 256)
    && (forall m :: 1 <= m <= N && par[m] != -1 ==> DepthOf(wt[m]) < DepthOf(wt[par[m]]))
  }

  /** Nodes up to N whose parent is k; for k == -1 the roots. */
  ghost function Children(par: seq<int>, N: nat, k: int): nat
    requires N < |par|
  {
    CountEq(par, N + 1, k)
  }

  /** Every inner node has two children; the rest are N - 2 (N - a) roots. */
  ghost predicate Branching(par: seq<int>, a: nat, N: nat) {
    && N < |par|
    && (forall k :: a < k <= N ==> Children(par, N, k) == 2)
    && Children(par, N, -1) == 2 * a - N
  }

  /** Total weight of the roots among the first j nodes. */
  ghost function RootSum(par: seq<int>, wt: seq<int>, j: nat): int
    requires j < |par| && j < |wt|
  {
    if j == 0 then 0 else RootSum(par, wt, j - 1) + (if par[j] == -1 then WeightOf(wt[j]) else 0)
  }

  /** Total weight of the first j leaves. */
  ghost function LeafSum(wt: seq<int>, j: nat): int
    requires j < |wt|
  {
    if j == 0 then 0 else LeafSum(wt, j - 1) + WeightOf(wt[j])
  }

  /** High trees are heavy, and so is every other tree beside a high one. */
  ghost predicate Balanced(wt: seq<int>, place: seq<int>) {
    && |wt| == |place|
    && (forall x :: 0 <= x < |wt| && place[x] != 0 ==> WeightOf(wt[x]) >= Fib(DepthOf(wt[x]) + 2))
    && (forall x, y :: 0 <= x < |wt| && 0 <= y < |wt| && x != y && place[x] != 0 && place[y] != 0 ==>
          WeightOf(wt[y]) >= Fib(DepthOf(wt[x]) + 1))
  }

  lemma {:induction false} RootSumSame(par: seq<int>, wt: seq<int>, par2: seq<int>, wt2: seq<int>, j: nat)
    requires j < |par| == |par2| && j < |wt| == |wt2|
    requires forall m :: 1 <= m <= j ==> par2[m] == par[m] && wt2[m] == wt[m]
    ensures RootSum(par2, wt2, j) == RootSum(par, wt, j)
  {
    if j > 0 { RootSumSame(par, wt, par2, wt2, j - 1); }
  }

  /** A root that gets a parent is no longer summed. */
  lemma {:induction false} RootSumSet(par: seq<int>, wt: seq<int>, j: nat, x: nat, v: int)
    requires 1 <= x <= j < |par| && j < |wt| && par[x] == -1 && v != -1
    ensures RootSum(par[x := v], wt, j) == RootSum(par, wt, j) - WeightOf(wt[x])
  {
    if x == j {
      RootSumSame(par, wt, par[x := v], wt, j - 1);
    } else {
      RootSumSet(par, wt, j - 1, x, v);
    }
  }

  /** No root outweighs the sum. */
  lemma {:induction false} RootSumBound(par: seq<int>, wt: seq<int>, j: nat, x: nat)
    requires j < |par| && j < |wt| && forall m :: 1 <= m <= j ==> wt[m] >= 256
    ensures RootSum(par, wt, j) >= 0
    ensures 1 <= x <= j && par[x] == -1 ==> WeightOf(wt[x]) <= RootSum(par, wt, j)
  {
    if j > 0 { RootSumBound(par, wt, j - 1, x); }
  }

  /** Heights stay small while the total weight does. */
  lemma HeightBound(par: seq<int>, wt: seq<int>, a: nat, N: nat, place: seq<int>, x: nat)
    requires Forest(par, wt, a, N, place) && Balanced(wt, place) && 1 <= x <= N && par[x] == -1
    requires RootSum(par, wt, N) < MAX_TOTAL
    ensures DepthOf(wt[x]) <= 32 && 1 <= WeightOf(wt[x]) < MAX_TOTAL
  {
    RootSumBound(par, wt, N, x);
    if DepthOf(wt[x]) > 32 {
      FibGrows(35, DepthOf(wt[x]) + 2);
      FibNumbers();
    }
  }

  /* ---- Joining the two lightest trees ---- */

  /** n1 is the lightest root and n2 the lightest of the others. */
  ghost predicate Lightest2(wt: seq<int>, place: seq<int>, n1: int, n2: int) {
    && |wt| == |place| && 0 <= n1 < |wt| && 0 <= n2 < |wt| && n1 != n2 && place[n1] != 0 && place[n2] != 0
    && forall m :: 0 <= m < |wt| && place[m] != 0 ==> wt[n1] <= wt[m] && (m != n1 ==> wt[n2] <= wt[m])
  }

  lemma TwoPops(wt: seq<int>, place: seq<int>, p1: seq<int>, p2: seq<int>, n1: int, n2: int)
    requires IsLightest(wt, place, n1) && Without(place, p1, n1) && IsLightest(wt, p1, n2) && Without(p1, p2, n2)
    ensures Lightest2(wt, place, n1, n2)
    ensures forall m :: 0 <= m < |p2| ==> (p2[m] != 0 <==> place[m] != 0 && m != n1 && m != n2)
  {
  }

  function Joined(par: seq<int>, n1: int, n2: int, k: int): seq<int>
    requires 0 <= n1 < |par| && 0 <= n2 < |par| && 0 <= k < |par|
  {
    par[n1 := k][n2 := k][k := -1]
  }

  /** q lists the roots after joining n1 and n2 below k. */
  ghost predicate JoinedPlaces(place: seq<int>, q: seq<int>, n1: int, n2: int, k: int) {
    |q| == |place| && forall m :: 0 <= m < |q| ==> (q[m] != 0 <==> m == k || (place[m] != 0 && m != n1 && m != n2))
  }

  lemma JoinForest(par: seq<int>, wt: seq<int>, a: nat, N: nat, place: seq<int>, n1: int, n2: int, z: int, q: seq<int>)
    requires Forest(par, wt, a, N, place) && N + 1 < |par| && Lightest2(wt, place, n1, n2)
    requires JoinedPlaces(place, q, n1, n2, N + 1)
    requires z >= 256 && DepthOf(wt[n1]) < DepthOf(z) && DepthOf(wt[n2]) < DepthOf(z)
    ensures Forest(Joined(par, n1, n2, N + 1), wt[N + 1 := z], a, N + 1, q)
  {
    hide DepthOf;
    assert 1 <= n1 <= N && 1 <= n2 <= N;
  }

  lemma JoinBranching(par: seq<int>, a: nat, N: nat, n1: int, n2: int)
    requires Branching(par, a, N) && a <= N && N + 1 < |par| && 1 <= n1 <= N && 1 <= n2 <= N && n1 != n2
    requires par[n1] == -1 && par[n2] == -1 && forall m :: 0 <= m <= N ==> par[m] <= N
    ensures Branching(Joined(par, n1, n2, N + 1), a, N + 1)
  {
    var k := N + 1;
    var p1 := par[n1 := k];
    var p2 := p1[n2 := k];
    var p3 := p2[k := -1];
    CountNothing(par, N + 1, k);
    forall c
      ensures Children(p3, k, c) == CountEq(par, N + 1, c) + (if c == k then 2 else 0) - (if c == -1 then 1 else 0)
    {
      CountEqSet(par, N + 1, n1, k, c);
      CountEqSet(p1, N + 1, n2, k, c);
      CountEqSame(p2, p3, N + 1, c);
    }
    forall c | a < c <= k ensures Children(p3, k, c) == 2 {
      if c <= N { assert Children(par, N, c) == 2; }
    }
    assert Children(par, N, -1) == 2 * a - N;
  }

  lemma {:induction false} CountNothing(s: seq<int>, i: nat, c: int)
    requires i <= |s| && forall m :: 0 <= m < i ==> s[m] < c
    ensures CountEq(s, i, c) == 0
  {
    if i > 0 { CountNothing(s, i - 1, c); }
  }

  lemma JoinSum(par: seq<int>, wt: seq<int>, N: nat, n1: int, n2: int, z: int)
    requires N + 1 < |par| == |wt| && 1 <= n1 <= N && 1 <= n2 <= N && n1 != n2 && par[n1] == -1 && par[n2] == -1
    requires WeightOf(z) == WeightOf(wt[n1]) + WeightOf(wt[n2])
    ensures RootSum(Joined(par, n1, n2, N + 1), wt[N + 1 := z], N + 1) == RootSum(par, wt, N)
  {
    hide WeightOf;
    var k := N + 1;
    var p1 := par[n1 := k];
    var p2 := p1[n2 := k];
    RootSumSet(par, wt, N, n1, k);
    RootSumSet(p1, wt, N, n2, k);
    RootSumSame(p2, wt, p2[k := -1], wt[k := z], N);
  }

  /** Joining the two lightest trees keeps the balance: this is where Fibonacci numbers come from. */
  lemma JoinBalanced(wt: seq<int>, place: seq<int>, n1: int, n2: int, k: int, z: int, q: seq<int>)
    requires Balanced(wt, place) && Lightest2(wt, place, n1, n2) && 0 <= k < |wt| && place[k] == 0
    requires JoinedPlaces(place, q, n1, n2, k)
    requires WeightOf(z) == WeightOf(wt[n1]) + WeightOf(wt[n2])
    requires DepthOf(z) == 1 + Max(DepthOf(wt[n1]), DepthOf(wt[n2]))
    ensures Balanced(wt[k := z], q)
  {
    var h1, h2 := DepthOf(wt[n1]), DepthOf(wt[n2]);
    var h := Max(h1, h2);
    assert Fib(h + 3) == Fib(h + 2) + Fib(h + 1);
    var w2 := wt[k := z];
    assert WeightOf(z) >= Fib(h + 3);
    hide Fib;
    forall y | 0 <= y < |w2| && y != k && q[y] != 0
      ensures WeightOf(w2[y]) >= Fib(h + 2) && WeightOf(z) >= Fib(DepthOf(w2[y]) + 1)
    {
      assert wt[n1] <= wt[y] && wt[n2] <= wt[y];
      assert WeightOf(wt[y]) >= WeightOf(wt[n1]) && WeightOf(wt[y]) >= WeightOf(wt[n2]);
      assert WeightOf(wt[n1]) >= Fib(DepthOf(wt[y]) + 1);
      assert WeightOf(wt[n2]) >= 0;
    }
    BalancedIntro(wt, w2, place, q, k, h);
  }

  lemma BalancedIntro(wt: seq<int>, w2: seq<int>, place: seq<int>, q: seq<int>, k: int, h: int)
    requires Balanced(wt, place) && |w2| == |wt| == |q| && 0 <= k < |wt| && h >= 0
    requires forall m :: 0 <= m < |wt| && m != k ==> w2[m] == wt[m] && (q[m] != 0 ==> place[m] != 0)
    requires DepthOf(w2[k]) == h + 1 && WeightOf(w2[k]) >= Fib(h + 3)
    requires forall y :: 0 <= y < |w2| && y != k && q[y] != 0 ==>
               WeightOf(w2[y]) >= Fib(h + 2) && WeightOf(w2[k]) >= Fib(DepthOf(w2[y]) + 1)
    ensures Balanced(w2, q)
  {
    hide Fib, WeightOf, DepthOf;
  }

  /** Siblings were the lightest two roots when they were joined, and their parent has the weight of both
      and is one higher than the higher of them. */
  ghost predicate Greedy(par: seq<int>, wt: seq<int>, N: nat) {
    && N < |par| == |wt|
    && (forall x, m :: 1 <= x <= N && 1 <= m < par[x] && m <= N && (par[m] == -1 || par[x] < par[m]) ==> wt[x] <= wt[m])
    && (forall x, y :: 1 <= x < y <= N && par[x] == par[y] && 1 <= par[x] <= N ==> SumOf(wt[par[x]], wt[x], wt[y]))
  }

  ghost predicate SumOf(z: int, z1: int, z2: int) {
    WeightOf(z) == WeightOf(z1) + WeightOf(z2) && DepthOf(z) == 1 + Max(DepthOf(z1), DepthOf(z2))
  }

  lemma JoinGreedy(par: seq<int>, wt: seq<int>, a: nat, N: nat, place: seq<int>, n1: int, n2: int, z: int)
    requires Forest(par, wt, a, N, place) && N + 1 < |par| && Lightest2(wt, place, n1, n2)
    requires Greedy(par, wt, N) && SumOf(z, wt[n1], wt[n2])
    ensures Greedy(Joined(par, n1, n2, N + 1), wt[N + 1 := z], N + 1)
  {
    assert 1 <= n1 <= N && 1 <= n2 <= N && SumOf(z, wt[n2], wt[n1]);
    hide SumOf, WeightOf, DepthOf;
    var p, w, k := Joined(par, n1, n2, N + 1), wt[N + 1 := z], N + 1;
    forall x, m | 1 <= x <= k && 1 <= m < p[x] && m <= k && (p[m] == -1 || p[x] < p[m]) ensures w[x] <= w[m] {
      if p[x] == k {
        assert place[m] != 0;
      } else {
        assert par[x] == p[x] && (par[m] == -1 || par[x] < par[m]);
      }
    }
    forall x, y | 1 <= x < y <= k && p[x] == p[y] && 1 <= p[x] <= k ensures SumOf(w[p[x]], w[x], w[y]) {
      if p[x] < k { assert par[x] == par[y] && 1 <= par[x] <= N; }
    }
  }

  /** All that is kept between two merges. */
  ghost predicate Growing(par: seq<int>, wt: seq<int>, a: nat, N: nat, place: seq<int>, total: int) {
    && Forest(par, wt, a, N, place) && Branching(par, a, N) && Balanced(wt, place) && Greedy(par, wt, N)
    && RootSum(par, wt, N) == total < MAX_TOTAL
  }

  lemma Join(par: seq<int>, wt: seq<int>, a: nat, N: nat, place: seq<int>, total: int, n1: int, n2: int, q: seq<int>)
    requires Growing(par, wt, a, N, place, total) && N + 1 < |par| && Lightest2(wt, place, n1, n2)
    requires JoinedPlaces(place, q, n1, n2, N + 1)
    ensures 1 <= n1 <= N && 1 <= n2 <= N && |wt| == |par| && 1 + Max(DepthOf(wt[n1]), DepthOf(wt[n2])) < 256
    ensures Growing(Joined(par, n1, n2, N + 1), wt[N + 1 := AddWeights(wt[n1], wt[n2])], a, N + 1, q, total)
  {
    hide Branching, RootSum, Fib, Balanced, Greedy;
    assert 1 <= n1 <= N && 1 <= n2 <= N && par[n1] == -1 && par[n2] == -1 && |wt| == |par| == |place|;
    assert forall m :: 0 <= m <= N ==> par[m] <= N;
    assert place[N + 1] == 0;
    HeightBound(par, wt, a, N, place, n1);
    HeightBound(par, wt, a, N, place, n2);
    hide Forest, Lightest2, JoinedPlaces;
    var z := AddWeights(wt[n1], wt[n2]);
    SumParts(wt[n1], wt[n2]);
    JoinForest(par, wt, a, N, place, n1, n2, z, q);
    JoinBranching(par, a, N, n1, n2);
    JoinSum(par, wt, N, n1, n2, z);
    JoinBalanced(wt, place, n1, n2, N + 1, z, q);
    JoinGreedy(par, wt, a, N, place, n1, n2, z);
  }

  lemma SumParts(z1: int, z2: int)
    requires 1 + Max(DepthOf(z1), DepthOf(z2)) < 256 && WeightOf(z1) >= 1 && WeightOf(z2) >= 1
    ensures WeightOf(AddWeights(z1, z2)) == WeightOf(z1) + WeightOf(z2)
    ensures DepthOf(AddWeights(z1, z2)) == 1 + Max(DepthOf(z1), DepthOf(z2)) && AddWeights(z1, z2) >= 256
  {
  }

  /* ---- The finished tree ---- */

  /** One tree with nodes 1..N, root N, leaves 1..a, two children for every inner node. */
  ghost predicate Tree(par: seq<int>, a: nat, N: nat) {
    && 2 <= a < N < |par| && par[N] == -1 && par[0] == -2
    && (forall m :: 1 <= m < N ==> m < par[m] <= N && a < par[m])
    && (forall k :: a < k <= N ==> Children(par, N, k) == 2)
  }

  /** Steps from node k up to the root. */
  function Depth(par: seq<int>, N: nat, k: nat): (d: nat)
    requires 1 <= k <= N < |par| && forall m :: 1 <= m < N ==> m < par[m] <= N
    ensures d <= N - k && (k < N ==> d >= 1)
    decreases N - k
  {
    if k == N then 0 else 1 + Depth(par, N, par[k])
  }

  /** When one root is left, it is the node made last. */
  lemma Rooted(par: seq<int>, wt: seq<int>, a: nat, N: nat, place: seq<int>, total: int)
    requires Growing(par, wt, a, N, place, total) && N == 2 * a - 1 && par[N] == -1
    ensures Tree(par, a, N)
  {
    hide Greedy, Balanced, RootSum, DepthOf, WeightOf, CountEq;
    forall m | 1 <= m < N ensures par[m] != -1 {
      if par[m] == -1 { CountEqTwo(par, N + 1, m, N); }
    }
  }

  /** The height of the root bounds all depths. */
  lemma {:induction false} DepthBound(par: seq<int>, wt: seq<int>, a: nat, N: nat, place: seq<int>, k: nat)
    requires Forest(par, wt, a, N, place) && Tree(par, a, N) && 1 <= k <= N
    ensures Depth(par, N, k) + DepthOf(wt[k]) <= DepthOf(wt[N])
    decreases N - k
  {
    if k < N { DepthBound(par, wt, a, N, place, par[k]); }
  }

  lemma {:induction false} OneRootSum(par: seq<int>, wt: seq<int>, a: nat, N: nat, j: nat)
    requires Tree(par, a, N) && |wt| == |par| && j <= N
    ensures RootSum(par, wt, j) == if j == N then WeightOf(wt[N]) else 0
  {
    if j > 0 { OneRootSum(par, wt, a, N, j - 1); }
  }

  /** A deep tree has a heavy total. */
  lemma DeepIsHeavy(par: seq<int>, wt: seq<int>, a: nat, N: nat, place: seq<int>, total: int, k: nat)
    requires Growing(par, wt, a, N, place, total) && Tree(par, a, N) && 1 <= k <= N
    ensures Fib(Depth(par, N, k) + 2) <= total
    ensures Depth(par, N, k) <= 32
  {
    DepthBound(par, wt, a, N, place, k);
    OneRootSum(par, wt, a, N, N);
    assert par[N] == -1 && Balanced(wt, place);
    hide Greedy, Branching, Balanced, Tree, Fib;
    HeightBound(par, wt, a, N, place, N);
    FibGrows(Depth(par, N, k) + 2, DepthOf(wt[N]) + 2);
  }

  /* ---- Kraft's equality ---- */

  /** Sum of 2 to the B - len[i] over the first j codes. */
  ghost function Kraft(len: seq<int>, B: nat, j: nat): nat
    requires j <= |len| && forall i :: 0 <= i < j ==> 0 <= len[i] <= B
  {
    if j == 0 then 0 else Kraft(len, B, j - 1) + Pow2(B - len[j - 1])
  }

  lemma {:induction false} KraftScales(len: seq<int>, B: nat, C: nat, j: nat)
    requires j <= |len| && B <= C && forall i :: 0 <= i < j ==> 0 <= len[i] <= B
    ensures Kraft(len, C, j) == Kraft(len, B, j) * Pow2(C - B)
  {
    if j > 0 {
      KraftScales(len, B, C, j - 1);
      var e := B - len[j - 1];
      Pow2Sum(e, C - B);
      assert e + (C - B) == C - len[j - 1];
      Distribute(Kraft(len, B, j - 1), Pow2(e), Pow2(C - B));
    }
  }

  lemma Distribute(x: int, y: int, m: int)
    ensures (x + y) * m == x * m + y * m
  {
  }

  lemma {:induction false} Pow2Sum(i: nat, j: nat)
    ensures Pow2(i + j) == Pow2(i) * Pow2(j)
  {
    if i > 0 { Pow2Sum(i - 1, j); }
  }

  /** Weighted count of the nodes up to j whose parent is above k. */
  ghost function Frontier(par: seq<int>, N: nat, k: nat, j: nat): nat
    requires j <= N < |par| && forall m :: 1 <= m < N ==> m < par[m] <= N
  {
    if j == 0 then 0
    else Frontier(par, N, k, j - 1) + (if j == N || par[j] > k then Pow2(N - Depth(par, N, j)) else 0)
  }

  /** Opening node k adds its children among the first j nodes. */
  lemma {:induction false} FrontOpens(par: seq<int>, a: nat, N: nat, k: nat, j: nat)
    requires Tree(par, a, N) && 1 <= k <= N && j < k
    ensures Depth(par, N, k) < N
    ensures Frontier(par, N, k - 1, j) ==
            Frontier(par, N, k, j) + CountEq(par, j + 1, k) * Pow2(N - Depth(par, N, k) - 1)
  {
    if j > 0 {
      FrontOpens(par, a, N, k, j - 1);
      var m := Pow2(N - Depth(par, N, k) - 1);
      if par[j] == k {
        assert Depth(par, N, j) == Depth(par, N, k) + 1;
        Distribute(CountEq(par, j, k), 1, m);
      }
    }
  }

  lemma {:induction false} ChildrenBelow(par: seq<int>, a: nat, N: nat, k: nat, j: nat)
    requires Tree(par, a, N) && a < k <= j <= N
    ensures CountEq(par, k, k) == CountEq(par, j + 1, k)
  {
    if j > k { ChildrenBelow(par, a, N, k, j - 1); }
  }

  /** Opening an inner node keeps the weighted count. */
  lemma FrontKept(par: seq<int>, a: nat, N: nat, k: nat)
    requires Tree(par, a, N) && a < k <= N
    ensures Frontier(par, N, k - 1, k - 1) == Frontier(par, N, k, k)
  {
    FrontOpens(par, a, N, k, k - 1);
    ChildrenBelow(par, a, N, k, N);
    assert Children(par, N, k) == 2;
    assert Pow2(N - Depth(par, N, k)) == 2 * Pow2(N - Depth(par, N, k) - 1);
  }

  lemma {:induction false} FrontTop(par: seq<int>, a: nat, N: nat, j: nat)
    requires Tree(par, a, N) && j < N
    ensures Frontier(par, N, N, j) == 0
  {
    if j > 0 { FrontTop(par, a, N, j - 1); }
  }

  lemma {:induction false} FrontDown(par: seq<int>, a: nat, N: nat, k: nat)
    requires Tree(par, a, N) && a <= k <= N
    ensures Frontier(par, N, k, k) == Pow2(N)
    decreases N - k
  {
    if k == N {
      FrontTop(par, a, N, N - 1);
    } else {
      FrontDown(par, a, N, k + 1);
      FrontKept(par, a, N, k + 1);
    }
  }

  lemma {:induction false} FrontIsKraft(par: seq<int>, a: nat, N: nat, len: seq<int>, j: nat)
    requires Tree(par, a, N) && j <= a <= |len| && forall i :: 0 <= i < a ==> 0 <= len[i] <= N
    requires forall i :: 0 <= i < a ==> len[i] == Depth(par, N, i + 1)
    ensures Frontier(par, N, a, j) == Kraft(len, N, j)
  {
    if j > 0 { FrontIsKraft(par, a, N, len, j - 1); }
  }

  /** The depths of the leaves use up the code space exactly. */
  lemma KraftEquality(par: seq<int>, a: nat, N: nat, len: seq<int>, B: nat)
    requires Tree(par, a, N) && a <= |len| && forall i :: 0 <= i < a ==> 0 <= len[i] <= B
    requires forall i :: 0 <= i < a ==> len[i] == Depth(par, N, i + 1)
    ensures Kraft(len, B, a) == Pow2(B)
  {
    hide Tree, Kraft, Pow2, Frontier, Depth;
    TreeSize(par, a, N);
    FrontDown(par, a, N, a);
    FrontIsKraft(par, a, N, len, a);
    if B <= N {
      KraftScales(len, B, N, a);
      Pow2Sum(B, N - B);
      SameFactor(Kraft(len, B, a), Pow2(B), Pow2(N - B));
    } else {
      KraftScales(len, N, B, a);
      Pow2Sum(N, B - N);
    }
  }

  lemma TreeSize(par: seq<int>, a: nat, N: nat)
    requires Tree(par, a, N)
    ensures a < N < |par| && forall k {:trigger Depth(par, N, k)} :: 1 <= k <= N ==> 0 <= Depth(par, N, k) <= N
  {
  }

  lemma SameFactor(x: int, y: int, m: int)
    requires m >= 1 && x * m == y * m
    ensures x == y
  {
  }
}
