/** Huffman's theorem: no code costs less than the depths of a tree made by joining the two lightest roots
    again and again; and since equal weights are ordered by height, no code that costs as little has a
    smaller greatest length. */
module HuffmanOptimality {
  import opened Counting
  import opened HuffmanTree
  import opened Powers

  /* ---- Sums over nodes ---- */

  ghost function Sum(s: seq<int>, j: nat): int
    requires j <= |s|
  {
    if j == 0 then 0 else Sum(s, j - 1) + s[j - 1]
  }

  lemma {:induction false} SumSet(s: seq<int>, i: nat, v: int, j: nat)
    requires i < |s| && j <= |s|
    ensures Sum(s[i := v], j) == Sum(s, j) + (if i < j then v - s[i] else 0)
  {
    if j > 0 { SumSet(s, i, v, j - 1); }
  }

  /** Sequences that differ in two places. */
  lemma SumTwo(s: seq<int>, t: seq<int>, i: nat, j: nat)
    requires |s| == |t| && i < |s| && j < |s| && i != j
    requires forall m :: 0 <= m < |s| && m != i && m != j ==> t[m] == s[m]
    ensures Sum(t, |t|) == Sum(s, |s|) + (t[i] - s[i]) + (t[j] - s[j])
  {
    assert t == s[i := t[i]][j := t[j]];
    SumSet(s, i, t[i], |s|);
    SumSet(s[i := t[i]], j, t[j], |s|);
  }

  lemma {:induction false} SumNonNegative(s: seq<int>, j: nat)
    requires j <= |s| && forall m :: 0 <= m < j ==> s[m] >= 0
    ensures Sum(s, j) >= 0
  {
    if j > 0 { SumNonNegative(s, j - 1); }
  }

  /** What a sum of multiples is a multiple of. */
  lemma {:induction false} SumMultiple(s: seq<int>, q: seq<int>, p: int, j: nat)
    requires j <= |s| == |q| && forall m :: 0 <= m < j ==> s[m] == q[m] * p
    ensures Sum(s, j) == Sum(q, j) * p
  {
    if j > 0 {
      SumMultiple(s, q, p, j - 1);
      Distribute(Sum(q, j - 1), q[j - 1], p);
    }
  }

  /* ---- The roots while node k is the last one made ---- */

  /** A tree whose siblings were joined lightest first. */
  ghost predicate Huffman(par: seq<int>, wt: seq<int>, a: nat, N: nat) {
    && Tree(par, a, N) && Greedy(par, wt, N)
    && forall m :: 1 <= m <= N ==> WeightOf(wt[m]) >= 1
  }

  ghost predicate Root(par: seq<int>, N: nat, k: nat, m: int)
    requires N < |par|
  {
    1 <= m <= k <= N && (m == N || k < par[m])
  }

  /** Weight times length of the roots. */
  ghost function Costs(par: seq<int>, wt: seq<int>, N: nat, k: nat, l: seq<int>): seq<int>
    requires N < |par| && |wt| == |par| && |l| == N + 1
  {
    seq(N + 1, m requires 0 <= m <= N => if Root(par, N, k, m) then WeightOf(wt[m]) * l[m] else 0)
  }

  /** The code space that the roots take up, when all of it is 2 to the B. */
  ghost function Shares(par: seq<int>, N: nat, k: nat, l: seq<int>, B: nat): seq<int>
    requires N < |par| && |l| == N + 1 && Bounded(par, N, k, l, B)
  {
    seq(N + 1, m requires 0 <= m <= N => if Root(par, N, k, m) then Pow2(B - l[m]) else 0)
  }

  ghost predicate Bounded(par: seq<int>, N: nat, k: nat, l: seq<int>, B: nat)
    requires N < |par| && |l| == N + 1
  {
    forall m :: 0 <= m <= N && Root(par, N, k, m) ==> 0 <= l[m] <= B
  }

  ghost function Cost(par: seq<int>, wt: seq<int>, N: nat, k: nat, l: seq<int>): int
    requires N < |par| && |wt| == |par| && |l| == N + 1
  {
    Sum(Costs(par, wt, N, k, l), N + 1)
  }

  /** Lengths for the roots that a prefix code can have. */
  ghost predicate Fits(par: seq<int>, N: nat, k: nat, l: seq<int>, B: nat) {
    && N < |par| && |l| == N + 1 && Bounded(par, N, k, l, B)
    && Sum(Shares(par, N, k, l, B), N + 1) <= Pow2(B)
  }

  /** The greatest length, counted from the leaves below the roots, is at most T. */
  ghost predicate Low(par: seq<int>, wt: seq<int>, N: nat, k: nat, l: seq<int>, T: int)
    requires N < |par| && |wt| == |par| && |l| == N + 1
  {
    forall m :: 0 <= m <= N && Root(par, N, k, m) ==> l[m] + DepthOf(wt[m]) <= T
  }

  /** l2 is no worse than l: it costs less, or as much without being longer. */
  ghost predicate Better(par: seq<int>, wt: seq<int>, N: nat, k: nat, l: seq<int>, l2: seq<int>, B: nat, T: int) {
    && Fits(par, N, k, l, B) && Fits(par, N, k, l2, B) && |wt| == |par|
    && Cost(par, wt, N, k, l2) <= Cost(par, wt, N, k, l)
    && (Cost(par, wt, N, k, l2) == Cost(par, wt, N, k, l) && Low(par, wt, N, k, l, T) ==>
          Low(par, wt, N, k, l2, T))
  }

  /* ---- Giving the two lightest roots the two greatest lengths ---- */

  function Exchanged(l: seq<int>, n: nat, x: nat): seq<int>
    requires n < |l| && x < |l|
  {
    l[n := l[x]][x := l[n]]
  }

  /** Exchanging the lengths of two roots changes the cost by the product of the differences. */
  lemma ExchangeSums(par: seq<int>, wt: seq<int>, N: nat, k: nat, l: seq<int>, B: nat, n: nat, x: nat)
    requires Fits(par, N, k, l, B) && |wt| == |par| && Root(par, N, k, n) && Root(par, N, k, x) && n != x
    ensures Fits(par, N, k, Exchanged(l, n, x), B)
    ensures Cost(par, wt, N, k, Exchanged(l, n, x)) ==
            Cost(par, wt, N, k, l) + (WeightOf(wt[n]) - WeightOf(wt[x])) * (l[x] - l[n])
  {
    hide Sum, WeightOf;
    RootRange(par, N, k, n);
    RootRange(par, N, k, x);
    hide Root;
    var e := Exchanged(l, n, x);
    assert Bounded(par, N, k, e, B);
    SumTwo(Costs(par, wt, N, k, l), Costs(par, wt, N, k, e), n, x);
    SumTwo(Shares(par, N, k, l, B), Shares(par, N, k, e, B), n, x);
    Cross(WeightOf(wt[n]), WeightOf(wt[x]), l[n], l[x]);
  }

  lemma RootRange(par: seq<int>, N: nat, k: nat, m: int)
    requires N < |par| && Root(par, N, k, m)
    ensures 1 <= m <= N
  {
  }

  lemma Cross(u: int, v: int, x: int, y: int)
    ensures u * y - u * x + (v * x - v * y) == (u - v) * (y - x)
  {
  }

  lemma NotPositive(u: int, v: int)
    requires u <= 0 <= v
    ensures u * v <= 0 && (u * v == 0 ==> u == 0 || v == 0)
  {
  }

  /** A lighter root may have the greater length. */
  lemma Exchange(par: seq<int>, wt: seq<int>, N: nat, k: nat, l: seq<int>, B: nat, n: nat, x: nat, T: int)
    requires Fits(par, N, k, l, B) && |wt| == |par| && Root(par, N, k, n) && Root(par, N, k, x)
    requires wt[n] <= wt[x] && l[n] <= l[x]
    ensures Better(par, wt, N, k, l, Exchanged(l, n, x), B, T)
  {
    hide Cost, Sum, Shares;
    var e := Exchanged(l, n, x);
    if l[n] == l[x] {
      assert e == l;
    } else {
      ExchangeSums(par, wt, N, k, l, B, n, x);
      NotPositive(WeightOf(wt[n]) - WeightOf(wt[x]), l[x] - l[n]);
    }
  }

  /** A root with the greatest length among those other than z. */
  lemma {:induction false} Longest(par: seq<int>, N: nat, k: nat, l: seq<int>, z: nat, x0: nat, j: nat) returns (x: nat)
    requires N < |par| && |l| == N + 1 && j <= N + 1 && Root(par, N, k, x0) && x0 != z
    ensures Root(par, N, k, x) && x != z && l[x] >= l[x0]
    ensures forall m :: 0 <= m < j && Root(par, N, k, m) && m != z ==> l[m] <= l[x]
  {
    if j == 0 {
      x := x0;
    } else {
      x := Longest(par, N, k, l, z, x0, j - 1);
      if Root(par, N, k, j - 1) && j - 1 != z && l[j - 1] > l[x] { x := j - 1; }
    }
  }

  /** If only one root has the greatest length, there is room for it to be as short as the next one. */
  lemma Shorten(par: seq<int>, wt: seq<int>, N: nat, k: nat, l: seq<int>, B: nat, n: nat, M: nat, T: int)
    requires Fits(par, N, k, l, B) && |wt| == |par| && Root(par, N, k, n) && M < l[n] && WeightOf(wt[n]) >= 1
    requires forall m :: 0 <= m <= N && Root(par, N, k, m) && m != n ==> l[m] <= M
    ensures Better(par, wt, N, k, l, l[n := M], B, T)
  {
    hide Sum, WeightOf, Pow2;
    RootRange(par, N, k, n);
    hide Root;
    var l2, p := l[n := M], Pow2(B - M);
    var s := Shares(par, N, k, l, B);
    var q := seq(N + 1, m requires 0 <= m <= N => if Root(par, N, k, m) && m != n then Pow2(M - l[m]) else 0);
    forall m | 0 <= m <= N ensures s[n := 0][m] == q[m] * p {
      if Root(par, N, k, m) && m != n {
        Pow2Sum(M - l[m], B - M);
        assert (M - l[m]) + (B - M) == B - l[m];
      }
    }
    SumMultiple(s[n := 0], q, p, N + 1);
    SumSet(s, n, 0, N + 1);
    assert Shares(par, N, k, l2, B) == s[n := p];
    SumSet(s, n, p, N + 1);
    Pow2Sum(M, B - M);
    RoomForOne(Sum(q, N + 1), Pow2(M), p);
    var c := Costs(par, wt, N, k, l);
    assert Costs(par, wt, N, k, l2) == c[n := WeightOf(wt[n]) * M];
    SumSet(c, n, WeightOf(wt[n]) * M, N + 1);
    LessProduct(WeightOf(wt[n]), M, l[n]);
  }

  lemma RoomForOne(x: int, y: int, p: int)
    requires p >= 1 && x * p < y * p
    ensures x * p + p <= y * p
  {
    if x >= y { Distribute(y, x - y, p); }
    Distribute(x, 1, p);
    if x + 1 < y { Distribute(x + 1, y - x - 1, p); }
  }

  lemma LessProduct(w: int, x: int, y: int)
    requires w >= 1 && x < y
    ensures w * x < w * y
  {
  }

  lemma BetterTwice(par: seq<int>, wt: seq<int>, N: nat, k: nat, l: seq<int>, l2: seq<int>, l3: seq<int>, B: nat,
                    T: int)
    requires Better(par, wt, N, k, l, l2, B, T) && Better(par, wt, N, k, l2, l3, B, T)
    ensures Better(par, wt, N, k, l, l3, B, T)
  {
  }

  lemma BetterFits(par: seq<int>, wt: seq<int>, N: nat, k: nat, l: seq<int>, l2: seq<int>, B: nat, T: int)
    requires Better(par, wt, N, k, l, l2, B, T)
    ensures Fits(par, N, k, l2, B) && |l2| == |l| == N + 1
    ensures forall m :: 0 <= m <= N && Root(par, N, k, m) ==> 0 <= l2[m]
  {
  }

  /** Root n gets the length of x, which is greatest among the roots other than z. */
  lemma Longer(par: seq<int>, wt: seq<int>, N: nat, k: nat, l: seq<int>, B: nat, n: nat, x: nat, z: nat, T: int)
    returns (l2: seq<int>)
    requires Fits(par, N, k, l, B) && |wt| == |par| && Root(par, N, k, n) && Root(par, N, k, x) && z !in {n, x}
    requires forall m :: 0 <= m <= N && Root(par, N, k, m) && m != z ==> l[m] <= l[x]
    requires n == x || wt[n] <= wt[x]
    ensures Better(par, wt, N, k, l, l2, B, T) && (z <= N ==> l2[z] == l[z])
    ensures forall m :: 0 <= m <= N && Root(par, N, k, m) ==> l2[m] <= (if m == z then l[m] else l2[n])
    ensures l2[n] == l[x]
  {
    hide Cost, Shares, Sum;
    l2 := l;
    if n != x {
      Exchange(par, wt, N, k, l, B, n, x, T);
      l2 := Exchanged(l, n, x);
    }
  }

  /** The two lightest roots can be given the greatest length, both the same, without making the code worse. */
  lemma Twins(par: seq<int>, wt: seq<int>, N: nat, k: nat, l: seq<int>, B: nat, n1: nat, n2: nat, T: int)
    returns (l2: seq<int>)
    requires Fits(par, N, k, l, B) && |wt| == |par| && Root(par, N, k, n1) && Root(par, N, k, n2) && n1 != n2
    requires forall m :: 1 <= m <= N && Root(par, N, k, m) ==> WeightOf(wt[m]) >= 1
    requires forall m :: 1 <= m <= N && Root(par, N, k, m) && m != n1 && m != n2 ==> wt[n1] <= wt[m] && wt[n2] <= wt[m]
    ensures Better(par, wt, N, k, l, l2, B, T) && l2[n1] == l2[n2]
  {
    assert 1 <= n1 <= N && 1 <= n2 <= N && |l| == N + 1;
    var x := Longest(par, N, k, l, 0, n1, N + 1);
    var a, b := if x == n2 then n2 else n1, if x == n2 then n1 else n2;
    hide Fits, Better, WeightOf, Root;
    var l1 := Longer(par, wt, N, k, l, B, a, x, 0, T);
    BetterFits(par, wt, N, k, l, l1, B, T);
    var y := Longest(par, N, k, l1, a, b, N + 1);
    l2 := Longer(par, wt, N, k, l1, B, b, y, a, T);
    BetterFits(par, wt, N, k, l1, l2, B, T);
    BetterTwice(par, wt, N, k, l, l1, l2, B, T);
    if l2[a] != l2[b] {
      Shorten(par, wt, N, k, l2, B, a, l2[b], T);
      BetterTwice(par, wt, N, k, l, l2, l2[a := l2[b]], B, T);
      l2 := l2[a := l2[b]];
    }
  }

  /* ---- From the children to their parent ---- */

  /** The two children of node k. */
  ghost predicate Siblings(par: seq<int>, N: nat, k: nat, n1: nat, n2: nat) {
    && k <= N < |par| && 1 <= n1 < n2 < k && par[n1] == k && par[n2] == k
    && forall m :: 1 <= m <= N && par[m] == k ==> m == n1 || m == n2
  }

  /** An element that is counted has a last place. */
  lemma {:induction false} LastOf(s: seq<int>, i: nat, c: int) returns (m: nat)
    requires i <= |s| && CountEq(s, i, c) >= 1
    ensures m < i && s[m] == c && CountEq(s, m, c) == CountEq(s, i, c) - 1
    ensures forall j :: m < j < i ==> s[j] != c
  {
    if s[i - 1] == c {
      m := i - 1;
    } else {
      m := LastOf(s, i - 1, c);
    }
  }

  lemma {:induction false} NoneOf(s: seq<int>, i: nat, c: int)
    requires i <= |s| && CountEq(s, i, c) == 0
    ensures forall j :: 0 <= j < i ==> s[j] != c
  {
    if i > 0 { NoneOf(s, i - 1, c); }
  }

  lemma FindSiblings(par: seq<int>, a: nat, N: nat, k: nat) returns (n1: nat, n2: nat)
    requires Tree(par, a, N) && a < k <= N
    ensures Siblings(par, N, k, n1, n2)
  {
    assert Children(par, N, k) == 2;
    n2 := LastOf(par, N + 1, k);
    n1 := LastOf(par, n2, k);
    NoneOf(par, n1, k);
  }

  /** Before and after joining n1 and n2 below k the roots are the same except for these. */
  lemma RootsAround(par: seq<int>, a: nat, N: nat, k: nat, n1: nat, n2: nat)
    requires Tree(par, a, N) && a < k <= N && Siblings(par, N, k, n1, n2)
    ensures Root(par, N, k - 1, n1) && Root(par, N, k - 1, n2) && !Root(par, N, k - 1, k)
    ensures !Root(par, N, k, n1) && !Root(par, N, k, n2) && Root(par, N, k, k)
    ensures forall m :: m != n1 && m != n2 && m != k ==> Root(par, N, k - 1, m) == Root(par, N, k, m)
  {
  }

  lemma SumThree(s: seq<int>, t: seq<int>, i: nat, j: nat, k: nat)
    requires |s| == |t| && i < j < k < |s|
    requires forall m :: 0 <= m < |s| && m != i && m != j && m != k ==> t[m] == s[m]
    ensures Sum(t, |t|) == Sum(s, |s|) + (t[i] - s[i]) + (t[j] - s[j]) + (t[k] - s[k])
  {
    SumTwo(s, s[i := t[i]][j := t[j]], i, j);
    assert t == s[i := t[i]][j := t[j]][k := t[k]];
    SumSet(s[i := t[i]][j := t[j]], k, t[k], |s|);
  }

  /** Two roots cannot both have the empty code word. */
  lemma TwoNeedRoom(par: seq<int>, N: nat, k: nat, l: seq<int>, B: nat, n1: nat, n2: nat)
    requires Fits(par, N, k, l, B) && Root(par, N, k, n1) && Root(par, N, k, n2) && n1 != n2
    ensures l[n1] > 0 || l[n2] > 0
  {
    hide Sum;
    RootRange(par, N, k, n1);
    RootRange(par, N, k, n2);
    var s := Shares(par, N, k, l, B);
    SumTwo(s, s[n1 := 0][n2 := 0], n1, n2);
    SumNonNegative(s[n1 := 0][n2 := 0], N + 1);
  }

  /** The parent of two roots of the same length may have the length before it; this saves its weight. */
  lemma Merge(par: seq<int>, wt: seq<int>, a: nat, N: nat, k: nat, l: seq<int>, B: nat, n1: nat, n2: nat, T: int)
    requires Huffman(par, wt, a, N) && a < k <= N && Siblings(par, N, k, n1, n2)
    requires Fits(par, N, k - 1, l, B) && l[n1] == l[n2]
    ensures l[n1] > 0 && Fits(par, N, k, l[k := l[n1] - 1], B)
    ensures Cost(par, wt, N, k - 1, l) == Cost(par, wt, N, k, l[k := l[n1] - 1]) + WeightOf(wt[k])
    ensures Low(par, wt, N, k - 1, l, T) ==> Low(par, wt, N, k, l[k := l[n1] - 1], T)
  {
    hide Sum;
    RootsAround(par, a, N, k, n1, n2);
    assert SumOf(wt[k], wt[n1], wt[n2]);
    TwoNeedRoom(par, N, k - 1, l, B, n1, n2);
    hide Root, Huffman, Tree, Siblings, WeightOf, DepthOf, Pow2, Greedy;
    var l2 := l[k := l[n1] - 1];
    assert Bounded(par, N, k, l2, B);
    SumThree(Costs(par, wt, N, k - 1, l), Costs(par, wt, N, k, l2), n1, n2, k);
    SumThree(Shares(par, N, k - 1, l, B), Shares(par, N, k, l2, B), n1, n2, k);
    JoinedCost(WeightOf(wt[n1]), WeightOf(wt[n2]), l[n1]);
    Doubled(B - l[n1]);
  }

  lemma Doubled(e: nat)
    ensures Pow2(e + 1) == 2 * Pow2(e)
  {
  }

  lemma JoinedCost(u: int, v: int, x: int)
    ensures (u + v) * (x - 1) == u * x + v * x - (u + v)
  {
  }

  /* ---- The theorem ---- */

  /** Weights of the inner nodes after k. */
  ghost function Inner(wt: seq<int>, k: nat, N: nat): int
    requires k <= N < |wt|
    decreases N - k
  {
    if k == N then 0 else Inner(wt, k + 1, N) + WeightOf(wt[k + 1])
  }

  lemma {:induction false} LastRoot(par: seq<int>, a: nat, N: nat, m: nat)
    requires Tree(par, a, N) && 1 <= m <= N
    ensures Root(par, N, N, m) <==> m == N
  {
  }

  lemma OneRoot(par: seq<int>, wt: seq<int>, a: nat, N: nat, l: seq<int>)
    requires Huffman(par, wt, a, N) && |l| == N + 1
    ensures Cost(par, wt, N, N, l) == WeightOf(wt[N]) * l[N]
  {
    hide Sum;
    forall m | 1 <= m <= N ensures Root(par, N, N, m) <==> m == N { LastRoot(par, a, N, m); }
    var c := Costs(par, wt, N, N, l);
    hide Tree, Greedy;
    AllZero(c[N := 0], N + 1);
    SumSet(c, N, 0, N + 1);
  }

  lemma {:induction false} AllZero(s: seq<int>, j: nat)
    requires j <= |s| && forall m :: 0 <= m < j ==> s[m] == 0
    ensures Sum(s, j) == 0
  {
    if j > 0 { AllZero(s, j - 1); }
  }

  /** The children of k were the lightest roots. */
  lemma SiblingsLight(par: seq<int>, wt: seq<int>, a: nat, N: nat, k: nat, n1: nat, n2: nat)
    requires Huffman(par, wt, a, N) && a < k <= N && Siblings(par, N, k, n1, n2)
    ensures forall m :: 1 <= m <= N && Root(par, N, k - 1, m) ==> WeightOf(wt[m]) >= 1
    ensures forall m ::
              1 <= m <= N && Root(par, N, k - 1, m) && m != n1 && m != n2 ==> wt[n1] <= wt[m] && wt[n2] <= wt[m]
  {
    hide WeightOf;
  }

  /** No lengths for the roots cost less than the joins still to come, and if they cost no more they are
      no lower than the tree. */
  lemma {:induction false} NoneBetter(par: seq<int>, wt: seq<int>, a: nat, N: nat, k: nat, l: seq<int>, B: nat, T: int)
    requires Huffman(par, wt, a, N) && a <= k <= N && Fits(par, N, k, l, B)
    ensures Cost(par, wt, N, k, l) >= Inner(wt, k, N)
    ensures Cost(par, wt, N, k, l) == Inner(wt, k, N) && Low(par, wt, N, k, l, T) ==> DepthOf(wt[N]) <= T
    decreases N - k
  {
    if k == N {
      OneRoot(par, wt, a, N, l);
      LastRoot(par, a, N, N);
      if l[N] > 0 { LessProduct(WeightOf(wt[N]), 0, l[N]); }
    } else {
      var n1, n2 := FindSiblings(par, a, N, k + 1);
      RootsAround(par, a, N, k + 1, n1, n2);
      SiblingsLight(par, wt, a, N, k + 1, n1, n2);
      hide Cost, Fits, Low, Huffman, Siblings, WeightOf, DepthOf, Root;
      var l2 := Twins(par, wt, N, k, l, B, n1, n2, T);
      BetterFits(par, wt, N, k, l, l2, B, T);
      Merge(par, wt, a, N, k + 1, l2, B, n1, n2, T);
      NoneBetter(par, wt, a, N, k + 1, l2[k + 1 := l2[n1] - 1], B, T);
    }
  }

  ghost function Depths(par: seq<int>, N: nat): seq<int>
    requires N < |par| && forall m :: 1 <= m < N ==> m < par[m] <= N
  {
    seq(N + 1, m requires 0 <= m <= N => if m == 0 then 0 else Depth(par, N, m))
  }

  lemma JoinedDepth(u: int, v: int, d: int)
    ensures u * (d + 1) + v * (d + 1) == (u + v) * d + (u + v)
  {
  }

  /** The depths cost exactly the joins still to come. */
  lemma {:induction false} DepthsCost(par: seq<int>, wt: seq<int>, a: nat, N: nat, k: nat)
    requires Huffman(par, wt, a, N) && a <= k <= N && forall m :: 1 <= m < N ==> m < par[m] <= N
    ensures Cost(par, wt, N, k, Depths(par, N)) == Inner(wt, k, N)
    decreases N - k
  {
    if k == N {
      OneRoot(par, wt, a, N, Depths(par, N));
    } else {
      DepthsCost(par, wt, a, N, k + 1);
      var n1, n2 := FindSiblings(par, a, N, k + 1);
      RootsAround(par, a, N, k + 1, n1, n2);
      OneJoinCost(par, wt, a, N, k + 1, n1, n2);
    }
  }

  lemma OneJoinCost(par: seq<int>, wt: seq<int>, a: nat, N: nat, k: nat, n1: nat, n2: nat)
    requires Huffman(par, wt, a, N) && a < k <= N && forall m :: 1 <= m < N ==> m < par[m] <= N
    requires Siblings(par, N, k, n1, n2)
    ensures Cost(par, wt, N, k - 1, Depths(par, N)) == Cost(par, wt, N, k, Depths(par, N)) + WeightOf(wt[k])
  {
    hide Sum;
    RootsAround(par, a, N, k, n1, n2);
    assert SumOf(wt[k], wt[n1], wt[n2]);
    hide Root, Huffman, Tree, WeightOf, DepthOf;
    var d := Depths(par, N);
    assert d[n1] == d[k] + 1 && d[n2] == d[k] + 1;
    SumThree(Costs(par, wt, N, k - 1, d), Costs(par, wt, N, k, d), n1, n2, k);
    JoinedDepth(WeightOf(wt[n1]), WeightOf(wt[n2]), d[k]);
  }

  /* ---- Code lengths ---- */

  /** What coding takes: the sum of weight times length. */
  ghost function CodedBits(w: seq<int>, len: seq<int>, j: nat): int
    requires j <= |w| && j <= |len|
  {
    if j == 0 then 0 else CodedBits(w, len, j - 1) + w[j - 1] * len[j - 1]
  }

  /** Lengths that a prefix code for the first a symbols can have: Kraft's inequality. */
  ghost predicate PrefixCode(len: seq<int>, a: nat, B: nat) {
    a <= |len| && (forall i :: 0 <= i < a ==> 0 <= len[i] <= B) && Kraft(len, B, a) <= Pow2(B)
  }

  /** No prefix code, however long its code words, takes fewer bits for these weights. */
  ghost predicate Best(w: seq<int>, len: seq<int>, a: nat) {
    && a <= |w| && a <= |len| && (exists B: nat :: PrefixCode(len, a, B))
    && forall l: seq<int>, B: nat :: PrefixCode(l, a, B) ==> CodedBits(w, len, a) <= CodedBits(w, l, a)
  }

  ghost predicate UpTo(len: seq<int>, a: nat, top: int) {
    a <= |len| && forall i :: 0 <= i < a ==> len[i] <= top
  }

  /** The lengths of the leaves, by node. */
  function ByNode(len: seq<int>, a: nat, N: nat): (l: seq<int>)
    requires a <= |len|
  {
    seq(N + 1, m requires 0 <= m <= N => if 1 <= m <= a then len[m - 1] else 0)
  }

  lemma LeafRoot(par: seq<int>, a: nat, N: nat, m: nat)
    requires Tree(par, a, N)
    ensures Root(par, N, a, m) <==> 1 <= m <= a
  {
  }

  /** Sums over the leaves, by node and by symbol. */
  lemma {:induction false} LeafCost(par: seq<int>, wt: seq<int>, a: nat, N: nat, w: seq<int>, len: seq<int>,
                                    l: seq<int>, j: nat)
    requires Tree(par, a, N) && |wt| == |par| && a <= |w| && a <= |len| && |l| == N + 1 && j <= N
    requires forall i :: 0 <= i < a ==> w[i] == WeightOf(wt[i + 1]) && l[i + 1] == len[i]
    ensures Sum(Costs(par, wt, N, a, l), j + 1) == CodedBits(w, len, if j < a then j else a)
  {
    LeafRoot(par, a, N, j);
    hide Tree, Root;
    if j > 0 {
      LeafCost(par, wt, a, N, w, len, l, j - 1);
    } else {
      assert Sum(Costs(par, wt, N, a, l), 0) == 0;
    }
  }

  lemma {:induction false} LeafShares(par: seq<int>, a: nat, N: nat, len: seq<int>, l: seq<int>, B: nat, j: nat)
    requires Tree(par, a, N) && a <= |len| && |l| == N + 1 && j <= N
    requires forall i :: 0 <= i < a ==> l[i + 1] == len[i] && 0 <= len[i] <= B
    ensures Bounded(par, N, a, l, B)
    ensures Sum(Shares(par, N, a, l, B), j + 1) == Kraft(len, B, if j < a then j else a)
  {
    forall m | 0 <= m <= N && Root(par, N, a, m) ensures 0 <= l[m] <= B {
      LeafRoot(par, a, N, m);
      assert l[(m - 1) + 1] == len[m - 1];
    }
    LeafRoot(par, a, N, j);
    hide Tree, Root;
    if j > 0 {
      LeafShares(par, a, N, len, l, B, j - 1);
    } else {
      assert Sum(Shares(par, N, a, l, B), 0) == 0;
    }
  }

  /** The leaves of a tree as Huffman's algorithm reads it: symbol i at node i + 1, with no height. */
  ghost predicate Leaves(par: seq<int>, wt: seq<int>, a: nat, N: nat, w: seq<int>, len: seq<int>) {
    && Huffman(par, wt, a, N) && a <= |w| && a <= |len| && (forall m :: 1 <= m < N ==> m < par[m] <= N)
    && (forall i :: 0 <= i < a ==> w[i] == WeightOf(wt[i + 1]) && DepthOf(wt[i + 1]) == 0)
    && (forall i :: 0 <= i < a ==> len[i] == Depth(par, N, i + 1))
  }

  /** Any prefix code takes as many bits as the joins weigh, or more; and one that takes no more is as long
      as the tree is high. */
  lemma AnyCode(par: seq<int>, wt: seq<int>, a: nat, N: nat, w: seq<int>, len: seq<int>, l: seq<int>, B: nat, T: int)
    requires Leaves(par, wt, a, N, w, len) && PrefixCode(l, a, B)
    ensures CodedBits(w, l, a) >= Inner(wt, a, N)
    ensures CodedBits(w, l, a) == Inner(wt, a, N) && UpTo(l, a, T) ==> DepthOf(wt[N]) <= T
  {
    hide Sum;
    var v := ByNode(l, a, N);
    LeafCost(par, wt, a, N, w, l, v, N);
    LeafShares(par, a, N, l, v, B, N);
    NoneBetter(par, wt, a, N, a, v, B, T);
    if UpTo(l, a, T) {
      forall m | 0 <= m <= N && Root(par, N, a, m) ensures v[m] + DepthOf(wt[m]) <= T {
        LeafRoot(par, a, N, m);
        assert DepthOf(wt[(m - 1) + 1]) == 0 && v[(m - 1) + 1] == l[m - 1];
      }
    }
  }

  /** Huffman's theorem: the depths of the leaves are lengths of a prefix code, and no other is cheaper. */
  lemma HuffmanIsBest(par: seq<int>, wt: seq<int>, a: nat, N: nat, w: seq<int>, len: seq<int>)
    requires Leaves(par, wt, a, N, w, len)
    ensures Best(w, len, a) && CodedBits(w, len, a) == Inner(wt, a, N)
  {
    hide Sum, Kraft;
    DepthsCost(par, wt, a, N, a);
    LeafCost(par, wt, a, N, w, len, Depths(par, N), N);
    forall i | 0 <= i < a ensures 0 <= len[i] <= N {}
    KraftEquality(par, a, N, len, N);
    assert PrefixCode(len, a, N);
    forall l: seq<int>, B: nat | PrefixCode(l, a, B) ensures CodedBits(w, len, a) <= CodedBits(w, l, a) {
      AnyCode(par, wt, a, N, w, len, l, B, 0);
    }
  }

  /** Equal weights being joined lowest first, no best code is shorter throughout. */
  lemma HuffmanIsLow(par: seq<int>, wt: seq<int>, a: nat, N: nat, place: seq<int>, w: seq<int>, len: seq<int>,
                     l: seq<int>, T: int)
    requires Leaves(par, wt, a, N, w, len) && Forest(par, wt, a, N, place)
    requires Best(w, l, a) && UpTo(l, a, T)
    ensures UpTo(len, a, T)
  {
    HuffmanIsBest(par, wt, a, N, w, len);
    var B: nat :| PrefixCode(l, a, B);
    AnyCode(par, wt, a, N, w, len, l, B, T);
    var C: nat :| PrefixCode(len, a, C);
    assert CodedBits(w, l, a) == Inner(wt, a, N);
    forall i | 0 <= i < a ensures len[i] <= T { DepthBound(par, wt, a, N, place, i + 1); }
  }

  lemma {:induction false} KraftSet(len: seq<int>, B: nat, j: nat, i: nat, v: int)
    requires j <= |len| && i < |len| && 0 <= v <= B && forall m :: 0 <= m < |len| && m < j ==> 0 <= len[m] <= B
    ensures Kraft(len[i := v], B, j) == Kraft(len, B, j) + (if i < j then Pow2(B - v) - Pow2(B - len[i]) else 0)
  {
    if j > 0 { KraftSet(len, B, j - 1, i, v); }
  }

  lemma {:induction false} CodedBitsSet(w: seq<int>, len: seq<int>, j: nat, i: nat, v: int)
    requires j <= |w| && j <= |len| && i < |len|
    ensures CodedBits(w, len[i := v], j) == CodedBits(w, len, j) + (if i < j then w[i] * v - w[i] * len[i] else 0)
  {
    if j > 0 { CodedBitsSet(w, len, j - 1, i, v); }
  }

  /** Two symbols exchange their code words. */
  lemma ExchangedCode(w: seq<int>, len: seq<int>, a: nat, B: nat, i: nat, j: nat)
    requires a <= |w| && PrefixCode(len, a, B) && i < a && j < a && i != j
    ensures PrefixCode(Exchanged(len, i, j), a, B)
    ensures CodedBits(w, Exchanged(len, i, j), a) == CodedBits(w, len, a) + (w[i] - w[j]) * (len[j] - len[i])
  {
    hide Pow2, CodedBits, Kraft;
    var l1 := len[i := len[j]];
    KraftSet(len, B, a, i, len[j]);
    KraftSet(l1, B, a, j, len[i]);
    CodedBitsSet(w, len, a, i, len[j]);
    CodedBitsSet(w, l1, a, j, len[i]);
    Cross(w[i], w[j], len[i], len[j]);
  }

  /** In a best code a heavier symbol has no longer code word. */
  lemma HeavierIsShorter(w: seq<int>, len: seq<int>, a: nat, i: nat, j: nat)
    requires Best(w, len, a) && i < a && j < a && w[i] < w[j]
    ensures len[j] <= len[i]
  {
    if len[i] < len[j] {
      var B: nat :| PrefixCode(len, a, B);
      hide PrefixCode, CodedBits;
      ExchangedCode(w, len, a, B, i, j);
      LessProduct(len[j] - len[i], w[i] - w[j], 0);
    }
  }
}
