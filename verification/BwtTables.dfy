/** The two tables the decoder walks: the 32-bit tt table of the fast decoder, and the 20-bit
    table of the small decoder, inverted in place along one cycle. */
module BwtTables {
  import opened Counting
  import opened InverseBwt

  const ALPHABET := 256

  /** Turns the character counts unzftab into the table of bucket starts. */
  method ComputeCftab(ghost l: seq<int>, unzftab: array<int>) returns (cftab: array<int>)
    requires Within(l, ALPHABET) && unzftab.Length == ALPHABET
    requires forall c :: 0 <= c < ALPHABET ==> unzftab[c] == CountEq(l, |l|, c)
    ensures fresh(cftab) && Starts(l, ALPHABET, cftab[..])
  {
    cftab := new int[ALPHABET + 1];
    cftab[0] := 0;
    for i := 1 to ALPHABET + 1
      invariant cftab[0] == 0
      invariant forall c :: 1 <= c < i ==> cftab[c] == CountEq(l, |l|, c - 1)
    {
      cftab[i] := unzftab[i - 1];
    }
    CountAll(l, ALPHABET, |l|, 0);
    for i := 1 to ALPHABET + 1
      invariant forall c :: 0 <= c < i ==> cftab[c] == CountLess(l, |l|, c)
      invariant forall c :: i <= c <= ALPHABET ==> cftab[c] == CountEq(l, |l|, c - 1)
    {
      CountSplit(l, |l|, i - 1);
      cftab[i] := cftab[i] + cftab[i - 1];
    }
  }

  /** Bucket pointers after the first i rows have been counted in. */
  ghost predicate Advanced(l: seq<int>, cf: seq<int>, i: nat) {
    && |cf| == ALPHABET + 1 && i <= |l|
    && forall c :: 0 <= c < ALPHABET ==> cf[c] == CountLess(l, |l|, c) + CountEq(l, i, c)
  }

  /** The bucket pointer of the next row's character is that row's rank. */
  lemma AdvanceStep(l: seq<int>, cf: seq<int>, i: nat)
    requires Within(l, ALPHABET) && Advanced(l, cf, i) && i < |l|
    ensures cf[l[i]] == Rank(l, i) < |l|
    ensures Advanced(l, cf[l[i] := cf[l[i]] + 1], i + 1)
  {
    RankBounds(l, i);
  }

  /** q holds, at the ranks of the first i rows, those rows, and -1 elsewhere. */
  ghost predicate Placed(l: seq<int>, q: seq<int>, i: nat) {
    && |q| == |l| && i <= |l|
    && (forall k :: 0 <= k < |l| ==> q[k] == -1 || (0 <= q[k] < i && Rank(l, q[k]) == k))
    && (forall x :: 0 <= x < i ==> Rank(l, x) < |l| && q[Rank(l, x)] == x)
  }

  lemma PlaceStep(l: seq<int>, q: seq<int>, i: nat)
    requires Placed(l, q, i) && i < |l|
    ensures Rank(l, i) < |l| && q[Rank(l, i)] == -1
    ensures Placed(l, q[Rank(l, i) := i], i + 1)
  {
    RankBounds(l, i);
    var k := Rank(l, i);
    if q[k] != -1 { RankInjective(l, q[k], i); }
  }

  lemma PlacedAll(l: seq<int>, q: seq<int>)
    requires Placed(l, q, |l|)
    ensures Links(l, q)
  {
    var ranks := seq(|l|, x requires 0 <= x < |l| => Rank(l, x));
    forall x, y | 0 <= x < y < |l| ensures ranks[x] != ranks[y] {
      RankInjective(l, x, y);
    }
    forall k | 0 <= k < |l| ensures q[k] != -1 {
      Rotation.PermCovers(ranks, |l|, k);
    }
  }

  /** The low byte of a tt word is a character of the last column, the other bits are a link. */
  function Word(ch: int, link: int): int {
    ch + 256 * (if link == -1 then 0 else link)
  }

  lemma Start(l: seq<int>, cf: seq<int>, q: seq<int>)
    requires Starts(l, ALPHABET, cf) && |q| == |l| && forall k :: 0 <= k < |q| ==> q[k] == -1
    ensures Advanced(l, cf, 0) && Placed(l, q, 0)
  {
  }

  lemma WordParts(ch: int, link: int)
    requires 0 <= ch < ALPHABET
    ensures Word(ch, link) % 256 == ch && Word(ch, link) / 256 == if link == -1 then 0 else link
  {
  }

  lemma WordAdd(ch: int, link: nat)
    ensures Word(ch, -1) + 256 * link == Word(ch, link) && Word(ch, -1) == ch
  {
  }

  /** Fast decoder: adds the inverse links above the characters already in tt. The C code adds
      `i << 8` with a bitwise or; the bits it sets are clear, so the or is an addition. */
  method BuildFast(tt: array<int>, cftab: array<int>, nblock: nat, ghost l: seq<int>) returns (ghost q: seq<int>)
    requires tt != cftab && nblock == |l| <= tt.Length && Within(l, ALPHABET) && Starts(l, ALPHABET, cftab[..])
    requires tt[..nblock] == l
    modifies tt, cftab
    ensures Links(l, q)
    ensures forall k :: 0 <= k < nblock ==> tt[k] == Word(l[k], q[k])
    ensures forall k :: nblock <= k < tt.Length ==> tt[k] == old(tt[k])
  {
    hide Placed, Advanced, Rank, Links, Word, CountLess, CountEq;
    q := seq(nblock, _ => -1);
    Start(l, cftab[..], q);
    forall k | 0 <= k < nblock ensures tt[k] == Word(l[k], q[k]) {
      assert tt[k] == tt[..nblock][k];
      WordAdd(l[k], 0);
    }
    for i := 0 to nblock
      invariant |q| == nblock
      invariant forall k :: 0 <= k < nblock ==> tt[k] == Word(l[k], q[k])
      invariant forall k :: nblock <= k < tt.Length ==> tt[k] == old(tt[k])
      invariant Advanced(l, cftab[..], i)
      invariant Placed(l, q, i)
    {
      WordParts(l[i], q[i]);
      var uc := tt[i] % 256;
      AdvanceStep(l, cftab[..], i);
      PlaceStep(l, q, i);
      WordAdd(l[Rank(l, i)], i);
      ghost var cf := cftab[..];
      tt[cftab[uc]] := tt[cftab[uc]] + 256 * i;
      q := q[Rank(l, i) := i];
      cftab[uc] := cftab[uc] + 1;
      assert cftab[..] == cf[uc := cf[uc] + 1];
    }
    PlacedAll(l, q);
  }

  /** The character of the first column at row k is the bucket k falls in. */
  lemma BucketOfRank(l: seq<int>, q: seq<int>, k: nat)
    requires Links(l, q) && k < |l|
    ensures CountLess(l, |l|, l[q[k]]) <= k < CountLess(l, |l|, l[q[k]] + 1)
  {
    RankBounds(l, q[k]);
  }

  /** Binary search for the bucket that holds row indx. */
  method IndexIntoF(indx: nat, cftab: array<int>) returns (nb: nat)
    requires cftab.Length == ALPHABET + 1
    requires cftab[0] <= indx < cftab[ALPHABET]
    ensures nb < ALPHABET && cftab[nb] <= indx < cftab[nb + 1]
  {
    nb := 0;
    var na := 256;
    var more := true;
    while more
      invariant 0 <= nb < na <= ALPHABET
      invariant cftab[nb] <= indx < cftab[na]
      invariant more <==> na - nb != 1
      decreases na - nb
    {
      var mid := (nb + na) / 2;
      if indx >= cftab[mid] { nb := mid; } else { na := mid; }
      more := na - nb != 1;
    }
  }

  /** The bucket found by the search is the character the fast decoder reads from tt. */
  lemma SearchFindsCharacter(l: seq<int>, q: seq<int>, cf: seq<int>, k: nat, nb: nat)
    requires Within(l, ALPHABET) && Links(l, q) && Starts(l, ALPHABET, cf) && k < |l|
    requires nb < ALPHABET && cf[nb] <= k < cf[nb + 1]
    ensures nb == l[q[k]]
  {
    var c := l[q[k]];
    BucketOfRank(l, q, k);
    if nb < c { CountLessGrows(l, |l|, nb + 1, c); }
    if c < nb { CountLessGrows(l, |l|, c + 1, nb); }
  }

  /** The small decoder's table: 16 low bits of an entry in ll16, 4 high bits in half of a byte of
      ll4, even entries in the low half. */
  class PackedLinks {
    const ll16: array<int>
    const ll4: array<int>

    ghost predicate Valid()
      reads this, ll16, ll4
    {
      && ll16 != ll4
      && ll16.Length <= 2 * ll4.Length
      && (forall i :: 0 <= i < ll16.Length ==> 0 <= ll16[i] < 65536)
      && (forall i :: 0 <= i < ll4.Length ==> 0 <= ll4[i] < 256)
    }

    constructor (n: nat)
      ensures Valid() && fresh(ll16) && fresh(ll4) && ll16.Length == n
    {
      ll16 := new int[n](_ => 0);
      ll4 := new int[(1 + n) / 2](_ => 0);
    }

    function Get4(i: nat): int
      requires i / 2 < ll4.Length
      reads this, ll4
    {
      if i % 2 == 0 then ll4[i / 2] % 16 else ll4[i / 2] / 16 % 16
    }

    /** GET_LL */
    function Get(i: nat): int
      requires i < ll16.Length && ll16.Length <= 2 * ll4.Length
      reads this, ll16, ll4
    {
      ll16[i] + 65536 * Get4(i)
    }

    /** SET_LL: entry i becomes n, every other entry keeps its value. */
    method Set(i: nat, n: nat)
      requires Valid() && i < ll16.Length && n < 0x10_0000
      modifies ll16, ll4
      ensures Valid()
      ensures Get(i) == n
      ensures ll16[i] == n % 65536
      ensures forall j :: 0 <= j < ll16.Length && j != i ==> Get(j) == old(Get(j)) && ll16[j] == old(ll16[j])
    {
      ll16[i] := n % 65536;
      var hi := n / 65536;
      if i % 2 == 0 {
        ll4[i / 2] := ll4[i / 2] / 16 * 16 + hi;
      } else {
        ll4[i / 2] := ll4[i / 2] % 16 + hi * 16;
      }
    }
  }

  /** The links undo the ranks. */
  lemma LinksInvertRanks(l: seq<int>, q: seq<int>, x: nat)
    requires Links(l, q) && x < |l|
    ensures Rank(l, x) < |l| && q[Rank(l, x)] == x
  {
    RankBounds(l, x);
    if q[Rank(l, x)] != x { RankInjective(l, q[Rank(l, x)], x); }
  }

  /** Small decoder: replaces the characters in the table by their ranks. */
  method ComputeRanks(t: PackedLinks, cftabCopy: array<int>, nblock: nat, ghost l: seq<int>)
    requires t.Valid() && nblock == |l| <= t.ll16.Length && nblock <= 0x10_0000
    requires cftabCopy != t.ll16 && cftabCopy != t.ll4
    requires Within(l, ALPHABET) && Starts(l, ALPHABET, cftabCopy[..]) && t.ll16[..nblock] == l
    modifies t.ll16, t.ll4, cftabCopy
    ensures t.Valid()
    ensures forall k :: 0 <= k < nblock ==> t.Get(k) == Rank(l, k)
  {
    hide Rank;
    for i := 0 to nblock
      invariant t.Valid()
      invariant Advanced(l, cftabCopy[..], i)
      invariant forall k :: i <= k < nblock ==> t.ll16[k] == l[k]
      invariant forall k :: 0 <= k < i ==> t.Get(k) == Rank(l, k)
    {
      var uc := t.ll16[i];
      AdvanceStep(l, cftabCopy[..], i);
      t.Set(i, cftabCopy[uc]);
      ghost var cf := cftabCopy[..];
      cftabCopy[uc] := cftabCopy[uc] + 1;
      assert cftabCopy[..] == cf[uc := cf[uc] + 1];
    }
  }

  /** The path of the pointer reversal: from row o, each row followed by its rank. */
  ghost predicate Path(l: seq<int>, o: int, path: seq<int>) {
    && 0 < |path| && path[0] == o
    && (forall s :: 0 <= s < |path| ==> 0 <= path[s] < |l|)
    && (forall s :: 0 < s < |path| ==> path[s] == Rank(l, path[s - 1]))
    && (forall s, t :: 0 < s < t < |path| ==> path[s] != path[t])
  }

  /** The next row is new as long as the path has not come back to its start. */
  lemma PathExtends(l: seq<int>, o: int, path: seq<int>)
    requires Path(l, o, path)
    requires |path| == 1 || path[|path| - 1] != o
    ensures var j := Rank(l, path[|path| - 1]);
            Path(l, o, path + [j]) && forall s :: 0 < s < |path| ==> path[s] != j
  {
    var i := path[|path| - 1];
    RankBounds(l, i);
    forall s | 0 < s < |path| ensures path[s] != Rank(l, i) {
      if path[s - 1] != i { RankInjective(l, path[s - 1], i); }
    }
  }

  lemma PathBounded(l: seq<int>, o: int, path: seq<int>)
    requires Path(l, o, path)
    ensures |path| <= |l| + 1
  {
    hide Rank;
    Rotation.DistinctWithin(path[1..], Rotation.Below(|l|));
  }

  /** The row reached from o after following j links. */
  function Row(q: seq<int>, o: nat, j: nat): (r: nat)
    requires o < |q| && forall k :: 0 <= k < |q| ==> 0 <= q[k] < |q|
    ensures r < |q|
  {
    if j == 0 then o else q[Row(q, o, j - 1)]
  }

  lemma {:induction false} RowsOnPath(l: seq<int>, q: seq<int>, o: nat, path: seq<int>, j: nat)
    requires Links(l, q) && o < |l| && Path(l, o, path)
    requires |path| > 1 && path[|path| - 1] == o
    ensures exists s :: 0 < s < |path| && path[s] == Row(q, o, j) && q[path[s]] == path[s - 1]
  {
    if j == 0 {
      LinksInvertRanks(l, q, path[|path| - 2]);
    } else {
      RowsOnPath(l, q, o, path, j - 1);
      var s :| 0 < s < |path| && path[s] == Row(q, o, j - 1) && q[path[s]] == path[s - 1];
      var t := if s == 1 then |path| - 1 else s - 1;
      LinksInvertRanks(l, q, path[t - 1]);
      assert path[t] == Row(q, o, j);
    }
  }

  /** The table g in the middle of the pointer reversal: along the path every row points to the one
      before it, elsewhere to its rank. */
  ghost predicate Turning(l: seq<int>, o: int, path: seq<int>, g: seq<int>) {
    && Path(l, o, path) && |g| == |l| && |path| <= |l| + 1
    && (forall s :: 0 < s < |path| ==> g[path[s]] == path[s - 1])
    && (forall k :: 0 <= k < |l| && k !in path[1..] ==> g[k] == Rank(l, k))
  }

  lemma TurningStart(l: seq<int>, o: nat, g: seq<int>)
    requires o < |l| == |g| && forall k :: 0 <= k < |l| ==> g[k] == Rank(l, k)
    ensures Turning(l, o, [o], g)
  {
  }

  lemma TurningParts(l: seq<int>, o: int, path: seq<int>, g: seq<int>)
    requires Turning(l, o, path, g)
    ensures 0 < |path| <= |l| + 1 && |g| == |l| && 0 <= path[|path| - 1] < |l| && 0 <= Rank(l, path[|path| - 1]) < |l|
    ensures |path| == 1 ==> path[0] == o
  {
    RankBounds(l, path[|path| - 1]);
  }

  lemma TurningStep(l: seq<int>, o: int, path: seq<int>, g: seq<int>)
    requires Turning(l, o, path, g) && (|path| == 1 || path[|path| - 1] != o)
    ensures 0 < |path| && 0 <= path[|path| - 1] < |l| == |g|
    ensures var j := Rank(l, path[|path| - 1]);
            j < |l| && g[j] == Rank(l, j) && Turning(l, o, path + [j], g[j := path[|path| - 1]])
  {
    hide Rank;
    var i := path[|path| - 1];
    RankBounds(l, i);
    var j := Rank(l, i);
    PathExtends(l, o, path);
    PathBounded(l, o, path + [j]);
    assert j !in path[1..];
    assert (path + [j])[1..] == path[1..] + [j];
  }

  lemma TurnedRow(l: seq<int>, q: seq<int>, o: nat, path: seq<int>, g: seq<int>, j: nat)
    requires Turning(l, o, path, g) && |path| > 1 && path[|path| - 1] == o && Links(l, q) && o < |l|
    ensures |q| == |l| && (forall k :: 0 <= k < |q| ==> 0 <= q[k] < |q|)
    ensures Row(q, o, j) < |g| && g[Row(q, o, j)] == q[Row(q, o, j)]
  {
    hide Rank;
    RowsOnPath(l, q, o, path, j);
  }

  /** Small decoder: reverses the pointers along the cycle through origPtr. It ends, back at
      origPtr, with inverse links in every row the decoder will ever visit. */
  method ReverseCycle(t: PackedLinks, origPtr: nat, nblock: nat, ghost l: seq<int>, ghost q: seq<int>)
    requires t.Valid() && nblock == |l| <= t.ll16.Length && nblock <= 0x10_0000 && origPtr < nblock
    requires Links(l, q)
    requires forall k :: 0 <= k < nblock ==> t.Get(k) == Rank(l, k)
    modifies t.ll16, t.ll4
    ensures t.Valid()
    ensures forall j: nat :: t.Get(Row(q, origPtr, j)) == q[Row(q, origPtr, j)]
  {
    hide Rank, Links, Turning, PackedLinks.Get;
    var i := origPtr;
    var j := t.Get(i);
    ghost var path, g := [i], seq(nblock, k requires 0 <= k < nblock => Rank(l, k));
    TurningStart(l, origPtr, g);
    TurningParts(l, origPtr, path, g);
    var more := true;
    while more
      invariant t.Valid() && Turning(l, origPtr, path, g) && 0 < |path| <= nblock + 1 && |g| == nblock
      invariant 0 <= i < nblock && i == path[|path| - 1] && 0 <= j < nblock && j == Rank(l, i)
      invariant more <==> |path| == 1 || i != origPtr
      invariant forall k :: 0 <= k < nblock ==> t.Get(k) == g[k]
      decreases nblock + 1 - |path|
    {
      TurningStep(l, origPtr, path, g);
      var tmp := t.Get(j);
      t.Set(j, i);
      path, g := path + [j], g[j := i];
      TurningParts(l, origPtr, path, g);
      i := j;
      j := tmp;
      more := i != origPtr;
    }
    LinkSize(l, q);
    forall j: nat ensures t.Get(Row(q, origPtr, j)) == q[Row(q, origPtr, j)] {
      TurnedRow(l, q, origPtr, path, g, j);
    }
  }
}
