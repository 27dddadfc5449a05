/** Writing the symbols of a block: maps, selectors, code lengths and codes go into the bit stream. */
module BlockEncoder {
  import opened BitIO
  import opened Bits
  import opened BlockFormat
  import opened Counting
  import opened HuffmanCodes
  import opened HuffmanLengths
  import opened HuffmanTree
  import opened MoveToFront
  import opened MtfEncoder
  import opened Powers

  /** What has been written so far, followed by left, is goal, and goal fits into the buffer. */
  ghost predicate Left(w: BitWriter, left: seq<bool>, goal: seq<bool>)
    reads w, w.zbits
  {
    w.Valid() && w.Written() + left == goal && |goal| <= 8 * w.zbits.Length
  }

  /** One bit of what is left. */
  method PutBit(w: BitWriter, d: bool, ghost rest: seq<bool>, ghost goal: seq<bool>)
    requires Left(w, [d] + rest, goal)
    modifies w, w.zbits
    ensures Left(w, rest, goal)
  {
    OneBit(d);
    ghost var s := w.Written();
    if d { w.W(1, 1); } else { w.W(1, 0); }
    assert (s + [d]) + rest == s + ([d] + rest);
  }

  lemma OneBit(d: bool)
    ensures BitsOf(if d then 1 else 0, 1) == [d] && Pow2(1) == 2
  {
    assert BitsOf(0, 0) == [];
  }

  /** A number of what is left. */
  method PutBits(w: BitWriter, n: nat, v: nat, ghost rest: seq<bool>, ghost goal: seq<bool>)
    requires Left(w, BitsOf(v, n) + rest, goal) && n <= 24 && v < Pow2(n)
    modifies w, w.zbits
    ensures Left(w, rest, goal)
  {
    hide BitsOf, Pow2;
    ghost var s := w.Written();
    w.W(n, v);
    assert (s + BitsOf(v, n)) + rest == s + (BitsOf(v, n) + rest);
  }

  /* ---- The map of characters in use ---- */

  lemma GroupUnfolds(inUse: seq<bool>, i: nat)
    requires |inUse| == 256 && i < 16
    ensures GroupBits(inUse, i) == [Group(inUse, i)] + GroupBits(inUse, i + 1)
    ensures UseBits(inUse, i) == (if Group(inUse, i) then inUse[16 * i..16 * i + 16] else []) + UseBits(inUse, i + 1)
  {
  }

  lemma GroupEnds(inUse: seq<bool>)
    requires |inUse| == 256
    ensures GroupBits(inUse, 16) == [] && UseBits(inUse, 16) == []
  {
  }

  /** inUse16: which groups of sixteen characters are used at all. */
  method UsedGroups(inUse: array<bool>) returns (inUse16: array<bool>)
    requires inUse.Length == 256
    ensures fresh(inUse16) && inUse16.Length == 16
    ensures forall i :: 0 <= i < 16 ==> inUse16[i] == Group(inUse[..], i)
  {
    inUse16 := new bool[16];
    for i := 0 to 16
      invariant forall k :: 0 <= k < i ==> inUse16[k] == Group(inUse[..], k)
    {
      inUse16[i] := false;
      for j := 0 to 16
        invariant inUse16[i] == GroupTo(inUse[..], i, j)
        invariant forall k :: 0 <= k < i ==> inUse16[k] == Group(inUse[..], k)
      {
        if inUse[i * 16 + j] { inUse16[i] := true; }
      }
    }
  }

  method SendMap(w: BitWriter, inUse: array<bool>, ghost rest: seq<bool>, ghost goal: seq<bool>)
    requires inUse.Length == 256 && Left(w, MapBits(inUse[..]) + rest, goal)
    modifies w, w.zbits
    ensures Left(w, rest, goal)
  {
    hide Left, GroupBits, UseBits, Group;
    ghost var u := inUse[..];
    var inUse16 := UsedGroups(inUse);
    GroupEnds(u);
    assert (GroupBits(u, 0) + UseBits(u, 0)) + rest == GroupBits(u, 0) + (UseBits(u, 0) + rest);
    for i := 0 to 16
      invariant inUse16.Length == 16 && forall k :: 0 <= k < 16 ==> inUse16[k] == Group(u, k)
      invariant Left(w, GroupBits(u, i) + (UseBits(u, 0) + rest), goal)
    {
      GroupUnfolds(u, i);
      ghost var r := GroupBits(u, i + 1) + (UseBits(u, 0) + rest);
      assert ([Group(u, i)] + GroupBits(u, i + 1)) + (UseBits(u, 0) + rest) == [Group(u, i)] + r;
      PutBit(w, inUse16[i], r, goal);
    }
    assert [] + (UseBits(u, 0) + rest) == UseBits(u, 0) + rest;
    for i := 0 to 16
      invariant inUse[..] == u && inUse16.Length == 16 && forall k :: 0 <= k < 16 ==> inUse16[k] == Group(u, k)
      invariant Left(w, UseBits(u, i) + rest, goal)
    {
      GroupUnfolds(u, i);
      if inUse16[i] {
        ghost var r := UseBits(u, i + 1) + rest;
        assert (u[16 * i..16 * i + 16] + UseBits(u, i + 1)) + rest == u[16 * i..16 * i + 16] + r;
        SendGroup(w, inUse, i, r, goal);
      } else {
        assert [] + UseBits(u, i + 1) == UseBits(u, i + 1);
      }
    }
    assert [] + rest == rest;
  }

  method SendGroup(w: BitWriter, inUse: array<bool>, i: nat, ghost rest: seq<bool>, ghost goal: seq<bool>)
    requires inUse.Length == 256 && i < 16 && Left(w, inUse[16 * i..16 * i + 16] + rest, goal)
    modifies w, w.zbits
    ensures Left(w, rest, goal)
  {
    hide Left;
    ghost var u := inUse[..];
    for j := 0 to 16
      invariant Left(w, u[16 * i + j..16 * i + 16] + rest, goal)
    {
      ghost var r := u[16 * i + j + 1..16 * i + 16] + rest;
      assert u[16 * i + j..16 * i + 16] + rest == [u[16 * i + j]] + r;
      PutBit(w, inUse[i * 16 + j], r, goal);
    }
    assert u[16 * i + 16..16 * i + 16] + rest == rest;
  }

  /* ---- Selectors ---- */

  lemma FrontIs(s: seq<int>, k: nat, t: seq<int>)
    requires k < |s| == |t|
    requires t[0] == s[k] && (forall i :: 0 <= i < k ==> t[i + 1] == s[i]) && (forall i :: k < i < |s| ==> t[i] == s[i])
    ensures t == Front(s, k)
  {
    var f := Front(s, k);
    forall j | 0 <= j < |s| ensures t[j] == f[j] {
      if 0 < j <= k { assert t[(j - 1) + 1] == s[j - 1]; }
    }
  }

  /** Finds ll in the list of tables and moves it to the front. */
  method SelectorFront(pos: array<int>, ll: int, ghost n: nat, ghost k: nat) returns (j: nat)
    requires k < n <= pos.Length && pos[k] == ll && forall i :: 0 <= i < k ==> pos[i] != ll
    modifies pos
    ensures j == k && pos[..n] == Front(old(pos[..n]), k)
  {
    ghost var s := pos[..n];
    j := 0;
    var tmp := pos[j];
    while ll != tmp
      invariant 0 <= j <= k && tmp == s[j]
      invariant forall i :: 0 <= i < j ==> pos[i + 1] == s[i]
      invariant forall i :: j < i < n ==> pos[i] == s[i]
      decreases k - j
    {
      j := j + 1;
      var tmp2 := tmp;
      tmp := pos[j];
      pos[j] := tmp2;
    }
    pos[0] := tmp;
    FrontIs(s, k, pos[..n]);
  }

  /** Move-to-front ranks of the selectors. */
  method RankSelectors(selector: array<int>, nSelectors: nat, nGroups: nat) returns (selectorMtf: array<int>)
    requires nSelectors <= selector.Length <= MAX_SELECTORS && 0 < nGroups <= N_GROUPS
    requires Within(selector[..nSelectors], nGroups)
    ensures fresh(selectorMtf) && selectorMtf.Length == MAX_SELECTORS
    ensures Ranked(selector[..nSelectors], nGroups, selectorMtf[..nSelectors])
  {
    hide Ranked, List, Front;
    ghost var col := selector[..nSelectors];
    ghost var r := RanksExist(col, nGroups);
    RankedParts(col, nGroups, r);
    selectorMtf := new int[MAX_SELECTORS];
    var pos := StartTables(nGroups);
    StartList2(r, nGroups, pos[..nGroups]);
    for i := 0 to nSelectors
      invariant pos[..nGroups] == List(r, nGroups, i) && forall k :: 0 <= k < i ==> selectorMtf[k] == r[k]
    {
      FrontIsZero(col, nGroups, r, i);
      ghost var p := pos[..nGroups];
      assert forall k :: 0 <= k < nGroups ==> pos[k] == p[k];
      var j := SelectorFront(pos, selector[i], nGroups, r[i]);
      selectorMtf[i] := j;
    }
    assert selectorMtf[..nSelectors] == r;
  }

  method StartTables(nGroups: nat) returns (pos: array<int>)
    requires nGroups <= N_GROUPS
    ensures fresh(pos) && pos.Length == N_GROUPS && forall k :: 0 <= k < nGroups ==> pos[k] == k
  {
    pos := new int[N_GROUPS];
    for i := 0 to nGroups
      invariant forall k :: 0 <= k < i ==> pos[k] == k
    {
      pos[i] := i;
    }
  }

  lemma RankedParts(col: seq<int>, n: nat, r: seq<int>)
    requires Ranked(col, n, r)
    ensures |r| == |col| && Within(r, n)
  {
  }

  lemma StartList2(r: seq<int>, n: nat, s: seq<int>)
    requires Within(r, n) && |s| == n && forall k :: 0 <= k < n ==> s[k] == k
    ensures s == List(r, n, 0)
  {
  }

  lemma SelectorUnfolds(ranks: seq<int>, i: nat)
    requires i <= |ranks| && forall k :: 0 <= k < |ranks| ==> 0 <= ranks[k]
    ensures i < |ranks| ==> SelectorBits(ranks, i) == Unary(ranks[i]) + SelectorBits(ranks, i + 1)
    ensures i == |ranks| ==> SelectorBits(ranks, i) == []
  {
  }

  lemma UnaryUnfolds(j: nat)
    ensures Unary(0) == [false] && Unary(j + 1) == [true] + Unary(j)
  {
  }

  method SendSelectors(w: BitWriter, selectorMtf: array<int>, nSelectors: nat, ghost rest: seq<bool>,
                       ghost goal: seq<bool>)
    requires nSelectors <= selectorMtf.Length && w.zbits != selectorMtf
    requires forall k :: 0 <= k < nSelectors ==> 0 <= selectorMtf[k]
    requires Left(w, SelectorBits(selectorMtf[..nSelectors], 0) + rest, goal)
    modifies w, w.zbits
    ensures Left(w, rest, goal)
  {
    hide Left, SelectorBits, Unary;
    ghost var m := selectorMtf[..nSelectors];
    for i := 0 to nSelectors
      invariant Left(w, SelectorBits(m, i) + rest, goal)
    {
      SelectorUnfolds(m, i);
      ghost var r := SelectorBits(m, i + 1) + rest;
      assert (Unary(m[i]) + SelectorBits(m, i + 1)) + rest == Unary(m[i]) + r;
      SendUnary(w, selectorMtf[i], r, goal);
    }
    SelectorUnfolds(m, nSelectors);
    assert [] + rest == rest;
  }

  method SendUnary(w: BitWriter, n: nat, ghost rest: seq<bool>, ghost goal: seq<bool>)
    requires Left(w, Unary(n) + rest, goal)
    modifies w, w.zbits
    ensures Left(w, rest, goal)
  {
    hide Left, Unary;
    for j := 0 to n
      invariant Left(w, Unary(n - j) + rest, goal)
    {
      UnaryUnfolds(n - j - 1);
      assert ([true] + Unary(n - j - 1)) + rest == [true] + (Unary(n - j - 1) + rest);
      PutBit(w, true, Unary(n - j - 1) + rest, goal);
    }
    UnaryUnfolds(0);
    PutBit(w, false, rest, goal);
  }

  /* ---- Code lengths ---- */

  lemma StepsUnfold(c: int, l: int)
    ensures c < l ==> Steps(c, l) == [true, false] + Steps(c + 1, l)
    ensures c > l ==> Steps(c, l) == [true, true] + Steps(c - 1, l)
    ensures c == l ==> Steps(c, l) == []
  {
  }

  lemma LengthsUnfold(L: seq<int>, i: nat, c: int)
    requires i <= |L|
    ensures i < |L| ==> LengthBits(L, i, c) == Steps(c, L[i]) + ([false] + LengthBits(L, i + 1, L[i]))
    ensures i == |L| ==> LengthBits(L, i, c) == []
  {
  }

  lemma TwoBits()
    ensures BitsOf(2, 2) == [true, false] && BitsOf(3, 2) == [true, true] && Pow2(2) == 4 && Pow2(5) == 32
  {
    assert BitsOf(1, 1) == BitsOf(0, 0) + [true];
    assert Pow2(3) == 8;
  }

  /** The steps from curr to the next length. */
  method SendSteps(w: BitWriter, from: int, l: int, ghost rest: seq<bool>, ghost goal: seq<bool>)
    requires Left(w, Steps(from, l) + rest, goal)
    modifies w, w.zbits
    ensures Left(w, rest, goal)
  {
    hide Left, Steps, BitsOf, Pow2;
    TwoBits();
    var curr := from;
    while curr < l
      invariant Left(w, Steps(curr, l) + rest, goal)
      invariant curr <= l || curr == from
    {
      StepsUnfold(curr, l);
      assert ([true, false] + Steps(curr + 1, l)) + rest == [true, false] + (Steps(curr + 1, l) + rest);
      PutBits(w, 2, 2, Steps(curr + 1, l) + rest, goal);
      curr := curr + 1;
    }
    while curr > l
      invariant Left(w, Steps(curr, l) + rest, goal) && l <= curr
    {
      StepsUnfold(curr, l);
      assert ([true, true] + Steps(curr - 1, l)) + rest == [true, true] + (Steps(curr - 1, l) + rest);
      PutBits(w, 2, 3, Steps(curr - 1, l) + rest, goal);
      curr := curr - 1;
    }
    StepsUnfold(curr, l);
    assert [] + rest == rest;
  }

  method SendTable(w: BitWriter, L: seq<int>, ghost rest: seq<bool>, ghost goal: seq<bool>)
    requires |L| > 0 && 0 <= L[0] < 32 && Left(w, TableBits(L) + rest, goal)
    modifies w, w.zbits
    ensures Left(w, rest, goal)
  {
    hide Left, BitsOf, LengthBits, Steps, Pow2;
    TwoBits();
    var curr := L[0];
    assert (BitsOf(L[0], 5) + LengthBits(L, 0, L[0])) + rest == BitsOf(L[0], 5) + (LengthBits(L, 0, L[0]) + rest);
    PutBits(w, 5, curr, LengthBits(L, 0, L[0]) + rest, goal);
    for i := 0 to |L|
      invariant Left(w, LengthBits(L, i, curr) + rest, goal)
    {
      LengthsUnfold(L, i, curr);
      ghost var r := LengthBits(L, i + 1, L[i]) + rest;
      assert (Steps(curr, L[i]) + ([false] + LengthBits(L, i + 1, L[i]))) + rest == Steps(curr, L[i]) + ([false] + r);
      SendSteps(w, curr, L[i], [false] + r, goal);
      curr := L[i];
      PutBit(w, false, r, goal);
    }
    LengthsUnfold(L, |L|, curr);
    assert [] + rest == rest;
  }

  lemma TablesUnfold(lens: seq<seq<int>>, t: nat)
    requires t <= |lens| && forall k :: 0 <= k < |lens| ==> |lens[k]| > 0 && 0 <= lens[k][0]
    ensures t < |lens| ==> TablesBits(lens, t) == TableBits(lens[t]) + TablesBits(lens, t + 1)
    ensures t == |lens| ==> TablesBits(lens, t) == []
  {
  }

  method SendTables(w: BitWriter, lens: seq<seq<int>>, ghost rest: seq<bool>, ghost goal: seq<bool>)
    requires forall k :: 0 <= k < |lens| ==> |lens[k]| > 0 && 0 <= lens[k][0] < 32
    requires Left(w, TablesBits(lens, 0) + rest, goal)
    modifies w, w.zbits
    ensures Left(w, rest, goal)
  {
    hide Left, TablesBits, TableBits;
    for t := 0 to |lens|
      invariant Left(w, TablesBits(lens, t) + rest, goal)
    {
      TablesUnfold(lens, t);
      ghost var r := TablesBits(lens, t + 1) + rest;
      assert (TableBits(lens[t]) + TablesBits(lens, t + 1)) + rest == TableBits(lens[t]) + r;
      SendTable(w, lens[t], r, goal);
    }
    TablesUnfold(lens, |lens|);
    assert [] + rest == rest;
  }

  /* ---- Codes ---- */

  /** A row of codes: the one of symbol v, for every symbol. */
  ghost predicate CodesFor(L: seq<int>, code: seq<int>) {
    && TableOk(L) && |code| == |L|
    && forall v :: 0 <= v < |L| ==> code[v] == Code(L, Shortest(L, |L|), v)
  }

  /** minLen, maxLen and BZ2_hbAssignCodes for one table. */
  method CodeRow(L: seq<int>) returns (code: seq<int>)
    requires TableOk(L) && Longest(L, |L|) <= 17
    ensures CodesFor(L, code)
  {
    var length := new int[|L|](i requires 0 <= i < |L| => L[i]);
    var c := new int[|L|];
    assert length[..] == L;
    var minLen, maxLen := 32, 0;
    for i := 0 to |L|
      invariant minLen == Shortest(L, i) && maxLen == Longest(L, i)
    {
      if L[i] > maxLen { maxLen := L[i]; }
      if L[i] < minLen { minLen := L[i]; }
    }
    assert !(maxLen > 17);  // AssertH 3004
    assert !(minLen < 1);  // AssertH 3005
    AssignCodes(c, length, minLen, maxLen, |L|);
    TableRange(L);
    assert length[..|L|] == L;
    code := c[..];
  }

  lemma TableRange(L: seq<int>)
    requires TableOk(L)
    ensures forall i :: 0 <= i < |L| ==> Shortest(L, |L|) <= L[i] <= Longest(L, |L|)
  {
    LengthRange(L, |L|);
  }

  /** Complete codes of at most 17 bits are tables the decoder accepts. */
  lemma CompleteIsOk(L: seq<int>)
    requires |L| > 0 && CompleteCode(L, |L|, 17)
    ensures TableOk(L) && Longest(L, |L|) <= 17 && ShortTable(L)
  {
    hide Pow2, Kraft;
    LengthRange(L, |L|);
    LongestReached(L, |L|);
    var hi := Longest(L, |L|);
    KraftScales(L, hi, 17, |L|);
    Pow2Sum(hi, 17 - hi);
    SameFactor(Kraft(L, hi, |L|), Pow2(hi), Pow2(17 - hi));
  }

  lemma {:induction false} LongestReached(L: seq<int>, j: nat)
    requires 0 < j <= |L| && forall i :: 0 <= i < |L| ==> 1 <= L[i] <= 17
    ensures 1 <= Shortest(L, j) <= 17 && 1 <= Longest(L, j) <= 17
  {
    if j > 1 { LongestReached(L, j - 1); }
  }

  method AllCodes(lens: seq<seq<int>>) returns (codes: seq<seq<int>>)
    requires forall t :: 0 <= t < |lens| ==> TableOk(lens[t]) && Longest(lens[t], |lens[t]|) <= 17
    ensures |codes| == |lens| && forall t :: 0 <= t < |lens| ==> CodesFor(lens[t], codes[t])
  {
    hide TableOk, CodesFor, Longest;
    codes := [];
    for t := 0 to |lens|
      invariant |codes| == t && forall u :: 0 <= u < t ==> CodesFor(lens[u], codes[u])
    {
      var c := CodeRow(lens[t]);
      codes := codes + [c];
    }
  }

  lemma CodeAt(L: seq<int>, code: seq<int>, v: nat)
    requires CodesFor(L, code) && v < |L|
    ensures TableOk(L) && |code| == |L| && 1 <= L[v] <= MAX_LEN && 0 <= code[v] < Pow2(L[v])
    ensures BitsOf(code[v], L[v]) == Word(L, v)
  {
    CodeBounds(L, Shortest(L, |L|), Longest(L, |L|), v);
  }

  lemma DataUnfolds(x: Coded, k: nat)
    requires Sound(x) && k <= |x.symbols|
    ensures k == |x.symbols| ==> DataBits(x, k) == []
    ensures k < |x.symbols| ==>
              && |x.symbols| <= G_SIZE * |x.selectors| && 0 <= x.selectors[k / G_SIZE] < |x.lens|
              && TableOk(TableAt(x, k)) && 0 <= x.symbols[k] < |TableAt(x, k)|
              && DataBits(x, k) == Word(TableAt(x, k), x.symbols[k]) + DataBits(x, k + 1)
  {
    if k < |x.symbols| { SymbolAt(x, k); }
  }

  /** The block data proper, group by group. */
  method SendData(w: BitWriter, lens: seq<seq<int>>, codes: seq<seq<int>>, selector: array<int>, nSelectors: nat,
                  mtfv: seq<int>, ghost x: Coded, ghost rest: seq<bool>, ghost goal: seq<bool>)
    requires Sound(x) && x.lens == lens && x.symbols == mtfv && w.zbits != selector
    requires nSelectors <= selector.Length && x.selectors == selector[..nSelectors]
    requires G_SIZE * (nSelectors - 1) < |mtfv|
    requires |codes| == |lens| && forall t :: 0 <= t < |lens| ==> CodesFor(lens[t], codes[t])
    requires Left(w, DataBits(x, 0) + rest, goal)
    modifies w, w.zbits
    ensures Left(w, rest, goal)
  {
    hide Left, Sound, DataBits, CodesFor, TableOk, Word, BitsOf, Pow2;
    SoundSize(x);
    var selCtr := 0;
    var gs := 0;
    while gs < |mtfv|
      invariant 0 <= gs <= |mtfv|
      invariant (gs == G_SIZE * selCtr || (gs == |mtfv| && G_SIZE * (selCtr - 1) < gs < G_SIZE * selCtr))
      invariant Left(w, DataBits(x, gs) + rest, goal)
    {
      var ge := gs + G_SIZE;
      if ge >= |mtfv| { ge := |mtfv|; }
      for k := gs to ge
        invariant Left(w, DataBits(x, k) + rest, goal)
      {
        DataUnfolds(x, k);
        assert k / G_SIZE == selCtr;
        var t := selector[selCtr];
        assert x.selectors[selCtr] == t;
        CodeAt(lens[t], codes[t], mtfv[k]);
        ghost var r := DataBits(x, k + 1) + rest;
        assert (Word(lens[t], mtfv[k]) + DataBits(x, k + 1)) + rest == Word(lens[t], mtfv[k]) + r;
        PutBits(w, lens[t][mtfv[k]], codes[t][mtfv[k]], r, goal);
      }
      gs := ge;
      selCtr := selCtr + 1;
    }
    DataUnfolds(x, |mtfv|);
    assert [] + rest == rest;
    assert selCtr == nSelectors;  // AssertH 3007
  }

  lemma SoundSize(x: Coded)
    requires Sound(x)
    ensures 1 <= |x.selectors| && |x.symbols| <= G_SIZE * |x.selectors|
  {
  }
}
