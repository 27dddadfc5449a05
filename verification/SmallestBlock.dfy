/** The least number of bits that a block takes. */
module SmallestBlock {
  import opened Bits
  import opened BlockCompressor
  import opened BlockFormat
  import opened Counting
  import opened HuffmanLengths
  import opened HuffmanTree
  import opened InverseBwt
  import opened MoveToFront
  import opened MtfEncoder
  import opened Powers
  import opened Rotation
  import opened TableChoice

  /* ---- The map and the selectors ---- */

  lemma {:induction false} SomeUsedBelow(u: seq<bool>, c: nat) returns (d: nat)
    requires c <= |u| && UsedBelow(u, c) > 0
    ensures d < c && u[d]
  {
    if u[c - 1] { d := c - 1; } else { d := SomeUsedBelow(u, c - 1); }
  }

  lemma {:induction false} UseBitsAtLeast(u: seq<bool>, i: nat, c: nat)
    requires |u| == 256 && i <= 16 && 16 * i <= c < 256 && u[c]
    ensures |UseBits(u, i)| >= 16
    decreases 16 - i
  {
    if c < 16 * i + 16 {
      GroupHas(u, i, 16, c - 16 * i);
    } else {
      UseBitsAtLeast(u, i + 1, c);
    }
  }

  lemma MapAtLeast(u: seq<bool>)
    requires |u| == 256 && UsedBelow(u, 256) > 0
    ensures |MapBits(u)| >= 32
  {
    hide GroupBits, UseBits, UsedBelow;
    var c := SomeUsedBelow(u, 256);
    UseBitsAtLeast(u, 0, c);
    MapSize(u, 0);
  }

  lemma {:induction false} SelectorsAtLeast(ranks: seq<int>, i: nat)
    requires i <= |ranks| && forall k :: 0 <= k < |ranks| ==> 0 <= ranks[k]
    ensures |SelectorBits(ranks, i)| >= |ranks| - i
    decreases |ranks| - i
  {
    if i < |ranks| { SelectorsAtLeast(ranks, i + 1); }
  }

  /* ---- The tables ---- */

  /** All lengths are the same. */
  ghost predicate Even(L: seq<int>, v: int) {
    forall i :: 0 <= i < |L| ==> L[i] == v
  }

  /** A bit for every symbol, and two for a step. */
  lemma {:induction false} LengthsAtLeast(L: seq<int>, i: nat, c: int)
    requires i <= |L|
    ensures |LengthBits(L, i, c)| >= |L| - i
    ensures (exists k :: i <= k < |L| && L[k] != c) ==> |LengthBits(L, i, c)| >= |L| - i + 2
    decreases |L| - i
  {
    if i < |L| {
      StepsSize(c, L[i]);
      LengthsAtLeast(L, i + 1, L[i]);
    }
  }

  lemma TableAtLeast(L: seq<int>)
    requires |L| > 0 && 0 <= L[0]
    ensures |TableBits(L)| >= 5 + |L| && (!Even(L, L[0]) ==> |TableBits(L)| >= 7 + |L|)
  {
    hide LengthBits;
    LengthsAtLeast(L, 0, L[0]);
  }

  lemma {:induction false} TablesAtLeast(lens: seq<seq<int>>, t: nat, least: nat, k: nat)
    requires t <= |lens| && forall k :: 0 <= k < |lens| ==> |lens[k]| > 0 && 0 <= lens[k][0]
    requires forall k :: 0 <= k < |lens| ==> |TableBits(lens[k])| >= least
    ensures |TablesBits(lens, t)| >= (|lens| - t) * least
    ensures t <= k < |lens| && |TableBits(lens[k])| >= least + 2 ==> |TablesBits(lens, t)| >= (|lens| - t) * least + 2
    decreases |lens| - t
  {
    hide TableBits, TablesBits;
    NoTables(lens);
    if t < |lens| {
      TablesAtLeast(lens, t + 1, least, k);
      Distribute(1, |lens| - t - 1, least);
      OneMore(lens, t);
    }
  }

  lemma NoTables(lens: seq<seq<int>>)
    requires forall k :: 0 <= k < |lens| ==> |lens[k]| > 0 && 0 <= lens[k][0]
    ensures TablesBits(lens, |lens|) == []
  {
  }

  lemma OneMore(lens: seq<seq<int>>, t: nat)
    requires t < |lens| && forall k :: 0 <= k < |lens| ==> |lens[k]| > 0 && 0 <= lens[k][0]
    ensures |TablesBits(lens, t)| == |TableBits(lens[t])| + |TablesBits(lens, t + 1)|
  {
  }

  /** Kraft's sum when all lengths are the same. */
  lemma {:induction false} EvenKraft(L: seq<int>, v: nat, B: nat, j: nat)
    requires Even(L, v) && v <= B && j <= |L|
    ensures Kraft(L, B, j) == j * Pow2(B - v)
  {
    if j > 0 {
      EvenKraft(L, v, B, j - 1);
      Distribute(j - 1, 1, Pow2(B - v));
    }
  }

  /** A complete code with all lengths v has as many symbols as there are words of that length. */
  lemma EvenCount(L: seq<int>, v: nat)
    requires CompleteCode(L, |L|, 17) && |L| > 0 && Even(L, v)
    ensures |L| == Pow2(v)
  {
    hide Pow2, Kraft;
    assert L[0] == v && 1 <= v <= 17;
    EvenKraft(L, v, 17, |L|);
    Pow2Sum(v, 17 - v);
    SameFactor(|L|, Pow2(v), Pow2(17 - v));
  }

  lemma PowerParity(v: nat)
    ensures v == 0 || Pow2(v) % 2 == 0
  {
  }

  /** Lengths of three symbols differ. */
  lemma ThreeUneven(L: seq<int>)
    requires CompleteCode(L, 3, 17) && |L| == 3
    ensures !Even(L, L[0])
  {
    if Even(L, L[0]) {
      EvenCount(L, L[0]);
      PowerParity(L[0]);
    }
  }

  ghost predicate LongWords(L: seq<int>) {
    forall i :: 0 <= i < |L| ==> L[i] >= 2
  }

  /** Lengths of four symbols differ or are 2. */
  lemma FourEven(L: seq<int>)
    requires CompleteCode(L, 4, 17) && |L| == 4 && Even(L, L[0])
    ensures LongWords(L)
  {
    assert Pow2(1) == 2;
    EvenCount(L, L[0]);
  }

  /** Kraft's sum holds the shares of two symbols, and something for all the others. */
  lemma {:induction false} KraftOfTwo(L: seq<int>, B: nat, j: nat, s: nat, t: nat)
    requires j <= |L| && s < t < |L| && forall i :: 0 <= i < |L| ==> 0 <= L[i] <= B
    ensures Kraft(L, B, j) >=
            (if s < j then Pow2(B - L[s]) - 1 else 0) + (if t < j then Pow2(B - L[t]) - 1 else 0) + j
  {
    if j > 0 { KraftOfTwo(L, B, j - 1, s, t); }
  }

  lemma NotBothShort(L: seq<int>, s: nat, t: nat)
    requires CompleteCode(L, |L|, 17) && |L| >= 3 && s < |L| && t < |L| && s != t
    ensures L[s] + L[t] >= 3
  {
    assert Kraft(L, 17, |L|) == Pow2(17) == 2 * Pow2(16);
    var p, q := if s < t then s else t, if s < t then t else s;
    assert forall i :: 0 <= i < |L| ==> 1 <= L[i] <= 17;
    hide Kraft, Pow2, CompleteCode;
    KraftOfTwo(L, 17, |L|, p, q);
  }

  /* ---- The symbols ---- */

  lemma {:induction false} EmitAtLeast(r: seq<int>, i: nat, z: nat)
    requires i <= |r|
    ensures z + (|r| - i) >= 1 ==> |Emit(r, i, z)| >= 1
    ensures z + (|r| - i) >= 3 ==> |Emit(r, i, z)| >= 2
    decreases |r| - i
  {
    if z > 0 { assert |RunCode(z)| == 1 + |RunCode((z - 1) / 2)|; }
    if z >= 3 { assert |RunCode((z - 1) / 2)| >= 1; }
    if i < |r| { EmitAtLeast(r, i + 1, if r[i] == 0 then z + 1 else 0); }
  }

  /** Two ranks, not both zero. */
  lemma EmitTwo(r: seq<int>)
    requires |r| == 2 && (r[0] != 0 || r[1] != 0)
    ensures |Emit(r, 0, 0)| >= 2
  {
    assert RunCode(0) == [];
    assert |Emit(r, 2, 0)| == |RunCode(0)| == 0;
    if r[0] != 0 {
      EmitAtLeast(r, 1, 0);
    } else {
      assert |RunCode(1)| == 1;
      assert Emit(r, 0, 0) == Emit(r, 1, 1);
    }
  }

  /** Different characters have different numbers. */
  lemma {:induction false} NumbersDiffer(u: seq<bool>, c: nat, d: nat)
    requires c < d <= |u| && u[c]
    ensures UsedBelow(u, c) < UsedBelow(u, d)
  {
    if c + 1 < d { NumbersDiffer(u, c, d - 1); }
  }

  /** Two characters in use: there are two different ones. */
  lemma TwoUsed(u: seq<bool>) returns (c: nat, d: nat)
    requires |u| == 256 && UsedBelow(u, 256) == 2
    ensures c < d < 256 && u[c] && u[d]
  {
    hide UsedBelow;
    d := LastUsed(u, 256);
    c := LastUsed(u, d);
  }

  lemma {:induction false} LastUsed(u: seq<bool>, c: nat) returns (d: nat)
    requires c <= |u| && UsedBelow(u, c) > 0
    ensures d < c && u[d] && UsedBelow(u, d) == UsedBelow(u, c) - 1
  {
    if u[c - 1] { d := c - 1; } else { d := LastUsed(u, c - 1); }
  }

  /** Ranks that are all zero belong to a column of one character. */
  lemma ZeroRanks(col: seq<int>, n: nat, r: seq<int>)
    requires Ranked(col, n, r) && |r| == 2 && r[0] == 0 && r[1] == 0
    ensures col[0] == col[1]
  {
    assert List(r, n, 0)[r[0]] == col[0] && List(r, n, 1)[r[1]] == col[1];
    assert List(r, n, 1) == Front(List(r, n, 0), r[0]);
  }

  lemma InColumn(b: seq<int>, p: seq<int>, c: int) returns (k: nat)
    requires SortsRotations(b, p) && c in b
    ensures SortedTo(b, p, |b|) && k < |b| && LastColumn(b, p)[k] == c
  {
    var i :| 0 <= i < |b| && b[i] == c;
    PermCovers(p, |b|, Next(i, |b|));
    k :| 0 <= k < |b| && p[k] == Next(i, |b|);
  }

  /** A block with two different characters takes three symbols or more. */
  lemma ThreeSymbols(b: seq<int>, o: nat, x: Coded)
    requires Encodes(b, o, x) && UsedBelow(x.inUse, 256) == 2
    ensures |x.symbols| >= 3
  {
    hide Sound, TablesChosen, Ranked, UsedBelow, Emit, SortsRotations;
    var p: seq<int>, r: seq<int> :| EncodesVia(b, o, x, p, r);
    var c, d := TwoUsed(x.inUse);
    var i := InColumn(b, p, c);
    var j := InColumn(b, p, d);
    var l := LastColumn(b, p);
    var col := Numbered(x.inUse, l);
    NumbersDiffer(x.inUse, c, d);
    assert col[i] == UsedBelow(x.inUse, c) && col[j] == UsedBelow(x.inUse, d);
    RankedSize(col, 2, r);
    EmitAtLeast(r, 0, 0);
    if |b| == 2 {
      if r[0] == 0 && r[1] == 0 { ZeroRanks(col, 2, r); }
      EmitTwo(r);
    }
  }

  lemma RankedSize(col: seq<int>, n: nat, r: seq<int>)
    requires Ranked(col, n, r)
    ensures |r| == |col|
  {
  }

  /** There is a symbol before the end of the block, and it is another one. */
  lemma TwoSymbols(b: seq<int>, o: nat, x: Coded)
    requires Encodes(b, o, x)
    ensures |x.symbols| >= 2 && (|x.symbols| == 2 ==> x.symbols[0] != x.symbols[1])
  {
    hide Sound, TablesChosen, UsedBelow, Emit, SortsRotations, List;
    var p: seq<int>, r: seq<int> :| EncodesVia(b, o, x, p, r);
    var n := UsedBelow(x.inUse, 256);
    EmitAtLeast(r, 0, 0);
    EmitBounds(r, n, 0, 0);
    SomeRank(r, n);
  }

  lemma SomeRank(r: seq<int>, n: nat)
    requires Within(r, n) && |r| > 0
    ensures n > 0
  {
    assert 0 <= r[0] < n;
  }

  /* ---- The code words ---- */

  /** No code word is shorter. */
  ghost predicate WordsLong(lens: seq<seq<int>>, least: nat) {
    forall t, s :: 0 <= t < |lens| && 0 <= s < |lens[t]| ==> lens[t][s] >= least
  }

  lemma {:induction false} DataAtLeast(x: Coded, k: nat, least: nat)
    requires Sound(x) && k <= |x.symbols| && 1 <= least <= 2
    requires WordsLong(x.lens, least)
    ensures |DataBits(x, k)| >= if least == 1 then |x.symbols| - k else 2 * (|x.symbols| - k)
    decreases |x.symbols| - k
  {
    hide Sound, DataBits, WordsLong;
    DataUnfolds(x, k, least);
    if k < |x.symbols| { DataAtLeast(x, k + 1, least); }
  }

  lemma DataUnfolds(x: Coded, k: nat, least: nat)
    requires Sound(x) && k <= |x.symbols|
    requires WordsLong(x.lens, least)
    ensures k == |x.symbols| ==> DataBits(x, k) == []
    ensures k < |x.symbols| ==> |DataBits(x, k)| >= least + |DataBits(x, k + 1)|
  {
    hide Sound, TableOk;
    if k < |x.symbols| {
      SymbolAt(x, k);
      assert x.lens[x.selectors[k / G_SIZE]][x.symbols[k]] >= least;
    }
  }

  /** Two different symbols of one group. */
  lemma DataOfTwo(x: Coded)
    requires Sound(x) && |x.symbols| == 2 && x.symbols[0] != x.symbols[1]
    requires forall t :: 0 <= t < |x.lens| ==> CompleteCode(x.lens[t], |x.lens[t]|, 17) && |x.lens[t]| >= 3
    ensures |DataBits(x, 0)| >= 3
  {
    SymbolAt(x, 0);
    SymbolAt(x, 1);
    hide Sound, Word, TableOk, CompleteCode;
    var L := TableAt(x, 0);
    assert TableAt(x, 1) == L;
    NotBothShort(L, x.symbols[0], x.symbols[1]);
    assert DataBits(x, 2) == [];
    assert DataBits(x, 1) == Word(TableAt(x, 1), x.symbols[1]) + DataBits(x, 2);
  }

  /* ---- The whole ---- */

  /** What is known of the tables of a block. */
  lemma TablesOf(x: Coded)
    requires TablesChosen(x) && Sound(x)
    ensures |x.inUse| == 256 && AlphaSize(x) >= 3 && |x.lens| >= 2
    ensures forall t :: 0 <= t < |x.lens| ==> |x.lens[t]| == AlphaSize(x) && CompleteCode(x.lens[t], |x.lens[t]|, 17)
    ensures WordsLong(x.lens, 1)
  {
    hide Kraft, Improved, Passes, UsedBelow, TableOk;
  }

  /** What a table takes. */
  lemma OneTable(L: seq<int>)
    requires |L| >= 3 && CompleteCode(L, |L|, 17)
    ensures 0 <= L[0] && |TableBits(L)| >= 9 && (|L| != 4 ==> |TableBits(L)| >= 10)
    ensures |L| == 4 && |TableBits(L)| < 11 ==> LongWords(L)
  {
    hide TableBits, CompleteCode;
    CompleteFirst(L);
    TableAtLeast(L);
    if |L| == 3 { ThreeUneven(L); }
    if |L| == 4 && Even(L, L[0]) { FourEven(L); }
  }

  lemma CompleteFirst(L: seq<int>)
    requires |L| >= 1 && CompleteCode(L, |L|, 17)
    ensures L[0] >= 1
  {
  }

  /** The code words take three bits or more. */
  lemma DataOfBlock(b: seq<int>, o: nat, x: Coded)
    requires Encodes(b, o, x)
    ensures Sound(x) && |DataBits(x, 0)| >= 3
  {
    hide Encodes, Sound, TablesChosen, DataBits, CompleteCode, UsedBelow, WordsLong;
    EncodesParts(b, o, x);
    TablesOf(x);
    TwoSymbols(b, o, x);
    DataAtLeast(x, 0, 1);
    if |x.symbols| == 2 { DataOfTwo(x); }
  }

  /** What all tables take, unless there are four symbols. */
  lemma TablesOfMany(x: Coded)
    requires TablesChosen(x) && Sound(x) && AlphaSize(x) != 4
    ensures forall k :: 0 <= k < |x.lens| ==> |x.lens[k]| > 0 && 0 <= x.lens[k][0]
    ensures |TablesBits(x.lens, 0)| >= 20
  {
    hide Sound, TablesChosen, TablesBits, TableBits, CompleteCode, UsedBelow, WordsLong;
    TablesOf(x);
    forall t | 0 <= t < |x.lens| ensures 0 <= x.lens[t][0] && |TableBits(x.lens[t])| >= 10 { OneTable(x.lens[t]); }
    TablesAtLeast(x.lens, 0, 10, 0);
  }

  lemma FourTables(lens: seq<seq<int>>)
    requires forall t :: 0 <= t < |lens| ==> |lens[t]| == 4 && CompleteCode(lens[t], 4, 17)
    ensures forall t :: 0 <= t < |lens| ==> 0 <= lens[t][0] && |TableBits(lens[t])| >= 9
  {
    hide TableBits, CompleteCode, LongWords;
    forall t | 0 <= t < |lens| ensures 0 <= lens[t][0] && |TableBits(lens[t])| >= 9 { OneTable(lens[t]); }
  }

  /** A table with a code word of one bit. */
  lemma ShortWord(lens: seq<seq<int>>) returns (k: nat)
    requires (forall t :: 0 <= t < |lens| ==> |lens[t]| == 4 && CompleteCode(lens[t], 4, 17)) && !WordsLong(lens, 2)
    ensures k < |lens| && 0 <= lens[k][0] && |TableBits(lens[k])| >= 11
  {
    hide TableBits, CompleteCode;
    var t, s :| 0 <= t < |lens| && 0 <= s < |lens[t]| && lens[t][s] < 2;
    k := t;
    OneTable(lens[k]);
  }

  /** With four symbols either the tables take as much, or all code words have two bits or more. */
  lemma TablesOfFour(x: Coded)
    requires TablesChosen(x) && Sound(x) && AlphaSize(x) == 4
    ensures forall k :: 0 <= k < |x.lens| ==> |x.lens[k]| > 0 && 0 <= x.lens[k][0]
    ensures |TablesBits(x.lens, 0)| >= 18
    ensures |TablesBits(x.lens, 0)| >= 20 || WordsLong(x.lens, 2)
  {
    hide Sound, TablesChosen, TablesBits, TableBits, CompleteCode, UsedBelow, WordsLong;
    TablesOf(x);
    FourTables(x.lens);
    TablesAtLeast(x.lens, 0, 9, 0);
    if !WordsLong(x.lens, 2) {
      var k := ShortWord(x.lens);
      TablesAtLeast(x.lens, 0, 9, k);
    }
  }

  /** The tables and the code words of a block take 23 bits or more. */
  lemma TablesAndData(b: seq<int>, o: nat, x: Coded)
    requires Encodes(b, o, x)
    ensures Sound(x) && (forall k :: 0 <= k < |x.lens| ==> |x.lens[k]| > 0 && 0 <= x.lens[k][0])
    ensures |TablesBits(x.lens, 0)| + |DataBits(x, 0)| >= 23
  {
    hide Sound, TablesChosen, TablesBits, DataBits, UsedBelow, Encodes, WordsLong;
    EncodesParts(b, o, x);
    DataOfBlock(b, o, x);
    if AlphaSize(x) != 4 {
      TablesOfMany(x);
    } else {
      TablesOfFour(x);
      ThreeSymbols(b, o, x);
      if |TablesBits(x.lens, 0)| < 20 { DataAtLeast(x, 0, 2); }
    }
  }

  lemma EncodesParts(b: seq<int>, o: nat, x: Coded)
    requires Encodes(b, o, x)
    ensures Sound(x) && TablesChosen(x) && |x.inUse| == 256 && UsedBelow(x.inUse, 256) > 0
  {
    hide TablesChosen, UsedBelow;
  }

  /** What is written for a block, behind its header, takes 74 bits or more. */
  lemma CodedAtLeast(b: seq<int>, o: nat, x: Coded)
    requires Encodes(b, o, x)
    ensures Sound(x) && |CodedBits(x)| >= 74
  {
    EncodesParts(b, o, x);
    TablesAndData(b, o, x);
    Positive(x);
    assert |x.ranks| == |x.selectors| >= 1 && |x.inUse| == 256;
    hide Encodes, Sound, MapBits, BitsOf, SelectorBits, TablesBits, DataBits, UsedBelow;
    MapAtLeast(x.inUse);
    SelectorsAtLeast(x.ranks, 0);
  }

  /** A block takes 179 bits or more, and 131 of them are behind its mark. */
  lemma BlockAtLeast(b: seq<int>, crc: nat, o: nat, x: Coded)
    requires Encodes(b, o, x)
    ensures Sound(x) && |BlockBits(crc, o, x)| >= 179
  {
    hide Encodes, Sound, CodedBits, BitsOf;
    CodedAtLeast(b, o, x);
    HeadSize(crc, o);
  }

  lemma HeadSize(crc: nat, origPtr: nat)
    ensures |HeadBits(crc, origPtr)| == 105
  {
  }
}
