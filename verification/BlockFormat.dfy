/** How a block's symbols are laid out in bits: characters in use, selectors, code lengths, codes. */
module BlockFormat {
  import opened Bits
  import opened Counting
  import opened HuffmanCodes
  import opened MoveToFront
  import opened MtfEncoder

  const G_SIZE := 50
  const N_GROUPS := 6
  const MAX_SELECTORS := 18002

  /* ---- Characters in use ---- */

  /** Whether any of the first j of the 16 characters of group i is used. */
  predicate GroupTo(inUse: seq<bool>, i: nat, j: nat)
    requires |inUse| == 256 && i < 16 && j <= 16
  {
    j > 0 && (GroupTo(inUse, i, j - 1) || inUse[16 * i + j - 1])
  }

  predicate Group(inUse: seq<bool>, i: nat)
    requires |inUse| == 256 && i < 16
  {
    GroupTo(inUse, i, 16)
  }

  lemma {:induction false} GroupHas(inUse: seq<bool>, i: nat, j: nat, k: nat)
    requires |inUse| == 256 && i < 16 && k < j <= 16 && inUse[16 * i + k]
    ensures GroupTo(inUse, i, j)
  {
    if k < j - 1 { GroupHas(inUse, i, j - 1, k); }
  }

  /** One bit for every group from i on. */
  ghost function GroupBits(inUse: seq<bool>, i: nat): seq<bool>
    requires |inUse| == 256 && i <= 16
    decreases 16 - i
  {
    if i == 16 then [] else [Group(inUse, i)] + GroupBits(inUse, i + 1)
  }

  /** Sixteen bits for every group in use from i on. */
  ghost function UseBits(inUse: seq<bool>, i: nat): seq<bool>
    requires |inUse| == 256 && i <= 16
    decreases 16 - i
  {
    if i == 16 then []
    else (if Group(inUse, i) then inUse[16 * i..16 * i + 16] else []) + UseBits(inUse, i + 1)
  }

  ghost function MapBits(inUse: seq<bool>): seq<bool>
    requires |inUse| == 256
  {
    GroupBits(inUse, 0) + UseBits(inUse, 0)
  }

  /* ---- Selectors ---- */

  /** j ones and a zero. */
  ghost function Unary(j: nat): (s: seq<bool>)
    ensures |s| == j + 1
  {
    if j == 0 then [false] else [true] + Unary(j - 1)
  }

  ghost function SelectorBits(ranks: seq<int>, i: nat): seq<bool>
    requires i <= |ranks| && forall k :: 0 <= k < |ranks| ==> 0 <= ranks[k]
    decreases |ranks| - i
  {
    if i == |ranks| then [] else Unary(ranks[i]) + SelectorBits(ranks, i + 1)
  }

  /* ---- Code lengths ---- */

  /** Steps from length c to length l: 10 for one more, 11 for one less. */
  ghost function Steps(c: int, l: int): seq<bool>
    decreases if c < l then l - c else c - l
  {
    if c < l then [true, false] + Steps(c + 1, l)
    else if c > l then [true, true] + Steps(c - 1, l)
    else []
  }

  /** The lengths from symbol i on, when the last length sent is c. */
  ghost function LengthBits(L: seq<int>, i: nat, c: int): seq<bool>
    requires i <= |L|
    decreases |L| - i
  {
    if i == |L| then [] else Steps(c, L[i]) + ([false] + LengthBits(L, i + 1, L[i]))
  }

  ghost function TableBits(L: seq<int>): seq<bool>
    requires |L| > 0 && 0 <= L[0]
  {
    BitsOf(L[0], 5) + LengthBits(L, 0, L[0])
  }

  ghost function TablesBits(lens: seq<seq<int>>, t: nat): seq<bool>
    requires t <= |lens| && forall k :: 0 <= k < |lens| ==> |lens[k]| > 0 && 0 <= lens[k][0]
    decreases |lens| - t
  {
    if t == |lens| then [] else TableBits(lens[t]) + TablesBits(lens, t + 1)
  }

  /* ---- The whole ---- */

  /** The shortest and the longest length. */
  function Shortest(L: seq<int>, j: nat): int
    requires j <= |L|
  {
    if j == 0 then 32 else if L[j - 1] < Shortest(L, j - 1) then L[j - 1] else Shortest(L, j - 1)
  }

  function Longest(L: seq<int>, j: nat): int
    requires j <= |L|
  {
    if j == 0 then 0 else if L[j - 1] > Longest(L, j - 1) then L[j - 1] else Longest(L, j - 1)
  }

  lemma {:induction false} LengthRange(L: seq<int>, j: nat)
    requires j <= |L| && forall i :: 0 <= i < |L| ==> 0 <= L[i] <= 32
    ensures forall i :: 0 <= i < j ==> Shortest(L, j) <= L[i] <= Longest(L, j)
    ensures 0 <= Shortest(L, j) <= 32 && 0 <= Longest(L, j) <= 32
    ensures j > 0 ==> Shortest(L, j) <= Longest(L, j)
  {
    if j > 0 { LengthRange(L, j - 1); }
  }

  /** What the back end sends for one block. */
  datatype Coded = Coded(inUse: seq<bool>, ranks: seq<int>, selectors: seq<int>, lens: seq<seq<int>>, symbols: seq<int>)

  function AlphaSize(x: Coded): nat
    requires |x.inUse| == 256
  {
    UsedBelow(x.inUse, 256) + 2
  }

  /** Lengths from 1 to 20 that form a code. */
  ghost predicate TableOk(L: seq<int>) {
    && |L| > 0 && (forall i :: 0 <= i < |L| ==> 1 <= L[i] <= MAX_LEN)
    && 1 <= Shortest(L, |L|) <= Longest(L, |L|) <= MAX_LEN
    && Usable(L, Shortest(L, |L|), Longest(L, |L|))
  }

  /** The decoder can make sense of x. */
  ghost predicate Sound(x: Coded) {
    && |x.inUse| == 256 && AlphaSize(x) > 2
    && 2 <= |x.lens| <= N_GROUPS
    && (forall t :: 0 <= t < |x.lens| ==> |x.lens[t]| == AlphaSize(x) && TableOk(x.lens[t]))
    && 1 <= |x.selectors| <= MAX_SELECTORS && Ranked(x.selectors, |x.lens|, x.ranks)
    && |x.symbols| <= G_SIZE * |x.selectors| && Within(x.symbols, AlphaSize(x))
    && Within(x.selectors, |x.lens|)
  }

  /** The code word of symbol s in a table. */
  ghost function Word(L: seq<int>, s: nat): (w: seq<bool>)
    requires TableOk(L) && s < |L|
    ensures |w| == L[s]
  {
    BitsOf(Code(L, Shortest(L, |L|), s), L[s])
  }

  /** The lengths symbol k is coded with. */
  function TableAt(x: Coded, k: nat): seq<int>
    requires k < |x.symbols| <= G_SIZE * |x.selectors| && 0 <= x.selectors[k / G_SIZE] < |x.lens|
  {
    x.lens[x.selectors[k / G_SIZE]]
  }

  lemma SymbolAt(x: Coded, k: nat)
    requires Sound(x) && k < |x.symbols|
    ensures |x.symbols| <= G_SIZE * |x.selectors| && 0 <= x.selectors[k / G_SIZE] < |x.lens|
    ensures TableOk(TableAt(x, k)) && 0 <= x.symbols[k] < |TableAt(x, k)|
  {
    assert |x.lens[x.selectors[k / G_SIZE]]| == AlphaSize(x);
  }

  /** The code words of the symbols from k on. */
  ghost function DataBits(x: Coded, k: nat): seq<bool>
    requires Sound(x) && k <= |x.symbols|
    decreases |x.symbols| - k
  {
    if k == |x.symbols| then []
    else
      SymbolAt(x, k);
      Word(TableAt(x, k), x.symbols[k]) + DataBits(x, k + 1)
  }

  lemma Positive(x: Coded)
    requires Sound(x)
    ensures forall k :: 0 <= k < |x.ranks| ==> 0 <= x.ranks[k] < 6
    ensures forall t :: 0 <= t < |x.lens| ==> |x.lens[t]| > 0 && 0 <= x.lens[t][0]
  {
    hide Usable, List;
    forall t | 0 <= t < |x.lens| ensures |x.lens[t]| > 0 && 0 <= x.lens[t][0] {
      assert TableOk(x.lens[t]);
    }
  }

  /** Everything sendMTFValues writes. */
  ghost function CodedBits(x: Coded): seq<bool>
    requires Sound(x)
  {
    Positive(x);
    MapBits(x.inUse) + (BitsOf(|x.lens|, 3) + (BitsOf(|x.selectors|, 15) +
      (SelectorBits(x.ranks, 0) + (TablesBits(x.lens, 0) + DataBits(x, 0)))))
  }

  /* ---- How much room it takes ---- */

  lemma {:induction false} StepsSize(c: int, l: int)
    ensures |Steps(c, l)| == 2 * (if c < l then l - c else c - l)
    decreases if c < l then l - c else c - l
  {
    if c < l { StepsSize(c + 1, l); }
    if c > l { StepsSize(c - 1, l); }
  }

  /** Lengths as the compressor makes them. */
  ghost predicate Short(x: Coded) {
    forall t :: 0 <= t < |x.lens| ==> |x.lens[t]| <= 258 && ShortTable(x.lens[t])
  }

  ghost predicate ShortTable(L: seq<int>) {
    forall i :: 0 <= i < |L| ==> 1 <= L[i] <= 17
  }

  lemma {:induction false} LengthBitsSize(L: seq<int>, i: nat, c: int)
    requires i <= |L| && 1 <= c <= 17 && forall k :: 0 <= k < |L| ==> 1 <= L[k] <= 17
    ensures |LengthBits(L, i, c)| <= 33 * (|L| - i)
    decreases |L| - i
  {
    if i < |L| {
      StepsSize(c, L[i]);
      LengthBitsSize(L, i + 1, L[i]);
    }
  }

  lemma TableSize(L: seq<int>)
    requires 0 < |L| <= 258 && ShortTable(L)
    ensures 0 <= L[0] && |TableBits(L)| <= 5 + 33 * 258
  {
    LengthBitsSize(L, 0, L[0]);
  }

  lemma {:induction false} TablesSize(lens: seq<seq<int>>, t: nat)
    requires t <= |lens|
    requires forall k :: 0 <= k < |lens| ==> 0 < |lens[k]| <= 258 && ShortTable(lens[k]) && 0 <= lens[k][0]
    ensures |TablesBits(lens, t)| <= 8519 * (|lens| - t)
    decreases |lens| - t
  {
    hide ShortTable, TableBits;
    if t < |lens| {
      TableSize(lens[t]);
      TablesSize(lens, t + 1);
    }
  }

  lemma {:induction false} SelectorSize(ranks: seq<int>, i: nat)
    requires i <= |ranks| && forall k :: 0 <= k < |ranks| ==> 0 <= ranks[k] < 6
    ensures |SelectorBits(ranks, i)| <= 6 * (|ranks| - i)
    decreases |ranks| - i
  {
    if i < |ranks| { SelectorSize(ranks, i + 1); }
  }

  lemma {:induction false} MapSize(inUse: seq<bool>, i: nat)
    requires |inUse| == 256 && i <= 16
    ensures |GroupBits(inUse, i)| == 16 - i && |UseBits(inUse, i)| <= 16 * (16 - i)
    decreases 16 - i
  {
    if i < 16 { MapSize(inUse, i + 1); }
  }

  lemma ShortAt(x: Coded, t: nat, s: nat)
    requires Short(x) && t < |x.lens| && s < |x.lens[t]|
    ensures 1 <= x.lens[t][s] <= 17
  {
    assert ShortTable(x.lens[t]);
  }

  lemma {:induction false} DataSize(x: Coded, k: nat)
    requires Sound(x) && Short(x) && k <= |x.symbols|
    ensures |DataBits(x, k)| <= 17 * (|x.symbols| - k)
    decreases |x.symbols| - k
  {
    hide Sound, Word, TableOk, Short;
    if k < |x.symbols| {
      SymbolAt(x, k);
      ShortAt(x, x.selectors[k / G_SIZE], x.symbols[k]);
      DataSize(x, k + 1);
    }
  }

  /** The worst case for what follows a block's header. */
  lemma CodedSize(x: Coded)
    requires Sound(x) && Short(x)
    ensures |CodedBits(x)| <= 290 + 6 * |x.selectors| + 51114 + 17 * |x.symbols|
  {
    Positive(x);
    assert |x.ranks| == |x.selectors| && |x.lens| <= 6 && |x.inUse| == 256;
    assert forall t :: 0 <= t < |x.lens| ==> 0 < |x.lens[t]| <= 258 && ShortTable(x.lens[t]);
    DataSize(x, 0);
    hide Sound, Short, ShortTable, DataBits, TablesBits, SelectorBits, GroupBits, UseBits;
    MapSize(x.inUse, 0);
    SelectorSize(x.ranks, 0);
    TablesSize(x.lens, 0);
  }
}
