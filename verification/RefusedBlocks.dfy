/** Blocks that the decoder refuses at once: a header, a map, selectors or code lengths with a value that no
    compressor writes, behind any number of good blocks and before any bits. */
module RefusedBlocks {
  import opened BitIO
  import opened Bits
  import opened BlockCompressor
  import opened BlockFormat
  import opened BlockParser
  import opened Checksums
  import opened ColumnParser
  import opened Counting
  import opened MoveToFront
  import opened MtfEncoder
  import opened Powers
  import opened StreamDamage
  import opened StreamFormat
  import opened StreamParser
  import opened SymbolParser
  import opened WholeBlockParser

  /** The stream is corrupt behind the blocks ds when u follows. */
  ghost predicate RefusedBehind(step: (Crc, int) -> Crc, ds: seq<Sent>, size: nat, u: seq<bool>)
    requires 1 <= size <= 9 && AllSent(ds, size)
  {
    StreamFrom(step, Behind(step, ds, size, u)) == Meaning(Content(ds, 0), Corrupt)
  }

  /** A block's header, and what follows it. */
  lemma HeaderSplit(crc: nat, o: nat, r: seq<bool>)
    ensures HeadBits(crc, o) + r == BitsOf(0x31, 8) + (HeadTail(crc, o) + r)
  {
    hide BitsOf;
    var m := [0x31, 0x41, 0x59, 0x26, 0x53, 0x59];
    assert Bytes(m) && m[1..] == [0x41, 0x59, 0x26, 0x53, 0x59];
    ByteBitsFront(m);
    hide ByteBits;
    var t := BitsOf(crc, 32) + ([false] + BitsOf(o, 24));
    Join(BitsOf(0x31, 8), ByteBits(m[1..]), t);
    Join(BitsOf(0x31, 8), HeadTail(crc, o), r);
  }

  lemma BlockRefused(step: (Crc, int) -> Crc, ds: seq<Sent>, size: nat, crc: nat, o: nat, r: seq<bool>)
    requires 1 <= size <= 9 && AllSent(ds, size) && BlockFrom(size, HeadTail(crc, o) + r) == Wrong
    ensures RefusedBehind(step, ds, size, HeadBits(crc, o) + r)
  {
    hide AllSent, BitsOf, Value, Pow2, ByteBits, BlocksFrom, Content, Combined, Behind, HeadBits, HeadTail, BlockFrom,
      StreamFrom;
    PowersOfBytes();
    StreamThen(step, ds, size, HeadBits(crc, o) + r);
    HeaderSplit(crc, o, r);
    ValueAhead(0x31, 8, HeadTail(crc, o) + r);
    BlockComes(step, size, Combined(step, ds, |ds|), BitsOf(0x31, 8) + (HeadTail(crc, o) + r));
    NothingAfter(Content(ds, 0), Corrupt);
  }

  /** An origin that is no row of the largest block. */
  lemma BadOrigin(step: (Crc, int) -> Crc, ds: seq<Sent>, size: nat, crc: nat, o: nat, more: seq<bool>)
    requires 1 <= size <= 9 && AllSent(ds, size) && crc < WORD && 10 + 100000 * size < o < 0x100_0000
    ensures RefusedBehind(step, ds, size, HeadBits(crc, o) + more)
  {
    hide AllSent, HeadTail, AfterMap, MapFrom, RefusedBehind, BlockFrom;
    HeadParsed(size, crc, o, more);
    BlockRefused(step, ds, size, crc, o, more);
  }

  /** The header of a block that may be one. */
  ghost predicate GoodHeader(size: nat, crc: nat, o: nat) {
    1 <= size <= 9 && crc < WORD && o <= 10 + 100000 * size && o < 0x100_0000
  }

  /** No character in use. */
  lemma NoCharacters(step: (Crc, int) -> Crc, ds: seq<Sent>, size: nat, crc: nat, o: nat, u: seq<bool>, more: seq<bool>)
    requires GoodHeader(size, crc, o) && AllSent(ds, size) && |u| == 256 && UsedBelow(u, 256) == 0
    ensures RefusedBehind(step, ds, size, HeadBits(crc, o) + (MapBits(u) + more))
  {
    hide AllSent, HeadTail, MapBits, MapFrom, UsedBelow, RefusedBehind, BlockFrom;
    HeadParsed(size, crc, o, MapBits(u) + more);
    MapParsed(u, more);
    BlockRefused(step, ds, size, crc, o, MapBits(u) + more);
  }

  /** What follows a good map. */
  lemma BehindMap(step: (Crc, int) -> Crc, ds: seq<Sent>, size: nat, crc: nat, o: nat, u: seq<bool>, r: seq<bool>)
    requires GoodHeader(size, crc, o) && AllSent(ds, size) && |u| == 256 && UsedBelow(u, 256) > 0
    requires AfterSelectors(size, Head(crc, false, o), u, SelectorsFrom(r)) == Wrong
    ensures RefusedBehind(step, ds, size, HeadBits(crc, o) + (MapBits(u) + r))
  {
    hide AllSent, HeadTail, MapBits, MapFrom, UsedBelow, RefusedBehind, BlockFrom, SelectorsFrom, AfterSelectors;
    HeadParsed(size, crc, o, MapBits(u) + r);
    MapParsed(u, r);
    BlockRefused(step, ds, size, crc, o, MapBits(u) + r);
  }

  /** A number of tables other than 2 to 6. */
  lemma BadTableCount(step: (Crc, int) -> Crc, ds: seq<Sent>, size: nat, crc: nat, o: nat, u: seq<bool>, n: nat,
                      more: seq<bool>)
    requires GoodHeader(size, crc, o) && AllSent(ds, size) && |u| == 256 && UsedBelow(u, 256) > 0
    requires n < 8 && !(2 <= n <= 6)
    ensures RefusedBehind(step, ds, size, HeadBits(crc, o) + (MapBits(u) + (BitsOf(n, 3) + more)))
  {
    hide AllSent, MapBits, UsedBelow, RefusedBehind, BitsOf, Value, Pow2, NumberedFrom;
    SmallSizes();
    ValueAhead(n, 3, more);
    BehindMap(step, ds, size, crc, o, u, BitsOf(n, 3) + more);
  }

  /** No selectors. */
  lemma NoSelectors(step: (Crc, int) -> Crc, ds: seq<Sent>, size: nat, crc: nat, o: nat, u: seq<bool>, n: nat,
                    more: seq<bool>)
    requires GoodHeader(size, crc, o) && AllSent(ds, size) && |u| == 256 && UsedBelow(u, 256) > 0 && 2 <= n <= 6
    ensures RefusedBehind(step, ds, size, HeadBits(crc, o) + (MapBits(u) + (BitsOf(n, 3) + (BitsOf(0, 15) + more))))
  {
    hide AllSent, MapBits, UsedBelow, RefusedBehind, BitsOf, Value, Pow2, RanksFrom;
    SmallSizes();
    ValueAhead(n, 3, BitsOf(0, 15) + more);
    ValueAhead(0, 15, more);
    BehindMap(step, ds, size, crc, o, u, BitsOf(n, 3) + (BitsOf(0, 15) + more));
  }

  /** n ones. */
  ghost function Ones(n: nat): (s: seq<bool>)
    ensures |s| == n
  {
    if n == 0 then [] else [true] + Ones(n - 1)
  }

  lemma {:induction false} OnesRefused(n: nat, j: nat, more: seq<bool>)
    requires j < n
    ensures RankFrom(n, j, Ones(n - j) + more) == Wrong
    decreases n - j
  {
    var bits := Ones(n - j) + more;
    assert bits[0] && bits[1..] == Ones(n - j - 1) + more;
    if j + 1 < n { OnesRefused(n, j + 1, more); }
  }

  lemma {:induction false} RanksRefused(n: nat, ranks: seq<int>, i: nat, left: nat, more: seq<bool>)
    requires i <= |ranks| <= MAX_SELECTORS && n > 0 && left > |ranks| - i
    requires forall k :: 0 <= k < |ranks| ==> 0 <= ranks[k] < n
    ensures RanksFrom(n, left, ranks[..i], 0, SelectorBits(ranks, i) + (Ones(n) + more)) == Wrong
    decreases |ranks| - i
  {
    RankStart(ranks, i, Ones(n) + more);
    hide RankLeft, RankFrom, SelectorBits;
    if i < |ranks| {
      RankParsed(n, ranks, i, 0, Ones(n) + more);
      RankStart(ranks, i + 1, Ones(n) + more);
      RanksRefused(n, ranks, i + 1, left - 1, more);
      assert ranks[..i + 1] == Kept(ranks[..i], ranks[i]);
    } else {
      NoRanksLeft(ranks, Ones(n) + more);
      OnesRefused(n, 0, more);
    }
  }

  lemma NoRanksLeft(ranks: seq<int>, rest: seq<bool>)
    requires forall k :: 0 <= k < |ranks| ==> 0 <= ranks[k]
    ensures SelectorBits(ranks, |ranks|) + rest == rest
  {
    NoBits(rest);
  }

  /** A selector of a table that there is not, behind good ones. */
  lemma BadSelector(step: (Crc, int) -> Crc, ds: seq<Sent>, size: nat, crc: nat, o: nat, u: seq<bool>, n: nat,
                    count: nat, ranks: seq<int>, more: seq<bool>)
    requires GoodHeader(size, crc, o) && AllSent(ds, size) && |u| == 256 && UsedBelow(u, 256) > 0 && 2 <= n <= 6
    requires |ranks| < count < 32768 && |ranks| <= MAX_SELECTORS && forall k :: 0 <= k < |ranks| ==> 0 <= ranks[k] < n
    ensures RefusedBehind(step, ds, size, HeadBits(crc, o) + (MapBits(u) + (BitsOf(n, 3) + (BitsOf(count, 15) +
              (SelectorBits(ranks, 0) + (Ones(n) + more))))))
  {
    hide AllSent, MapBits, UsedBelow, RefusedBehind, BitsOf, Value, Pow2, RanksFrom, SelectorBits, Ones;
    SmallSizes();
    var s := SelectorBits(ranks, 0) + (Ones(n) + more);
    ValueAhead(n, 3, BitsOf(count, 15) + s);
    ValueAhead(count, 15, s);
    RanksRefused(n, ranks, 0, count, more);
    assert ranks[..0] == [];
    BehindMap(step, ds, size, crc, o, u, BitsOf(n, 3) + (BitsOf(count, 15) + s));
  }

  /** What follows good selectors. */
  lemma BehindSelectors(step: (Crc, int) -> Crc, ds: seq<Sent>, size: nat, crc: nat, o: nat, u: seq<bool>, n: nat,
                        sel: seq<int>, ranks: seq<int>, r: seq<bool>)
    requires GoodHeader(size, crc, o) && AllSent(ds, size) && |u| == 256 && UsedBelow(u, 256) > 0 && 2 <= n <= 6
    requires 1 <= |sel| <= MAX_SELECTORS && Ranked(sel, n, ranks) && Within(sel, n)
    requires forall k :: 0 <= k < |ranks| ==> 0 <= ranks[k]
    requires TablesOk([], UsedBelow(u, 256) + 2) && TablesFrom(n, UsedBelow(u, 256) + 2, [], r) == Wrong
    ensures RefusedBehind(step, ds, size, HeadBits(crc, o) + (MapBits(u) + (BitsOf(n, 3) + (BitsOf(|sel|, 15) +
              (SelectorBits(ranks, 0) + r)))))
  {
    hide AllSent, MapBits, UsedBelow, RefusedBehind, BitsOf, SelectorBits, SelectorsFrom, TablesFrom, Ranked,
      AfterTables;
    SelectorsParsed(n, sel, ranks, r);
    SelectedTables(size, Head(crc, false, o), u, Selectors(n, sel), r);
    BehindMap(step, ds, size, crc, o, u, BitsOf(n, 3) + (BitsOf(|sel|, 15) + (SelectorBits(ranks, 0) + r)));
  }

  lemma SelectedTables(size: nat, h: Head, u: seq<bool>, s: Selectors, r: seq<bool>)
    requires |u| == 256 && UsedBelow(u, 256) > 0 && SelectorsOk(s) && TablesOk([], UsedBelow(u, 256) + 2)
    requires TablesFrom(s.nGroups, UsedBelow(u, 256) + 2, [], r) == Wrong
    ensures AfterSelectors(size, h, u, Got(s, r)) == Wrong
  {
    hide UsedBelow, TablesFrom, ColumnParser.ColumnFrom, PlanOf;
  }

  lemma {:induction false} TablesRefused(lens: seq<seq<int>>, a: nat, t: nat, n: nat, r: seq<bool>)
    requires t <= |lens| < n && a > 0 && TablesOk(lens, a) && n - |lens| >= 1
    requires forall k :: 0 <= k < |lens| ==> |lens[k]| > 0 && 0 <= lens[k][0]
    requires TablesFrom(n - |lens|, a, lens, r) == Wrong
    ensures TablesOk(lens[..t], a)
    ensures TablesFrom(n - t, a, lens[..t], TablesBits(lens, t) + r) == Wrong
    decreases |lens| - t
  {
    hide TableBits, RowFrom, Value, LengthsOk;
    TablesAhead(lens, t, r);
    if t < |lens| {
      TableParsed(lens[t], TablesBits(lens, t + 1) + r);
      TablesRefused(lens, a, t + 1, n, r);
      assert lens[..t + 1] == lens[..t] + [lens[t]];
    } else {
      assert lens[..t] == lens;
    }
  }

  /** A length outside 1 to 20: at the beginning of a table, or after a step. */
  lemma BadLength(step: (Crc, int) -> Crc, ds: seq<Sent>, size: nat, crc: nat, o: nat, u: seq<bool>, n: nat,
                  sel: seq<int>, ranks: seq<int>, lens: seq<seq<int>>, c: nat, more: seq<bool>)
    requires GoodHeader(size, crc, o) && AllSent(ds, size) && |u| == 256 && UsedBelow(u, 256) > 0 && 2 <= n <= 6
    requires 1 <= |sel| <= MAX_SELECTORS && Ranked(sel, n, ranks) && Within(sel, n)
    requires forall k :: 0 <= k < |ranks| ==> 0 <= ranks[k]
    requires |lens| < n && TablesOk(lens, UsedBelow(u, 256) + 2)
    requires forall k :: 0 <= k < |lens| ==> |lens[k]| > 0 && 0 <= lens[k][0]
    requires c < 32 && !(1 <= c <= 20)
    ensures RefusedBehind(step, ds, size, HeadBits(crc, o) + (MapBits(u) + (BitsOf(n, 3) + (BitsOf(|sel|, 15) +
              (SelectorBits(ranks, 0) + (TablesBits(lens, 0) + (BitsOf(c, 5) + more)))))))
  {
    hide AllSent, MapBits, UsedBelow, RefusedBehind, BitsOf, SelectorBits, TablesBits, Ranked, Value, Pow2, TablesFrom,
      TablesOk;
    var a := UsedBelow(u, 256) + 2;
    SmallSizes();
    ValueAhead(c, 5, more);
    StartRefused(n - |lens|, a, lens, BitsOf(c, 5) + more);
    TablesRefused(lens, a, 0, n, BitsOf(c, 5) + more);
    assert lens[..0] == [];
    BehindSelectors(step, ds, size, crc, o, u, n, sel, ranks, TablesBits(lens, 0) + (BitsOf(c, 5) + more));
  }

  lemma StartRefused(left: nat, a: nat, lens: seq<seq<int>>, bits: seq<bool>)
    requires TablesOk(lens, a) && left > 0 && a > 0 && |bits| >= 5 && !(1 <= Value(bits[..5]) <= 20)
    ensures TablesFrom(left, a, lens, bits) == Wrong
  {
    hide Value, TablesFrom, RowFrom;
    TablesUnfold(left, a, lens, bits);
    RowUnfold(a, [], false, Value(bits[..5]), bits[5..]);
  }

  /** Steps that lead out of 1 to 20. */
  lemma StepRefused(c: int, more: seq<bool>)
    ensures LengthFrom(false, 20, [true, false] + more) == Wrong && LengthFrom(false, 1, [true, true] + more) == Wrong
    ensures 1 <= c <= 19 ==> LengthFrom(false, c, [true, false] + more) == LengthFrom(false, c + 1, more)
    ensures 2 <= c <= 20 ==> LengthFrom(false, c, [true, true] + more) == LengthFrom(false, c - 1, more)
  {
    var up, down := [true, false] + more, [true, true] + more;
    assert up[1..] == [false] + more && up[1..][1..] == more;
    assert down[1..] == [true] + more && down[1..][1..] == more;
    assert LengthFrom(false, 21, more) == Wrong && LengthFrom(false, 0, more) == Wrong;
    assert LengthFrom(true, 20, up[1..]) == Wrong && LengthFrom(true, 1, down[1..]) == Wrong;
  }

  /** A column that is too long for this stream, or has selectors for only some of its symbols, or an origin that
      is none of its rows. */
  lemma BadColumn(step: (Crc, int) -> Crc, ds: seq<Sent>, size: nat, x: Coded, l: seq<int>, r: seq<int>, crc: nat,
                  origPtr: nat, sel: seq<int>, ranks: seq<int>, more: seq<bool>)
    requires 1 <= size <= 9 && AllSent(ds, size) && crc < WORD && origPtr < 0x100_0000
    requires Expected(x, l, r) && |l| <= 900000 && Sendable(x, sel, ranks)
    requires |l| > 100000 * size || |x.symbols| > 50 * |sel| || origPtr >= |l|
    ensures Sound(x) && RefusedBehind(step, ds, size, HeadBits(crc, origPtr) + Reselected(x, ranks, more))
  {
    hide AllSent, RefusedBehind, BlockFrom, HeadTail, Reselected, Expected, Sound, Ranked, SameStart;
    BlockAccepted(size, x, l, r, crc, origPtr, sel, ranks, more);
    BlockRefused(step, ds, size, crc, origPtr, Reselected(x, ranks, more));
  }
}
