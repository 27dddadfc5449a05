/** What any sequence of bits means to a decoder of whole blocks, and that the bits of a block mean it. */
module WholeBlockParser {
  import opened BitIO
  import opened Bits
  import opened BlockCompressor
  import opened BlockFormat
  import opened BlockParser
  import opened ColumnParser
  import opened Counting
  import opened HuffmanCodes
  import opened InverseBwt
  import opened MoveToFront
  import opened MtfEncoder
  import opened Powers
  import opened Rotation
  import opened SymbolParser

  /** A block's checksum, whether it is randomised, and the row of the origin. */
  datatype Head = Head(crc: nat, randomised: bool, origPtr: nat)

  /** A block before its transform is undone. */
  datatype Found = Found(head: Head, column: seq<int>)

  /** What follows the first byte of a block that may hold 100000 * size characters. */
  ghost function BlockFrom(size: nat, bits: seq<bool>): (p: Parsed<Found>)
    ensures p.Got? ==> FoundOk(size, p.value) && |p.rest| <= |bits|
  {
    AfterLetters(size, LettersFrom([0x41, 0x59, 0x26, 0x53, 0x59], bits))
  }

  ghost predicate FoundOk(size: nat, f: Found) {
    Within(f.column, 256) && |f.column| <= 100000 * size && f.head.origPtr < |f.column|
  }

  ghost function AfterLetters(size: nat, p: Parsed<bool>): (r: Parsed<Found>)
    ensures r.Got? ==> FoundOk(size, r.value) && p.Got? && |r.rest| <= |p.rest|
  {
    match p
    case Got(_, rest) => AfterCrc(size, NumberFrom(4, 0, rest))
    case Partial => Partial
    case Wrong => Wrong
  }

  ghost function AfterCrc(size: nat, p: Parsed<nat>): (r: Parsed<Found>)
    ensures r.Got? ==> FoundOk(size, r.value) && p.Got? && |r.rest| <= |p.rest|
  {
    match p
    case Got(crc, rest) => RandomBitFrom(size, crc, rest)
    case Partial => Partial
    case Wrong => Wrong
  }

  ghost function RandomBitFrom(size: nat, crc: nat, bits: seq<bool>): (r: Parsed<Found>)
    ensures r.Got? ==> FoundOk(size, r.value) && |r.rest| <= |bits|
  {
    if bits == [] then Partial else AfterOrigin(size, crc, bits[0], NumberFrom(3, 0, bits[1..]))
  }

  ghost function AfterOrigin(size: nat, crc: nat, randomised: bool, p: Parsed<nat>): (r: Parsed<Found>)
    ensures r.Got? ==> FoundOk(size, r.value) && p.Got? && |r.rest| <= |p.rest|
  {
    match p
    case Got(o, rest) =>
      if o > 10 + 100000 * size then Wrong else AfterMap(size, Head(crc, randomised, o), MapFrom(rest))
    case Partial => Partial
    case Wrong => Wrong
  }

  ghost function AfterMap(size: nat, h: Head, p: Parsed<seq<bool>>): (r: Parsed<Found>)
    requires p.Got? ==> |p.value| == 256
    ensures r.Got? ==> FoundOk(size, r.value) && p.Got? && |r.rest| <= |p.rest|
  {
    match p
    case Got(u, rest) =>
      if UsedBelow(u, 256) == 0 then Wrong else AfterSelectors(size, h, u, SelectorsFrom(rest))
    case Partial => Partial
    case Wrong => Wrong
  }

  ghost function AfterSelectors(size: nat, h: Head, u: seq<bool>, p: Parsed<Selectors>): (r: Parsed<Found>)
    requires |u| == 256 && UsedBelow(u, 256) > 0 && (p.Got? ==> SelectorsOk(p.value))
    ensures r.Got? ==> FoundOk(size, r.value) && p.Got? && |r.rest| <= |p.rest|
  {
    match p
    case Got(s, rest) => AfterTables(size, h, u, s, TablesFrom(s.nGroups, UsedBelow(u, 256) + 2, [], rest))
    case Partial => Partial
    case Wrong => Wrong
  }

  ghost function AfterTables(size: nat, h: Head, u: seq<bool>, s: Selectors,
                             p: Parsed<seq<seq<int>>>): (r: Parsed<Found>)
    requires |u| == 256 && UsedBelow(u, 256) > 0 && SelectorsOk(s)
    requires p.Got? ==> |p.value| == s.nGroups && TablesOk(p.value, UsedBelow(u, 256) + 2)
    ensures r.Got? ==> FoundOk(size, r.value) && p.Got? && |r.rest| <= |p.rest|
  {
    match p
    case Got(lens, rest) =>
      PlanIsOk(size, u, s, lens);
      FirstList();
      AfterColumn(size, h, ColumnFrom(PlanOf(size, u, s, lens), 0, Outside, Identity(256), [], rest))
    case Partial => Partial
    case Wrong => Wrong
  }

  ghost function AfterColumn(size: nat, h: Head, p: Parsed<seq<int>>): (r: Parsed<Found>)
    requires p.Got? ==> Within(p.value, 256) && |p.value| <= 100000 * size
    ensures r.Got? ==> FoundOk(size, r.value) && p.Got? && |r.rest| <= |p.rest|
  {
    match p
    case Got(l, rest) => if h.origPtr >= |l| then Wrong else Got(Found(h, l), rest)
    case Partial => Partial
    case Wrong => Wrong
  }

  /* ---- The characters in use ---- */

  /** The characters below c that are used. */
  ghost function UsedChars(u: seq<bool>, c: nat): (s: seq<int>)
    requires c <= |u|
    ensures |s| == UsedBelow(u, c) && Within(s, c)
  {
    if c == 0 then [] else if u[c - 1] then UsedChars(u, c - 1) + [c - 1] else UsedChars(u, c - 1)
  }

  /** The characters by their numbers. */
  ghost function CharTable(u: seq<bool>): (s: seq<int>)
    requires |u| == 256
    ensures |s| == 256 && Within(s, 256)
  {
    UsedMost(u, 256);
    UsedChars(u, 256) + seq(256 - UsedBelow(u, 256), _ => 0)
  }

  /** Any table that maps the used characters agrees with it on the numbers in use. */
  lemma {:induction false} CharsKnown(u: seq<bool>, s: seq<int>, c: nat)
    requires |u| == 256 && c <= 256 && Mapped(u, s, 256)
    ensures UsedBelow(u, c) <= 256 && forall k :: 0 <= k < UsedBelow(u, c) ==> s[k] == UsedChars(u, c)[k]
  {
    UsedMost(u, c);
    if c > 0 { CharsKnown(u, s, c - 1); }
  }

  lemma {:induction false} CharsPlaced(u: seq<bool>, c: nat, d: nat)
    requires c < d <= |u| && u[c]
    ensures UsedBelow(u, c) < UsedBelow(u, d) && UsedChars(u, d)[UsedBelow(u, c)] == c
  {
    if d > c + 1 { CharsPlaced(u, c, d - 1); }
  }

  lemma CharTableMapped(u: seq<bool>)
    requires |u| == 256
    ensures Mapped(u, CharTable(u), 256)
  {
    forall c | 0 <= c < 256 && u[c] ensures UsedBelow(u, c) < 256 && CharTable(u)[UsedBelow(u, c)] == c {
      CharsPlaced(u, c, 256);
      UsedMost(u, 256);
    }
  }

  ghost function PlanOf(size: nat, u: seq<bool>, s: Selectors, lens: seq<seq<int>>): Plan
    requires |u| == 256
  {
    Plan(lens, s.selector, UsedBelow(u, 256), CharTable(u), 100000 * size)
  }

  lemma PlanIsOk(size: nat, u: seq<bool>, s: Selectors, lens: seq<seq<int>>)
    requires |u| == 256 && UsedBelow(u, 256) > 0 && SelectorsOk(s) && |lens| == s.nGroups
    requires TablesOk(lens, UsedBelow(u, 256) + 2)
    ensures PlanOk(PlanOf(size, u, s, lens))
  {
    hide UsedBelow, TablesOk, CharTable;
    UsedMost(u, 256);
  }

  lemma FirstList()
    ensures Bytes256(Identity(256)) && Within([], 256)
  {
  }

  /* ---- The bits of a block ---- */

  lemma BytesAhead(bytes: seq<int>, i: nat, rest: seq<bool>)
    requires i < |bytes| && Bytes(bytes)
    ensures 0 <= bytes[i] < 256 && Bytes(bytes[i..]) && Bytes(bytes[i + 1..])
    ensures ByteBits(bytes[i..]) + rest == BitsOf(bytes[i], 8) + (ByteBits(bytes[i + 1..]) + rest)
  {
    hide ByteBits, BitsOf;
    ByteBitsFront(bytes[i..]);
    assert bytes[i..][1..] == bytes[i + 1..];
    assert (BitsOf(bytes[i], 8) + ByteBits(bytes[i + 1..])) + rest ==
           BitsOf(bytes[i], 8) + (ByteBits(bytes[i + 1..]) + rest);
  }

  /** The letters that were written are the letters that are read. */
  lemma {:induction false} LettersParsed(m: seq<int>, rest: seq<bool>)
    requires Bytes(m)
    ensures LettersFrom(m, ByteBits(m) + rest) == Got(true, rest)
    decreases |m|
  {
    if |m| > 0 {
      hide ByteBits, BitsOf, Value, Pow2;
      BytesAhead(m, 0, rest);
      LettersParsed(m[1..], rest);
      PowersOfBytes();
      ValueAhead(m[0], 8, ByteBits(m[1..]) + rest);
      assert m[0..] == m;
    } else {
      assert [] + rest == rest;
    }
  }

  /** The first byte of an m-byte number, and the others. */
  lemma ByteSplit(v: nat, m: nat, rest: seq<bool>)
    requires m > 0
    ensures BitsOf(v, 8 * m) + rest == BitsOf(v / Pow2(8 * (m - 1)) % 256, 8) + (BitsOf(v, 8 * (m - 1)) + rest)
    ensures v / Pow2(8 * (m - 1)) == v / Pow2(8 * m) * 256 + v / Pow2(8 * (m - 1)) % 256
  {
    hide BitsOf, Pow2;
    var k := 8 * (m - 1);
    HighBits(v, 8 * m, 8);
    LowBits(v, 8 * m, k);
    PowersOfBytes();
    BitsMod(v / Pow2(k), 8, 8);
    Pow2Plus(8, k);
    Pow2Plus(k, 8);
    DivTwice(v, Pow2(k), 256);
    assert 8 * m - k == 8 && 8 * m == k + 8;
    var s := BitsOf(v, 8 * m);
    assert s == s[..8] + s[8..];
    assert (s[..8] + s[8..]) + rest == s[..8] + (s[8..] + rest);
  }

  lemma QuotientZero(v: nat, m: nat)
    requires v < m
    ensures v / m == 0
  {
  }

  lemma NumberEnd(v: nat, rest: seq<bool>)
    ensures BitsOf(v, 0) + rest == rest && v / Pow2(0) == v
  {
    assert [] + rest == rest;
  }

  /** All but the m lowest bytes. */
  function Above(v: nat, m: nat): nat {
    QuotientNat(v, Pow2(8 * m));
    v / Pow2(8 * m)
  }

  lemma QuotientNat(v: nat, d: nat)
    requires d >= 1
    ensures v / d >= 0
  {
  }

  /** A number that was written is the number that is read. */
  lemma {:induction false} NumberParsed(m: nat, v: nat, rest: seq<bool>)
    ensures NumberFrom(m, Above(v, m), BitsOf(v, 8 * m) + rest) == Got(v, rest)
    decreases m
  {
    hide BitsOf, Value, Pow2;
    if m > 0 {
      ByteSplit(v, m, rest);
      PowersOfBytes();
      ValueAhead(v / Pow2(8 * (m - 1)) % 256, 8, BitsOf(v, 8 * (m - 1)) + rest);
      NumberParsed(m - 1, v, rest);
    } else {
      NumberEnd(v, rest);
    }
  }

  lemma SmallNumberParsed(m: nat, v: nat, rest: seq<bool>)
    requires v < Pow2(8 * m)
    ensures NumberFrom(m, 0, BitsOf(v, 8 * m) + rest) == Got(v, rest)
  {
    hide BitsOf, Pow2, NumberFrom;
    NumberParsed(m, v, rest);
    QuotientZero(v, Pow2(8 * m));
  }

  /** A block's header after its first byte. */
  ghost function HeadTail(crc: nat, origPtr: nat): seq<bool> {
    ByteBits([0x41, 0x59, 0x26, 0x53, 0x59]) + (BitsOf(crc, 32) + ([false] + BitsOf(origPtr, 24)))
  }

  lemma HeadAhead(crc: nat, origPtr: nat, rest: seq<bool>)
    ensures HeadTail(crc, origPtr) + rest ==
            ByteBits([0x41, 0x59, 0x26, 0x53, 0x59]) + (BitsOf(crc, 32) + ([false] + (BitsOf(origPtr, 24) + rest)))
  {
    hide ByteBits, BitsOf;
    var a, b, c, d := ByteBits([0x41, 0x59, 0x26, 0x53, 0x59]), BitsOf(crc, 32), [false], BitsOf(origPtr, 24);
    Join(a, b + (c + d), rest);
    Join(b, c + d, rest);
    Join(c, d, rest);
  }

  /** The first byte tells a block from the stream's trailer. */
  lemma HeadFirst(crc: nat, origPtr: nat, x: Coded, rest: seq<bool>)
    requires Sound(x)
    ensures BlockBits(crc, origPtr, x) + rest == BitsOf(0x31, 8) + (HeadTail(crc, origPtr) + (CodedBits(x) + rest))
  {
    hide BitsOf, CodedBits, Sound;
    var m := [0x31, 0x41, 0x59, 0x26, 0x53, 0x59];
    assert Bytes(m) && m[1..] == [0x41, 0x59, 0x26, 0x53, 0x59];
    ByteBitsFront(m);
    hide ByteBits;
    var t := BitsOf(crc, 32) + ([false] + BitsOf(origPtr, 24));
    Join(BitsOf(0x31, 8), ByteBits(m[1..]), t);
    Join(BitsOf(0x31, 8), HeadTail(crc, origPtr), CodedBits(x));
    Join(BitsOf(0x31, 8), HeadTail(crc, origPtr) + CodedBits(x), rest);
    Join(HeadTail(crc, origPtr), CodedBits(x), rest);
  }

  lemma CodedAhead(x: Coded, rest: seq<bool>)
    requires Sound(x)
    ensures |x.inUse| == 256 && 2 <= |x.lens| <= N_GROUPS && 1 <= |x.selectors| <= MAX_SELECTORS
    ensures Within(x.ranks, |x.lens|)
    ensures forall k :: 0 <= k < |x.ranks| ==> 0 <= x.ranks[k]
    ensures |x.ranks| == |x.selectors| && Ranked(x.selectors, |x.lens|, x.ranks) && 2 < AlphaSize(x) <= 258
    ensures forall t :: 0 <= t < |x.lens| ==> |x.lens[t]| == AlphaSize(x) && LengthsOk(x.lens[t]) && 0 <= x.lens[t][0]
    ensures CodedBits(x) + rest == MapBits(x.inUse) + (BitsOf(|x.lens|, 3) + (BitsOf(|x.selectors|, 15) +
              (SelectorBits(x.ranks, 0) + (TablesBits(x.lens, 0) + (DataBits(x, 0) + rest)))))
  {
    CodedParts(x, rest);
    UsedBound(x.inUse);
    hide CodedBits, MapBits, BitsOf, SelectorBits, TablesBits, DataBits, List, UsedBelow, Usable, Shortest, Longest;
    forall t | 0 <= t < |x.lens| ensures |x.lens[t]| == AlphaSize(x) && LengthsOk(x.lens[t]) && 0 <= x.lens[t][0] {
      assert TableOk(x.lens[t]);
    }
  }

  /** l is the last column of b's sorted rotations, and o the row of b. */
  ghost predicate ColumnOf(b: seq<int>, o: nat, l: seq<int>) {
    exists p: seq<int> :: SortsRotations(b, p) && |p| == |b| && o < |b| && p[o] == 0 && l == LastColumn(b, p)
  }

  lemma EncodedColumn(b: seq<int>, o: nat, x: Coded) returns (l: seq<int>, r: seq<int>)
    requires Encodes(b, o, x)
    ensures |l| == |b| > o && Expected(x, l, r) && ColumnOf(b, o, l) && Sound(x)
  {
    hide Sound, AllUsed, Ranked, Symbols, UsedBelow;
    var p: seq<int>, r0: seq<int> :| EncodesVia(b, o, x, p, r0);
    l, r := LastColumn(b, p), r0;
  }

  /** The header that was written is the header that is read, unless its origin is no row of the largest block. */
  lemma HeadParsed(size: nat, crc: nat, o: nat, rest: seq<bool>)
    requires crc < WORD && o < 0x100_0000
    ensures BlockFrom(size, HeadTail(crc, o) + rest) ==
            if o <= 10 + 100000 * size then AfterMap(size, Head(crc, false, o), MapFrom(rest)) else Wrong
  {
    hide HeadTail, BitsOf, ByteBits, Pow2, LettersFrom, NumberFrom, AfterMap, MapFrom;
    HeadAhead(crc, o, rest);
    PowersOfBytes();
    var r3 := BitsOf(o, 24) + rest;
    var r1 := BitsOf(crc, 32) + ([false] + r3);
    LettersParsed([0x41, 0x59, 0x26, 0x53, 0x59], r1);
    SmallNumberParsed(4, crc, [false] + r3);
    SmallNumberParsed(3, o, rest);
    assert ([false] + r3)[1..] == r3;
  }

  /** What follows the header of a block, and then rest, if selectors with these ranks are sent with it. */
  ghost function Reselected(x: Coded, ranks: seq<int>, rest: seq<bool>): seq<bool>
    requires Sound(x) && forall k :: 0 <= k < |ranks| ==> 0 <= ranks[k]
  {
    Positive(x);
    MapBits(x.inUse) + (BitsOf(|x.lens|, 3) + (BitsOf(|ranks|, 15) + (SelectorBits(ranks, 0) +
      (TablesBits(x.lens, 0) + (DataBits(x, 0) + rest)))))
  }

  /** Selectors that can be sent with a block. */
  ghost predicate Sendable(x: Coded, sel: seq<int>, ranks: seq<int>) {
    && 1 <= |sel| < 32768 && Ranked(sel, |x.lens|, ranks) && SameStart(sel, x.selectors)
    && forall k :: 0 <= k < |ranks| ==> 0 <= ranks[k]
  }

  lemma OwnSelectors(x: Coded, rest: seq<bool>)
    requires Sound(x)
    ensures Sendable(x, x.selectors, x.ranks) && CodedBits(x) + rest == Reselected(x, x.ranks, rest)
    ensures Capped(x.selectors) == x.selectors && |x.symbols| <= 50 * |x.selectors|
  {
    assert |x.symbols| <= G_SIZE * |x.selectors|;
    hide Sound, CodedBits, MapBits, BitsOf, SelectorBits, TablesBits, DataBits, Ranked, TablesOk, LengthsOk;
    CodedAhead(x, rest);
  }

  lemma SelectorsWithin(n: nat, sel: seq<int>, ranks: seq<int>)
    requires Ranked(sel, n, ranks)
    ensures Within(sel, n) && Within(Capped(sel), n)
  {
    hide List, IsPerm;
    forall i | 0 <= i < |sel| ensures 0 <= sel[i] < n {
      ListPerm(ranks, n, i);
      PermAt(List(ranks, n, i), n, ranks[i]);
    }
  }

  lemma SelectorsSent(x: Coded, sel: seq<int>, ranks: seq<int>)
    requires Sound(x) && Sendable(x, sel, ranks)
    ensures SelectorsOk(Selectors(|x.lens|, Capped(sel))) && SameStart(Capped(sel), x.selectors)
    ensures |sel| == |ranks| && Ranked(sel, |x.lens|, ranks)
  {
    hide TableOk, Ranked;
    SelectorsWithin(|x.lens|, sel, ranks);
    RankRange(sel, |x.lens|, ranks);
  }

  lemma SelectorsTaken(n: nat, sel: seq<int>, ranks: seq<int>, rest: seq<bool>)
    requires 2 <= n <= N_GROUPS && 1 <= |sel| < 32768 && Ranked(sel, n, ranks)
    requires forall k :: 0 <= k < |ranks| ==> 0 <= ranks[k]
    ensures SelectorsFrom(BitsOf(n, 3) + (BitsOf(|sel|, 15) + (SelectorBits(ranks, 0) + rest))) ==
            Got(Selectors(n, Capped(sel)), rest)
  {
    hide BitsOf, SelectorBits, Ranked, SelectorsFrom;
    SelectorsParsed(n, sel, ranks, rest);
  }

  /** What follows the header: the column that was coded, exactly if it fits into the block, there are selectors
      for all its symbols, and the origin is one of its rows; and otherwise no block. */
  lemma CodedParsed(size: nat, h: Head, x: Coded, l: seq<int>, r: seq<int>, sel: seq<int>, ranks: seq<int>,
                    rest: seq<bool>)
    requires Expected(x, l, r) && |l| <= MAX_BLOCK && size <= 9 && Sendable(x, sel, ranks)
    ensures Sound(x)
    ensures AfterMap(size, h, MapFrom(Reselected(x, ranks, rest))) ==
            if |l| <= 100000 * size && |x.symbols| <= 50 * |Capped(sel)| && h.origPtr < |l| then Got(Found(h, l), rest)
            else Wrong
  {
    hide MapBits, BitsOf, SelectorBits, TablesBits, DataBits, TablesOk, LengthsOk, UsedBelow, MapFrom, Capped,
      SelectorsFrom, TablesFrom, ColumnFrom, Identity, CharTable, Ranked, Mapped, AllUsed, Symbols;
    ExpectedSound(x, l, r);
    hide Expected, Sound;
    SelectorsSent(x, sel, ranks);
    Positive(x);
    LensOk(x);
    var d := DataBits(x, 0) + rest;
    var t := TablesBits(x.lens, 0) + d;
    var s := Selectors(|x.lens|, Capped(sel));
    MapParsed(x.inUse, BitsOf(|x.lens|, 3) + (BitsOf(|sel|, 15) + (SelectorBits(ranks, 0) + t)));
    SelectorsTaken(|x.lens|, sel, ranks, t);
    TablesParsed(x.lens, AlphaSize(x), 0, d);
    assert x.lens[..0] == [];
    PlanIsOk(size, x.inUse, s, x.lens);
    CharTableMapped(x.inUse);
    var h2 := PlanOf(size, x.inUse, s, x.lens);
    PlanForIntro(h2, x, l, r);
    ColumnParsed(h2, x, l, r, rest);
  }

  lemma ExpectedSound(x: Coded, l: seq<int>, r: seq<int>)
    requires Expected(x, l, r)
    ensures Sound(x) && |x.inUse| == 256 && SelectorsOk(Selectors(|x.lens|, x.selectors)) && UsedBelow(x.inUse, 256) > 0
  {
  }

  lemma LensOk(x: Coded)
    requires Sound(x)
    ensures |x.inUse| == 256 && TablesOk(x.lens, AlphaSize(x))
  {
    hide UsedBelow, Usable;
    forall t | 0 <= t < |x.lens|
      ensures |x.lens[t]| == AlphaSize(x) && LengthsOk(x.lens[t])
    {
      assert TableOk(x.lens[t]);
    }
  }

  lemma PlanForIntro(h: Plan, x: Coded, l: seq<int>, r: seq<int>)
    requires PlanOk(h) && Sound(x) && h.lens == x.lens && SameStart(h.selector, x.selectors) && |x.inUse| == 256
    requires h.nInUse == UsedBelow(x.inUse, 256) && Mapped(x.inUse, h.chars, 256)
    requires |l| <= MAX_BLOCK && h.most <= MAX_BLOCK && Expected(x, l, r)
    ensures PlanFor(h, x, l, r)
  {
    hide PlanOk, Sound, Mapped, Expected, UsedBelow;
  }

  /** Exactly when the bits for a column are read as a block, whatever its header, the selectors sent with it and the
      size of the blocks of its stream: if it is not too long, if there are selectors for all its symbols, and if
      its origin is one of its rows. Then they mean that column and that header. */
  lemma BlockAccepted(size: nat, x: Coded, l: seq<int>, r: seq<int>, crc: nat, origPtr: nat, sel: seq<int>,
                      ranks: seq<int>, rest: seq<bool>)
    requires Expected(x, l, r) && |l| <= 900000 && 1 <= size <= 9 && crc < WORD && origPtr < 0x100_0000
    requires Sendable(x, sel, ranks)
    ensures Sound(x)
    ensures BlockFrom(size, HeadTail(crc, origPtr) + Reselected(x, ranks, rest)) ==
            if |l| <= 100000 * size && |x.symbols| <= 50 * (if |sel| <= 18002 then |sel| else 18002) && origPtr < |l|
            then Got(Found(Head(crc, false, origPtr), l), rest) else Wrong
  {
    hide Sound, HeadTail, BlockFrom, AfterMap, MapFrom, Reselected, Symbols, Ranked, SameStart;
    ExpectedSound(x, l, r);
    hide Expected;
    HeadParsed(size, crc, origPtr, Reselected(x, ranks, rest));
    CodedParsed(size, Head(crc, false, origPtr), x, l, r, sel, ranks, rest);
  }

  /** The bits of a block are read as the last column of its sorted rotations, and its header. */
  lemma BlockParsed(size: nat, b: seq<int>, crc: nat, o: nat, x: Coded, rest: seq<bool>) returns (l: seq<int>)
    requires Encodes(b, o, x) && |b| <= 100000 * size && 1 <= size <= 9 && crc < WORD
    ensures Sound(x) && ColumnOf(b, o, l)
    ensures BlockFrom(size, HeadTail(crc, o) + (CodedBits(x) + rest)) == Got(Found(Head(crc, false, o), l), rest)
  {
    hide Encodes, Sound, CodedBits, HeadTail, ColumnOf, Expected, BlockFrom, Sendable, Reselected;
    var r;
    l, r := EncodedColumn(b, o, x);
    OwnSelectors(x, rest);
    BlockAccepted(size, x, l, r, crc, o, x.selectors, x.ranks, rest);
  }

  lemma ColumnWalks(b: seq<int>, o: nat, l: seq<int>, q: seq<int>)
    requires ColumnOf(b, o, l) && Links(l, q)
    ensures |b| == |l| > o && Walk(l, q, o, |l|) == b
  {
    var p: seq<int> :| SortsRotations(b, p) && |p| == |b| && o < |b| && p[o] == 0 && l == LastColumn(b, p);
    WalkRestoresBlock(b, p, q, o);
  }
}
