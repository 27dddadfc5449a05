/** What any sequence of bits means to a decoder of streams, and that a compressor's stream means its
    content. */
module StreamParser {
  import opened BitIO
  import opened Bits
  import opened BlockCompressor
  import opened BlockFormat
  import opened BlockParser
  import BwtTables
  import opened Checksums
  import opened Counting
  import opened InverseBwt
  import opened Powers
  import opened Rle
  import opened StreamFormat
  import opened UnRle
  import opened WholeBlockParser

  /** How it ends: before the end of the stream; with it; with a sequence no compressor writes or a wrong
      checksum; with a block that stops in the middle of a run; without being a stream; or at a block
      that says it is randomised. */
  datatype Final = Unfinished | Finished | Corrupt | IllEnded | NotBzip2 | RandomisedBlock

  /** The bytes, and how it ends. */
  datatype Meaning = Meaning(bytes: seq<int>, final: Final)

  ghost function Prepend(out: seq<int>, m: Meaning): Meaning {
    Meaning(out + m.bytes, m.final)
  }

  /* ---- What a column spells ---- */

  /** The inverse links of a column. */
  lemma LinksOf(l: seq<int>) returns (q: seq<int>)
    ensures Links(l, q)
  {
    q := seq(|l|, _ => -1);
    hide BwtTables.Placed, Rank, Links;
    NonePlaced(l, q);
    for i := 0 to |l|
      invariant |q| == |l| && BwtTables.Placed(l, q, i)
    {
      BwtTables.PlaceStep(l, q, i);
      q := q[Rank(l, i) := i];
    }
    BwtTables.PlacedAll(l, q);
  }

  lemma NonePlaced(l: seq<int>, q: seq<int>)
    requires |q| == |l| && forall k :: 0 <= k < |q| ==> q[k] == -1
    ensures BwtTables.Placed(l, q, 0)
  {
  }

  ghost function LinksFor(l: seq<int>): (q: seq<int>)
    ensures Links(l, q)
  {
    LinksExist(l);
    var q: seq<int> :| Links(l, q);
    q
  }

  lemma LinksExist(l: seq<int>)
    ensures exists q: seq<int> :: Links(l, q)
  {
    var q := LinksOf(l);
  }

  /** The characters of a column from row o, run off its end. */
  ghost function Letters(l: seq<int>, o: nat): (s: seq<int>)
    requires o < |l| && Within(l, 256)
    ensures Readable(s, |l|)
  {
    CharsReadable(l, LinksFor(l), o);
    Chars(l, LinksFor(l), o, |l| + 5)
  }

  /* ---- Streams ---- */

  ghost function StreamFrom(step: (Crc, int) -> Crc, bits: seq<bool>): Meaning {
    AfterMagic(step, LettersFrom([0x42, 0x5a, 0x68], bits))
  }

  ghost function AfterMagic(step: (Crc, int) -> Crc, p: Parsed<bool>): Meaning {
    match p
    case Got(_, rest) => SizeFrom(step, rest)
    case Partial => Meaning([], Unfinished)
    case Wrong => Meaning([], NotBzip2)
  }

  ghost function SizeFrom(step: (Crc, int) -> Crc, bits: seq<bool>): Meaning {
    if |bits| < 8 then Meaning([], Unfinished)
    else if 0x31 <= Value(bits[..8]) <= 0x39 then BlocksFrom(step, Value(bits[..8]) - 0x30, 0, bits[8..])
    else Meaning([], NotBzip2)
  }

  /** The blocks to come, and the trailer; c is the checksum of those before. */
  ghost function BlocksFrom(step: (Crc, int) -> Crc, size: nat, c: Crc, bits: seq<bool>): Meaning
    decreases |bits|, 0
  {
    if |bits| < 8 then Meaning([], Unfinished)
    else if Value(bits[..8]) == 0x17 then AfterTrailer(c, LettersFrom([0x72, 0x45, 0x38, 0x50, 0x90], bits[8..]))
    else if Value(bits[..8]) != 0x31 then Meaning([], Corrupt)
    else AfterBlock(step, size, c, BlockFrom(size, bits[8..]))
  }

  ghost function AfterBlock(step: (Crc, int) -> Crc, size: nat, c: Crc, p: Parsed<Found>): Meaning
    requires p.Got? ==> FoundOk(size, p.value)
    decreases if p.Got? then |p.rest| else 0, 2
  {
    match p
    case Got(f, rest) =>
      if f.head.randomised then Meaning([], RandomisedBlock)
      else
        var s := Letters(f.column, f.head.origPtr);
        var n := |f.column|;
        OutputFrom(step, size, c, f.head.crc, INITIAL, Expand(s, n, 0), EndsWell(s, n, 0), rest)
    case Partial => Meaning([], Unfinished)
    case Wrong => Meaning([], Corrupt)
  }

  /** left is what is still to be put out of a block, crc its checksum so far, and stored the one sent. */
  ghost function OutputFrom(step: (Crc, int) -> Crc, size: nat, c: Crc, stored: nat, crc: Crc, left: seq<int>,
                            ends: bool, bits: seq<bool>): Meaning
    decreases |bits|, 1
  {
    if !ends then Meaning(left, IllEnded)
    else if Complement(Fold(step, crc, left)) != stored then Meaning(left, Corrupt)
    else Prepend(left, BlocksFrom(step, size, Combine(c, Complement(Fold(step, crc, left))), bits))
  }

  ghost function AfterTrailer(c: Crc, p: Parsed<bool>): Meaning {
    match p
    case Got(_, rest) => AfterTotal(c, NumberFrom(4, 0, rest))
    case Partial => Meaning([], Unfinished)
    case Wrong => Meaning([], Corrupt)
  }

  ghost function AfterTotal(c: Crc, p: Parsed<nat>): Meaning {
    match p
    case Got(v, _) => Meaning([], if v == c then Finished else Corrupt)
    case Partial => Meaning([], Unfinished)
    case Wrong => Meaning([], Corrupt)
  }

  /** The output stage reads the block. */
  lemma CharsSpell(b: seq<int>, o: nat, l: seq<int>, q: seq<int>)
    requires ColumnOf(b, o, l) && Links(l, q)
    ensures |l| == |b| > o && Chars(l, q, o, |l| + 5)[..|l|] == b
  {
    hide ColumnOf, Links, Rank, Walk, Chars, BwtTables.Row;
    ColumnWalks(b, o, l, q);
    CharsPrefix(l, q, o, |l|);
    CharsAreWalk(l, q, o, 0, |l|);
    RowStart(l, q, o);
    assert Chars(l, q, o, |l|)[0..] == Chars(l, q, o, |l|);
  }

  lemma RowStart(l: seq<int>, q: seq<int>, o: nat)
    requires Links(l, q) && o < |l|
    ensures |q| == |l| && (forall k :: 0 <= k < |q| ==> 0 <= q[k] < |q|) && BwtTables.Row(q, o, 0) == o
  {
  }

  lemma CharsPrefix(l: seq<int>, q: seq<int>, o: nat, n: nat)
    requires Links(l, q) && o < |l|
    ensures Chars(l, q, o, n + 5)[..n] == Chars(l, q, o, n)
  {
    LinkSize(l, q);
    hide Links, Rank, BwtTables.Row;
  }

  /** What the output stage reads expands to what the block's runs stand for. */
  lemma SpellsRuns(b: seq<int>, o: nat, l: seq<int>, q: seq<int>, rs: seq<Run>)
    requires ColumnOf(b, o, l) && Links(l, q) && Within(l, 256) && Runs(rs) && b == Packed(rs, 0)
    ensures |l| == |b| > o && Readable(Chars(l, q, o, |l| + 5), |l|)
    ensures Expand(Chars(l, q, o, |l| + 5), |l|, 0) == Plain(rs, 0) && EndsWell(Chars(l, q, o, |l| + 5), |l|, 0)
  {
    hide ColumnOf, Links, Within, Walk, Readable, Runs, Packed, Plain, Expand, EndsWell, Rank, BwtTables.Row;
    CharsSpell(b, o, l, q);
    CharsReadable(l, q, o);
    var s := Chars(l, q, o, |l| + 5);
    assert s[0..|l|] == s[..|l|] == b;
    ExpandPacked(rs, 0, s, |l|, 0);
  }

  /* ---- The bits of a stream, piece by piece ---- */

  /** The bits of a stream from block j on, and what follows the stream. */
  ghost function Ahead(step: (Crc, int) -> Crc, ds: seq<Sent>, size: nat, pad: seq<bool>, j: nat): seq<bool>
    requires AllSent(ds, size) && j <= |ds|
  {
    BlocksBits(step, ds, size, j) + (TrailerBits(Combined(step, ds, |ds|)) + pad)
  }

  lemma StreamAhead(step: (Crc, int) -> Crc, ds: seq<Sent>, size: nat, pad: seq<bool>)
    requires 1 <= size <= 9 && AllSent(ds, size)
    ensures StreamBits(step, size, ds) + pad ==
            ByteBits([0x42, 0x5a, 0x68]) + (BitsOf(0x30 + size, 8) + Ahead(step, ds, size, pad, 0))
  {
    hide AllSent, BlocksBits, TrailerBits, Combined, BitsOf;
    ByteBitsGrow([0x42, 0x5a, 0x68], 0x30 + size);
    assert [0x42, 0x5a, 0x68] + [0x30 + size] == [0x42, 0x5a, 0x68, 0x30 + size];
    hide ByteBits;
    var m, d, b, t := ByteBits([0x42, 0x5a, 0x68]), BitsOf(0x30 + size, 8), BlocksBits(step, ds, size,
      0), TrailerBits(Combined(step, ds, |ds|));
    Join(m + d, b + t, pad);
    Join(b, t, pad);
    Join(m, d, b + (t + pad));
  }

  lemma BlockIsAhead(step: (Crc, int) -> Crc, ds: seq<Sent>, size: nat, pad: seq<bool>, j: nat)
    requires AllSent(ds, size) && j < |ds|
    ensures SentOk(ds[j], size) && Sound(ds[j].x)
    ensures Ahead(step, ds, size, pad, j)
            == BitsOf(0x31, 8) + (HeadTail(SentCrc(step, ds[j]), ds[j].origPtr) +
              (CodedBits(ds[j].x) + Ahead(step, ds, size, pad, j + 1)))
  {
    SentSound(ds[j], size);
    assert BlocksBits(step, ds, size, j) == SentBits(step, ds[j]) + BlocksBits(step, ds, size, j + 1);
    hide AllSent, BlocksBits, TrailerBits, Combined, BitsOf, SentOk, Sound, CodedBits, HeadTail, BlockBits, SentCrc;
    Join(SentBits(step, ds[j]), BlocksBits(step, ds, size, j + 1), TrailerBits(Combined(step, ds, |ds|)) + pad);
    HeadFirst(SentCrc(step, ds[j]), ds[j].origPtr, ds[j].x, Ahead(step, ds, size, pad, j + 1));
  }

  lemma TrailerIsAhead(step: (Crc, int) -> Crc, ds: seq<Sent>, size: nat, pad: seq<bool>)
    requires AllSent(ds, size)
    ensures Ahead(step, ds, size, pad, |ds|)
            == BitsOf(0x17, 8) + (ByteBits([0x72, 0x45, 0x38, 0x50, 0x90]) +
              (BitsOf(Combined(step, ds, |ds|), 32) + pad))
  {
    assert BlocksBits(step, ds, size, |ds|) == [];
    TrailerFirst(Combined(step, ds, |ds|), pad);
    hide AllSent, BlocksBits, Combined, BitsOf, TrailerBits, ByteBits;
    NoBits(TrailerBits(Combined(step, ds, |ds|)) + pad);
  }

  lemma TrailerFirst(c: Crc, pad: seq<bool>)
    ensures TrailerBits(c) + pad == BitsOf(0x17, 8) + (ByteBits([0x72, 0x45, 0x38, 0x50, 0x90]) + (BitsOf(c, 32) + pad))
  {
    hide BitsOf;
    TrailerLetters();
    hide ByteBits, Bytes;
    var t := [0x72, 0x45, 0x38, 0x50, 0x90];
    var a, b := BitsOf(0x17, 8), ByteBits(t);
    Join(a, b, BitsOf(c, 32));
    Join(a, b + BitsOf(c, 32), pad);
    Join(b, BitsOf(c, 32), pad);
  }

  lemma TrailerLetters()
    ensures Bytes(TRAILER) && Bytes([0x72, 0x45, 0x38, 0x50, 0x90])
    ensures ByteBits(TRAILER) == BitsOf(0x17, 8) + ByteBits([0x72, 0x45, 0x38, 0x50, 0x90])
  {
    hide BitsOf;
    assert TRAILER[1..] == [0x72, 0x45, 0x38, 0x50, 0x90];
    ByteBitsFront(TRAILER);
  }

  lemma SentIs(step: (Crc, int) -> Crc, d: Sent, size: nat)
    requires SentOk(d, size)
    ensures Encodes(Packed(d.runs, 0), d.origPtr, d.x) && Sound(d.x) && |Packed(d.runs, 0)| <= 100000 * size
    ensures Runs(d.runs)
  {
  }

  lemma ContentOf(ds: seq<Sent>, j: nat)
    requires j < |ds|
    ensures Content(ds, j) == Plain(ds[j].runs, 0) + Content(ds, j + 1)
  {
  }

  lemma CombinedNone(step: (Crc, int) -> Crc, ds: seq<Sent>)
    ensures Combined(step, ds, 0) == 0
  {
  }

  lemma ContentEnd(ds: seq<Sent>)
    ensures Content(ds, |ds|) == []
  {
  }

  lemma HeaderLetters()
    ensures Bytes([0x42, 0x5a, 0x68])
  {
  }

  /** What a block that was sent spells. */
  lemma SentSpells(d: Sent, l: seq<int>)
    requires Runs(d.runs) && ColumnOf(Packed(d.runs, 0), d.origPtr, l) && Within(l, 256)
    ensures d.origPtr < |l|
    ensures Expand(Letters(l, d.origPtr), |l|, 0) == Plain(d.runs, 0) && EndsWell(Letters(l, d.origPtr), |l|, 0)
  {
    hide ColumnOf, Runs, Packed, Plain, Expand, EndsWell, Readable, Links, Within, Chars;
    SpellsRuns(Packed(d.runs, 0), d.origPtr, l, LinksFor(l), d.runs);
  }

  lemma {:induction false} BlocksParsed(step: (Crc, int) -> Crc, ds: seq<Sent>, size: nat, pad: seq<bool>, j: nat)
    requires AllSent(ds, size) && j <= |ds| && 1 <= size <= 9
    ensures BlocksFrom(step, size, Combined(step, ds, j), Ahead(step, ds, size, pad, j)) ==
            Meaning(Content(ds, j), Finished)
    decreases |ds| - j
  {
    hide AllSent, Ahead, Combined, Content, BlockFrom, Fold, Combine, Plain, CodedBits, HeadTail, BitsOf, Value, Pow2,
      ByteBits, Sound, Encodes, SentOk, LettersFrom, NumberFrom, Letters, Packed, Runs, ColumnOf, Expand, EndsWell;
    PowersOfBytes();
    if j < |ds| {
      BlocksParsed(step, ds, size, pad, j + 1);
      BlockIsAhead(step, ds, size, pad, j);
      var d, rest := ds[j], Ahead(step, ds, size, pad, j + 1);
      ValueAhead(0x31, 8, HeadTail(SentCrc(step, d), d.origPtr) + (CodedBits(d.x) + rest));
      BlockSent(step, d, size, Combined(step, ds, j), rest);
      CombinedNext(step, ds, j);
      ContentOf(ds, j);
    } else {
      TrailerIsAhead(step, ds, size, pad);
      TrailerLetters();
      var c := Combined(step, ds, |ds|);
      ValueAhead(0x17, 8, ByteBits([0x72, 0x45, 0x38, 0x50, 0x90]) + (BitsOf(c, 32) + pad));
      LettersParsed([0x72, 0x45, 0x38, 0x50, 0x90], BitsOf(c, 32) + pad);
      SmallNumberParsed(4, c, pad);
      ContentEnd(ds);
    }
  }

  lemma CombinedNext(step: (Crc, int) -> Crc, ds: seq<Sent>, j: nat)
    requires j < |ds|
    ensures Combined(step, ds, j + 1) == Combine(Combined(step, ds, j), SentCrc(step, ds[j]))
  {
    hide Combine;
  }

  /** The bits of one block that was sent. */
  lemma BlockSent(step: (Crc, int) -> Crc, d: Sent, size: nat, c: Crc, rest: seq<bool>)
    requires SentOk(d, size) && 1 <= size <= 9
    ensures Sound(d.x)
    ensures AfterBlock(step, size, c,
                       BlockFrom(size, HeadTail(SentCrc(step, d), d.origPtr) + (CodedBits(d.x) + rest))) ==
            Prepend(Plain(d.runs, 0), BlocksFrom(step, size, Combine(c, SentCrc(step, d)), rest))
  {
    hide BlockFrom, Fold, Combine, Plain, CodedBits, HeadTail, Sound, Encodes, Letters, Packed, Runs, ColumnOf,
      Expand, EndsWell, BlocksFrom;
    SentIs(step, d, size);
    hide SentOk;
    var l := BlockParsed(size, Packed(d.runs, 0), SentCrc(step, d), d.origPtr, d.x, rest);
    SentSpells(d, l);
  }

  /** A compressor's stream, and anything after it, means the content. */
  lemma StreamParsed(step: (Crc, int) -> Crc, ds: seq<Sent>, size: nat, pad: seq<bool>)
    requires 1 <= size <= 9 && AllSent(ds, size)
    ensures StreamFrom(step, StreamBits(step, size, ds) + pad) == Meaning(Content(ds, 0), Finished)
  {
    hide AllSent, Ahead, Combined, Content, BlocksFrom, BitsOf, Value, Pow2, ByteBits, LettersFrom, StreamBits;
    PowersOfBytes();
    HeaderLetters();
    StreamAhead(step, ds, size, pad);
    LettersParsed([0x42, 0x5a, 0x68], BitsOf(0x30 + size, 8) + Ahead(step, ds, size, pad, 0));
    ValueAhead(0x30 + size, 8, Ahead(step, ds, size, pad, 0));
    CombinedNone(step, ds);
    BlocksParsed(step, ds, size, pad, 0);
  }
}
