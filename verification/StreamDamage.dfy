/** What damaged streams mean: wrong checksums, bits that are no block, and streams that are cut off, all
    behind any number of good blocks. */
module StreamDamage {
  import opened BitIO
  import opened Bits
  import opened BlockCompressor
  import opened BlockFormat
  import opened BlockParser
  import opened Checksums
  import opened Counting
  import opened Powers
  import opened Prefixes
  import opened Rle
  import opened StreamFormat
  import opened StreamParser
  import opened WholeBlockParser

  /** A stream that goes on with bits u behind the blocks ds. */
  ghost function Behind(step: (Crc, int) -> Crc, ds: seq<Sent>, size: nat, u: seq<bool>): seq<bool>
    requires 1 <= size <= 9 && AllSent(ds, size)
  {
    MagicBits(size) + (BlocksBits(step, ds, size, 0) + u)
  }

  /** What follows good blocks means what it means, behind their content. */
  lemma {:induction false} BlocksThen(step: (Crc, int) -> Crc, ds: seq<Sent>, size: nat, u: seq<bool>, j: nat)
    requires AllSent(ds, size) && j <= |ds| && 1 <= size <= 9
    ensures BlocksFrom(step, size, Combined(step, ds, j), BlocksBits(step, ds, size, j) + u) ==
            Prepend(Content(ds, j), BlocksFrom(step, size, Combined(step, ds, |ds|), u))
    decreases |ds| - j
  {
    hide AllSent, Combined, Content, BlockFrom, Fold, Combine, Plain, CodedBits, HeadTail, BitsOf, Value, Pow2,
      ByteBits, Sound, Encodes, SentOk, BlocksBits, BlocksFrom, AfterBlock, SentBits, SentCrc;
    if j < |ds| {
      BlocksThen(step, ds, size, u, j + 1);
      BlocksUnfold(step, ds, size, j);
      SentIsOk(ds, size, j);
      Join(SentBits(step, ds[j]), BlocksBits(step, ds, size, j + 1), u);
      BlockThen(step, ds[j], size, Combined(step, ds, j), BlocksBits(step, ds, size, j + 1) + u);
      CombinedNext(step, ds, j);
      ContentOf(ds, j);
      PrependTwice(Plain(ds[j].runs, 0), Content(ds, j + 1), BlocksFrom(step, size, Combined(step, ds, |ds|), u));
    } else {
      BlocksUnfold(step, ds, size, |ds|);
      NoBits(u);
      ContentEnd(ds);
      PrependNothing(BlocksFrom(step, size, Combined(step, ds, |ds|), u));
    }
  }

  lemma SentIsOk(ds: seq<Sent>, size: nat, j: nat)
    requires AllSent(ds, size) && j < |ds|
    ensures SentOk(ds[j], size)
  {
    hide SentOk;
  }

  lemma PrependTwice(a: seq<int>, b: seq<int>, m: Meaning)
    ensures Prepend(a, Prepend(b, m)) == Prepend(a + b, m)
  {
    assert a + (b + m.bytes) == (a + b) + m.bytes;
  }

  lemma PrependNothing(m: Meaning)
    ensures Prepend([], m) == m
  {
    assert [] + m.bytes == m.bytes;
  }

  lemma NothingAfter(a: seq<int>, f: Final)
    ensures Prepend(a, Meaning([], f)) == Meaning(a, f)
  {
    assert a + [] == a;
  }

  /** One good block. */
  lemma BlockThen(step: (Crc, int) -> Crc, d: Sent, size: nat, c: Crc, u: seq<bool>)
    requires SentOk(d, size) && 1 <= size <= 9
    ensures Sound(d.x)
    ensures BlocksFrom(step, size, c, SentBits(step, d) + u) ==
            Prepend(Plain(d.runs, 0), BlocksFrom(step, size, Combine(c, SentCrc(step, d)), u))
  {
    hide BlockFrom, Fold, Combine, Plain, CodedBits, HeadTail, BitsOf, Value, Pow2, ByteBits, Sound, Encodes, SentOk,
      AfterBlock, SentCrc, BlockBits, BlocksFrom;
    SentSound(d, size);
    PowersOfBytes();
    var t := HeadTail(SentCrc(step, d), d.origPtr) + (CodedBits(d.x) + u);
    HeadFirst(SentCrc(step, d), d.origPtr, d.x, u);
    ValueAhead(0x31, 8, t);
    BlockComes(step, size, c, BitsOf(0x31, 8) + t);
    BlockSent(step, d, size, c, u);
  }

  /** What follows the blocks of a stream. */
  lemma StreamThen(step: (Crc, int) -> Crc, ds: seq<Sent>, size: nat, u: seq<bool>)
    requires AllSent(ds, size) && 1 <= size <= 9
    ensures StreamFrom(step, Behind(step, ds, size, u)) ==
            Prepend(Content(ds, 0), BlocksFrom(step, size, Combined(step, ds, |ds|), u))
  {
    hide AllSent, Combined, Content, BlocksFrom, BitsOf, Value, Pow2, ByteBits, LettersFrom, BlocksBits, MagicBits;
    PowersOfBytes();
    HeaderLetters();
    var b := BlocksBits(step, ds, size, 0) + u;
    MagicIs(size);
    Join(ByteBits([0x42, 0x5a, 0x68]), BitsOf(0x30 + size, 8), b);
    LettersParsed([0x42, 0x5a, 0x68], BitsOf(0x30 + size, 8) + b);
    ValueAhead(0x30 + size, 8, b);
    CombinedNone(step, ds);
    BlocksThen(step, ds, size, u, 0);
  }

  lemma MagicIs(size: nat)
    requires 1 <= size <= 9
    ensures Bytes([0x42, 0x5a, 0x68]) && MagicBits(size) == ByteBits([0x42, 0x5a, 0x68]) + BitsOf(0x30 + size, 8)
  {
    hide BitsOf;
    assert Bytes([0x42, 0x5a, 0x68]);
    ByteBitsGrow([0x42, 0x5a, 0x68], 0x30 + size);
    assert [0x42, 0x5a, 0x68] + [0x30 + size] == [0x42, 0x5a, 0x68, 0x30 + size];
  }

  /* ---- Wrong checksums ---- */

  /** What was found of a block with another number in place of its checksum. */
  lemma WrongFound(step: (Crc, int) -> Crc, d: Sent, size: nat, c: Crc, v: nat, l: seq<int>, more: seq<bool>)
    requires v != SentCrc(step, d) && Within(l, 256) && |l| <= 100000 * size && d.origPtr < |l|
    requires Expand(Letters(l, d.origPtr), |l|, 0) == Plain(d.runs, 0) && EndsWell(Letters(l, d.origPtr), |l|, 0)
    ensures AfterBlock(step, size, c, Got(Found(Head(v, false, d.origPtr), l), more)) ==
            Meaning(Plain(d.runs, 0), Corrupt)
  {
    hide Letters, Expand, EndsWell, BlocksFrom, Fold, Combine, Plain, Within;
  }

  lemma WrongBlock(step: (Crc, int) -> Crc, d: Sent, size: nat, c: Crc, v: nat, more: seq<bool>)
    requires 1 <= size <= 9 && SentOk(d, size) && v < WORD && v != SentCrc(step, d)
    ensures Sound(d.x)
    ensures BlocksFrom(step, size, c, BlockBits(v, d.origPtr, d.x) + more) == Meaning(Plain(d.runs, 0), Corrupt)
  {
    hide BlockFrom, Plain, CodedBits, HeadTail, BitsOf, Value, Pow2, ByteBits, Sound, Encodes, SentOk, BlockBits,
      Letters, Packed, Runs, ColumnOf, Expand, EndsWell, BlocksFrom, Fold, Within, SentCrc, AfterBlock;
    SentSound(d, size);
    SentIs(step, d, size);
    PowersOfBytes();
    HeadFirst(v, d.origPtr, d.x, more);
    var t := HeadTail(v, d.origPtr) + (CodedBits(d.x) + more);
    ValueAhead(0x31, 8, t);
    BlockComes(step, size, c, BitsOf(0x31, 8) + t);
    var l := BlockParsed(size, Packed(d.runs, 0), v, d.origPtr, d.x, more);
    SentSpells(d, l);
    WrongFound(step, d, size, c, v, l, more);
  }

  /** A block that is sent with any other number in place of its checksum is put out, and then the stream is
      corrupt, whatever follows. */
  lemma WrongBlockChecksum(step: (Crc, int) -> Crc, ds: seq<Sent>, size: nat, d: Sent, v: nat, more: seq<bool>)
    requires AllSent(ds, size) && 1 <= size <= 9 && SentOk(d, size) && v < WORD && v != SentCrc(step, d)
    ensures Sound(d.x)
    ensures StreamFrom(step, Behind(step, ds, size, BlockBits(v, d.origPtr, d.x) + more)) ==
            Meaning(Content(ds, 0) + Plain(d.runs, 0), Corrupt)
  {
    hide AllSent, Plain, Sound, SentOk, BlockBits, BlocksFrom, Content, Behind, Combined, SentCrc;
    SentSound(d, size);
    StreamThen(step, ds, size, BlockBits(v, d.origPtr, d.x) + more);
    WrongBlock(step, d, size, Combined(step, ds, |ds|), v, more);
  }

  lemma BlockComes(step: (Crc, int) -> Crc, size: nat, c: Crc, bits: seq<bool>)
    requires |bits| >= 8 && Value(bits[..8]) == 0x31
    ensures BlocksFrom(step, size, c, bits) == AfterBlock(step, size, c, BlockFrom(size, bits[8..]))
  {
    hide Value, BlockFrom, AfterBlock;
  }

  lemma TrailerComes(step: (Crc, int) -> Crc, size: nat, c: Crc, bits: seq<bool>)
    requires |bits| >= 8 && Value(bits[..8]) == 0x17
    ensures BlocksFrom(step, size, c, bits) == AfterTrailer(c, LettersFrom([0x72, 0x45, 0x38, 0x50, 0x90], bits[8..]))
  {
    hide Value, LettersFrom, AfterTrailer;
  }

  /** A trailer with any number is the end of the stream, and the stream is good exactly if the number is the
      combined checksum of the blocks. */
  lemma TrailerDecides(step: (Crc, int) -> Crc, ds: seq<Sent>, size: nat, v: nat, more: seq<bool>)
    requires AllSent(ds, size) && 1 <= size <= 9 && v < WORD
    ensures StreamFrom(step, Behind(step, ds, size, TrailerBits(v) + more)) ==
            Meaning(Content(ds, 0), if v == Combined(step, ds, |ds|) then Finished else Corrupt)
  {
    hide AllSent, BitsOf, Value, Pow2, ByteBits, LettersFrom, NumberFrom, BlocksFrom, Content, Combined, Behind,
      TrailerBits;
    PowersOfBytes();
    TrailerLetters();
    StreamThen(step, ds, size, TrailerBits(v) + more);
    TrailerFirst(v, more);
    var t := [0x72, 0x45, 0x38, 0x50, 0x90];
    ValueAhead(0x17, 8, ByteBits(t) + (BitsOf(v, 32) + more));
    TrailerComes(step, size, Combined(step, ds, |ds|), BitsOf(0x17, 8) + (ByteBits(t) + (BitsOf(v, 32) + more)));
    LettersParsed(t, BitsOf(v, 32) + more);
    SmallNumberParsed(4, v, more);
    NothingAfter(Content(ds, 0), if v == Combined(step, ds, |ds|) then Finished else Corrupt);
  }

  /* ---- Neither a block nor the trailer ---- */

  /** Enough bits are the letters expected, or are wrong. */
  lemma {:induction false} LettersDecide(m: seq<int>, bits: seq<bool>)
    requires Bytes(m) && |bits| >= 8 * |m|
    ensures LettersFrom(m, bits) == if bits[..8 * |m|] == ByteBits(m) then Got(true, bits[8 * |m|..]) else Wrong
    decreases |m|
  {
    hide ByteBits, BitsOf, Value, Pow2, LettersFrom;
    if |m| == 0 {
      NoLetters(m, bits);
    } else {
      MarkLetters(m);
      LettersDecide(m[1..], bits[8..]);
      LettersUnfold(m, bits);
      ByteRead(bits[..8], m[0]);
      Halves(bits, 8 * |m|, BitsOf(m[0], 8), ByteBits(m[1..]));
    }
  }

  lemma NoLetters(m: seq<int>, bits: seq<bool>)
    requires m == []
    ensures Bytes(m) && ByteBits(m) == [] && bits[0..] == bits && bits[..0] == []
    ensures LettersFrom(m, bits) == Got(true, bits)
  {
  }

  lemma ByteRead(s: seq<bool>, c: int)
    requires |s| == 8 && 0 <= c < 256
    ensures Value(s) == c <==> s == BitsOf(c, 8)
  {
    hide BitsOf, Value, Pow2;
    BitsOfValue(s);
    PowersOfBytes();
    ValueOfBits(c, 8);
  }

  lemma LettersUnfold(m: seq<int>, bits: seq<bool>)
    requires |m| > 0 && |bits| >= 8
    ensures LettersFrom(m, bits) == if Value(bits[..8]) == m[0] then LettersFrom(m[1..], bits[8..]) else Wrong
  {
    hide Value;
  }

  lemma Halves(bits: seq<bool>, n: nat, a: seq<bool>, b: seq<bool>)
    requires 8 <= n <= |bits| && |a| == 8 && |b| == n - 8
    ensures bits[..n] == a + b <==> bits[..8] == a && bits[8..][..n - 8] == b
    ensures bits[8..][n - 8..] == bits[n..]
  {
    assert bits[..n] == bits[..8] + bits[8..][..n - 8];
    if bits[..n] == a + b { assert bits[..n][..8] == a && bits[..n][8..] == b; }
  }

  lemma MarkLetters(m: seq<int>)
    requires Bytes(m) && |m| > 0
    ensures 0 <= m[0] < 256 && Bytes(m[1..]) && ByteBits(m) == BitsOf(m[0], 8) + ByteBits(m[1..])
  {
    ByteBitsFront(m);
  }

  /** Forty-eight bits that are neither mark, behind good blocks: the stream is corrupt there. */
  lemma NoMark(step: (Crc, int) -> Crc, ds: seq<Sent>, size: nat, u: seq<bool>)
    requires AllSent(ds, size) && 1 <= size <= 9 && |u| >= 48
    requires Bytes(BLOCK_MAGIC) && u[..48] != ByteBits(BLOCK_MAGIC)
    requires Bytes(TRAILER) && u[..48] != ByteBits(TRAILER)
    ensures StreamFrom(step, Behind(step, ds, size, u)) == Meaning(Content(ds, 0), Corrupt)
  {
    hide AllSent, BitsOf, Value, Pow2, ByteBits, LettersFrom, BlocksFrom, Content, Combined, Behind;
    StreamThen(step, ds, size, u);
    NothingAfter(Content(ds, 0), Corrupt);
    MarkMissing(step, size, Combined(step, ds, |ds|), u);
  }

  lemma MarkMissing(step: (Crc, int) -> Crc, size: nat, c: Crc, u: seq<bool>)
    requires |u| >= 48 && Bytes(BLOCK_MAGIC) && u[..48] != ByteBits(BLOCK_MAGIC)
    requires Bytes(TRAILER) && u[..48] != ByteBits(TRAILER)
    ensures BlocksFrom(step, size, c, u) == Meaning([], Corrupt)
  {
    hide BitsOf, Value, Pow2, ByteBits, LettersFrom, BlocksFrom, NumberFrom;
    BitsOfValue(u[..8]);
    assert u[..48] == u[..8] + u[8..][..40];
    if Value(u[..8]) == 0x31 {
      MarkLetters(BLOCK_MAGIC);
      assert BLOCK_MAGIC[1..] == [0x41, 0x59, 0x26, 0x53, 0x59];
      BlockComes(step, size, c, u);
      LettersDecide([0x41, 0x59, 0x26, 0x53, 0x59], u[8..]);
    } else if Value(u[..8]) == 0x17 {
      MarkLetters(TRAILER);
      assert TRAILER[1..] == [0x72, 0x45, 0x38, 0x50, 0x90];
      TrailerComes(step, size, c, u);
      LettersDecide([0x72, 0x45, 0x38, 0x50, 0x90], u[8..]);
    } else {
      NeitherComes(step, size, c, u);
    }
  }

  lemma NeitherComes(step: (Crc, int) -> Crc, size: nat, c: Crc, bits: seq<bool>)
    requires |bits| >= 8 && Value(bits[..8]) != 0x31 && Value(bits[..8]) != 0x17
    ensures BlocksFrom(step, size, c, bits) == Meaning([], Corrupt)
  {
    hide Value;
  }

  /* ---- Streams that are cut off ---- */

  /** A part of a block is nothing yet. */
  lemma CutBlock(step: (Crc, int) -> Crc, d: Sent, size: nat, c: Crc, t: seq<bool>, more: seq<bool>)
    requires SentOk(d, size) && 1 <= size <= 9 && Sound(d.x) && t + more == SentBits(step, d) && more != []
    ensures BlocksFrom(step, size, c, t) == Meaning([], Unfinished)
  {
    hide BlockFrom, Plain, CodedBits, HeadTail, BitsOf, Value, Pow2, ByteBits, Sound, Encodes, SentOk, BlockBits,
      Letters, Packed, Runs, ColumnOf, BlocksFrom, Fold, SentCrc, AfterBlock;
    if |t| < 8 {
      TooShort(step, size, c, t);
    } else {
      SentIs(step, d, size);
      PowersOfBytes();
      var v := SentCrc(step, d);
      HeadFirst(v, d.origPtr, d.x, []);
      NoBits(SentBits(step, d));
      var u := HeadTail(v, d.origPtr) + (CodedBits(d.x) + []);
      ValueAhead(0x31, 8, u);
      var l := BlockParsed(size, Packed(d.runs, 0), v, d.origPtr, d.x, []);
      SameFront(t, more, 8);
      BlockComes(step, size, c, t);
      BlockExtends(size, t[8..], more);
      NothingYet(size, BlockFrom(size, t[8..]), Found(Head(v, false, d.origPtr), l), more);
      NotYet(step, size, c);
    }
  }

  lemma TooShort(step: (Crc, int) -> Crc, size: nat, c: Crc, t: seq<bool>)
    requires |t| < 8
    ensures BlocksFrom(step, size, c, t) == Meaning([], Unfinished)
  {
  }

  lemma NotYet(step: (Crc, int) -> Crc, size: nat, c: Crc)
    ensures AfterBlock(step, size, c, Partial) == Meaning([], Unfinished)
  {
  }

  lemma NothingYet(size: nat, p: Parsed<Found>, f: Found, more: seq<bool>)
    requires Extends(p, Got(f, []), more) && more != []
    ensures p == Partial
  {
    assert forall r: seq<bool> :: |r + more| > 0;
  }

  /** A part of the trailer is not the end yet. */
  lemma CutTrailer(step: (Crc, int) -> Crc, size: nat, c: Crc, v: nat, t: seq<bool>, more: seq<bool>)
    requires v < WORD && t + more == TrailerBits(v) && more != []
    ensures BlocksFrom(step, size, c, t) == Meaning([], Unfinished)
  {
    hide BitsOf, Value, Pow2, ByteBits, LettersFrom, NumberFrom, BlocksFrom, TrailerBits;
    if |t| < 8 {
      TooShort(step, size, c, t);
    } else {
      var m := [0x72, 0x45, 0x38, 0x50, 0x90];
      PowersOfBytes();
      TrailerLetters();
      TrailerFirst(v, []);
      NoBits(TrailerBits(v));
      ValueAhead(0x17, 8, ByteBits(m) + (BitsOf(v, 32) + []));
      SameFront(t, more, 8);
      TrailerComes(step, size, c, t);
      LettersParsed(m, BitsOf(v, 32) + []);
      LettersExtend(m, t[8..], more);
      SmallNumberParsed(4, v, []);
      var p := LettersFrom(m, t[8..]);
      if p.Got? {
        NumberExtends(4, 0, p.rest, more);
        assert forall r: seq<bool> :: |r + more| > 0;
      }
    }
  }

  /** A part of the header is nothing yet. */
  lemma CutMagic(step: (Crc, int) -> Crc, size: nat, n: nat)
    requires 1 <= size <= 9 && n <= |MagicBits(size)|
    ensures StreamFrom(step, MagicBits(size)[..n]) == Meaning([], Unfinished)
  {
    hide MagicBits, StreamFrom, BlocksFrom;
    StreamThen(step, [], size, []);
    TooShort(step, size, Combined(step, [], 0), []);
    NoBlocks(step, size);
    var s := MagicBits(size);
    StreamGrows(step, s[..n], s[n..]);
    assert s[..n] + s[n..] == s;
  }

  lemma NoBlocks(step: (Crc, int) -> Crc, size: nat)
    requires 1 <= size <= 9
    ensures AllSent([], size) && Behind(step, [], size, []) == MagicBits(size) && Content([], 0) == []
  {
    NoBits(MagicBits(size));
    BlocksUnfold(step, [], size, 0);
    NoBits(BlocksBits(step, [], size, 0));
  }

  /** A part of a block, or of the trailer, behind good blocks. */
  lemma CutBehind(step: (Crc, int) -> Crc, ds: seq<Sent>, size: nat, u: seq<bool>)
    requires AllSent(ds, size) && 1 <= size <= 9
    requires BlocksFrom(step, size, Combined(step, ds, |ds|), u) == Meaning([], Unfinished)
    ensures StreamFrom(step, Behind(step, ds, size, u)) == Meaning(Content(ds, 0), Unfinished)
  {
    hide AllSent, BlocksFrom, Content, Combined, Behind;
    StreamThen(step, ds, size, u);
    NothingAfter(Content(ds, 0), Unfinished);
  }

  lemma FirstSent(ds: seq<Sent>, size: nat, m: nat)
    requires AllSent(ds, size) && m <= |ds|
    ensures AllSent(ds[..m], size)
  {
    hide SentOk;
    forall k | 0 <= k < m ensures SentOk(ds[..m][k], size) { assert ds[..m][k] == ds[k]; }
  }

  /** The header and the first m blocks. */
  ghost function FirstBits(step: (Crc, int) -> Crc, ds: seq<Sent>, size: nat, m: nat): seq<bool>
    requires AllSent(ds, size) && 1 <= size <= 9 && m <= |ds|
  {
    FirstSent(ds, size, m);
    MagicBits(size) + BlocksBits(step, ds[..m], size, 0)
  }

  lemma FirstBitsNext(step: (Crc, int) -> Crc, ds: seq<Sent>, size: nat, m: nat)
    requires AllSent(ds, size) && 1 <= size <= 9 && m < |ds|
    ensures Sound(ds[m].x)
    ensures FirstBits(step, ds, size, m + 1) == FirstBits(step, ds, size, m) + SentBits(step, ds[m])
  {
    hide AllSent, SentOk, SentBits, Sound, BlocksBits, MagicBits;
    FirstSent(ds, size, m);
    SentIsOk(ds, size, m);
    SentSound(ds[m], size);
    assert ds[..m + 1] == ds[..m] + [ds[m]];
    StreamFormat.BlocksGrow(step, ds[..m], size, ds[m], 0);
    Join(MagicBits(size), BlocksBits(step, ds[..m], size, 0), SentBits(step, ds[m]));
  }

  lemma FirstBitsNone(step: (Crc, int) -> Crc, ds: seq<Sent>, size: nat)
    requires AllSent(ds, size) && 1 <= size <= 9
    ensures FirstBits(step, ds, size, 0) == MagicBits(size)
  {
    assert ds[..0] == [];
    NoBits(MagicBits(size));
  }

  /** A file that is cut off behind j blocks. */
  lemma CutAt(step: (Crc, int) -> Crc, ds: seq<Sent>, size: nat, j: nat, t: seq<bool>)
    requires AllSent(ds, size) && 1 <= size <= 9 && j <= |ds|
    ensures AllSent(ds[..j], size) && FirstBits(step, ds, size, j) + t == Behind(step, ds[..j], size, t)
  {
    hide AllSent, BlocksBits, MagicBits;
    FirstSent(ds, size, j);
    Join(MagicBits(size), BlocksBits(step, ds[..j], size, 0), t);
  }

  lemma {:induction false} CutInBlocks(step: (Crc, int) -> Crc, ds: seq<Sent>, size: nat, m: nat, n: nat)
    returns (j: nat)
    requires AllSent(ds, size) && 1 <= size <= 9 && m <= |ds| && n < |FirstBits(step, ds, size, m)|
    ensures j <= m && StreamFrom(step, FirstBits(step, ds, size, m)[..n]) == Meaning(Content(ds[..j], 0), Unfinished)
    ensures (j > 0 ==> |FirstBits(step, ds, size, j)| <= n) && (j < |ds| ==> n < |FirstBits(step, ds, size, j + 1)|)
  {
    hide AllSent, SentOk, SentBits, Sound, BlocksBits, MagicBits, FirstBits, StreamFrom, Content, BlocksFrom, Combined;
    if m == 0 {
      FirstBitsNone(step, ds, size);
      CutMagic(step, size, n);
      NoBlocks(step, size);
      assert ds[..0] == [];
      j := 0;
      if |ds| > 0 { FirstBitsNext(step, ds, size, 0); }
    } else {
      FirstBitsNext(step, ds, size, m - 1);
      var b := FirstBits(step, ds, size, m - 1);
      if n < |b| {
        j := CutInBlocks(step, ds, size, m - 1, n);
        assert FirstBits(step, ds, size, m)[..n] == b[..n];
      } else {
        j := m - 1;
        var s := SentBits(step, ds[j]);
        var t := s[..n - |b|];
        assert FirstBits(step, ds, size, m)[..n] == b + t;
        CutAt(step, ds, size, j, t);
        SentIsOk(ds, size, j);
        assert t + s[n - |b|..] == s;
        CutBlock(step, ds[j], size, Combined(step, ds[..j], j), t, s[n - |b|..]);
        CutBehind(step, ds[..j], size, t);
      }
    }
  }

  /** A compressor's stream that is cut off anywhere is unfinished, neither corrupt nor at its end, and means the
      content of the blocks that are there as a whole. */
  lemma Truncated(step: (Crc, int) -> Crc, ds: seq<Sent>, size: nat, n: nat) returns (j: nat)
    requires AllSent(ds, size) && 1 <= size <= 9 && n < |StreamBits(step, size, ds)|
    ensures j <= |ds|
    ensures (j > 0 ==> |FirstBits(step, ds, size, j)| <= n) && (j < |ds| ==> n < |FirstBits(step, ds, size, j + 1)|)
    ensures StreamFrom(step, StreamBits(step, size, ds)[..n]) == Meaning(Content(ds[..j], 0), Unfinished)
  {
    hide AllSent, BlocksBits, MagicBits, FirstBits, StreamFrom, Content, BlocksFrom, Combined, TrailerBits;
    var b, t := FirstBits(step, ds, size, |ds|), TrailerBits(Combined(step, ds, |ds|));
    WholeStream(step, ds, size);
    assert ds[..|ds|] == ds;
    if n < |b| {
      j := CutInBlocks(step, ds, size, |ds|, n);
      assert (b + t)[..n] == b[..n];
    } else {
      j := |ds|;
      var u := t[..n - |b|];
      assert (b + t)[..n] == b + u;
      assert u + t[n - |b|..] == t;
      CutAt(step, ds, size, j, u);
      CutTrailer(step, size, Combined(step, ds, |ds|), Combined(step, ds, |ds|), u, t[n - |b|..]);
      CutBehind(step, ds, size, u);
    }
  }

  lemma WholeStream(step: (Crc, int) -> Crc, ds: seq<Sent>, size: nat)
    requires AllSent(ds, size) && 1 <= size <= 9
    ensures StreamBits(step, size, ds) == FirstBits(step, ds, size, |ds|) + TrailerBits(Combined(step, ds, |ds|))
  {
    hide AllSent, BlocksBits, MagicBits, TrailerBits, Combined;
    assert ds[..|ds|] == ds;
    Join(MagicBits(size), BlocksBits(step, ds, size, 0), TrailerBits(Combined(step, ds, |ds|)));
  }

  /* ---- One checksum of a stream altered ---- */

  /** A stream, and anything after it, with the 32 bits from bit p on replaced. */
  ghost function Altered(s: seq<bool>, p: nat, v: nat): seq<bool>
    requires p + 32 <= |s|
  {
    s[..p] + (BitsOf(v, 32) + s[p + 32..])
  }

  /** A block's checksum stands behind its mark. */
  lemma BlockSplit(crc: nat, o: nat, x: Coded)
    requires Sound(x)
    ensures Bytes(BLOCK_MAGIC) && |ByteBits(BLOCK_MAGIC)| == 48
    ensures BlockBits(crc, o, x) ==
            ByteBits(BLOCK_MAGIC) + (BitsOf(crc, 32) + (([false] + BitsOf(o, 24)) + CodedBits(x)))
  {
    hide ByteBits, BitsOf, CodedBits, Sound;
    assert Bytes(BLOCK_MAGIC);
    var a, b, c := ByteBits(BLOCK_MAGIC), BitsOf(crc, 32), [false] + BitsOf(o, 24);
    Join(a, b + c, CodedBits(x));
    Join(b, c, CodedBits(x));
  }

  lemma Replaced(f: seq<bool>, a: seq<bool>, b: seq<bool>, r: seq<bool>, t: seq<bool>, v: nat)
    requires |b| == 32
    ensures |f| + |a| + 32 <= |f + ((a + (b + r)) + t)|
    ensures Altered(f + ((a + (b + r)) + t), |f| + |a|, v) == f + ((a + (BitsOf(v, 32) + r)) + t)
    ensures (f + ((a + (b + r)) + t))[|f| + |a|..|f| + |a| + 32] == b
  {
    hide BitsOf;
    var s := f + ((a + (b + r)) + t);
    assert s[..|f| + |a|] == f + a;
    assert s[|f| + |a| + 32..] == r + t;
    assert (f + a) + (BitsOf(v, 32) + (r + t)) == f + ((a + (BitsOf(v, 32) + r)) + t);
  }

  /** What follows block j. */
  lemma AroundBlock(step: (Crc, int) -> Crc, ds: seq<Sent>, size: nat, j: nat, pad: seq<bool>) returns (t: seq<bool>)
    requires AllSent(ds, size) && 1 <= size <= 9 && j < |ds|
    ensures Sound(ds[j].x)
    ensures StreamBits(step, size, ds) + pad == FirstBits(step, ds, size, j) + (SentBits(step, ds[j]) + t)
  {
    hide AllSent, SentOk, SentBits, Sound, MagicBits, TrailerBits, Combined, BlocksBits;
    FirstSent(ds, size, j);
    AllSound(ds, size);
    BlocksJoin(step, ds, size, j, 0);
    BlocksUnfold(step, ds, size, j);
    var m, a, s := MagicBits(size), BlocksBits(step, ds[..j], size, 0), SentBits(step, ds[j]);
    var b, e := BlocksBits(step, ds, size, j + 1), TrailerBits(Combined(step, ds, |ds|));
    t := b + (e + pad);
    Regrouping(m, a, s, b, e, pad);
  }

  lemma Regrouping(m: seq<bool>, a: seq<bool>, s: seq<bool>, b: seq<bool>, e: seq<bool>, p: seq<bool>)
    ensures (m + ((a + (s + b)) + e)) + p == (m + a) + (s + (b + (e + p)))
  {
  }

  lemma {:induction false} BlocksJoin(step: (Crc, int) -> Crc, ds: seq<Sent>, size: nat, j: nat, k: nat)
    requires AllSent(ds, size) && k <= j <= |ds|
    ensures AllSent(ds[..j], size)
    ensures BlocksBits(step, ds, size, k) == BlocksBits(step, ds[..j], size, k) + BlocksBits(step, ds, size, j)
    decreases j - k
  {
    hide AllSent, SentOk, SentBits, Sound, BlocksBits;
    FirstSent(ds, size, j);
    BlocksUnfold(step, ds[..j], size, k);
    if k == j {
      NoBits(BlocksBits(step, ds, size, j));
    } else {
      BlocksUnfold(step, ds, size, k);
      BlocksJoin(step, ds, size, j, k + 1);
      Join(SentBits(step, ds[k]), BlocksBits(step, ds[..j], size, k + 1), BlocksBits(step, ds, size, j));
    }
  }

  /** Any other number in place of the checksum sent with block j: the blocks up to that one are put out, it
      included, and then the stream is corrupt. */
  lemma AlteredBlock(step: (Crc, int) -> Crc, ds: seq<Sent>, size: nat, j: nat, v: nat, pad: seq<bool>)
    requires AllSent(ds, size) && 1 <= size <= 9 && j < |ds| && v < WORD && v != SentCrc(step, ds[j])
    ensures var s, p := StreamBits(step, size, ds) + pad, |FirstBits(step, ds, size, j)| + 48;
            && p + 32 <= |s| && s[p..p + 32] == BitsOf(SentCrc(step, ds[j]), 32)
            && StreamFrom(step, Altered(s, p, v)) == Meaning(Content(ds[..j + 1], 0), Corrupt)
  {
    hide AllSent, SentOk, Sound, BlocksBits, MagicBits, FirstBits, StreamFrom, Content, StreamBits, Altered, Plain,
      CodedBits, ByteBits, BitsOf, BlockBits, SentCrc;
    var t := AroundBlock(step, ds, size, j, pad);
    var d, f := ds[j], FirstBits(step, ds, size, j);
    var r := ([false] + BitsOf(d.origPtr, 24)) + CodedBits(d.x);
    BlockSplit(SentCrc(step, d), d.origPtr, d.x);
    BlockSplit(v, d.origPtr, d.x);
    Replaced(f, ByteBits(BLOCK_MAGIC), BitsOf(SentCrc(step, d), 32), r, t, v);
    SentIsOk(ds, size, j);
    CutAt(step, ds, size, j, BlockBits(v, d.origPtr, d.x) + t);
    WrongBlockChecksum(step, ds[..j], size, d, v, t);
    assert ds[..j + 1] == ds[..j] + [d];
    ContentGrows(ds[..j], d, 0);
  }

  /** Any other number in place of the checksum in the trailer: all of the content is put out, and then the
      stream is corrupt. */
  lemma AlteredTotal(step: (Crc, int) -> Crc, ds: seq<Sent>, size: nat, v: nat, pad: seq<bool>)
    requires AllSent(ds, size) && 1 <= size <= 9 && v < WORD && v != Combined(step, ds, |ds|)
    ensures var s, p := StreamBits(step, size, ds) + pad, |FirstBits(step, ds, size, |ds|)| + 48;
            && p + 32 <= |s| && s[p..p + 32] == BitsOf(Combined(step, ds, |ds|), 32)
            && StreamFrom(step, Altered(s, p, v)) == Meaning(Content(ds, 0), Corrupt)
  {
    hide AllSent, BlocksBits, MagicBits, FirstBits, StreamFrom, Content, Altered, ByteBits, BitsOf, Combined;
    var f, c := FirstBits(step, ds, size, |ds|), Combined(step, ds, |ds|);
    WholeStream(step, ds, size);
    TrailerSplit(c);
    TrailerSplit(v);
    Join(f, TrailerBits(c), pad);
    Replaced(f, ByteBits(TRAILER), BitsOf(c, 32), [], pad, v);
    CutAt(step, ds, size, |ds|, TrailerBits(v) + pad);
    assert ds[..|ds|] == ds;
    TrailerDecides(step, ds, size, v, pad);
  }

  lemma TrailerSplit(c: Crc)
    ensures Bytes(TRAILER) && |ByteBits(TRAILER)| == 48 && TrailerBits(c) == ByteBits(TRAILER) + (BitsOf(c, 32) + [])
  {
    hide ByteBits, BitsOf;
    assert Bytes(TRAILER);
    NoBits(BitsOf(c, 32));
  }

  /* ---- Other files ---- */

  /** Whether byte k of a file may be c: B, Z, h and a digit other than 0. */
  predicate HeaderByte(k: nat, c: int) {
    match k
    case 0 => c == 0x42
    case 1 => c == 0x5a
    case 2 => c == 0x68
    case 3 => 0x31 <= c <= 0x39
    case _ => true
  }

  /** The bytes differ from the letters somewhere. */
  ghost predicate Clash(m: seq<int>, bytes: seq<int>) {
    exists k :: 0 <= k < |m| && k < |bytes| && bytes[k] != m[k]
  }

  lemma ClashNext(m: seq<int>, bytes: seq<int>)
    requires |m| > 0 && |bytes| > 0
    ensures Clash(m, bytes) <==> bytes[0] != m[0] || Clash(m[1..], bytes[1..])
  {
    if Clash(m, bytes) && bytes[0] == m[0] {
      var k :| 0 <= k < |m| && k < |bytes| && bytes[k] != m[k];
      assert bytes[1..][k - 1] != m[1..][k - 1];
    }
    if Clash(m[1..], bytes[1..]) {
      var k :| 0 <= k < |m[1..]| && k < |bytes[1..]| && bytes[1..][k] != m[1..][k];
      assert bytes[k + 1] != m[k + 1];
    }
  }

  lemma FirstByte(bytes: seq<int>)
    requires Bytes(bytes) && |bytes| > 0
    ensures Bytes(bytes[1..]) && |ByteBits(bytes)| >= 8
    ensures Value(ByteBits(bytes)[..8]) == bytes[0] && ByteBits(bytes)[8..] == ByteBits(bytes[1..])
  {
    hide BitsOf, Value, Pow2;
    MarkLetters(bytes);
    hide ByteBits;
    PowersOfBytes();
    ValueAhead(bytes[0], 8, ByteBits(bytes[1..]));
  }

  /** Letters are read from bytes by comparing the bytes. */
  lemma {:induction false} LettersOfBytes(m: seq<int>, bytes: seq<int>)
    requires Bytes(bytes)
    ensures |bytes| >= |m| ==> Bytes(bytes[|m|..])
    ensures LettersFrom(m, ByteBits(bytes)) ==
            if Clash(m, bytes) then Wrong
            else if |bytes| < |m| then Partial
            else Got(true, ByteBits(bytes[|m|..]))
    decreases |m|
  {
    hide Value, ByteBits;
    if |m| == 0 {
      NoLetters(m, ByteBits(bytes));
      assert bytes[0..] == bytes;
    } else if |bytes| > 0 {
      hide LettersFrom, Clash;
      FirstByte(bytes);
      LettersOfBytes(m[1..], bytes[1..]);
      LettersUnfold(m, ByteBits(bytes));
      ClashNext(m, bytes);
      if |bytes| >= |m| { assert bytes[1..][|m| - 1..] == bytes[|m|..]; }
    }
  }

  lemma {:induction false} BlocksAreBzip2(step: (Crc, int) -> Crc, size: nat, c: Crc, bits: seq<bool>)
    ensures BlocksFrom(step, size, c, bits).final != NotBzip2
    decreases |bits|, 0
  {
    hide Value, LettersFrom, BlockFrom, NumberFrom, Letters, Expand, EndsWell, OutputFrom;
    if |bits| >= 8 && Value(bits[..8]) == 0x31 {
      BlockComes(step, size, c, bits);
      var p := BlockFrom(size, bits[8..]);
      if p.Got? && !p.value.head.randomised {
        var f := p.value;
        var s, n := Letters(f.column, f.head.origPtr), |f.column|;
        OutputIsBzip2(step, size, c, f.head.crc, INITIAL, Expand(s, n, 0), EndsWell(s, n, 0), p.rest);
      }
    }
  }

  lemma {:induction false} OutputIsBzip2(step: (Crc, int) -> Crc, size: nat, c: Crc, stored: nat, crc: Crc,
                                         left: seq<int>, ends: bool, bits: seq<bool>)
    ensures OutputFrom(step, size, c, stored, crc, left, ends, bits).final != NotBzip2
    decreases |bits|, 1
  {
    hide BlocksFrom, Fold, Combine;
    BlocksAreBzip2(step, size, Combine(c, Complement(Fold(step, crc, left))), bits);
  }

  /** A file is refused as no stream exactly if one of its first four bytes is not that of a stream. */
  lemma NotAStream(step: (Crc, int) -> Crc, bytes: seq<int>)
    requires Bytes(bytes)
    ensures StreamFrom(step, ByteBits(bytes)).final == NotBzip2 <==>
            exists k :: 0 <= k < |bytes| && !HeaderByte(k, bytes[k])
    ensures StreamFrom(step, ByteBits(bytes)).final == NotBzip2 ==> StreamFrom(step, ByteBits(bytes)).bytes == []
  {
    hide Value, LettersFrom, BlocksFrom, ByteBits, Clash;
    var m := [0x42, 0x5a, 0x68];
    LettersOfBytes(m, bytes);
    ClashIs(m, bytes);
    if |bytes| >= 3 && !Clash(m, bytes) {
      var b := bytes[3..];
      if |b| > 0 {
        FirstByte(b);
        assert b[0] == bytes[3];
        if HeaderByte(3, bytes[3]) { BlocksAreBzip2(step, bytes[3] - 0x30, 0, ByteBits(b)[8..]); }
      } else {
        NothingIn();
      }
    }
  }

  lemma NothingIn()
    ensures Bytes([]) && ByteBits([]) == []
  {
  }

  lemma ClashIs(m: seq<int>, bytes: seq<int>)
    requires m == [0x42, 0x5a, 0x68]
    ensures Clash(m, bytes) <==> exists k :: 0 <= k < |bytes| && k < 3 && !HeaderByte(k, bytes[k])
  {
    if Clash(m, bytes) {
      var k :| 0 <= k < |m| && k < |bytes| && bytes[k] != m[k];
      assert !HeaderByte(k, bytes[k]);
    }
    if k :| 0 <= k < |bytes| && k < 3 && !HeaderByte(k, bytes[k]) {
      assert bytes[k] != m[k];
    }
  }
}
