/** Recovering single blocks from a damaged stream: a scan for the 48-bit marks, and a second pass that
    copies what is between them into streams of one block each. */
module Recover {
  import opened BitIO
  import opened Bits
  import opened BlockCompressor
  import opened BlockFormat
  import opened Checksums
  import opened Powers
  import opened Rle
  import opened StreamFormat

  const BLOCK_HEADER_HI := 0x3141
  const BLOCK_HEADER_LO := 0x5926_5359
  const BLOCK_ENDMARK_HI := 0x1772
  const BLOCK_ENDMARK_LO := 0x4538_5090
  const MAX_HANDLED_BLOCKS := 50000
  const MIN_BITS := 130

  /* ---- Bit streams ---- */

  class BitSource {
    const bytes: seq<int>
    var next: nat
    var buffer: nat
    var buffLive: nat

    ghost predicate Valid()
      reads this
    {
      Bytes(bytes) && next <= |bytes| && buffLive <= 7
    }

    /** The bits still to come. */
    ghost function Pending(): seq<bool>
      reads this
      requires Valid()
    {
      BitsOf(buffer, buffLive) + ByteBits(bytes[next..])
    }

    /** bsOpenReadStream */
    constructor (bytes: seq<int>)
      requires Bytes(bytes)
      ensures Valid() && Pending() == ByteBits(bytes)
    {
      this.bytes, next, buffer, buffLive := bytes, 0, 0, 0;
      new;
      assert bytes[0..] == bytes && [] + ByteBits(bytes) == ByteBits(bytes);
    }

    /** bsGetBit: 0, 1, or 2 at the end. */
    method GetBit() returns (b: int)
      requires Valid()
      modifies this
      ensures Valid() && 0 <= b <= 2
      ensures b == 2 <==> old(Pending()) == []
      ensures b != 2 ==> old(Pending()) == [b == 1] + Pending()
    {
      hide ByteBits, BitsOf;
      if buffLive > 0 {
        FirstBit(buffer, buffLive, ByteBits(bytes[next..]));
        buffLive := buffLive - 1;
        b := buffer / Pow2(buffLive) % 2;
      } else if next == |bytes| {
        NoBitsLeft(buffer, bytes, next);
        b := 2;
      } else {
        ByteBitsFront(bytes[next..]);
        assert bytes[next..][1..] == bytes[next + 1..];
        FirstBit(bytes[next], 8, ByteBits(bytes[next + 1..]));
        NoBitsBefore(buffer, ByteBits(bytes[next..]));
        buffLive := 7;
        buffer := bytes[next];
        next := next + 1;
        b := buffer / Pow2(7) % 2;
      }
    }
  }

  lemma DoubleBits(v: nat, d: nat, n: nat)
    requires d <= 1
    ensures BitsOf(2 * v + d, n + 1) == BitsOf(v, n) + [d == 1]
  {
    assert (2 * v + d) / 2 == v && (2 * v + d) % 2 == d;
  }

  lemma OneBitOf(v: nat)
    ensures BitsOf(v, 1) == [v % 2 == 1]
  {
    assert BitsOf(v / 2, 0) == [];
  }

  lemma FirstBit(v: nat, n: nat, rest: seq<bool>)
    requires n > 0
    ensures BitsOf(v, n) + rest == [v / Pow2(n - 1) % 2 == 1] + (BitsOf(v, n - 1) + rest)
    ensures BitsOf(v, n) + rest != []
  {
    hide BitsOf, Pow2;
    HighBits(v, n, 1);
    LowBits(v, n, n - 1);
    OneBitOf(v / Pow2(n - 1));
    var s := BitsOf(v, n);
    assert s == s[..1] + s[1..];
    assert (s[..1] + s[1..]) + rest == s[..1] + (s[1..] + rest);
  }

  lemma NoBitsLeft(buffer: nat, bytes: seq<int>, next: nat)
    requires next == |bytes| && Bytes(bytes)
    ensures BitsOf(buffer, 0) + ByteBits(bytes[next..]) == []
  {
    assert bytes[next..] == [];
  }

  lemma NoBitsBefore(buffer: nat, s: seq<bool>)
    ensures BitsOf(buffer, 0) + s == s
  {
  }

  class BitSink {
    var out: seq<int>
    var buffer: nat
    var buffLive: nat

    ghost predicate Valid()
      reads this
    {
      Bytes(out) && buffLive <= 8 && buffer < Pow2(buffLive)
    }

    ghost function Written(): seq<bool>
      reads this
      requires Valid()
    {
      ByteBits(out) + BitsOf(buffer, buffLive)
    }

    /** bsOpenWriteStream */
    constructor ()
      ensures Valid() && Written() == [] && fresh(this)
    {
      out, buffer, buffLive := [], 0, 0;
    }

    /** bsPutBit */
    method PutBit(bit: int)
      requires Valid() && 0 <= bit <= 1
      modifies this
      ensures Valid() && Written() == old(Written()) + [bit == 1] && buffLive > 0
    {
      hide ByteBits, BitsOf, Pow2, Bytes;
      SinkBounds(out, buffer, buffLive, bit);
      if buffLive == 8 {
        ByteBitsGrow(out, buffer);
        OneBitOf(bit);
        out := out + [buffer];
        buffLive := 1;
        buffer := bit;
      } else {
        DoubleBits(buffer, bit, buffLive);
        Join(ByteBits(out), BitsOf(buffer, buffLive), [bit == 1]);
        buffer := 2 * buffer + bit;
        buffLive := buffLive + 1;
      }
    }

    /** bsPutUChar and bsPutUInt32: the n low bits of c, the highest first. */
    method PutNumber(c: nat, n: nat)
      requires Valid()
      modifies this
      ensures Valid() && Written() == old(Written()) + BitsOf(c, n) && (n > 0 ==> buffLive > 0)
    {
      hide BitSink.Valid, BitSink.Written;
      ghost var w := Written();
      assert BitsOf(c, n)[..0] == [] && w + [] == w;
      for i := 0 to n
        invariant Valid() && Written() == w + BitsOf(c, n)[..i] && (i > 0 ==> buffLive > 0)
      {
        BitAt(c, n, i);
        ghost var s := BitsOf(c, n);
        assert s[..i + 1] == s[..i] + [s[i]];
        assert (w + s[..i]) + [s[i]] == w + s[..i + 1];
        PutBit(c / Pow2(n - 1 - i) % 2);
      }
      assert BitsOf(c, n)[..n] == BitsOf(c, n);
    }

    /** bsClose: zeros up to a whole byte. */
    method Close() returns (bytes: seq<int>)
      requires Valid() && buffLive > 0
      modifies this
      ensures Bytes(bytes) && old(Written()) <= ByteBits(bytes) && |ByteBits(bytes)| < |old(Written())| + 8
    {
      hide ByteBits, BitsOf, Pow2, Bytes;
      ghost var f, s, n := ByteBits(out), BitsOf(buffer, buffLive), buffLive;
      while buffLive < 8
        invariant n <= buffLive <= 8 && out == old(out) && Bytes(out) && buffer < Pow2(buffLive)
        invariant s <= BitsOf(buffer, buffLive)
      {
        DoubleBits(buffer, 0, buffLive);
        SinkBounds(out, buffer, buffLive, 0);
        buffLive := buffLive + 1;
        buffer := 2 * buffer;
      }
      SinkBounds(out, buffer, buffLive, 0);
      ByteBitsGrow(out, buffer);
      bytes := out + [buffer];
      PrefixJoin(f, s, BitsOf(buffer, 8));
    }
  }

  lemma SinkBounds(out: seq<int>, buffer: nat, buffLive: nat, bit: nat)
    requires Bytes(out) && buffLive <= 8 && buffer < Pow2(buffLive) && bit <= 1
    ensures buffLive == 8 ==> buffer < 256 && Bytes(out + [buffer]) && bit < Pow2(1)
    ensures 2 * buffer + bit < Pow2(buffLive + 1)
  {
    PowersOfBytes();
    assert Pow2(1) == 2;
  }

  lemma PrefixJoin(f: seq<bool>, s: seq<bool>, t: seq<bool>)
    requires s <= t
    ensures f + s <= f + t
  {
  }

  /* ---- The shift register ---- */

  function ShiftHi(hi: nat, lo: nat): nat {
    (2 * hi + lo / 0x8000_0000) % WORD
  }

  function ShiftLo(lo: nat, b: nat): nat {
    (2 * lo + b) % WORD
  }

  /** The two words hold the last 48 bits w. */
  ghost predicate Register(hi: nat, lo: nat, w: seq<bool>) {
    hi < WORD && lo < WORD && |w| == 48 && BitsOf(hi, 16) + BitsOf(lo, 32) == w
  }

  lemma RegisterStep(hi: nat, lo: nat, w: seq<bool>, d: nat)
    requires Register(hi, lo, w) && d <= 1
    ensures Register(ShiftHi(hi, lo), ShiftLo(lo, d), w[1..] + [d == 1])
  {
    hide BitsOf;
    TopBit(lo);
    ShiftBits(hi, lo / 0x8000_0000, 16);
    ShiftBits(lo, d, 32);
    var a, c := BitsOf(hi, 16), BitsOf(lo, 32);
    assert (a + c)[1..] + [d == 1] == (a[1..] + [c[0]]) + (c[1..] + [d == 1]);
  }

  /** The last 48 bits after t bits have been read; init is what the register held before. */
  function Window(init: seq<bool>, bits: seq<bool>, t: nat): (w: seq<bool>)
    requires |init| == 48 && t <= |bits|
    ensures |w| == 48
  {
    (init + bits[..t])[t..]
  }

  lemma WindowMoves(init: seq<bool>, bits: seq<bool>, t: nat)
    requires |init| == 48 && t < |bits|
    ensures Window(init, bits, t + 1) == Window(init, bits, t)[1..] + [bits[t]]
  {
    assert init + bits[..t + 1] == (init + bits[..t]) + [bits[t]];
  }

  lemma WindowIs(init: seq<bool>, bits: seq<bool>, t: nat)
    requires |init| == 48 && 48 <= t <= |bits|
    ensures Window(init, bits, t) == bits[t - 48..t]
  {
  }

  lemma WindowStart(init: seq<bool>, bits: seq<bool>)
    requires |init| == 48
    ensures Window(init, bits, 0) == init
  {
    assert init + bits[..0] == init;
  }

  /** The two marks. */
  ghost function BlockMark(): seq<bool> {
    BitsOf(BLOCK_HEADER_HI, 16) + BitsOf(BLOCK_HEADER_LO, 32)
  }

  ghost function EndMark(): seq<bool> {
    BitsOf(BLOCK_ENDMARK_HI, 16) + BitsOf(BLOCK_ENDMARK_LO, 32)
  }

  lemma EqualBits(a: nat, b: nat, n: nat)
    requires a < Pow2(n) && b < Pow2(n)
    ensures a == b <==> BitsOf(a, n) == BitsOf(b, n)
  {
    ValueOfBits(a, n);
    ValueOfBits(b, n);
  }

  /** Comparing the words is comparing the bits. */
  lemma Compared(hi: nat, lo: nat, w: seq<bool>, mhi: nat, mlo: nat)
    requires Register(hi, lo, w) && mhi < 65536 && mlo < WORD
    ensures (hi % 65536 == mhi && lo == mlo) <==> w == BitsOf(mhi, 16) + BitsOf(mlo, 32)
  {
    PowersOfBytes();
    SmallNumbers();
    assert Pow2(16) == 2 * Pow2(15);
    hide Pow2;
    BitsMod(hi, 16, 16);
    EqualBits(hi % 65536, mhi, 16);
    EqualBits(lo, mlo, 32);
    hide BitsOf;
    if w == BitsOf(mhi, 16) + BitsOf(mlo, 32) {
      assert w[..16] == BitsOf(hi, 16) && w[..16] == BitsOf(mhi, 16);
      assert w[16..] == BitsOf(lo, 32) && w[16..] == BitsOf(mlo, 32);
    }
  }

  /* ---- The first pass ---- */

  ghost function Zeros(): seq<bool> {
    seq(48, _ => false)
  }

  /** A mark ends after t bits; before the file come zeros. */
  ghost predicate Hit(bits: seq<bool>, t: nat)
    requires t <= |bits|
  {
    Window(Zeros(), bits, t) == BlockMark() || Window(Zeros(), bits, t) == EndMark()
  }

  /** Where marks end, among the first n bits. */
  ghost function Hits(bits: seq<bool>, n: nat): seq<nat>
    requires n <= |bits|
  {
    if n == 0 then [] else Hits(bits, n - 1) + if Hit(bits, n) then [n] else []
  }

  /** First and last bit of a block: what is between two marks. */
  type Interval = (nat, nat)

  function Between(h0: nat, h1: nat): Interval {
    (h0, if h1 > 49 then h1 - 49 else 0)
  }

  /** The length test, on unsigned 64-bit numbers: a difference below zero counts as long. */
  predicate LongEnough(i: Interval) {
    (i.1 - i.0) % 0x1_0000_0000_0000_0000 >= MIN_BITS
  }

  /** The intervals recorded for the first k marks. */
  function Recorded(hits: seq<nat>, k: nat): seq<Interval>
    requires k <= |hits|
  {
    if k < 2 then []
    else
      var i := Between(hits[k - 2], hits[k - 1]);
      Recorded(hits, k - 1) + if LongEnough(i) then [i] else []
  }

  lemma {:induction false} RecordedSame(hits: seq<nat>, h: nat, k: nat)
    requires k <= |hits|
    ensures Recorded(hits + [h], k) == Recorded(hits, k)
  {
    if k >= 2 { RecordedSame(hits, h, k - 1); }
  }

  /** State of the first pass after t bits. */
  ghost predicate Scanned(bits: seq<bool>, t: nat, currBlock: nat, start: nat, rb: seq<Interval>) {
    && t <= |bits| && currBlock == |Hits(bits, t)| && rb == Recorded(Hits(bits, t), currBlock)
    && start == if currBlock == 0 then 0 else Hits(bits, t)[currBlock - 1]
  }

  lemma ScannedStart(bits: seq<bool>)
    ensures Scanned(bits, 0, 0, 0, [])
  {
  }

  lemma ScannedStep(bits: seq<bool>, t: nat, currBlock: nat, start: nat, rb: seq<Interval>)
    requires Scanned(bits, t, currBlock, start, rb) && t < |bits|
    ensures !Hit(bits, t + 1) ==> Scanned(bits, t + 1, currBlock, start, rb)
    ensures Hit(bits, t + 1) ==>
              Scanned(bits, t + 1, currBlock + 1, t + 1,
                      if currBlock > 0 && LongEnough(Between(start, t + 1)) then rb + [Between(start, t + 1)] else rb)
  {
    var h := Hits(bits, t);
    if Hit(bits, t + 1) {
      RecordedSame(h, t + 1, |h|);
      assert Hits(bits, t + 1) == h + [t + 1];
    } else {
      assert Hits(bits, t + 1) == h;
    }
  }

  lemma HitTested(bits: seq<bool>, t: nat, hi: nat, lo: nat)
    requires t <= |bits| && Register(hi, lo, Window(Zeros(), bits, t))
    ensures Hit(bits, t) <==> (hi % 65536 == BLOCK_HEADER_HI && lo == BLOCK_HEADER_LO)
                              || (hi % 65536 == BLOCK_ENDMARK_HI && lo == BLOCK_ENDMARK_LO)
  {
    Compared(hi, lo, Window(Zeros(), bits, t), BLOCK_HEADER_HI, BLOCK_HEADER_LO);
    Compared(hi, lo, Window(Zeros(), bits, t), BLOCK_ENDMARK_HI, BLOCK_ENDMARK_LO);
  }

  lemma {:induction false} NoneSet(n: nat)
    ensures BitsOf(0, n) == seq(n, _ => false)
  {
    if n > 0 { NoneSet(n - 1); }
  }

  lemma ZerosAre()
    ensures BitsOf(0, 16) + BitsOf(0, 32) == Zeros()
  {
    NoneSet(16);
    NoneSet(32);
  }

  lemma NextBit(bits: seq<bool>, t: nat, b: int, p: seq<bool>, q: seq<bool>)
    requires t <= |bits| && p == bits[t..] && (b == 2 <==> p == []) && (b != 2 ==> p == [b == 1] + q)
    ensures b == 2 <==> t == |bits|
    ensures b != 2 ==> t < |bits| && bits[t] == (b == 1) && q == bits[t + 1..]
  {
    if b != 2 { assert p[0] == bits[t] && p[1..] == q; }
  }

  /** The source stands at bit t, and the register holds the 48 bits before it. */
  ghost predicate StandsAt(bs: BitSource, hi: nat, lo: nat, init: seq<bool>, bits: seq<bool>, t: nat)
    reads bs
  {
    && bs.Valid() && t <= |bits| && bs.Pending() == bits[t..] && |init| == 48 && Register(hi, lo, Window(init, bits, t))
  }

  lemma StandsAtStart(bs: BitSource, hi: nat, lo: nat, bits: seq<bool>)
    requires bs.Valid() && bs.Pending() == bits && hi < WORD && lo < WORD
    ensures StandsAt(bs, hi, lo, BitsOf(hi, 16) + BitsOf(lo, 32), bits, 0)
  {
    WindowStart(BitsOf(hi, 16) + BitsOf(lo, 32), bits);
    assert bits[0..] == bits;
  }

  /** Reads a bit and shifts it into the register. */
  method ShiftIn(bs: BitSource, hi: nat, lo: nat, ghost init: seq<bool>, ghost bits: seq<bool>, ghost t: nat)
    returns (b: int, hi': nat, lo': nat)
    requires StandsAt(bs, hi, lo, init, bits, t)
    modifies bs
    ensures 0 <= b <= 2 && (b == 2 <==> t == |bits|)
    ensures b != 2 ==> t < |bits| && bits[t] == (b == 1) && StandsAt(bs, hi', lo', init, bits, t + 1)
    ensures b != 2 ==> |init| == 48 && Register(hi', lo', Window(init, bits, t + 1))
    ensures if b == 2 then hi' == hi && lo' == lo else hi' < WORD && lo' < WORD
  {
    hide Register, BitSource.Valid, BitSource.Pending, Window;
    ghost var p := bs.Pending();
    b := bs.GetBit();
    hi', lo' := hi, lo;
    NextBit(bits, t, b, p, if b == 2 then [] else bs.Pending());
    if b != 2 {
      RegisterStep(hi, lo, Window(init, bits, t), b);
      WindowMoves(init, bits, t);
      hi', lo' := ShiftHi(hi, lo), ShiftLo(lo, b);
    }
  }

  /** The first pass: the intervals between marks that are long enough. bStart and bEnd have room for 50000
      entries, and the test for too many blocks comes before the counter is increased, so that it never
      succeeds in time: the 50000th mark, which ends after bit at, makes the counter leave the arrays. */
  method Scan(bytes: seq<int>) returns (overrun: bool, at: nat, rb: seq<Interval>, buffHi: nat, buffLo: nat)
    requires Bytes(bytes)
    ensures overrun <==> |Hits(ByteBits(bytes), 8 * |bytes|)| >= MAX_HANDLED_BLOCKS
    ensures overrun ==> at == Hits(ByteBits(bytes), 8 * |bytes|)[MAX_HANDLED_BLOCKS - 1]
    ensures !overrun ==> rb == Recorded(Hits(ByteBits(bytes), 8 * |bytes|), |Hits(ByteBits(bytes), 8 * |bytes|)|)
    ensures buffHi < WORD && buffLo < WORD
  {
    hide ByteBits, BitsOf, Bytes, Hit, Hits, Recorded, Scanned, Register, StandsAt, Window;
    ghost var bits := ByteBits(bytes);
    var bs := new BitSource(bytes);
    var bStart, bEnd := new int[MAX_HANDLED_BLOCKS](_ => 0), new int[MAX_HANDLED_BLOCKS](_ => 0);
    var bitsRead, currBlock := 0, 0;
    buffHi, buffLo, at := 0, 0, 0;
    rb := [];
    bStart[currBlock] := 0;
    ScannedStart(bits);
    ZerosAre();
    StandsAtStart(bs, buffHi, buffLo, bits);
    while true
      invariant 0 <= bitsRead <= |bits| && buffHi < WORD && buffLo < WORD
      invariant StandsAt(bs, buffHi, buffLo, Zeros(), bits, bitsRead)
      invariant 0 <= currBlock < MAX_HANDLED_BLOCKS && 0 <= bStart[currBlock] <= bitsRead
      invariant Scanned(bits, bitsRead, currBlock, bStart[currBlock], rb)
      decreases |bits| - bitsRead
    {
      var b;
      b, buffHi, buffLo := ShiftIn(bs, buffHi, buffLo, Zeros(), bits, bitsRead);
      if b == 2 {
        if bitsRead + 1 - bStart[currBlock] >= 40 { bEnd[currBlock] := bitsRead; }
        ScannedEnd(bits, currBlock, bStart[currBlock], rb);
        overrun := false;
        return;
      }
      ScannedStep(bits, bitsRead, currBlock, bStart[currBlock], rb);
      bitsRead := bitsRead + 1;
      HitTested(bits, bitsRead, buffHi, buffLo);
      if (buffHi % 65536 == BLOCK_HEADER_HI && buffLo == BLOCK_HEADER_LO)
         || (buffHi % 65536 == BLOCK_ENDMARK_HI && buffLo == BLOCK_ENDMARK_LO) {
        bEnd[currBlock] := if bitsRead > 49 then bitsRead - 49 else 0;
        if currBlock > 0 && (bEnd[currBlock] - bStart[currBlock]) % 0x1_0000_0000_0000_0000 >= MIN_BITS {
          rb := rb + [(bStart[currBlock], bEnd[currBlock])];
        }
        // currBlock >= MAX_HANDLED_BLOCKS is tested here
        currBlock := currBlock + 1;
        if currBlock >= bStart.Length {
          LastMark(bits, bitsRead, currBlock, bitsRead, rb);
          overrun, at := true, bitsRead;
          return;
        }
        bStart[currBlock] := bitsRead;
      }
    }
  }

  lemma ScannedEnd(bits: seq<bool>, currBlock: nat, start: nat, rb: seq<Interval>)
    requires Scanned(bits, |bits|, currBlock, start, rb)
    ensures currBlock == |Hits(bits, |bits|)| && rb == Recorded(Hits(bits, |bits|), |Hits(bits, |bits|)|)
  {
  }

  lemma {:induction false} HitsGrow(bits: seq<bool>, t: nat, n: nat)
    requires t <= n <= |bits|
    ensures Hits(bits, t) <= Hits(bits, n)
    decreases n
  {
    hide Hit;
    if t < n { HitsGrow(bits, t, n - 1); }
  }

  lemma LastMark(bits: seq<bool>, t: nat, currBlock: nat, start: nat, rb: seq<Interval>)
    requires Scanned(bits, t, currBlock, start, rb) && currBlock == MAX_HANDLED_BLOCKS
    ensures |Hits(bits, |bits|)| >= MAX_HANDLED_BLOCKS && Hits(bits, |bits|)[MAX_HANDLED_BLOCKS - 1] == start
  {
    HitsGrow(bits, t, |bits|);
  }

  /* ---- What is recorded ---- */

  /** Between two marks a block is recorded when at least 130 bits lie between its ends, or when the
      marks are so close that the difference falls below zero and counts as long. */
  lemma RecordedWhen(h0: nat, h1: nat)
    requires 1 <= h0 < h1 < 0x1_0000_0000_0000_0000
    ensures LongEnough(Between(h0, h1)) <==> h1 - h0 >= 179 || h1 - h0 < 49
  {
    var d := Between(h0, h1).1 - h0;
    if d >= 0 {
      assert d % 0x1_0000_0000_0000_0000 == d;
    } else {
      assert d % 0x1_0000_0000_0000_0000 == d + 0x1_0000_0000_0000_0000;
      assert d + h0 >= 0;
    }
  }

  /** Intervals of blocks: in order, apart, and inside a file of the given number of bits. */
  ghost predicate Proper(rb: seq<Interval>, size: nat) {
    && (forall k :: 0 <= k < |rb| ==> 1 <= rb[k].0 && rb[k].0 + MIN_BITS <= rb[k].1 < size)
    && forall k :: 1 <= k < |rb| ==> rb[k - 1].1 + 49 <= rb[k].0
  }

  /** No two neighbouring marks are closer than a mark and a bit. */
  ghost predicate Spaced(hits: seq<nat>) {
    forall k :: 1 <= k < |hits| ==> hits[k - 1] + 49 <= hits[k]
  }

  lemma {:induction false} HitsAscend(bits: seq<bool>, n: nat)
    requires n <= |bits|
    ensures forall k :: 0 <= k < |Hits(bits, n)| ==> 1 <= Hits(bits, n)[k] <= n
    ensures forall k :: 1 <= k < |Hits(bits, n)| ==> Hits(bits, n)[k - 1] < Hits(bits, n)[k]
  {
    if n > 0 { HitsAscend(bits, n - 1); }
  }

  /** The intervals recorded for well-spaced marks are proper. */
  lemma {:induction false} RecordedProper(hits: seq<nat>, k: nat, size: nat)
    requires k <= |hits| && Spaced(hits) && size < 0x1_0000_0000_0000_0000
    requires forall j :: 0 <= j < |hits| ==> 1 <= hits[j] <= size
    ensures Proper(Recorded(hits, k), size)
    ensures k > 0 && Recorded(hits, k) != [] ==> Recorded(hits, k)[|Recorded(hits, k)| - 1].1 + 49 <= hits[k - 1]
    decreases k
  {
    if k >= 2 {
      RecordedProper(hits, k - 1, size);
      RecordedWhen(hits[k - 2], hits[k - 1]);
    }
  }

  /** When marks stand closer, something that is no interval is recorded. */
  lemma CloseMarksRecorded(h0: nat, h1: nat)
    requires 1 <= h0 < h1 < h0 + 49 && h1 < 0x1_0000_0000_0000_0000
    ensures LongEnough(Between(h0, h1)) && Between(h0, h1).1 < Between(h0, h1).0
  {
    RecordedWhen(h0, h1);
  }

  lemma {:induction false} RecordedGrows(hits: seq<nat>, j: nat, k: nat)
    requires j <= k <= |hits|
    ensures Recorded(hits, j) <= Recorded(hits, k)
    decreases k
  {
    if j < k { RecordedGrows(hits, j, k - 1); }
  }

  /** For a whole file: what is recorded is proper exactly if no two neighbouring marks are closer than a
      mark and a bit. */
  lemma RecordedIffSpaced(hits: seq<nat>, size: nat)
    requires size < 0x1_0000_0000_0000_0000 && forall j :: 0 <= j < |hits| ==> 1 <= hits[j] <= size
    requires forall k :: 1 <= k < |hits| ==> hits[k - 1] < hits[k]
    ensures Proper(Recorded(hits, |hits|), size) <==> Spaced(hits)
  {
    if Spaced(hits) {
      RecordedProper(hits, |hits|, size);
    } else {
      var k :| 1 <= k < |hits| && hits[k - 1] + 49 > hits[k];
      CloseMarksRecorded(hits[k - 1], hits[k]);
      RecordedGrows(hits, k + 1, |hits|);
      var rb, i := Recorded(hits, |hits|), |Recorded(hits, k + 1)| - 1;
      assert Recorded(hits, k + 1)[i] == Between(hits[k - 1], hits[k]) == rb[i];
    }
  }

  lemma {:induction false} SpacedApart(hits: seq<nat>, i: nat, j: nat)
    requires Spaced(hits) && i < j < |hits|
    ensures hits[i] + 49 <= hits[j]
  {
    if i + 1 < j { SpacedApart(hits, i, j - 1); }
  }

  lemma {:induction false} HitFound(bits: seq<bool>, t: nat, n: nat)
    requires 1 <= t <= n <= |bits| && Hit(bits, t)
    ensures t in Hits(bits, n)
    decreases n
  {
    hide Hit;
    if t < n { HitFound(bits, t, n - 1); }
  }

  /** A file that fails: two marks one behind the other. */
  lemma MarksSideBySide()
    ensures var bits := BlockMark() + BlockMark(); |bits| == 96 && !Spaced(Hits(bits, 96))
  {
    hide BlockMark, Hits, Hit;
    MarkSize();
    var m := BlockMark();
    var bits := m + m;
    MarkAt(m, bits, 48);
    MarkAt(m, bits, 96);
    HitFound(bits, 48, 96);
    HitFound(bits, 96, 96);
    HitsAscend(bits, 96);
    var h := Hits(bits, 96);
    var i :| 0 <= i < |h| && h[i] == 48;
    var j :| 0 <= j < |h| && h[j] == 96;
    if Spaced(h) {
      if i < j { SpacedApart(h, i, j); } else { SpacedApart(h, j, i); }
    }
  }

  lemma MarkAt(m: seq<bool>, bits: seq<bool>, t: nat)
    requires m == BlockMark() && |m| == 48 && bits == m + m && (t == 48 || t == 96)
    ensures t <= |bits| && Hit(bits, t)
  {
    hide BlockMark;
    WindowIs(Zeros(), bits, t);
    assert bits[t - 48..t] == m;
  }

  lemma TwoMarkBits()
    ensures Bytes(BLOCK_MAGIC + BLOCK_MAGIC) && ByteBits(BLOCK_MAGIC + BLOCK_MAGIC) == BlockMark() + BlockMark()
  {
    assert Bytes(BLOCK_MAGIC);
    ByteBitsJoin(BLOCK_MAGIC, BLOCK_MAGIC);
    MarkBits();
  }

  lemma MarkBits()
    ensures Bytes(BLOCK_MAGIC) && ByteBits(BLOCK_MAGIC) == BlockMark()
  {
    PowersOfBytes();
    hide BitsOf, Pow2;
    var a, b, c, d, e, f := BitsOf(0x31, 8), BitsOf(0x41, 8), BitsOf(0x59, 8), BitsOf(0x26, 8), BitsOf(0x53,
      8), BitsOf(0x59, 8);
    MarkLetters();
    JoinBits(0x31, 8, 0x41, 8);
    JoinBits(0x59, 8, 0x26, 8);
    JoinBits(0x5926, 16, 0x53, 8);
    JoinBits(0x592653, 24, 0x59, 8);
    assert (((((a + b) + c) + d) + e) + f) == (a + b) + (((c + d) + e) + f);
  }

  lemma MarkLetters()
    ensures Bytes(BLOCK_MAGIC)
    ensures ByteBits(BLOCK_MAGIC) ==
            ((((BitsOf(0x31, 8) + BitsOf(0x41, 8)) + BitsOf(0x59, 8)) + BitsOf(0x26, 8)) + BitsOf(0x53, 8))
            + BitsOf(0x59, 8)
  {
    hide BitsOf;
    assert [0x31][..0] == [];
    assert ByteBits([0x31]) == [] + BitsOf(0x31, 8) == BitsOf(0x31, 8);
    ByteBitsGrow([0x31], 0x41);
    assert [0x31] + [0x41] == [0x31, 0x41];
    ByteBitsGrow([0x31, 0x41], 0x59);
    assert [0x31, 0x41] + [0x59] == [0x31, 0x41, 0x59];
    ByteBitsGrow([0x31, 0x41, 0x59], 0x26);
    assert [0x31, 0x41, 0x59] + [0x26] == [0x31, 0x41, 0x59, 0x26];
    ByteBitsGrow([0x31, 0x41, 0x59, 0x26], 0x53);
    assert [0x31, 0x41, 0x59, 0x26] + [0x53] == [0x31, 0x41, 0x59, 0x26, 0x53];
    ByteBitsGrow([0x31, 0x41, 0x59, 0x26, 0x53], 0x59);
    assert [0x31, 0x41, 0x59, 0x26, 0x53] + [0x59] == BLOCK_MAGIC;
  }

  /** The first pass on that file: what it records is not in order. */
  method ScanTwoMarks() returns (rb: seq<Interval>)
    ensures !Proper(rb, 96)
  {
    hide Hits, Recorded, ByteBits, Spaced, Proper, BlockMark, Bytes;
    TwoMarkBits();
    MarksSideBySide();
    ghost var bits := ByteBits(BLOCK_MAGIC + BLOCK_MAGIC);
    HitsAscend(bits, 96);
    FewHits(bits, 96);
    RecordedIffSpaced(Hits(bits, 96), 96);
    var overrun, at, hi, lo;
    overrun, at, rb, hi, lo := Scan(BLOCK_MAGIC + BLOCK_MAGIC);
  }

  lemma {:induction false} FewHits(bits: seq<bool>, n: nat)
    requires n <= |bits|
    ensures |Hits(bits, n)| <= n
  {
    hide Hit;
    if n > 0 { FewHits(bits, n - 1); }
  }

  lemma MarkSize()
    ensures |BlockMark()| == 48
  {
  }

  /* ---- The second pass ---- */

  const LEAD: seq<int> := [0x42, 0x5a, 0x68, 0x39, 0x31, 0x41, 0x59, 0x26, 0x53, 0x59]

  lemma LeadBytes()
    ensures Bytes(LEAD) && Bytes(TRAILER)
  {
  }

  /** How every recovered file begins: the stream's header and the block's mark. */
  ghost function LeadBits(): seq<bool> {
    LeadBytes();
    ByteBits(LEAD)
  }

  /** What the file of a recovered block holds. */
  ghost function FileBits(bits: seq<bool>, i: Interval): seq<bool>
    requires i.0 + 48 <= i.1 < |bits|
  {
    LeadBytes();
    LeadBits() + (bits[i.0..i.1 + 1] + (ByteBits(TRAILER) + bits[i.0..i.0 + 32]))
  }

  ghost predicate IsFile(file: seq<int>, bits: seq<bool>, i: Interval)
    requires i.0 + 48 <= i.1 < |bits|
  {
    Bytes(file) && FileBits(bits, i) <= ByteBits(file) && |ByteBits(file)| < |FileBits(bits, i)| + 8
  }

  ghost predicate FilesFor(files: seq<seq<int>>, bits: seq<bool>, rb: seq<Interval>)
    requires Proper(rb, |bits|) && |files| <= |rb|
  {
    forall k :: 0 <= k < |files| ==> IsFile(files[k], bits, rb[k])
  }

  /** bsPutUChar for several bytes. */
  method PutAll(sink: BitSink, bytes: seq<int>)
    requires sink.Valid() && Bytes(bytes)
    modifies sink
    ensures sink.Valid() && sink.Written() == old(sink.Written()) + ByteBits(bytes)
    ensures (bytes != [] ==> sink.buffLive > 0)
  {
    hide ByteBits, BitsOf, BitSink.Valid, BitSink.Written;
    ghost var w := sink.Written();
    NoBytes(bytes);
    assert w + [] == w;
    for i := 0 to |bytes|
      invariant sink.Valid() && Bytes(bytes[..i]) && sink.Written() == w + ByteBits(bytes[..i])
      invariant (i > 0 ==> sink.buffLive > 0)
    {
      ByteBitsGrow(bytes[..i], bytes[i]);
      assert bytes[..i + 1] == bytes[..i] + [bytes[i]];
      Join(w, ByteBits(bytes[..i]), BitsOf(bytes[i], 8));
      sink.PutNumber(bytes[i], 8);
    }
    assert bytes[..|bytes|] == bytes;
  }

  /** The first 32 of the last 48 bits, as the program takes them from the register. */
  function CrcOf(hi: nat, lo: nat): nat {
    hi % 65536 * 65536 + lo / 65536
  }

  lemma CrcBits(hi: nat, lo: nat, w: seq<bool>)
    requires Register(hi, lo, w)
    ensures CrcOf(hi, lo) < WORD && BitsOf(CrcOf(hi, lo), 32) == w[..32]
  {
    hide BitsOf;
    PowersOfBytes();
    SmallNumbers();
    assert Pow2(16) == 2 * Pow2(15);
    hide Pow2;
    BitsMod(hi, 16, 16);
    JoinBits(hi % 65536, 16, lo / 65536, 16);
    HighBits(lo, 32, 16);
    assert w[..32] == BitsOf(hi, 16) + BitsOf(lo, 32)[..16];
  }

  /** The file of interval i after t bits: open from the first bit on, with what has been copied. */
  ghost predicate OpenAt(bits: seq<bool>, i: Interval, t: nat, open: bool, written: seq<bool>, crc: nat)
    requires i.0 + 48 <= i.1 < |bits|
  {
    && t <= i.1 && (open <==> i.0 <= t) && (open ==> written == LeadBits() + bits[i.0..t])
    && (t >= i.0 + 48 ==> crc < WORD && BitsOf(crc, 32) == bits[i.0..i.0 + 32])
  }

  /** State of the second pass after t bits: files 0..k-1 are done, and file k is the next. */
  ghost predicate Copying(bits: seq<bool>, rb: seq<Interval>, files: seq<seq<int>>, k: nat, t: nat, open: bool,
                          written: seq<bool>, crc: nat) {
    && Proper(rb, |bits|) && t <= |bits| && |files| == k <= |rb| && FilesFor(files, bits, rb)
    && (k > 0 ==> rb[k - 1].1 < t)
    && if k == |rb| then !open else OpenAt(bits, rb[k], t, open, written, crc)
  }

  lemma CopyStart(bits: seq<bool>, rb: seq<Interval>)
    requires Proper(rb, |bits|) && rb != []
    ensures Copying(bits, rb, [], 0, 0, false, [], 0)
  {
  }

  /** The bounds the program reads: behind the last interval the arrays hold zeros. */
  function BoundsAt(rb: seq<Interval>, k: nat): Interval {
    if k < |rb| then rb[k] else (0, 0)
  }

  lemma CrcAt(bits: seq<bool>, init: seq<bool>, s: nat, hi: nat, lo: nat)
    requires s + 48 <= |bits| && |init| == 48 && Register(hi, lo, Window(init, bits, s + 48))
    ensures CrcOf(hi, lo) < WORD && BitsOf(CrcOf(hi, lo), 32) == bits[s..s + 32]
  {
    hide BitsOf, Register;
    WindowIs(init, bits, s + 48);
    CrcBits(hi, lo, Window(init, bits, s + 48));
    assert bits[s..s + 48][..32] == bits[s..s + 32];
  }

  /** One bit while a file is the next or open; the checksum is taken at the block's 48th bit. */
  lemma CopyBit(bits: seq<bool>, init: seq<bool>, i: Interval, t: nat, open: bool, written: seq<bool>, crc: nat,
                hi: nat, lo: nat, c: nat)
    requires i.0 + 48 <= i.1 < |bits| && OpenAt(bits, i, t, open, written, crc) && t < |bits| && |init| == 48
    requires Register(hi, lo, Window(init, bits, t + 1)) && c == if t == 47 + i.0 then CrcOf(hi, lo) else crc
    ensures open ==> i.0 <= t <= i.1
    ensures t == i.1 ==>
              && open && c < WORD && BitsOf(c, 32) == bits[i.0..i.0 + 32]
              && written + [bits[t]] == LeadBits() + bits[i.0..i.1 + 1]
    ensures t != i.1 && t + 1 == i.0 ==> !open && OpenAt(bits, i, t + 1, true, LeadBits(), c)
    ensures t != i.1 && t + 1 != i.0 ==> OpenAt(bits, i, t + 1, open, if open then written + [bits[t]] else written, c)
  {
    hide LeadBits, BitsOf, Register, Window;
    if t == 47 + i.0 { CrcAt(bits, init, i.0, hi, lo); }
    if open {
      assert bits[i.0..t + 1] == bits[i.0..t] + [bits[t]];
      Join(LeadBits(), bits[i.0..t], [bits[t]]);
    }
    if t + 1 == i.0 {
      assert bits[i.0..t + 1] == [];
      assert LeadBits() + [] == LeadBits();
    }
  }

  /** One bit of the second pass. c is the checksum after it. */
  lemma CopyStep(bits: seq<bool>, init: seq<bool>, rb: seq<Interval>, files: seq<seq<int>>, k: nat, t: nat,
                 open: bool, written: seq<bool>, crc: nat, c: nat, hi: nat, lo: nat)
    requires Copying(bits, rb, files, k, t, open, written, crc) && t < |bits| && rb != [] && k <= |rb| && |init| == 48
    requires Register(hi, lo, Window(init, bits, t + 1))
    requires c == if t == 47 + BoundsAt(rb, k).0 then CrcOf(hi, lo) else crc
    ensures var i := BoundsAt(rb, k);
            && (open ==> k < |rb| && i.0 <= t <= i.1)
            && (t == i.1 ==> open && i.0 + 48 <= i.1 < |bits| && c < WORD && BitsOf(c, 32) == bits[i.0..i.0 + 32]
                             && written + [bits[t]] == LeadBits() + bits[i.0..i.1 + 1])
            && (t != i.1 && t + 1 == i.0 ==> !open && Copying(bits, rb, files, k, t + 1, true, LeadBits(), c))
            && (t != i.1 && t + 1 != i.0 ==>
                  Copying(bits, rb, files, k, t + 1, open, if open then written + [bits[t]] else written, c))
  {
    hide LeadBits, BitsOf, Register, Window, OpenAt, FilesFor;
    if k < |rb| {
      CopyBit(bits, init, rb[k], t, open, written, crc, hi, lo, c);
    } else {
      CopyPast(bits, rb, files, k, t, open, written, crc, c);
    }
  }

  lemma CopyDone(bits: seq<bool>, rb: seq<Interval>, files: seq<seq<int>>, k: nat, t: nat, open: bool,
                 written: seq<bool>, crc: nat, file: seq<int>, c: nat)
    requires Copying(bits, rb, files, k, t, open, written, crc) && k < |rb| && t == rb[k].1 < |bits|
    requires rb[k].0 + 48 <= rb[k].1
    requires IsFile(file, bits, rb[k])
    ensures Copying(bits, rb, files + [file], k + 1, t + 1, false, [], c)
  {
    hide IsFile;
    var fs := files + [file];
    assert FilesFor(fs, bits, rb) by {
      forall j | 0 <= j < |fs| ensures IsFile(fs[j], bits, rb[j]) {
        if j < k { assert fs[j] == files[j]; }
      }
    }
    hide FilesFor, BitsOf, LeadBits;
    if k + 1 < |rb| { assert rb[k].1 + 49 <= rb[k + 1].0; }
  }

  lemma CopyPast(bits: seq<bool>, rb: seq<Interval>, files: seq<seq<int>>, k: nat, t: nat, open: bool,
                 written: seq<bool>, crc: nat, c: nat)
    requires Copying(bits, rb, files, k, t, open, written, crc) && t < |bits| && k == |rb| > 0
    ensures !open && t > 48 && Copying(bits, rb, files, k, t + 1, false, written, c)
  {
  }

  lemma CopyEnd(bits: seq<bool>, rb: seq<Interval>, files: seq<seq<int>>, k: nat, open: bool, written: seq<bool>,
                crc: nat)
    requires Copying(bits, rb, files, k, |bits|, open, written, crc)
    ensures k == |rb| == |files| && Proper(rb, |bits|) && FilesFor(files, bits, rb)
  {
  }

  /** A new file, with the stream's header and the block's mark. */
  method OpenFile() returns (sink: BitSink)
    ensures fresh(sink) && sink.Valid() && sink.Written() == LeadBits()
  {
    hide ByteBits;
    LeadBytes();
    sink := new BitSink();
    PutAll(sink, LEAD);
    assert [] + ByteBits(LEAD) == ByteBits(LEAD);
  }

  /** The end mark and the checksum, and the file is closed. */
  method CloseFile(sink: BitSink, crc: nat, ghost bits: seq<bool>, ghost i: Interval, ghost good: bool)
    returns (file: seq<int>)
    requires sink.Valid() && crc < WORD
    requires good ==>
               && i.0 + 48 <= i.1 < |bits| && sink.Written() == LeadBits() + bits[i.0..i.1 + 1]
               && BitsOf(crc, 32) == bits[i.0..i.0 + 32]
    modifies sink
    ensures good ==> IsFile(file, bits, i)
  {
    hide ByteBits, BitsOf, BitSink.Valid, BitSink.Written;
    LeadBytes();
    ghost var s := sink.Written();
    PutAll(sink, TRAILER);
    sink.PutNumber(crc, 32);
    if good {
      var w, m, e, c := LeadBits(), bits[i.0..i.1 + 1], ByteBits(TRAILER), BitsOf(crc, 32);
      Join(w + m, e, c);
      Join(w, m, e + c);
    }
    file := sink.Close();
  }

  lemma CrcSmall(hi: nat, lo: nat)
    requires lo < WORD
    ensures CrcOf(hi, lo) < WORD
  {
  }

  /** The second pass: every interval becomes a file of its own. The register starts with whatever the
      first pass left in it. */
  method Split(bytes: seq<int>, rb: seq<Interval>, hi0: nat, lo0: nat) returns (files: seq<seq<int>>)
    requires Bytes(bytes) && hi0 < WORD && lo0 < WORD && rb != []
    ensures Proper(rb, |ByteBits(bytes)|) ==> |files| == |rb| && FilesFor(files, ByteBits(bytes), rb)
  {
    hide ByteBits, BitsOf, Bytes, Register, StandsAt, BitSink.Valid, BitSink.Written, Window, Copying, Proper,
      FilesFor, IsFile, CrcOf, LeadBits, OpenAt;
    ghost var bits, init := ByteBits(bytes), BitsOf(hi0, 16) + BitsOf(lo0, 32);
    ghost var good := Proper(rb, |bits|);
    var bs := new BitSource(bytes);
    var bitsRead, buffHi, buffLo, wrBlock, blockCRC := 0, hi0, lo0, 0, 0;
    var open := false;
    var sink := new BitSink();
    files := [];
    if good { CopyStart(bits, rb); }
    StandsAtStart(bs, hi0, lo0, bits);
    while true
      invariant 0 <= bitsRead <= |bits| && 0 <= buffHi < WORD && 0 <= buffLo < WORD && 0 <= blockCRC < WORD
      invariant StandsAt(bs, buffHi, buffLo, init, bits, bitsRead)
      invariant 0 <= wrBlock <= |rb| && fresh(sink) && sink.Valid()
      invariant good ==>
                  Copying(bits, rb, files, wrBlock, bitsRead, open, if open then sink.Written() else [], blockCRC)
      decreases |bits| - bitsRead
    {
      ghost var t, crc0, written := bitsRead, blockCRC, if open then sink.Written() else [];
      var b;
      b, buffHi, buffLo := ShiftIn(bs, buffHi, buffLo, init, bits, bitsRead);
      if b == 2 {
        if good { CopyEnd(bits, rb, files, wrBlock, open, written, blockCRC); }
        return;
      }
      var bounds := BoundsAt(rb, wrBlock);
      CrcSmall(buffHi, buffLo);
      if bitsRead == 47 + bounds.0 { blockCRC := CrcOf(buffHi, buffLo); }
      if good { CopyStep(bits, init, rb, files, wrBlock, t, open, written, crc0, blockCRC, buffHi, buffLo); }
      if open && bitsRead >= bounds.0 && bitsRead <= bounds.1 { sink.PutBit(b); }
      bitsRead := bitsRead + 1;
      if bitsRead == bounds.1 + 1 {
        if open {
          var file := CloseFile(sink, blockCRC, bits, bounds, good);
          if good { CopyDone(bits, rb, files, wrBlock, t, open, written, crc0, file, blockCRC); }
          files := files + [file];
          open := false;
        }
        if wrBlock >= |rb| { break; }
        wrBlock := wrBlock + 1;
        sink := new BitSink();
      } else if bitsRead == bounds.0 {
        sink := OpenFile();
        open := true;
      }
    }
  }

  /* ---- What a recovered file is ---- */

  lemma LeadIs()
    ensures Bytes(BLOCK_MAGIC) && LeadBits() == MagicBits(9) + ByteBits(BLOCK_MAGIC) && |ByteBits(BLOCK_MAGIC)| == 48
  {
    assert LEAD == [0x42, 0x5a, 0x68, 0x39] + BLOCK_MAGIC;
    ByteBitsJoin([0x42, 0x5a, 0x68, 0x39], BLOCK_MAGIC);
  }

  /** The interval i holds block d, from behind its mark to its last bit. */
  ghost predicate HoldsBlock(bits: seq<bool>, i: Interval, step: (Crc, int) -> Crc, d: Sent)
    requires i.0 + 48 <= i.1 < |bits| && Sound(d.x)
  {
    |SentBits(step, d)| >= 48 && bits[i.0..i.1 + 1] == SentBits(step, d)[48..]
  }

  /** The block's checksum is its first 32 bits. */
  lemma BlockParts(step: (Crc, int) -> Crc, d: Sent) returns (body: seq<bool>)
    requires Sound(d.x)
    ensures Bytes(BLOCK_MAGIC) && SentBits(step, d) == ByteBits(BLOCK_MAGIC) + body && |ByteBits(BLOCK_MAGIC)| == 48
    ensures SentBits(step, d)[48..] == body && |body| >= 32 && body[..32] == BitsOf(SentCrc(step, d), 32)
  {
    LeadIs();
    hide ByteBits, BitsOf, CodedBits, Sound, SentCrc;
    var c, r := BitsOf(SentCrc(step, d), 32), [false] + BitsOf(d.origPtr, 24);
    body := (c + r) + CodedBits(d.x);
    Join(ByteBits(BLOCK_MAGIC), c + r, CodedBits(d.x));
    assert body[..32] == c;
  }

  /** The block as the only one of a stream. */
  function Alone(d: Sent): Sent {
    d.(cut := true)
  }

  lemma AloneIsChained(d: Sent, size: nat)
    requires SentOk(d, size) && Filled(d.runs, d.cut, size) && size <= 9
    ensures SentOk(Alone(d), size) && Chained([Alone(d)], 9)
  {
    hide Encodes, Sound, Packed, Runs;
    assert FullAt(size) <= FullAt(9);
    assert [Alone(d)][..0] == [] && [] + d.runs == d.runs;
  }

  lemma OneBlock(step: (Crc, int) -> Crc, d: Sent, size: nat)
    requires SentOk(d, size) && size <= 9
    ensures AllSent([d], 9) && Content([d], 0) == Plain(d.runs, 0) && Sound(d.x)
    ensures BlocksBits(step, [d], 9, 0) == SentBits(step, d) && Combined(step, [d], 1) == SentCrc(step, d)
  {
    SentSound(d, size);
    hide Sound, Encodes, SentBits, Plain, Runs, Packed, SentCrc, Combine, BlocksBits;
    assert SentOk(d, 9) by { assert BlockSize(size) <= BlockSize(9); }
    hide SentOk;
    CombineFirst(SentCrc(step, d));
    assert Combined(step, [d], 0) == 0;
    assert Content([d], 1) == [];
    BlocksUnfold(step, [d], 9, 0);
    BlocksUnfold(step, [d], 9, 1);
    NoBits(SentBits(step, d));
    assert Plain(d.runs, 0) + [] == Plain(d.runs, 0);
  }

  /** A recovered file is a complete stream of one block: its combined checksum, taken from the block's
      first 32 bits, is the right one, whatever the stream the block comes from. */
  lemma RecoveredIsStream(file: seq<int>, bits: seq<bool>, i: Interval, step: (Crc, int) -> Crc, d: Sent, size: nat)
    requires i.0 + 48 <= i.1 < |bits| && IsFile(file, bits, i) && SentOk(d, size) && size <= 9
    requires Sound(d.x) && HoldsBlock(bits, i, step, d) && Filled(d.runs, d.cut, size)
    ensures Complete(file, Plain(d.runs, 0), step, 9)
  {
    hide ByteBits, BitsOf, Bytes, MagicBits, SentBits, BlocksBits, AllSent, SentOk, Combined, Content, Plain,
      TrailerBits, SentCrc, Sound, IsFile, FileBits, Chained, HoldsBlock, Filled;
    AloneIsChained(d, size);
    SameBlockHeld(bits, i, step, d);
    FileIsStream(bits, i, step, Alone(d), size);
    FileParts(file, bits, i);
    assert CompleteVia(file, Plain(d.runs, 0), step, 9, [Alone(d)]);
  }

  lemma SameBlockHeld(bits: seq<bool>, i: Interval, step: (Crc, int) -> Crc, d: Sent)
    requires i.0 + 48 <= i.1 < |bits| && Sound(d.x) && HoldsBlock(bits, i, step, d)
    ensures HoldsBlock(bits, i, step, Alone(d))
  {
    hide BlockBits, Sound;
  }

  lemma FileParts(file: seq<int>, bits: seq<bool>, i: Interval)
    requires i.0 + 48 <= i.1 < |bits| && IsFile(file, bits, i)
    ensures Bytes(file) && FileBits(bits, i) <= ByteBits(file) && |ByteBits(file)| < |FileBits(bits, i)| + 8
  {
  }

  lemma FileIsStream(bits: seq<bool>, i: Interval, step: (Crc, int) -> Crc, d: Sent, size: nat)
    requires i.0 + 48 <= i.1 < |bits| && SentOk(d, size) && size <= 9 && Sound(d.x) && HoldsBlock(bits, i, step, d)
    ensures AllSent([d], 9) && Content([d], 0) == Plain(d.runs, 0) && FileBits(bits, i) == StreamBits(step, 9, [d])
  {
    hide ByteBits, BitsOf, MagicBits, SentBits, BlocksBits, AllSent, SentOk, Combined, Content, Plain, TrailerBits,
      SentCrc, Sound;
    var body := BlockParts(step, d);
    OneBlock(step, d, size);
    LeadIs();
    TrailerParts(SentCrc(step, d));
    var w := bits[i.0..i.1 + 1];
    assert w == body && bits[i.0..i.0 + 32] == w[..32];
    Nest(MagicBits(9), ByteBits(BLOCK_MAGIC), body, ByteBits(TRAILER) + BitsOf(SentCrc(step, d), 32));
  }

  lemma Nest(m: seq<bool>, k: seq<bool>, b: seq<bool>, t: seq<bool>)
    ensures (m + k) + (b + t) == m + ((k + b) + t)
  {
  }

  lemma TrailerParts(c: Crc)
    ensures Bytes(TRAILER) && TrailerBits(c) == ByteBits(TRAILER) + BitsOf(c, 32)
  {
  }

  /** The whole program: unless there are 50000 marks or more, and if the marks are well apart, every
      interval between marks that is long enough gives a file, in order. */
  method RecoverAll(bytes: seq<int>) returns (overrun: bool, files: seq<seq<int>>, ghost rb: seq<Interval>)
    requires Bytes(bytes) && 8 * |bytes| < 0x1_0000_0000_0000_0000
    ensures overrun <==> |Hits(ByteBits(bytes), 8 * |bytes|)| >= MAX_HANDLED_BLOCKS
    ensures !overrun ==> rb == Recorded(Hits(ByteBits(bytes), 8 * |bytes|), |Hits(ByteBits(bytes), 8 * |bytes|)|)
    ensures !overrun && Spaced(Hits(ByteBits(bytes), 8 * |bytes|)) ==>
              Proper(rb, 8 * |bytes|) && |files| == |rb| && FilesFor(files, ByteBits(bytes), rb)
  {
    hide Hits, Recorded, ByteBits, Spaced, FilesFor, IsFile, Proper;
    ghost var bits := ByteBits(bytes);
    HitsAscend(bits, |bits|);
    RecordedIffSpaced(Hits(bits, |bits|), |bits|);
    var intervals, at, buffHi, buffLo;
    overrun, at, intervals, buffHi, buffLo := Scan(bytes);
    rb := intervals;
    files := [];
    if overrun { return; }
    if intervals == [] {
      if Proper(rb, |bits|) { NoFiles(bits, rb); }
      return;  // no block boundaries
    }
    files := Split(bytes, intervals, buffHi, buffLo);
  }

  lemma NoFiles(bits: seq<bool>, rb: seq<Interval>)
    requires Proper(rb, |bits|)
    ensures FilesFor([], bits, rb)
  {
  }
}
