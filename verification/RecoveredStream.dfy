/** What the recoverer is for: every intact block of a damaged file comes back as a stream of its own, and
    for an undamaged stream all blocks do. */
module RecoveredStream {
  import opened BitIO
  import opened Bits
  import opened BlockCompressor
  import opened BlockFormat
  import opened Checksums
  import opened Powers
  import opened Recover
  import opened Rle
  import opened SmallestBlock
  import opened StreamFormat

  /* ---- Blocks between marks ---- */

  /** Between the marks that end after bits h0 and h1 is exactly block d, without its own mark. */
  ghost predicate Intact(bits: seq<bool>, h0: nat, h1: nat, step: (Crc, int) -> Crc, d: Sent)
    requires Sound(d.x)
  {
    && h0 + 48 <= h1 <= |bits| && |SentBits(step, d)| >= 48
    && bits[h0..h1 - 48] == SentBits(step, d)[48..]
  }

  /** An intact block is long enough to be recorded, with its bounds. */
  lemma IntactIsLong(bits: seq<bool>, h0: nat, h1: nat, step: (Crc, int) -> Crc, d: Sent, size: nat)
    requires SentOk(d, size) && Sound(d.x) && Intact(bits, h0, h1, step, d) && 1 <= h0
    requires h1 < 0x1_0000_0000_0000_0000
    ensures LongEnough(Between(h0, h1)) && h0 + 179 <= h1
    ensures h0 + 48 <= Between(h0, h1).1 < |bits| && HoldsBlock(bits, Between(h0, h1), step, d)
  {
    hide Sound, Encodes, BlockBits, Packed;
    BlockAtLeast(Packed(d.runs, 0), SentCrc(step, d), d.origPtr, d.x);
    assert |SentBits(step, d)| >= 179;
    RecordedWhen(h0, h1);
  }

  /** What is recorded for neighbouring marks stays recorded. */
  lemma RecordedAt(hits: seq<nat>, k: nat) returns (r: nat)
    requires k + 1 < |hits| && LongEnough(Between(hits[k], hits[k + 1]))
    ensures r < |Recorded(hits, |hits|)| && Recorded(hits, |hits|)[r] == Between(hits[k], hits[k + 1])
  {
    hide LongEnough;
    RecordedGrows(hits, k + 2, |hits|);
    r := |Recorded(hits, k + 2)| - 1;
  }

  /** In any file with fewer than 50000 marks, none closer than 49 bits to the one before, every block that is
      intact between two marks is in a file of its own, a complete stream. */
  method RecoverIntact(bytes: seq<int>, ghost k: nat, ghost step: (Crc, int) -> Crc, ghost d: Sent, ghost size: nat)
    returns (overrun: bool, files: seq<seq<int>>, ghost r: nat)
    requires Bytes(bytes) && 8 * |bytes| < 0x1_0000_0000_0000_0000
    requires SentOk(d, size) && Filled(d.runs, d.cut, size) && Sound(d.x) && size <= 9
    requires var hits := Hits(ByteBits(bytes), 8 * |bytes|);
             && |hits| < MAX_HANDLED_BLOCKS && Spaced(hits) && k + 1 < |hits|
             && Intact(ByteBits(bytes), hits[k], hits[k + 1], step, d)
    ensures !overrun && r < |files| && Complete(files[r], Plain(d.runs, 0), step, 9)
  {
    hide ByteBits, Hits, Recorded, Spaced, SentOk, Sound, Filled, Intact, LongEnough, HoldsBlock, FilesFor, IsFile,
      Proper, Complete, Plain, Bytes, Between;
    ghost var bits := ByteBits(bytes);
    ghost var hits := Hits(bits, |bits|);
    HitsAscend(bits, |bits|);
    IntactIsLong(bits, hits[k], hits[k + 1], step, d, size);
    ghost var rb;
    overrun, files, rb := RecoverAll(bytes);
    r := RecordedAt(hits, k);
    FileAt(files, bits, rb, r);
    BetweenFrom(hits[k], hits[k + 1]);
    RecoveredIsStream(files[r], bits, rb[r], step, d, size);
  }

  lemma BetweenFrom(h0: nat, h1: nat)
    ensures Between(h0, h1).0 == h0
  {
  }

  lemma FileAt(files: seq<seq<int>>, bits: seq<bool>, rb: seq<Interval>, r: nat)
    requires Proper(rb, |bits|) && |files| == |rb| && FilesFor(files, bits, rb) && r < |rb|
    ensures rb[r].0 + 48 <= rb[r].1 < |bits| && IsFile(files[r], bits, rb[r])
  {
    hide IsFile;
  }

  /* ---- The marks of an undamaged stream ---- */

  /** The bit behind the mark of block k, or of the trailer. */
  ghost function MarkEnd(step: (Crc, int) -> Crc, ds: seq<Sent>, size: nat, k: nat): nat
    requires AllSent(ds, size) && k <= |ds|
  {
    if k == 0 then 80
    else
      SentSound(ds[k - 1], size);
      MarkEnd(step, ds, size, k - 1) + |SentBits(step, ds[k - 1])|
  }

  /** The file has no marks but those of its blocks and its trailer. */
  ghost predicate OnlyOwnMarks(bits: seq<bool>, step: (Crc, int) -> Crc, ds: seq<Sent>, size: nat)
    requires AllSent(ds, size)
  {
    forall t :: 1 <= t <= |bits| && Hit(bits, t) ==> exists k :: 0 <= k <= |ds| && t == MarkEnd(step, ds, size, k)
  }

  lemma MarkNext(step: (Crc, int) -> Crc, ds: seq<Sent>, size: nat, k: nat)
    requires AllSent(ds, size) && k < |ds|
    ensures Sound(ds[k].x) && SentOk(ds[k], size) && |SentBits(step, ds[k])| >= 179
    ensures MarkEnd(step, ds, size, k + 1) == MarkEnd(step, ds, size, k) + |SentBits(step, ds[k])|
  {
    hide Sound, Encodes, BlockBits, Packed, BlocksBits;
    assert SentOk(ds[k], size);
    var d := ds[k];
    BlockAtLeast(Packed(d.runs, 0), SentCrc(step, d), d.origPtr, d.x);
  }

  /** What is left of a stream from block k on. */
  lemma {:induction false} StreamFromBlock(step: (Crc, int) -> Crc, ds: seq<Sent>, size: nat, k: nat)
    requires AllSent(ds, size) && k <= |ds| && 1 <= size <= 9
    ensures 80 <= MarkEnd(step, ds, size, k) <= |StreamBits(step, size, ds)|
    ensures StreamBits(step, size, ds)[MarkEnd(step, ds, size, k) - 48..] ==
            BlocksBits(step, ds, size, k) + TrailerBits(Combined(step, ds, |ds|))
  {
    hide AllSent, SentBits, Combined, BlocksBits, Sound, SentOk, BitsOf, MagicBits, TrailerBits;
    var s := StreamBits(step, size, ds);
    if k == 0 {
      MagicSize(size);
      TrailerSize(Combined(step, ds, |ds|));
    } else {
      StreamFromBlock(step, ds, size, k - 1);
      MarkNext(step, ds, size, k - 1);
      BlocksUnfold(step, ds, size, k - 1);
      TrailerSize(Combined(step, ds, |ds|));
      var m, n := MarkEnd(step, ds, size, k - 1) - 48, |SentBits(step, ds[k - 1])|;
      var rest := BlocksBits(step, ds, size, k) + TrailerBits(Combined(step, ds, |ds|));
      assert s[m..] == SentBits(step, ds[k - 1]) + rest;
      assert s[m + n..] == s[m..][n..] == rest;
    }
  }

  lemma MagicSize(size: nat)
    requires 1 <= size <= 9
    ensures |MagicBits(size)| == 32
  {
  }

  lemma TrailerSize(c: Crc)
    ensures |TrailerBits(c)| == 80 && Bytes(TRAILER) && TrailerBits(c)[..48] == ByteBits(TRAILER)
  {
    hide BitsOf;
    assert Bytes(TRAILER);
    assert |ByteBits(TRAILER)| == 48;
  }

  lemma TrailerIsEndMark()
    ensures Bytes(TRAILER) && ByteBits(TRAILER) == EndMark()
  {
    PowersOfBytes();
    hide BitsOf, Pow2;
    TrailerIsLetters();
    var a, b, c, d, e, f := BitsOf(0x17, 8), BitsOf(0x72, 8), BitsOf(0x45, 8), BitsOf(0x38, 8), BitsOf(0x50, 8),
      BitsOf(0x90, 8);
    JoinBits(0x17, 8, 0x72, 8);
    JoinBits(0x45, 8, 0x38, 8);
    JoinBits(0x4538, 16, 0x50, 8);
    JoinBits(0x453850, 24, 0x90, 8);
    assert (((((a + b) + c) + d) + e) + f) == (a + b) + (((c + d) + e) + f);
  }

  lemma TrailerIsLetters()
    ensures Bytes(TRAILER)
    ensures ByteBits(TRAILER) ==
            ((((BitsOf(0x17, 8) + BitsOf(0x72, 8)) + BitsOf(0x45, 8)) + BitsOf(0x38, 8)) + BitsOf(0x50, 8))
            + BitsOf(0x90, 8)
  {
    hide BitsOf;
    assert [0x17][..0] == [];
    assert ByteBits([0x17]) == [] + BitsOf(0x17, 8) == BitsOf(0x17, 8);
    ByteBitsGrow([0x17], 0x72);
    assert [0x17] + [0x72] == [0x17, 0x72];
    ByteBitsGrow([0x17, 0x72], 0x45);
    assert [0x17, 0x72] + [0x45] == [0x17, 0x72, 0x45];
    ByteBitsGrow([0x17, 0x72, 0x45], 0x38);
    assert [0x17, 0x72, 0x45] + [0x38] == [0x17, 0x72, 0x45, 0x38];
    ByteBitsGrow([0x17, 0x72, 0x45, 0x38], 0x50);
    assert [0x17, 0x72, 0x45, 0x38] + [0x50] == [0x17, 0x72, 0x45, 0x38, 0x50];
    ByteBitsGrow([0x17, 0x72, 0x45, 0x38, 0x50], 0x90);
    assert [0x17, 0x72, 0x45, 0x38, 0x50] + [0x90] == TRAILER;
  }

  lemma HitIf(bits: seq<bool>, t: nat)
    requires 48 <= t <= |bits| && (bits[t - 48..t] == BlockMark() || bits[t - 48..t] == EndMark())
    ensures Hit(bits, t)
  {
    WindowIs(Zeros(), bits, t);
  }

  lemma SliceHead(bits: seq<bool>, m: nat, s: seq<bool>, rest: seq<bool>)
    requires m <= |bits| && s + rest <= bits[m..]
    ensures m + |s| <= |bits| && bits[m..m + |s|] == s
    ensures forall n :: 0 <= n <= |s| ==> bits[m + n..m + |s|] == s[n..] && bits[m..m + n] == s[..n]
  {
    assert bits[m..][..|s|] == s;
    forall n | 0 <= n <= |s| ensures bits[m + n..m + |s|] == s[n..] && bits[m..m + n] == s[..n] {
      assert bits[m..][..|s|][n..] == bits[m + n..m + |s|];
      assert bits[m..][..|s|][..n] == bits[m..m + n];
    }
  }

  /** The file of a stream from block k on. */
  lemma FileFromBlock(bits: seq<bool>, step: (Crc, int) -> Crc, ds: seq<Sent>, size: nat, k: nat)
    requires AllSent(ds, size) && k <= |ds| && 1 <= size <= 9 && StreamBits(step, size, ds) <= bits
    ensures 80 <= MarkEnd(step, ds, size, k) <= |bits|
    ensures BlocksBits(step, ds, size, k) + TrailerBits(Combined(step, ds, |ds|)) <=
            bits[MarkEnd(step, ds, size, k) - 48..]
  {
    hide AllSent, BlocksBits, TrailerBits, Combined, StreamBits, MarkEnd;
    StreamFromBlock(step, ds, size, k);
    PrefixTail(StreamBits(step, size, ds), bits, MarkEnd(step, ds, size, k) - 48);
  }

  lemma PrefixTail(s: seq<bool>, bits: seq<bool>, m: nat)
    requires s <= bits && m <= |s|
    ensures s[m..] <= bits[m..]
  {
    assert bits[m..][..|s| - m] == bits[..|s|][m..];
  }

  /** A block that stands in a file from bit m on, with a mark behind it. */
  lemma BlockAt(bits: seq<bool>, m: nat, step: (Crc, int) -> Crc, d: Sent, rest: seq<bool>)
    requires Sound(d.x) && m <= |bits| && SentBits(step, d) + rest <= bits[m..] && |SentBits(step, d)| >= 48
    requires m + |SentBits(step, d)| + 48 <= |bits|
    ensures Hit(bits, m + 48) && Intact(bits, m + 48, m + |SentBits(step, d)| + 48, step, d)
  {
    hide Sound, SentBits, BlockMark, Hit;
    var body := BlockParts(step, d);
    MarkBits();
    SliceHead(bits, m, SentBits(step, d), rest);
    assert SentBits(step, d)[..48] == BlockMark();
    HitIf(bits, m + 48);
  }

  /** What is left from block k on begins with that block. */
  lemma TailAtBlock(step: (Crc, int) -> Crc, ds: seq<Sent>, size: nat, k: nat, t: seq<bool>) returns (rest: seq<bool>)
    requires AllSent(ds, size) && k < |ds|
    ensures Sound(ds[k].x) && BlocksBits(step, ds, size, k) + t == SentBits(step, ds[k]) + rest
  {
    hide AllSent, BlocksBits, Sound, SentOk, SentBits;
    BlocksUnfold(step, ds, size, k);
    rest := BlocksBits(step, ds, size, k + 1) + t;
    Join(SentBits(step, ds[k]), BlocksBits(step, ds, size, k + 1), t);
  }

  lemma MarkInside(bits: seq<bool>, step: (Crc, int) -> Crc, ds: seq<Sent>, size: nat, k: nat)
    requires AllSent(ds, size) && k <= |ds| && 1 <= size <= 9 && StreamBits(step, size, ds) <= bits
    ensures 80 <= MarkEnd(step, ds, size, k) <= |bits|
  {
    hide AllSent, StreamBits, MarkEnd, BlocksBits, TrailerBits, Combined;
    StreamFromBlock(step, ds, size, k);
  }

  /** The file from block k on begins with that block. */
  lemma FileAtBlock(bits: seq<bool>, step: (Crc, int) -> Crc, ds: seq<Sent>, size: nat, k: nat)
    returns (rest: seq<bool>)
    requires AllSent(ds, size) && k < |ds| && 1 <= size <= 9 && StreamBits(step, size, ds) <= bits
    ensures 80 <= MarkEnd(step, ds, size, k) <= |bits| && Sound(ds[k].x)
    ensures SentBits(step, ds[k]) + rest <= bits[MarkEnd(step, ds, size, k) - 48..]
  {
    hide AllSent, BlocksBits, TrailerBits, Combined, Sound, SentOk, SentBits, StreamBits, MarkEnd;
    FileFromBlock(bits, step, ds, size, k);
    rest := TailAtBlock(step, ds, size, k, TrailerBits(Combined(step, ds, |ds|)));
  }

  /** Every block stands between its mark and the next one, which is found. */
  lemma BlockStands(bits: seq<bool>, step: (Crc, int) -> Crc, ds: seq<Sent>, size: nat, k: nat)
    requires AllSent(ds, size) && k < |ds| && 1 <= size <= 9 && StreamBits(step, size, ds) <= bits
    ensures MarkEnd(step, ds, size, k) <= |bits| && Hit(bits, MarkEnd(step, ds, size, k)) && Sound(ds[k].x)
    ensures Intact(bits, MarkEnd(step, ds, size, k), MarkEnd(step, ds, size, k + 1), step, ds[k])
  {
    hide AllSent, BlocksBits, Sound, SentOk, SentBits, StreamBits, MarkEnd, Hit, Intact, Encodes;
    var rest := FileAtBlock(bits, step, ds, size, k);
    MarkInside(bits, step, ds, size, k + 1);
    MarkNext(step, ds, size, k);
    BlockAt(bits, MarkEnd(step, ds, size, k) - 48, step, ds[k], rest);
  }

  lemma AtTrailer(bits: seq<bool>, step: (Crc, int) -> Crc, ds: seq<Sent>, size: nat)
    requires AllSent(ds, size) && 1 <= size <= 9 && StreamBits(step, size, ds) <= bits
    ensures 80 <= MarkEnd(step, ds, size, |ds|) <= |bits|
    ensures TrailerBits(Combined(step, ds, |ds|)) <= bits[MarkEnd(step, ds, size, |ds|) - 48..]
  {
    hide AllSent, BlocksBits, TrailerBits, Combined, StreamBits, MarkEnd, SentBits, Sound;
    FileFromBlock(bits, step, ds, size, |ds|);
    BlocksUnfold(step, ds, size, |ds|);
    NoBits(TrailerBits(Combined(step, ds, |ds|)));
  }

  lemma TrailerAt(bits: seq<bool>, m: nat, c: Crc)
    requires m <= |bits| && TrailerBits(c) <= bits[m..]
    ensures m + 48 <= |bits| && Hit(bits, m + 48)
  {
    TrailerSize(c);
    TrailerIsEndMark();
    hide TrailerBits, EndMark, ByteBits, Hit;
    NoBits(TrailerBits(c));
    SliceHead(bits, m, TrailerBits(c), []);
    HitIf(bits, m + 48);
  }

  /** The trailer's mark is found. */
  lemma TrailerStands(bits: seq<bool>, step: (Crc, int) -> Crc, ds: seq<Sent>, size: nat)
    requires AllSent(ds, size) && 1 <= size <= 9 && StreamBits(step, size, ds) <= bits
    ensures MarkEnd(step, ds, size, |ds|) <= |bits| && Hit(bits, MarkEnd(step, ds, size, |ds|))
  {
    hide AllSent, TrailerBits, Combined, StreamBits, MarkEnd, Hit;
    AtTrailer(bits, step, ds, size);
    TrailerAt(bits, MarkEnd(step, ds, size, |ds|) - 48, Combined(step, ds, |ds|));
  }

  /* ---- The marks found ---- */

  ghost predicate Ascending(s: seq<nat>) {
    forall i, j :: 0 <= i < j < |s| ==> s[i] < s[j]
  }

  /** Ascending sequences of the same numbers are the same. */
  lemma {:induction false} SameAscending(s: seq<nat>, t: seq<nat>)
    requires Ascending(s) && Ascending(t)
    requires forall x :: x in s <==> x in t
    ensures s == t
    decreases |s|
  {
    assert s != [] ==> s[0] in t;
    assert t != [] ==> t[0] in s;
    if s != [] {
      var m, n := |s| - 1, |t| - 1;
      assert s[m] in t && t[n] in s;
      var s', t' := s[..m], t[..n];
      forall x ensures x in s' <==> x in t' {
        if x in s' { assert x in s && x in t; }
        if x in t' { assert x in t && x in s; }
      }
      SameAscending(s', t');
      assert s == s' + [s[m]] && t == t' + [t[n]];
    }
  }

  lemma {:induction false} StepsAscend(s: seq<nat>, i: nat, j: nat)
    requires i < j < |s| && forall k :: 1 <= k < |s| ==> s[k - 1] < s[k]
    ensures s[i] < s[j]
    decreases j
  {
    if i + 1 < j { StepsAscend(s, i, j - 1); }
  }

  lemma {:induction false} HitIsFound(bits: seq<bool>, n: nat, t: nat)
    requires n <= |bits| && t in Hits(bits, n)
    ensures 1 <= t <= n && Hit(bits, t)
  {
    hide Hit;
    if t in Hits(bits, n - 1) { HitIsFound(bits, n - 1, t); }
  }

  /** Where the marks of an undamaged stream end. */
  ghost function MarkEnds(step: (Crc, int) -> Crc, ds: seq<Sent>, size: nat): (s: seq<nat>)
    requires AllSent(ds, size)
  {
    seq(|ds| + 1, k requires 0 <= k <= |ds| => MarkEnd(step, ds, size, k))
  }

  lemma {:induction false} MarksApart(step: (Crc, int) -> Crc, ds: seq<Sent>, size: nat, i: nat, j: nat)
    requires AllSent(ds, size) && i < j <= |ds|
    ensures MarkEnd(step, ds, size, i) + 179 <= MarkEnd(step, ds, size, j)
    decreases j
  {
    hide AllSent, SentBits, MarkEnd, SentOk, Sound;
    MarkNext(step, ds, size, j - 1);
    if i < j - 1 { MarksApart(step, ds, size, i, j - 1); }
  }

  lemma MarkFound(bits: seq<bool>, step: (Crc, int) -> Crc, ds: seq<Sent>, size: nat, k: nat)
    requires AllSent(ds, size) && k <= |ds| && 1 <= size <= 9 && StreamBits(step, size, ds) <= bits
    ensures 1 <= MarkEnd(step, ds, size, k) <= |bits| && Hit(bits, MarkEnd(step, ds, size, k))
    ensures MarkEnd(step, ds, size, k) in Hits(bits, |bits|)
  {
    hide StreamBits, AllSent, Hit, Hits, MarkEnd, Intact;
    if k < |ds| { BlockStands(bits, step, ds, size, k); } else { TrailerStands(bits, step, ds, size); }
    MarkInside(bits, step, ds, size, k);
    HitFound(bits, MarkEnd(step, ds, size, k), |bits|);
  }

  /** The scan finds exactly the marks of the stream. */
  lemma HitsAreMarks(bits: seq<bool>, step: (Crc, int) -> Crc, ds: seq<Sent>, size: nat)
    requires AllSent(ds, size) && 1 <= size <= 9 && StreamBits(step, size, ds) <= bits
    requires OnlyOwnMarks(bits, step, ds, size)
    ensures Hits(bits, |bits|) == MarkEnds(step, ds, size)
  {
    hide StreamBits, AllSent, Hit, Hits, MarkEnd;
    var hits, ends := Hits(bits, |bits|), MarkEnds(step, ds, size);
    HitsAscend(bits, |bits|);
    forall i, j | 0 <= i < j < |hits| ensures hits[i] < hits[j] { StepsAscend(hits, i, j); }
    forall i, j | 0 <= i < j < |ends| ensures ends[i] < ends[j] { MarksApart(step, ds, size, i, j); }
    forall x ensures x in hits <==> x in ends {
      if x in hits {
        HitIsFound(bits, |bits|, x);
        var k :| 0 <= k <= |ds| && x == MarkEnd(step, ds, size, k);
        assert ends[k] == x;
      }
      if x in ends {
        var k :| 0 <= k < |ends| && ends[k] == x;
        MarkFound(bits, step, ds, size, k);
      }
    }
    SameAscending(hits, ends);
  }

  /** Every block between the marks is recorded, and nothing else. */
  lemma {:induction false} AllRecorded(bits: seq<bool>, step: (Crc, int) -> Crc, ds: seq<Sent>, size: nat, k: nat)
    requires AllSent(ds, size) && 1 <= size <= 9 && StreamBits(step, size, ds) <= bits && k <= |ds|
    requires |bits| < 0x1_0000_0000_0000_0000
    ensures |Recorded(MarkEnds(step, ds, size), k + 1)| == k
    ensures forall j :: 0 <= j < k ==>
              Recorded(MarkEnds(step, ds, size), k + 1)[j] ==
              Between(MarkEnd(step, ds, size, j), MarkEnd(step, ds, size, j + 1))
  {
    hide StreamBits, AllSent, MarkEnd, LongEnough, Between, Intact, Recorded, Sound, SentOk, HoldsBlock, SentBits;
    var ends := MarkEnds(step, ds, size);
    if k > 0 {
      AllRecorded(bits, step, ds, size, k - 1);
      BlockLong(bits, step, ds, size, k - 1);
      RecordedNext(ends, k);
    } else {
      RecordedFirst(ends);
    }
  }

  lemma RecordedFirst(hits: seq<nat>)
    requires |hits| >= 1
    ensures Recorded(hits, 1) == []
  {
  }

  lemma RecordedNext(hits: seq<nat>, k: nat)
    requires 1 <= k < |hits| && LongEnough(Between(hits[k - 1], hits[k]))
    ensures Recorded(hits, k + 1) == Recorded(hits, k) + [Between(hits[k - 1], hits[k])]
  {
    hide LongEnough;
  }

  lemma BlockLong(bits: seq<bool>, step: (Crc, int) -> Crc, ds: seq<Sent>, size: nat, k: nat)
    requires AllSent(ds, size) && 1 <= size <= 9 && StreamBits(step, size, ds) <= bits && k < |ds|
    requires |bits| < 0x1_0000_0000_0000_0000
    ensures var i := Between(MarkEnd(step, ds, size, k), MarkEnd(step, ds, size, k + 1));
            && LongEnough(i) && i.0 + 48 <= i.1 < |bits| && Sound(ds[k].x) && SentOk(ds[k], size)
            && HoldsBlock(bits, i, step, ds[k])
  {
    hide StreamBits, AllSent, MarkEnd, LongEnough, Between, Intact, Sound, SentOk, SentBits, HoldsBlock, Hit;
    BlockStands(bits, step, ds, size, k);
    MarkInside(bits, step, ds, size, k);
    MarkInside(bits, step, ds, size, k + 1);
    MarkNext(step, ds, size, k);
    var h0, h1 := MarkEnd(step, ds, size, k), MarkEnd(step, ds, size, k + 1);
    IntactIsLong(bits, h0, h1, step, ds[k], size);
    BetweenFrom(h0, h1);
  }

  /** The program on an undamaged stream with fewer than 50000 marks: one file for every block, in order, and
      each is a complete stream of that block. */
  method RecoverStream(bytes: seq<int>, ghost content: seq<int>, ghost step: (Crc, int) -> Crc, ghost size: nat,
                       ghost ds: seq<Sent>)
    returns (files: seq<seq<int>>)
    requires Bytes(bytes) && 8 * |bytes| < 0x1_0000_0000_0000_0000 && 1 <= size <= 9
    requires CompleteVia(bytes, content, step, size, ds) && |ds| + 1 < MAX_HANDLED_BLOCKS
    requires OnlyOwnMarks(ByteBits(bytes), step, ds, size)
    ensures |files| == |ds|
    ensures forall k :: 0 <= k < |ds| ==> Complete(files[k], Plain(ds[k].runs, 0), step, 9)
  {
    hide ByteBits, Hits, Recorded, Spaced, SentOk, Sound, Filled, Intact, LongEnough, HoldsBlock, FilesFor, IsFile,
      Proper, Complete, Plain, Bytes, Between, AllSent, StreamBits, MarkEnd, OnlyOwnMarks, Chained, Content;
    ghost var bits := ByteBits(bytes);
    HitsAreMarks(bits, step, ds, size);
    MarksSpaced(step, ds, size);
    AllRecorded(bits, step, ds, size, |ds|);
    var overrun; ghost var rb;
    overrun, files, rb := RecoverAll(bytes);
    forall k | 0 <= k < |ds| ensures Complete(files[k], Plain(ds[k].runs, 0), step, 9) {
      BlockLong(bits, step, ds, size, k);
      FileAt(files, bits, rb, k);
      ChainedAt(ds, size, k);
      RecoveredIsStream(files[k], bits, rb[k], step, ds[k], size);
    }
  }

  lemma ChainedAt(ds: seq<Sent>, size: nat, k: nat)
    requires Chained(ds, size) && k < |ds|
    ensures Filled(ds[k].runs, ds[k].cut, size)
  {
    hide Filled, Runs;
  }

  lemma MarksSpaced(step: (Crc, int) -> Crc, ds: seq<Sent>, size: nat)
    requires AllSent(ds, size)
    ensures Spaced(MarkEnds(step, ds, size)) && |MarkEnds(step, ds, size)| == |ds| + 1
  {
    hide AllSent, MarkEnd;
    forall k | 1 <= k < |ds| + 1 ensures MarkEnd(step, ds, size, k - 1) + 49 <= MarkEnd(step, ds, size, k) {
      MarksApart(step, ds, size, k - 1, k);
    }
  }
}
