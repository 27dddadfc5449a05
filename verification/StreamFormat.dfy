/** A compressed stream: header, blocks, trailer. */
module StreamFormat {
  import opened BitIO
  import opened Bits
  import opened BlockCompressor
  import opened BlockFormat
  import opened Checksums
  import opened Rle

  /** One block of a stream: the runs of its bytes, how it is sent, and whether a flush or the end closed it. */
  datatype Sent = Sent(runs: seq<Run>, origPtr: nat, x: Coded, cut: bool)

  /** Nineteen less than this many bytes make a block full; ten less are never exceeded. */
  function BlockSize(blockSize100k: nat): nat {
    100000 * blockSize100k
  }

  /** A block that holds this much takes in no more. */
  function FullAt(blockSize100k: nat): int {
    BlockSize(blockSize100k) - 19
  }

  /* ---- Where blocks end ---- */

  /** Before its last run the block was not full. */
  ghost predicate Light(rs: seq<Run>, blockSize100k: nat) {
    rs == [] || |Packed(rs[..|rs| - 1], 0)| < FullAt(blockSize100k)
  }

  /** Blocks are closed as soon as they are full. When a flush or the end closes one, the pending run goes into
      it; then it may have been full already if that run is a single byte. */
  ghost predicate Filled(rs: seq<Run>, cut: bool, blockSize100k: nat) {
    && rs != []
    && (cut || |Packed(rs, 0)| >= FullAt(blockSize100k))
    && (Light(rs, blockSize100k) || (cut && rs[|rs| - 1].1 == 1 && Light(rs[..|rs| - 1], blockSize100k)))
  }

  /** The runs since the last flush. */
  ghost function Since(ds: seq<Sent>): seq<Run> {
    if |ds| == 0 || ds[|ds| - 1].cut then [] else Since(ds[..|ds| - 1]) + ds[|ds| - 1].runs
  }

  /** Blocks are filled, and their runs go on those of the blocks before, back to the last flush. */
  ghost predicate Chained(ds: seq<Sent>, blockSize100k: nat) {
    forall k :: 0 <= k < |ds| ==> Filled(ds[k].runs, ds[k].cut, blockSize100k) && Runs(Since(ds[..k]) + ds[k].runs)
  }

  lemma ChainedGrows(ds: seq<Sent>, blockSize100k: nat, d: Sent)
    requires Chained(ds, blockSize100k) && Filled(d.runs, d.cut, blockSize100k) && Runs(Since(ds) + d.runs)
    ensures Chained(ds + [d], blockSize100k)
    ensures Since(ds + [d]) == if d.cut then [] else Since(ds) + d.runs
  {
    hide Filled, Runs;
    var e := ds + [d];
    assert e[..|ds|] == ds;
    forall k | 0 <= k < |e| ensures Filled(e[k].runs, e[k].cut, blockSize100k) && Runs(Since(e[..k]) + e[k].runs) {
      if k < |ds| { assert e[..k] == ds[..k]; }
    }
  }

  /** Nothing is open once nothing has come since the last flush. */
  lemma NothingOpen(ds: seq<Sent>, blockSize100k: nat)
    requires Chained(ds, blockSize100k) && Since(ds) == []
    ensures ds != [] ==> ds[|ds| - 1].cut
  {
  }

  /* ---- What a stream is ---- */

  ghost predicate SentOk(d: Sent, blockSize100k: nat) {
    && d.runs != [] && Runs(d.runs) && Sound(d.x) && Encodes(Packed(d.runs, 0), d.origPtr, d.x)
    && |Packed(d.runs, 0)| + 10 <= BlockSize(blockSize100k)
  }

  ghost predicate AllSent(ds: seq<Sent>, blockSize100k: nat) {
    forall k :: 0 <= k < |ds| ==> SentOk(ds[k], blockSize100k)
  }

  lemma SentSound(d: Sent, blockSize100k: nat)
    requires SentOk(d, blockSize100k)
    ensures Sound(d.x)
  {
  }

  function SentCrc(step: (Crc, int) -> Crc, d: Sent): Crc {
    Complement(Fold(step, INITIAL, Plain(d.runs, 0)))
  }

  ghost function SentBits(step: (Crc, int) -> Crc, d: Sent): seq<bool>
    requires Sound(d.x)
  {
    BlockBits(SentCrc(step, d), d.origPtr, d.x)
  }

  /** The bits of the blocks from block k on. */
  ghost function BlocksBits(step: (Crc, int) -> Crc, ds: seq<Sent>, blockSize100k: nat, k: nat): seq<bool>
    requires AllSent(ds, blockSize100k) && k <= |ds|
    decreases |ds| - k
  {
    if k == |ds| then [] else SentBits(step, ds[k]) + BlocksBits(step, ds, blockSize100k, k + 1)
  }

  /** The bytes the blocks from block k on stand for. */
  function Content(ds: seq<Sent>, k: nat): seq<int>
    requires k <= |ds|
    decreases |ds| - k
  {
    if k == |ds| then [] else Plain(ds[k].runs, 0) + Content(ds, k + 1)
  }

  /** The combined checksum of the first k blocks. */
  function Combined(step: (Crc, int) -> Crc, ds: seq<Sent>, k: nat): Crc
    requires k <= |ds|
  {
    if k == 0 then 0 else Combine(Combined(step, ds, k - 1), SentCrc(step, ds[k - 1]))
  }

  lemma AllSentGrows(ds: seq<Sent>, blockSize100k: nat, d: Sent)
    requires AllSent(ds, blockSize100k) && SentOk(d, blockSize100k)
    ensures AllSent(ds + [d], blockSize100k) && forall k :: 0 <= k < |ds| + 1 ==> Sound((ds + [d])[k].x)
    ensures Sound(d.x) && forall k :: 0 <= k < |ds| ==> Sound(ds[k].x)
  {
    hide SentOk, Sound;
    AllSound(ds, blockSize100k);
    SentSound(d, blockSize100k);
  }

  lemma AllSound(ds: seq<Sent>, blockSize100k: nat)
    requires AllSent(ds, blockSize100k)
    ensures forall k :: 0 <= k < |ds| ==> Sound(ds[k].x)
  {
    hide SentOk, Sound;
    forall k | 0 <= k < |ds| ensures Sound(ds[k].x) { SentSound(ds[k], blockSize100k); }
  }

  lemma NoBits(s: seq<bool>)
    ensures s + [] == s == [] + s
  {
  }

  lemma BlocksUnfold(step: (Crc, int) -> Crc, ds: seq<Sent>, blockSize100k: nat, k: nat)
    requires AllSent(ds, blockSize100k) && k <= |ds|
    ensures k == |ds| ==> BlocksBits(step, ds, blockSize100k, k) == []
    ensures k < |ds| ==>
              && Sound(ds[k].x)
              && BlocksBits(step, ds, blockSize100k, k) ==
                 SentBits(step, ds[k]) + BlocksBits(step, ds, blockSize100k, k + 1)
  {
    hide SentBits, SentOk, Sound;
    AllSound(ds, blockSize100k);
  }

  /** One more block. */
  lemma {:induction false} BlocksGrow(step: (Crc, int) -> Crc, ds: seq<Sent>, blockSize100k: nat, d: Sent, k: nat)
    requires AllSent(ds, blockSize100k) && SentOk(d, blockSize100k) && k <= |ds|
    ensures AllSent(ds + [d], blockSize100k)
    ensures BlocksBits(step, ds + [d], blockSize100k, k) == BlocksBits(step, ds, blockSize100k, k) + SentBits(step, d)
    decreases |ds| - k
  {
    hide SentBits, SentOk, AllSent, Sound, BlocksBits;
    AllSentGrows(ds, blockSize100k, d);
    var e := ds + [d];
    BlocksUnfold(step, ds, blockSize100k, k);
    BlocksUnfold(step, e, blockSize100k, k);
    if k == |ds| {
      BlocksUnfold(step, e, blockSize100k, k + 1);
      assert e[k] == d;
      NoBits(SentBits(step, d));
    } else {
      BlocksGrow(step, ds, blockSize100k, d, k + 1);
      assert e[k] == ds[k];
      Join(SentBits(step, ds[k]), BlocksBits(step, ds, blockSize100k, k + 1), SentBits(step, d));
    }
  }

  lemma {:induction false} ContentGrows(ds: seq<Sent>, d: Sent, k: nat)
    requires k <= |ds|
    ensures Content(ds + [d], k) == Content(ds, k) + Plain(d.runs, 0)
    decreases |ds| - k
  {
    hide Plain;
    if k == |ds| {
      assert Content(ds + [d], k + 1) == [];
      assert Plain(d.runs, 0) + [] == Plain(d.runs, 0) == [] + Plain(d.runs, 0);
    } else {
      ContentGrows(ds, d, k + 1);
      assert (ds + [d])[k] == ds[k];
    }
  }

  lemma {:induction false} CombinedSame(step: (Crc, int) -> Crc, ds: seq<Sent>, d: Sent, k: nat)
    requires k <= |ds|
    ensures Combined(step, ds + [d], k) == Combined(step, ds, k)
  {
    if k > 0 { CombinedSame(step, ds, d, k - 1); }
  }

  lemma CombinedGrows(step: (Crc, int) -> Crc, ds: seq<Sent>, d: Sent)
    ensures Combined(step, ds + [d], |ds| + 1) == Combine(Combined(step, ds, |ds|), SentCrc(step, d))
  {
    CombinedSame(step, ds, d, |ds|);
  }

  ghost function MagicBits(blockSize100k: nat): seq<bool>
    requires 1 <= blockSize100k <= 9
  {
    ByteBits([0x42, 0x5a, 0x68, 0x30 + blockSize100k])
  }

  /** What blocks begin with, and what the trailer begins with. */
  const BLOCK_MAGIC: seq<int> := [0x31, 0x41, 0x59, 0x26, 0x53, 0x59]
  const TRAILER: seq<int> := [0x17, 0x72, 0x45, 0x38, 0x50, 0x90]

  ghost function TrailerBits(combined: Crc): seq<bool> {
    ByteBits(TRAILER) + BitsOf(combined, 32)
  }

  ghost function StreamBits(step: (Crc, int) -> Crc, blockSize100k: nat, ds: seq<Sent>): seq<bool>
    requires 1 <= blockSize100k <= 9 && AllSent(ds, blockSize100k)
  {
    MagicBits(blockSize100k) + (BlocksBits(step, ds, blockSize100k, 0) + TrailerBits(Combined(step, ds, |ds|)))
  }

  /** bytes are one whole stream for the given content: a header, blocks that together hold exactly the
      content in runs as long as possible and are as full as possible, one trailer with their combined
      checksum, and less than a byte of padding. */
  ghost predicate Complete(bytes: seq<int>, content: seq<int>, step: (Crc, int) -> Crc, blockSize100k: nat) {
    && Bytes(bytes) && 1 <= blockSize100k <= 9
    && exists ds: seq<Sent> :: CompleteVia(bytes, content, step, blockSize100k, ds)
  }

  /** The same for a stream written without a flush: only the end closes a block that is not full. byRun tells
      whether the last byte was taken in by a call that could not be the last. */
  ghost predicate CompleteWhole(bytes: seq<int>, content: seq<int>, step: (Crc, int) -> Crc, blockSize100k: nat,
                                byRun: bool)
  {
    && Bytes(bytes) && 1 <= blockSize100k <= 9
    && exists ds: seq<Sent> ::
         CompleteVia(bytes, content, step, blockSize100k, ds) && Whole(ds) && EndsBy(ds, blockSize100k, byRun)
  }

  /** A block that is full with the last byte is closed without it if more could have come, and otherwise with it. */
  ghost predicate EndsBy(ds: seq<Sent>, blockSize100k: nat, byRun: bool) {
    ds != [] ==>
      if byRun then Light(ds[|ds| - 1].runs, blockSize100k) else |ds| == 1 || |Plain(ds[|ds| - 1].runs, 0)| >= 2
  }

  ghost predicate Whole(ds: seq<Sent>) {
    forall k :: 0 <= k < |ds| - 1 ==> !ds[k].cut
  }

  ghost predicate CompleteVia(bytes: seq<int>, content: seq<int>, step: (Crc, int) -> Crc, blockSize100k: nat,
                              ds: seq<Sent>)
    requires Bytes(bytes) && 1 <= blockSize100k <= 9
  {
    && AllSent(ds, blockSize100k) && Content(ds, 0) == content
    && Chained(ds, blockSize100k) && (ds != [] ==> ds[|ds| - 1].cut)
    && StreamBits(step, blockSize100k, ds) <= ByteBits(bytes)
    && |ByteBits(bytes)| < |StreamBits(step, blockSize100k, ds)| + 8
  }
}
