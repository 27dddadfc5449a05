/** How the compressor cuts data into blocks: which runs they hold is a function of the data, however the data
    arrive, with one exception, a single byte behind a full block. */
module BlockCuts {
  import opened BitIO
  import opened BlockCompressor
  import opened BlockFormat
  import opened Checksums
  import opened Compressor
  import opened InverseBwt
  import opened MoveToFront
  import opened MtfEncoder
  import opened Rle
  import opened Rotation
  import opened StreamFormat

  /** The runs of the blocks from block k on. */
  ghost function RunsFrom(ds: seq<Sent>, k: nat): seq<Run>
    requires k <= |ds|
    decreases |ds| - k
  {
    if k == |ds| then [] else ds[k].runs + RunsFrom(ds, k + 1)
  }

  lemma {:induction false} PlainJoin(rs: seq<Run>, ts: seq<Run>, k: nat)
    requires k <= |rs|
    ensures Plain(rs + ts, k) == Plain(rs, k) + Plain(ts, 0)
    decreases |rs| - k
  {
    hide Times;
    if k == |rs| {
      PlainShift(rs, ts, 0);
      assert [] + Plain(ts, 0) == Plain(ts, 0);
    } else {
      PlainJoin(rs, ts, k + 1);
      var t := Times(rs[k].0, rs[k].1);
      assert t + (Plain(rs, k + 1) + Plain(ts, 0)) == (t + Plain(rs, k + 1)) + Plain(ts, 0);
    }
  }

  lemma {:induction false} PlainShift(rs: seq<Run>, ts: seq<Run>, k: nat)
    requires k <= |ts|
    ensures Plain(rs + ts, |rs| + k) == Plain(ts, k)
    decreases |ts| - k
  {
    if k < |ts| { PlainShift(rs, ts, k + 1); }
  }

  /** The content is what all the runs stand for. */
  lemma {:induction false} ContentIsPlain(ds: seq<Sent>, k: nat)
    requires k <= |ds|
    ensures Content(ds, k) == Plain(RunsFrom(ds, k), 0)
    decreases |ds| - k
  {
    if k < |ds| {
      ContentIsPlain(ds, k + 1);
      PlainJoin(ds[k].runs, RunsFrom(ds, k + 1), 0);
    }
  }

  /** In a stream without a flush all runs together are as long as possible. */
  lemma {:induction false} SinceIsAll(ds: seq<Sent>, k: nat)
    requires k <= |ds| && forall j :: 0 <= j < k ==> !ds[j].cut
    ensures Since(ds[..k]) + RunsFrom(ds, k) == RunsFrom(ds, 0)
  {
    if k > 0 {
      SinceIsAll(ds, k - 1);
      assert ds[..k][..k - 1] == ds[..k - 1];
      var a, b, c := Since(ds[..k - 1]), ds[k - 1].runs, RunsFrom(ds, k);
      assert (a + b) + c == a + (b + c);
    } else {
      assert [] + RunsFrom(ds, 0) == RunsFrom(ds, 0);
    }
  }

  lemma AllAreRuns(ds: seq<Sent>, size: nat)
    requires Chained(ds, size) && Whole(ds)
    ensures Runs(RunsFrom(ds, 0))
  {
    if ds != [] {
      var n := |ds| - 1;
      SinceIsAll(ds, n);
      assert RunsFrom(ds, n) == ds[n].runs + RunsFrom(ds, n + 1) == ds[n].runs;
    }
  }

  /* ---- Cutting runs into blocks ---- */

  /** The least number of runs, k or more, that fill a block, or all of them. */
  ghost function Enough(rs: seq<Run>, size: nat, k: nat): (n: nat)
    requires k <= |rs|
    ensures k <= n <= |rs| && (n == |rs| || |Packed(rs[..n], 0)| >= FullAt(size))
    decreases |rs| - k
  {
    if k == |rs| || |Packed(rs[..k], 0)| >= FullAt(size) then k else Enough(rs, size, k + 1)
  }

  /** The blocks that runs are cut into, each closed as soon as it is full. */
  ghost function Blocks(rs: seq<Run>, size: nat): seq<seq<Run>> {
    if rs == [] then [] else [rs[..Enough(rs, size, 1)]] + Blocks(rs[Enough(rs, size, 1)..], size)
  }

  lemma {:induction false} PackedGrowsWith(rs: seq<Run>, j: nat, k: nat)
    requires j <= k <= |rs|
    ensures |Packed(rs[..j], 0)| <= |Packed(rs[..k], 0)|
    decreases k
  {
    if j < k {
      PackedGrowsWith(rs, j, k - 1);
      assert rs[..k] == rs[..k - 1] + [rs[k - 1]];
      PackedGrows(rs[..k - 1], rs[k - 1], 0);
    }
  }

  /** The first runs that fill a block. */
  lemma {:induction false} EnoughIs(rs: seq<Run>, size: nat, k: nat, n: nat)
    requires k <= n <= |rs| && (n > k ==> |Packed(rs[..n - 1], 0)| < FullAt(size))
    requires n == |rs| || |Packed(rs[..n], 0)| >= FullAt(size)
    ensures Enough(rs, size, k) == n
    decreases n - k
  {
    if k < n {
      PackedGrowsWith(rs, k, n - 1);
      EnoughIs(rs, size, k + 1, n);
    }
  }

  /** The runs of the blocks from block k on, block by block. */
  ghost function RunLists(ds: seq<Sent>, k: nat): seq<seq<Run>>
    requires k <= |ds|
    decreases |ds| - k
  {
    if k == |ds| then [] else [ds[k].runs] + RunLists(ds, k + 1)
  }

  /** The last block is a single byte, behind a full block. */
  ghost predicate Overhangs(bs: seq<seq<Run>>) {
    |bs| >= 2 && |bs[|bs| - 1]| == 1 && bs[|bs| - 1][0].1 == 1
  }

  /** The last two blocks in one. */
  ghost function Merged(bs: seq<seq<Run>>): seq<seq<Run>>
    requires |bs| >= 2
  {
    bs[..|bs| - 2] + [bs[|bs| - 2] + bs[|bs| - 1]]
  }

  /** The blocks bs, of which the last two may have become one. */
  ghost predicate IsCut(cs: seq<seq<Run>>, bs: seq<seq<Run>>) {
    cs == bs || (Overhangs(bs) && cs == Merged(bs))
  }

  lemma OneBlockLeft(rs: seq<Run>, size: nat)
    requires rs != [] && Light(rs, size)
    ensures Blocks(rs, size) == [rs]
  {
    EnoughIs(rs, size, 1, |rs|);
    assert rs[..|rs|] == rs && rs[|rs|..] == [];
    assert [rs] + [] == [rs];
  }

  /** A full block and a single byte. */
  lemma TwoBlocksLeft(rs: seq<Run>, size: nat)
    requires |rs| >= 1 && Light(rs[..|rs| - 1], size) && !Light(rs, size) && 1 <= size
    ensures |rs| >= 2 && Blocks(rs, size) == [rs[..|rs| - 1], [rs[|rs| - 1]]]
  {
    var n := |rs| - 1;
    assert rs[..0] == [];
    assert rs[..n][..n - 1] == rs[..n - 1];
    EnoughIs(rs, size, 1, n);
    var last := rs[n..];
    assert last == [rs[n]];
    assert last[..0] == [] && Packed([], 0) == [];
    OneBlockLeft(last, size);
    assert [rs[..n]] + [last] == [rs[..n], [rs[n]]];
  }

  /** A last block is one that the runs are cut into, or holds a full block and a single byte. */
  lemma LastBlockIs(rs: seq<Run>, size: nat)
    requires Filled(rs, true, size) && 1 <= size
    ensures IsCut([rs], Blocks(rs, size))
  {
    hide Packed;
    if Light(rs, size) {
      OneBlockLeft(rs, size);
    } else {
      TwoBlocksLeft(rs, size);
      var n := |rs| - 1;
      assert rs[..n] + [rs[n]] == rs;
      assert Merged([rs[..n], [rs[n]]]) == [] + [rs[..n] + [rs[n]]] == [rs];
    }
  }

  /** A full block is the first one that its runs and those after it are cut into. */
  lemma FullBlockFirst(rs: seq<Run>, ts: seq<Run>, size: nat)
    requires Filled(rs, false, size)
    ensures Blocks(rs + ts, size) == [rs] + Blocks(ts, size)
  {
    hide Packed;
    var all := rs + ts;
    assert all[..|rs|] == rs && all[..|rs| - 1] == rs[..|rs| - 1];
    EnoughIs(all, size, 1, |rs|);
    assert all[|rs|..] == ts;
  }

  /** The blocks of a stream without a flush are those the runs of its content are cut into; only a single byte
      behind a full block may have gone into that block. */
  lemma {:induction false} BlocksAre(ds: seq<Sent>, size: nat, k: nat)
    requires Chained(ds, size) && Whole(ds) && k < |ds| && ds[|ds| - 1].cut && 1 <= size
    ensures IsCut(RunLists(ds, k), Blocks(RunsFrom(ds, k), size))
    decreases |ds| - k
  {
    assert Filled(ds[k].runs, ds[k].cut, size);
    hide Runs, Packed, Chained, Filled, Blocks, IsCut;
    if k == |ds| - 1 {
      assert RunsFrom(ds, k + 1) == [] && RunLists(ds, k + 1) == [];
      assert RunsFrom(ds, k) == ds[k].runs && RunLists(ds, k) == [ds[k].runs];
      LastBlockIs(ds[k].runs, size);
    } else {
      BlocksAre(ds, size, k + 1);
      FullBlockFirst(ds[k].runs, RunsFrom(ds, k + 1), size);
      MergedBehind(ds[k].runs, RunLists(ds, k + 1), Blocks(RunsFrom(ds, k + 1), size));
    }
  }

  lemma MergedBehind(r: seq<Run>, cs: seq<seq<Run>>, bs: seq<seq<Run>>)
    requires IsCut(cs, bs)
    ensures IsCut([r] + cs, [r] + bs)
  {
    if cs != bs { assert Merged([r] + bs) == [r] + Merged(bs); }
  }

  /** The blocks for runs: a single last byte behind a full block goes into that block, unless it was taken in
      before the end was known. */
  ghost function BlocksOf(rs: seq<Run>, size: nat, byRun: bool): seq<seq<Run>> {
    if !byRun && Overhangs(Blocks(rs, size)) then Merged(Blocks(rs, size)) else Blocks(rs, size)
  }

  lemma {:induction false} RunListsAt(ds: seq<Sent>, k: nat, j: nat)
    requires k <= j < |ds|
    ensures |RunLists(ds, k)| == |ds| - k && RunLists(ds, k)[j - k] == ds[j].runs
    decreases |ds| - k
  {
    if k == j {
      if k + 1 < |ds| { RunListsAt(ds, k + 1, |ds| - 1); }
    } else {
      RunListsAt(ds, k + 1, j);
    }
  }

  /** All blocks but the last are full. */
  lemma {:induction false} BlocksFull(rs: seq<Run>, size: nat, k: nat)
    requires k + 1 < |Blocks(rs, size)|
    ensures |Packed(Blocks(rs, size)[k], 0)| >= FullAt(size)
  {
    var n := Enough(rs, size, 1);
    if k > 0 {
      BlocksFull(rs[n..], size, k - 1);
    } else {
      assert |rs[n..]| > 0;
    }
  }

  /** A single byte is not a block of its own at the end, and does not go into a full block before. */
  lemma LastTells(ds: seq<Sent>, bs: seq<seq<Run>>, size: nat, byRun: bool)
    requires ds != [] && Overhangs(bs) && |Packed(bs[|bs| - 2], 0)| >= FullAt(size)
    requires RunLists(ds, 0) == if byRun then Merged(bs) else bs
    ensures !EndsBy(ds, size, byRun)
  {
    var n, m := |ds|, |bs|;
    RunListsAt(ds, 0, n - 1);
    var last := ds[n - 1].runs;
    if byRun {
      assert last == bs[m - 2] + bs[m - 1];
      assert last[..|last| - 1] == bs[m - 2];
    } else {
      assert last == bs[m - 1];
      assert Plain(last, 0) == Times(last[0].0, 1) + Plain(last, 1);
    }
  }

  /** The blocks of a stream without a flush are a function of its content and of whether its last byte was taken in
      by RUN; how the data and the output were divided among the calls is not seen. */
  lemma BlocksExactly(ds: seq<Sent>, size: nat, byRun: bool)
    requires Chained(ds, size) && Whole(ds) && (ds != [] ==> ds[|ds| - 1].cut) && 1 <= size
    requires EndsBy(ds, size, byRun)
    ensures RunLists(ds, 0) == BlocksOf(RunsFrom(ds, 0), size, byRun)
  {
    hide Chained, Overhangs, Runs, Plain, Blocks, Merged, EndsBy, Packed;
    NoRunsNoBlocks(ds, size);
    NothingCut(size);
    if ds != [] {
      BlocksAre(ds, size, 0);
      var bs := Blocks(RunsFrom(ds, 0), size);
      if Overhangs(bs) {
        OverhangsTwo(bs);
        BlocksFull(RunsFrom(ds, 0), size, |bs| - 2);
        if RunLists(ds, 0) == if byRun then Merged(bs) else bs { LastTells(ds, bs, size, byRun); }
      }
    }
  }

  lemma OverhangsTwo(bs: seq<seq<Run>>)
    ensures Overhangs(bs) ==> |bs| >= 2
  {
  }

  lemma NothingCut(size: nat)
    ensures Blocks([], size) == [] && !Overhangs([])
  {
  }

  /** Two streams of the same data, written without a flush, consist of the same blocks if their last bytes were
      taken in alike; and if they were not, exactly if the data do not end with a single byte behind a full block. */
  lemma SameBlocks(ds: seq<Sent>, es: seq<Sent>, size: nat, byRun: bool, byRun2: bool)
    requires Chained(ds, size) && Whole(ds) && (ds != [] ==> ds[|ds| - 1].cut) && 1 <= size
    requires Chained(es, size) && Whole(es) && (es != [] ==> es[|es| - 1].cut)
    requires EndsBy(ds, size, byRun) && EndsBy(es, size, byRun2) && Content(ds, 0) == Content(es, 0)
    ensures RunsFrom(ds, 0) == RunsFrom(es, 0)
    ensures RunLists(ds, 0) == RunLists(es, 0) <==> byRun == byRun2 || !Overhangs(Blocks(RunsFrom(ds, 0), size))
  {
    hide Chained, Overhangs, Runs, Plain, Blocks, EndsBy;
    ContentIsPlain(ds, 0);
    ContentIsPlain(es, 0);
    AllAreRuns(ds, size);
    AllAreRuns(es, size);
    RunsUnique(RunsFrom(ds, 0), 0, RunsFrom(es, 0), 0);
    assert RunsFrom(ds, 0)[0..] == RunsFrom(ds, 0) && RunsFrom(es, 0)[0..] == RunsFrom(es, 0);
    BlocksExactly(ds, size, byRun);
    BlocksExactly(es, size, byRun2);
    OverhangsTwo(Blocks(RunsFrom(ds, 0), size));
  }

  lemma NoRunsNoBlocks(ds: seq<Sent>, size: nat)
    requires Chained(ds, size)
    ensures RunsFrom(ds, 0) == [] <==> ds == []
    ensures ds == [] ==> RunLists(ds, 0) == []
  {
    if ds != [] { assert Filled(ds[0].runs, ds[0].cut, size); }
  }

  /** n + 1 runs of single bytes. */
  ghost function Singles(n: nat): (rs: seq<Run>)
    ensures |rs| == n + 1 && Runs(rs) && forall k :: 0 <= k <= n ==> rs[k] == (k % 2, 1)
  {
    seq(n + 1, k requires 0 <= k <= n => (k % 2, 1))
  }

  lemma {:induction false} SinglesSize(rs: seq<Run>, k: nat)
    requires k <= |rs| && forall j :: 0 <= j < |rs| ==> rs[j].1 == 1
    ensures |Packed(rs, k)| == |rs| - k
    decreases |rs| - k
  {
    if k < |rs| { SinglesSize(rs, k + 1); }
  }

  /** Data that end with a single byte behind a full block. */
  lemma SomeOverhang(size: nat)
    requires 1 <= size
    ensures Overhangs(Blocks(Singles(FullAt(size)), size))
  {
    var n := FullAt(size);
    var rs := Singles(n);
    SinglesSize(rs[..n], 0);
    SinglesSize(rs[..n][..n - 1], 0);
    TwoBlocksLeft(rs, size);
  }

  /** Both ways: the same data handed over by calls that end the stream, and by calls that do not. */
  method TwoWays(data: seq<int>, blockSize100k: nat, workFactor: nat, step: (Crc, int) -> Crc, rooms: nat -> nat)
    returns (byFinish: seq<int>, byRun: seq<int>)
    requires Bytes(data) && data != [] && 1 <= blockSize100k <= 9 && workFactor <= 250
    requires forall i: nat :: rooms(i) > 0
    ensures CompleteWhole(byFinish, data, step, blockSize100k, false)
    ensures CompleteWhole(byRun, data, step, blockSize100k, true)
  {
    hide EState.Valid, EState.Given, EState.Taken, EState.Resting, CompleteWhole, Complete;
    var s := new EState(blockSize100k, workFactor, step);
    byFinish := FinishAll(s, data, rooms);
    assert [] + data == data && [] + byFinish == byFinish;
    var t := new EState(blockSize100k, workFactor, step);
    var out := RunAll(t, data, rooms);
    byRun := FinishAll(t, [], rooms);
    assert data + [] == data && [] + out == out;
    byRun := out + byRun;
  }

  /** What is sent for equal blocks marks the same characters and has the same symbols, whichever sorted order
      was found. */
  lemma SameSymbols(b: seq<int>, o: nat, x: Coded, o2: nat, y: Coded)
    requires Encodes(b, o, x) && Encodes(b, o2, y)
    ensures x.inUse == y.inUse && x.symbols == y.symbols
  {
    hide Sound, Symbols, Ranked, SortsRotations, UsedBelow, TablesChosen;
    var p: seq<int>, r: seq<int> :| EncodesVia(b, o, x, p, r);
    var q: seq<int>, t: seq<int> :| EncodesVia(b, o2, y, q, t);
    LastColumnUnique(b, p, q);
    UsedMarks(b, p, x.inUse);
    UsedMarks(b, q, y.inUse);
    var l := LastColumn(b, p);
    assert x.inUse == y.inUse;
    var n := UsedBelow(x.inUse, 256);
    RankCount(Numbered(x.inUse, l), n, r);
    RankCount(Numbered(x.inUse, l), n, t);
    RanksUnique(Numbered(x.inUse, l), n, r, t, |r|);
    assert r == t;
  }

  lemma RankCount(col: seq<int>, n: nat, r: seq<int>)
    requires Ranked(col, n, r)
    ensures |r| == |col|
  {
  }

  /** The marks are those of the block's characters. */
  lemma UsedMarks(b: seq<int>, p: seq<int>, inUse: seq<bool>)
    requires SortsRotations(b, p) && AllUsed(inUse, LastColumn(b, p)) && OnlyUsed(inUse, b)
    ensures SortedTo(b, p, |b|) && |inUse| == 256 && forall c :: 0 <= c < 256 ==> (inUse[c] <==> c in b)
  {
    forall c | 0 <= c < 256 && c in b ensures inUse[c] {
      var i :| 0 <= i < |b| && b[i] == c;
      PermCovers(p, |b|, Next(i, |b|));
      var k :| 0 <= k < |b| && p[k] == Next(i, |b|);
      assert LastColumn(b, p)[k] == b[i];
    }
  }
}
