/** The initial run-length code: runs of four and more equal bytes are written as four bytes and a
    count. */
module Rle {

  /** n times c. */
  function Times(c: int, n: nat): (s: seq<int>)
    ensures |s| == n && forall i :: 0 <= i < n ==> s[i] == c
  {
    seq(n, _ => c)
  }

  /** A run: a byte and how often it occurs. */
  type Run = (int, nat)

  /** What add_pair_to_block appends for a run. */
  function RunBytes(r: Run): (s: seq<int>)
    ensures |s| == if r.1 < 4 then r.1 else 5
  {
    if r.1 < 4 then Times(r.0, r.1) else Times(r.0, 4) + [r.1 - 4]
  }

  /** Runs as they come out of the encoder: lengths 1 to 255, and only a run of 255 is followed by one of the
      same byte. */
  ghost predicate Runs(rs: seq<Run>) {
    && (forall k :: 0 <= k < |rs| ==> 0 <= rs[k].0 < 256 && 1 <= rs[k].1 <= 255)
    && forall k :: 1 <= k < |rs| ==> Follows(rs, k)
  }

  ghost predicate Follows(rs: seq<Run>, k: int)
    requires 1 <= k < |rs|
  {
    rs[k - 1].0 != rs[k].0 || rs[k - 1].1 == 255
  }

  /** The bytes of a block, and the bytes they stand for, from run k on. */
  function Packed(rs: seq<Run>, k: nat): seq<int>
    requires k <= |rs|
    decreases |rs| - k
  {
    if k == |rs| then [] else RunBytes(rs[k]) + Packed(rs, k + 1)
  }

  function Plain(rs: seq<Run>, k: nat): seq<int>
    requires k <= |rs|
    decreases |rs| - k
  {
    if k == |rs| then [] else Times(rs[k].0, rs[k].1) + Plain(rs, k + 1)
  }

  lemma {:induction false} PackedGrows(rs: seq<Run>, r: Run, k: nat)
    requires k <= |rs|
    ensures Packed(rs + [r], k) == Packed(rs, k) + RunBytes(r)
    ensures Plain(rs + [r], k) == Plain(rs, k) + Times(r.0, r.1)
    decreases |rs| - k
  {
    hide RunBytes, Times;
    if k == |rs| {
      assert Packed(rs + [r], k + 1) == [] && Plain(rs + [r], k + 1) == [];
      assert RunBytes(r) + [] == RunBytes(r) == [] + RunBytes(r);
      assert Times(r.0, r.1) + [] == Times(r.0, r.1) == [] + Times(r.0, r.1);
    } else {
      PackedGrows(rs, r, k + 1);
      assert (rs + [r])[k] == rs[k];
    }
  }

  /** How the bytes of the runs from k on begin: the first run, and behind it, unless it has the greatest
      length, another byte or nothing. */
  lemma PlainBegins(rs: seq<Run>, k: nat)
    requires Runs(rs) && k < |rs|
    ensures |Plain(rs, k)| >= rs[k].1 >= 1 && forall i :: 0 <= i < rs[k].1 ==> Plain(rs, k)[i] == rs[k].0
    ensures rs[k].1 < 255 && |Plain(rs, k)| > rs[k].1 ==> Plain(rs, k)[rs[k].1] != rs[k].0
  {
    if k + 1 < |rs| { assert Follows(rs, k + 1) && Plain(rs, k + 1)[0] == rs[k + 1].0; }
  }

  /** Runs are determined by the bytes they stand for. */
  lemma {:induction false} RunsUnique(rs: seq<Run>, j: nat, ts: seq<Run>, k: nat)
    requires Runs(rs) && Runs(ts) && j <= |rs| && k <= |ts| && Plain(rs, j) == Plain(ts, k)
    ensures rs[j..] == ts[k..]
    decreases |rs| - j
  {
    if j < |rs| && k < |ts| {
      PlainBegins(rs, j);
      PlainBegins(ts, k);
      var p, r, t := Plain(rs, j), rs[j], ts[k];
      assert r.0 == p[0] == t.0;
      assert Plain(rs, j + 1) == p[r.1..] == Plain(ts, k + 1);
      RunsUnique(rs, j + 1, ts, k + 1);
      assert rs[j..] == [r] + rs[j + 1..] && ts[k..] == [t] + ts[k + 1..];
    } else {
      if j < |rs| { PlainBegins(rs, j); }
      if k < |ts| { PlainBegins(ts, k); }
    }
  }

  lemma {:induction false} RunsPart(rs: seq<Run>, ts: seq<Run>)
    requires Runs(rs + ts)
    ensures Runs(rs) && Runs(ts)
  {
    var s := rs + ts;
    forall k | 1 <= k < |rs| ensures Follows(rs, k) { assert Follows(s, k) && s[k] == rs[k]; }
    forall k | 1 <= k < |ts| ensures Follows(ts, k) { assert Follows(s, |rs| + k) && s[|rs| + k] == ts[k]; }
    forall k | 0 <= k < |rs| ensures 0 <= rs[k].0 < 256 && 1 <= rs[k].1 <= 255 { assert s[k] == rs[k]; }
    forall k | 0 <= k < |ts| ensures 0 <= ts[k].0 < 256 && 1 <= ts[k].1 <= 255 { assert s[|rs| + k] == ts[k]; }
  }

  lemma RunsGrow(rs: seq<Run>, r: Run)
    requires Runs(rs) && 0 <= r.0 < 256 && 1 <= r.1 <= 255
    requires rs != [] ==> rs[|rs| - 1].0 != r.0 || rs[|rs| - 1].1 == 255
    ensures Runs(rs + [r])
  {
    var t := rs + [r];
    forall k | 1 <= k < |t| ensures Follows(t, k) {
      if k < |rs| { assert Follows(rs, k) && t[k] == rs[k] && t[k - 1] == rs[k - 1]; }
    }
  }

  /* ---- Decoding ---- */

  /** Length of the run that starts at i when n bytes make up the block; behind the block any bytes. */
  function RunLength(s: seq<int>, n: nat, i: nat): nat
    requires i < n && n + 5 <= |s| && 0 <= s[i + 4]
  {
    if i + 1 == n || s[i + 1] != s[i] then 1
    else if i + 2 == n || s[i + 2] != s[i] then 2
    else if i + 3 == n || s[i + 3] != s[i] then 3
    else s[i + 4] + 4
  }

  /** Where the next run starts. */
  function NextRun(s: seq<int>, n: nat, i: nat): (j: nat)
    requires i < n && n + 5 <= |s|
    ensures i < j <= i + 5
  {
    if i + 1 == n || s[i + 1] != s[i] then i + 1
    else if i + 2 == n || s[i + 2] != s[i] then i + 2
    else if i + 3 == n || s[i + 3] != s[i] then i + 3
    else i + 5
  }

  ghost predicate Readable(s: seq<int>, n: nat) {
    n + 5 <= |s| && forall i :: 0 <= i < |s| ==> 0 <= s[i] < 256
  }

  /** What the runs from i on stand for. */
  ghost function Expand(s: seq<int>, n: nat, i: nat): seq<int>
    requires Readable(s, n)
    decreases n + 5 - i
  {
    if i >= n then [] else Times(s[i], RunLength(s, n, i)) + Expand(s, n, NextRun(s, n, i))
  }

  /** Whether the last run ends exactly with the block. */
  ghost predicate EndsWell(s: seq<int>, n: nat, i: nat)
    requires Readable(s, n)
    decreases n + 5 - i
  {
    if i >= n then i == n else EndsWell(s, n, NextRun(s, n, i))
  }

  /** Runs the code can express, whoever writes it: lengths 1 to 259, and a run below four is not followed by one of
      the same byte. */
  ghost predicate Codable(rs: seq<Run>) {
    && (forall k :: 0 <= k < |rs| ==> 0 <= rs[k].0 < 256 && 1 <= rs[k].1 <= 259)
    && forall k :: 1 <= k < |rs| ==> Parted(rs, k)
  }

  ghost predicate Parted(rs: seq<Run>, k: int)
    requires 1 <= k < |rs|
  {
    rs[k - 1].0 != rs[k].0 || rs[k - 1].1 >= 4
  }

  lemma RunsCodable(rs: seq<Run>)
    requires Runs(rs)
    ensures Codable(rs)
  {
    forall k | 1 <= k < |rs| ensures Parted(rs, k) { assert Follows(rs, k); }
  }

  lemma {:induction false} PackedSize(rs: seq<Run>, k: nat)
    requires Codable(rs) && k <= |rs|
    ensures forall i :: 0 <= i < |Packed(rs, k)| ==> 0 <= Packed(rs, k)[i] < 256
    ensures k < |rs| ==> |Packed(rs, k)| >= 1 && Packed(rs, k)[0] == rs[k].0
    decreases |rs| - k
  {
    if k < |rs| {
      PackedSize(rs, k + 1);
      var b := RunBytes(rs[k]);
      assert b[0] == rs[k].0 && forall i :: 0 <= i < |b| ==> 0 <= b[i] < 256;
      hide RunBytes, Codable;
      assert Packed(rs, k) == b + Packed(rs, k + 1);
    }
  }

  /** How a run is recognised. */
  lemma Recognised(s: seq<int>, n: nat, i: nat, r: Run)
    requires i < n && Readable(s, n) && 1 <= r.1 <= 259 && i + |RunBytes(r)| <= n
    requires forall t :: 0 <= t < |RunBytes(r)| ==> s[i + t] == RunBytes(r)[t]
    requires r.1 < 4 && i + r.1 < n ==> s[i + r.1] != r.0
    ensures s[i] == r.0 && RunLength(s, n, i) == r.1 && NextRun(s, n, i) == i + |RunBytes(r)|
  {
    var b := RunBytes(r);
    assert s[i + 0] == b[0] == r.0;
    if r.1 > 1 { assert s[i + 1] == b[1] == r.0; }
    if r.1 > 2 { assert s[i + 2] == b[2] == r.0; }
    if r.1 > 3 { assert s[i + 3] == b[3] == r.0 && s[i + 4] == b[4] == r.1 - 4; }
  }

  /** The first run of a packed sequence is read as it was written. */
  lemma FirstRun(rs: seq<Run>, k: nat, s: seq<int>, n: nat, i: nat)
    requires Codable(rs) && k < |rs| && Readable(s, n) && i + |Packed(rs, k)| == n && s[i..n] == Packed(rs, k)
    ensures i < n && s[i] == rs[k].0 && RunLength(s, n, i) == rs[k].1 && NextRun(s, n, i) == i + |RunBytes(rs[k])|
    ensures i + |RunBytes(rs[k])| + |Packed(rs, k + 1)| == n && s[i + |RunBytes(rs[k])|..n] == Packed(rs, k + 1)
  {
    PackedSize(rs, k);
    PackedSize(rs, k + 1);
    var r, b, q := rs[k], RunBytes(rs[k]), Packed(rs, k + 1);
    var m := |b|;
    assert s[i..n] == b + q;
    assert k + 1 < |rs| ==> Parted(rs, k + 1);
    assert 1 <= r.1 <= 259;
    hide Codable, RunBytes, Packed, Readable, RunLength, NextRun;
    SliceParts(s, i, n, b, q);
    RunSize(r);
    if k + 1 < |rs| { assert s[i + m] == q[0]; }
    Recognised(s, n, i, r);
  }

  lemma RunSize(r: Run)
    requires r.1 >= 1
    ensures |RunBytes(r)| >= 1 && (r.1 < 4 ==> |RunBytes(r)| == r.1)
  {
  }

  lemma SliceParts(s: seq<int>, i: nat, n: nat, b: seq<int>, q: seq<int>)
    requires i <= n <= |s| && s[i..n] == b + q
    ensures i + |b| + |q| == n && s[i + |b|..n] == q
    ensures forall t :: 0 <= t < |b| ==> s[i + t] == b[t]
    ensures |q| > 0 ==> s[i + |b|] == q[0]
  {
    var p := s[i..n];
    assert |p| == |b| + |q|;
    forall t | 0 <= t < |b| ensures s[i + t] == b[t] { assert s[i + t] == p[t]; }
    if |q| > 0 { assert s[i + |b|] == p[|b|]; }
    assert s[i + |b|..n] == p[|b|..];
  }

  /** Decoding undoes the code, whatever runs were coded and whatever stands behind the block. */
  lemma {:induction false} ExpandCodable(rs: seq<Run>, k: nat, s: seq<int>, n: nat, i: nat)
    requires Codable(rs) && k <= |rs| && Readable(s, n) && i + |Packed(rs, k)| == n && s[i..n] == Packed(rs, k)
    ensures Expand(s, n, i) == Plain(rs, k) && EndsWell(s, n, i)
    decreases |rs| - k
  {
    hide Packed, Plain, RunBytes, RunLength, NextRun, Codable, Readable, Times, Expand, EndsWell;
    NoRuns(rs);
    ExpandUnfolds(s, n, i);
    if k < |rs| {
      PlainUnfolds(rs, k);
      FirstRun(rs, k, s, n, i);
      ExpandCodable(rs, k + 1, s, n, i + |RunBytes(rs[k])|);
    }
  }

  lemma NoRuns(rs: seq<Run>)
    ensures Packed(rs, |rs|) == Plain(rs, |rs|) == []
  {
  }

  lemma PlainUnfolds(rs: seq<Run>, k: nat)
    requires k < |rs|
    ensures Plain(rs, k) == Times(rs[k].0, rs[k].1) + Plain(rs, k + 1)
  {
  }

  lemma ExpandUnfolds(s: seq<int>, n: nat, i: nat)
    requires Readable(s, n)
    ensures i >= n ==> Expand(s, n, i) == [] && (EndsWell(s, n, i) <==> i == n)
    ensures i < n ==> n + 5 <= |s| && 0 <= s[i + 4] && EndsWell(s, n, i) == EndsWell(s, n, NextRun(s, n, i))
    ensures i < n ==> Expand(s, n, i) == Times(s[i], RunLength(s, n, i)) + Expand(s, n, NextRun(s, n, i))
  {
  }

  /** The same for the runs a compressor writes. */
  lemma ExpandPacked(rs: seq<Run>, k: nat, s: seq<int>, n: nat, i: nat)
    requires Runs(rs) && k <= |rs| && Readable(s, n) && i + |Packed(rs, k)| == n && s[i..n] == Packed(rs, k)
    ensures Expand(s, n, i) == Plain(rs, k) && EndsWell(s, n, i)
  {
    RunsCodable(rs);
    ExpandCodable(rs, k, s, n, i);
  }

  lemma {:induction false} PackedShift(r: Run, rs: seq<Run>, k: nat)
    requires k <= |rs|
    ensures Packed([r] + rs, k + 1) == Packed(rs, k)
    decreases |rs| - k
  {
    hide RunBytes;
    var t := [r] + rs;
    if k < |rs| {
      PackedShift(r, rs, k + 1);
      assert t[k + 1] == rs[k];
      assert Packed(t, k + 1) == RunBytes(t[k + 1]) + Packed(t, k + 2);
    }
  }

  lemma PackedFront(r: Run, rs: seq<Run>)
    ensures Packed([r] + rs, 0) == RunBytes(r) + Packed(rs, 0)
  {
    hide RunBytes;
    PackedShift(r, rs, 0);
  }

  lemma CodableFront(r: Run, rs: seq<Run>)
    requires Codable(rs) && 0 <= r.0 < 256 && 1 <= r.1 <= 259 && (rs != [] && rs[0].0 == r.0 ==> r.1 >= 4)
    ensures Codable([r] + rs)
  {
    var t := [r] + rs;
    forall k | 1 <= k < |t| ensures Parted(t, k) {
      if k > 1 { assert Parted(rs, k - 1) && t[k] == rs[k - 1] && t[k - 1] == rs[k - 2]; }
    }
  }

  /** The run at i is coded by the bytes up to the next one. */
  lemma RunAt(s: seq<int>, n: nat, i: nat)
    requires Readable(s, n) && i < n && EndsWell(s, n, i)
    ensures n < |s| && NextRun(s, n, i) <= n && EndsWell(s, n, NextRun(s, n, i))
    ensures 0 <= s[i] < 256 && 0 <= s[i + 4] && 1 <= RunLength(s, n, i) <= 259
    ensures RunBytes((s[i], RunLength(s, n, i))) == s[i..NextRun(s, n, i)]
    ensures RunLength(s, n, i) < 4 && NextRun(s, n, i) < n ==> s[NextRun(s, n, i)] != s[i]
  {
  }

  /** The runs in bytes whose last run ends with the block. */
  lemma {:induction false} RunsRead(s: seq<int>, n: nat, i: nat) returns (rs: seq<Run>)
    requires Readable(s, n) && i <= n <= |s| && EndsWell(s, n, i)
    ensures Codable(rs) && Packed(rs, 0) == s[i..n]
    decreases n - i
  {
    if i == n {
      rs := [];
    } else {
      hide RunLength, NextRun, RunBytes, EndsWell, Codable, Packed, Readable;
      RunAt(s, n, i);
      var r, j := (s[i], RunLength(s, n, i)), NextRun(s, n, i);
      var q := RunsRead(s, n, j);
      PackedFront(r, q);
      PackedSize(q, 0);
      if q != [] { assert s[j] == s[j..n][0] == q[0].0; }
      CodableFront(r, q);
      rs := [r] + q;
      assert s[i..n] == s[i..j] + s[j..n];
    }
  }

  /** A block ends with its last run exactly if it is the code of some runs. */
  lemma EndsWellIff(s: seq<int>, n: nat)
    requires Readable(s, n)
    ensures EndsWell(s, n, 0) <==> exists rs: seq<Run> :: Codable(rs) && Packed(rs, 0) == s[..n]
  {
    assert n <= |s|;
    hide Expand, EndsWell, Readable, Codable, Packed;
    assert s[0..n] == s[..n];
    if EndsWell(s, n, 0) {
      var rs := RunsRead(s, n, 0);
      assert Codable(rs) && Packed(rs, 0) == s[..n];
    }
    forall rs: seq<Run> | Codable(rs) && Packed(rs, 0) == s[..n] ensures EndsWell(s, n, 0) {
      ExpandCodable(rs, 0, s, n, 0);
    }
  }
}
