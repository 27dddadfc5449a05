/** The bitmap of bucket headers the fallback sorter keeps in 32-bit words, and its word-at-a-time
    searches. A word is an unsigned number; or-ing in and masking out one bit are written out bit
    by bit. */
module HeaderBits {
  import opened Powers

  type Word = w: nat | w < 0x1_0000_0000

  function Bit(w: nat, k: nat): bool {
    if k == 0 then w % 2 == 1 else Bit(w / 2, k - 1)
  }

  /** w | 1 << k when b holds, w & ~(1 << k) otherwise. */
  function WithBit(w: nat, k: nat, b: bool): nat {
    if k == 0 then w / 2 * 2 + (if b then 1 else 0) else WithBit(w / 2, k - 1, b) * 2 + w % 2
  }

  lemma {:induction false} BitOfWithBit(w: nat, k: nat, b: bool, m: nat)
    ensures Bit(WithBit(w, k, b), m) == if m == k then b else Bit(w, m)
  {
    if k > 0 && m > 0 { BitOfWithBit(w / 2, k - 1, b, m - 1); }
  }

  lemma {:induction false} WithBitBound(w: nat, k: nat, b: bool, n: nat)
    requires w < Pow2(n) && k < n
    ensures WithBit(w, k, b) < Pow2(n)
  {
    if k > 0 {
      assert w / 2 < Pow2(n - 1);
      WithBitBound(w / 2, k - 1, b, n - 1);
    }
  }

  /** The n low bits of w are all b. */
  ghost predicate LowBits(w: nat, n: nat, b: bool) {
    forall k :: 0 <= k < n ==> Bit(w, k) == b
  }

  lemma LowBitsHalf(w: nat, n: nat, b: bool)
    requires n > 0
    ensures LowBits(w, n, b) <==> (w % 2 == 1) == b && LowBits(w / 2, n - 1, b)
  {
    assert Bit(w, 0) == (w % 2 == 1);
    if LowBits(w, n, b) {
      forall k | 0 <= k < n - 1 ensures Bit(w / 2, k) == b {
        assert Bit(w, k + 1) == Bit(w / 2, k);
      }
    }
    forall k | 1 <= k < n ensures Bit(w, k) == Bit(w / 2, k - 1) {
    }
  }

  /** The two word comparisons test all bits at once. */
  lemma {:induction false} WordTests(w: nat, n: nat)
    requires w < Pow2(n)
    ensures w == 0 <==> LowBits(w, n, false)
    ensures w == Pow2(n) - 1 <==> LowBits(w, n, true)
  {
    if n > 0 {
      WordTests(w / 2, n - 1);
      LowBitsHalf(w, n, false);
      LowBitsHalf(w, n, true);
    }
  }

  /** The bitmap as a sequence of bits. */
  ghost function Bits(t: seq<Word>): (r: seq<bool>)
    ensures |r| == 32 * |t|
    ensures forall z :: 0 <= z < 32 * |t| ==> r[z] == Bit(t[z / 32], z % 32)
  {
    seq(32 * |t|, z requires 0 <= z < 32 * |t| => Bit(t[z / 32], z % 32))
  }

  lemma UpdateWord(t: seq<Word>, z: nat, v: Word, b: bool)
    requires z < 32 * |t|
    requires forall m :: 0 <= m < 32 ==> Bit(v, m) == if m == z % 32 then b else Bit(t[z / 32], m)
    ensures Bits(t[z / 32 := v]) == Bits(t)[z := b]
  {
    var u := t[z / 32 := v];
    forall y | 0 <= y < 32 * |t| ensures Bits(u)[y] == Bits(t)[z := b][y] {
      assert y == 32 * (y / 32) + y % 32 && z == 32 * (z / 32) + z % 32;
      assert Bits(u)[y] == Bit(u[y / 32], y % 32) && Bits(t)[y] == Bit(t[y / 32], y % 32);
    }
  }

  /** SET_BH */
  method SetBh(bhtab: array<Word>, zz: nat)
    requires zz < 32 * bhtab.Length
    modifies bhtab
    ensures Bits(bhtab[..]) == Bits(old(bhtab[..]))[zz := true]
  {
    ghost var t := bhtab[..];
    Pow2Is32();
    WithBitBound(bhtab[zz / 32], zz % 32, true, 32);
    bhtab[zz / 32] := WithBit(bhtab[zz / 32], zz % 32, true);
    forall m | 0 <= m < 32 ensures Bit(bhtab[zz / 32], m) == (m == zz % 32 || Bit(t[zz / 32], m)) {
      BitOfWithBit(t[zz / 32], zz % 32, true, m);
    }
    UpdateWord(t, zz, bhtab[zz / 32], true);
    assert bhtab[..] == t[zz / 32 := bhtab[zz / 32]];
  }

  /** CLEAR_BH */
  method ClearBh(bhtab: array<Word>, zz: nat)
    requires zz < 32 * bhtab.Length
    modifies bhtab
    ensures Bits(bhtab[..]) == Bits(old(bhtab[..]))[zz := false]
  {
    ghost var t := bhtab[..];
    Pow2Is32();
    WithBitBound(bhtab[zz / 32], zz % 32, false, 32);
    bhtab[zz / 32] := WithBit(bhtab[zz / 32], zz % 32, false);
    forall m | 0 <= m < 32 ensures Bit(bhtab[zz / 32], m) == (m != zz % 32 && Bit(t[zz / 32], m)) {
      BitOfWithBit(t[zz / 32], zz % 32, false, m);
    }
    UpdateWord(t, zz, bhtab[zz / 32], false);
    assert bhtab[..] == t[zz / 32 := bhtab[zz / 32]];
  }

  /** ISSET_BH */
  method IsSetBh(bhtab: array<Word>, zz: nat) returns (b: bool)
    requires zz < 32 * bhtab.Length
    ensures b == Bits(bhtab[..])[zz]
  {
    b := Bit(bhtab[zz / 32], zz % 32);
  }

  /** All bits from k0 up to k are b. */
  ghost predicate Uniform(bits: seq<bool>, k0: int, k: int, b: bool) {
    0 <= k0 <= k <= |bits| && forall z :: k0 <= z < k ==> bits[z] == b
  }

  lemma UniformStep(bits: seq<bool>, k0: nat, k: nat, b: bool)
    requires k0 <= k < |bits|
    ensures k == k0 ==> Uniform(bits, k0, k, b)
    ensures Uniform(bits, k0, k, b) && bits[k] == b ==> Uniform(bits, k0, k + 1, b)
  {
  }

  /** A word comparison that succeeds settles 32 bits. */
  lemma UniformWord(t: seq<Word>, k0: nat, k: nat, b: bool, c: nat)
    requires Uniform(Bits(t), k0, k, b) && k % 32 == 0 && k <= c < 32 * |t| && Bits(t)[c] != b
    requires t[k / 32] == if b then 0xffff_ffff else 0
    ensures Uniform(Bits(t), k0, k + 32, b) && k + 32 <= c
  {
    hide Bit;
    Pow2Is32();
    WordTests(t[k / 32], 32);
    forall z | k <= z < k + 32 ensures Bits(t)[z] == b {
      assert z / 32 == k / 32 && z % 32 == z - k;
      assert Bit(t[k / 32], z - k) == b;
    }
  }

  /** First clear bit from k0 on: bit by bit up to a word boundary, by whole words, and bit by bit
      again. Some bit c at or after k0 must be clear. */
  method NextClear(bhtab: array<Word>, k0: nat, ghost c: nat) returns (k: nat)
    requires k0 <= c < 32 * bhtab.Length && !Bits(bhtab[..])[c]
    ensures k <= c && Uniform(Bits(bhtab[..]), k0, k, true) && !Bits(bhtab[..])[k]
  {
    hide Bits, Bit, Uniform;
    ghost var bits := Bits(bhtab[..]);
    k := k0;
    UniformStep(bits, k0, k0, true);
    var b := IsSetBh(bhtab, k);
    while b && k % 32 != 0
      invariant k <= c && Uniform(bits, k0, k, true) && b == bits[k]
      decreases c - k
    {
      UniformStep(bits, k0, k, true);
      k := k + 1;
      b := IsSetBh(bhtab, k);
    }
    if b {
      while bhtab[k / 32] == 0xffff_ffff
        invariant k <= c && Uniform(bits, k0, k, true) && k % 32 == 0
        decreases c - k
      {
        UniformWord(bhtab[..], k0, k, true, c);
        k := k + 32;
      }
      b := IsSetBh(bhtab, k);
      while b
        invariant k <= c && Uniform(bits, k0, k, true) && b == bits[k]
        decreases c - k
      {
        UniformStep(bits, k0, k, true);
        k := k + 1;
        b := IsSetBh(bhtab, k);
      }
    }
  }

  /** First set bit from k0 on, searched in the same three stages. */
  method NextSet(bhtab: array<Word>, k0: nat, ghost c: nat) returns (k: nat)
    requires k0 <= c < 32 * bhtab.Length && Bits(bhtab[..])[c]
    ensures k <= c && Uniform(Bits(bhtab[..]), k0, k, false) && Bits(bhtab[..])[k]
  {
    hide Bits, Bit, Uniform;
    ghost var bits := Bits(bhtab[..]);
    k := k0;
    UniformStep(bits, k0, k0, false);
    var b := IsSetBh(bhtab, k);
    while !b && k % 32 != 0
      invariant k <= c && Uniform(bits, k0, k, false) && b == bits[k]
      decreases c - k
    {
      UniformStep(bits, k0, k, false);
      k := k + 1;
      b := IsSetBh(bhtab, k);
    }
    if !b {
      while bhtab[k / 32] == 0
        invariant k <= c && Uniform(bits, k0, k, false) && k % 32 == 0
        decreases c - k
      {
        UniformWord(bhtab[..], k0, k, false, c);
        k := k + 32;
      }
      b := IsSetBh(bhtab, k);
      while !b
        invariant k <= c && Uniform(bits, k0, k, false) && b == bits[k]
        decreases c - k
      {
        UniformStep(bits, k0, k, false);
        k := k + 1;
        b := IsSetBh(bhtab, k);
      }
    }
  }
}
