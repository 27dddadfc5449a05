/** Block checksums and how they combine into the stream's checksum. How one byte enters a checksum
    is given. */
module Checksums {
  import opened BitIO
  import opened Bits
  import opened Powers

  /** A 32-bit checksum. */
  type Crc = c: nat | c < 0x1_0000_0000

  const INITIAL: Crc := 0xffff_ffff

  /** BZ_FINALISE_CRC: all bits inverted. */
  function Complement(c: Crc): Crc {
    0xffff_ffff - c
  }

  function Fold(step: (Crc, int) -> Crc, crc: Crc, s: seq<int>): Crc {
    if |s| == 0 then crc else step(Fold(step, crc, s[..|s| - 1]), s[|s| - 1])
  }

  lemma FoldGrows(step: (Crc, int) -> Crc, crc: Crc, s: seq<int>, c: int)
    ensures Fold(step, crc, s + [c]) == step(Fold(step, crc, s), c)
  {
    assert (s + [c])[..|s|] == s;
  }

  lemma {:induction false} FoldJoin(step: (Crc, int) -> Crc, crc: Crc, s: seq<int>, t: seq<int>)
    ensures Fold(step, crc, s + t) == Fold(step, Fold(step, crc, s), t)
    decreases |t|
  {
    if |t| == 0 {
      assert s + t == s;
    } else {
      var r, c := t[..|t| - 1], t[|t| - 1];
      FoldJoin(step, crc, s, r);
      assert s + t == (s + r) + [c];
      FoldGrows(step, crc, s + r, c);
    }
  }

  /** Exclusive or of the n low bits. */
  function Xor(a: nat, b: nat, n: nat): (x: nat)
    ensures x < Pow2(n)
  {
    if n == 0 then 0 else 2 * Xor(a / 2, b / 2, n - 1) + (if a % 2 != b % 2 then 1 else 0)
  }

  /** A block's checksum enters the stream's: one rotation to the left and an exclusive or. */
  function Combine(combined: Crc, block: Crc): Crc {
    Pow2Is32();
    Xor(combined * 2 % 0x1_0000_0000 + combined / 0x8000_0000, block, 32)
  }

  lemma {:induction false} XorZero(b: nat, n: nat)
    requires b < Pow2(n)
    ensures Xor(0, b, n) == b
  {
    if n > 0 { XorZero(b / 2, n - 1); }
  }

  /** A stream of one block has that block's checksum. */
  lemma CombineFirst(c: Crc)
    ensures Combine(0, c) == c
  {
    hide Xor;
    Pow2Is32();
    XorZero(c, 32);
  }

  lemma {:induction false} XorBits(a: nat, b: nat, n: nat, k: nat)
    requires k < n
    ensures BitsOf(Xor(a, b, n), n)[k] == (BitsOf(a, n)[k] != BitsOf(b, n)[k])
  {
    var h, d := Xor(a / 2, b / 2, n - 1), if a % 2 != b % 2 then 1 else 0;
    assert (2 * h + d) / 2 == h && (2 * h + d) % 2 == d;
    if k < n - 1 { XorBits(a / 2, b / 2, n - 1, k); }
  }

  /** One rotation to the left. */
  lemma RotatedBits(c: Crc)
    ensures var r := c * 2 % 0x1_0000_0000 + c / 0x8000_0000;
            BitsOf(r, 32) == BitsOf(c, 32)[1..] + [BitsOf(c, 32)[0]]
  {
    hide BitsOf;
    TopBit(c);
    var d := c / 0x8000_0000;
    assert (2 * c + d) % WORD == c * 2 % WORD + d;
    ShiftBits(c, d, 32);
  }

  /** The combined checksum, bit by bit: each bit is the next lower one of the old checksum, the lowest the
      highest, unless the block's bit at that place is set, which inverts it. */
  lemma CombineBits(combined: Crc, block: Crc, k: nat)
    requires k < 32
    ensures BitsOf(Combine(combined, block), 32)[k] ==
            (BitsOf(combined, 32)[(k + 1) % 32] != BitsOf(block, 32)[k])
  {
    hide BitsOf, Xor;
    Pow2Is32();
    RotatedBits(combined);
    XorBits(combined * 2 % 0x1_0000_0000 + combined / 0x8000_0000, block, 32, k);
  }

  /** Finalising inverts every bit. */
  lemma {:induction false} InvertedBits(c: nat, m: nat, n: nat, k: nat)
    requires m == Pow2(n) - 1 && c <= m && k < n
    ensures BitsOf(m - c, n)[k] == !BitsOf(c, n)[k]
  {
    var h := Pow2(n - 1) - 1;
    assert m == 2 * h + 1 && (m - c) / 2 == h - c / 2 && (m - c) % 2 == 1 - c % 2;
    if k < n - 1 { InvertedBits(c / 2, h, n - 1, k); }
  }

  lemma ComplementBits(c: Crc, k: nat)
    requires k < 32
    ensures BitsOf(Complement(c), 32)[k] == !BitsOf(c, 32)[k]
  {
    hide BitsOf;
    Pow2Is32();
    InvertedBits(c, 0xffff_ffff, 32, k);
  }
}
