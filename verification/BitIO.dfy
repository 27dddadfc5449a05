/** The bit writer of the compressor and the bit reader of the decompressor. */
module BitIO {
  import opened Bits
  import opened Powers

  const WORD := 0x1_0000_0000

  ghost predicate Bytes(s: seq<int>) {
    forall i :: 0 <= i < |s| ==> 0 <= s[i] < 256
  }

  /** The bits of a sequence of bytes. */
  ghost function ByteBits(bytes: seq<int>): (s: seq<bool>)
    requires Bytes(bytes)
    ensures |s| == 8 * |bytes|
  {
    if |bytes| == 0 then [] else ByteBits(bytes[..|bytes| - 1]) + BitsOf(bytes[|bytes| - 1], 8)
  }

  lemma ByteBitsGrow(bytes: seq<int>, c: int)
    requires Bytes(bytes) && 0 <= c < 256
    ensures ByteBits(bytes + [c]) == ByteBits(bytes) + BitsOf(c, 8)
  {
    assert (bytes + [c])[..|bytes|] == bytes;
  }

  lemma BytesJoin(a: seq<int>, b: seq<int>)
    requires Bytes(a) && Bytes(b)
    ensures Bytes(a + b)
    ensures b != [] ==> Bytes(b[..|b| - 1]) && Bytes([b[|b| - 1]]) && 0 <= b[|b| - 1] < 256 && Bytes(a + b[..|b| - 1])
  {
  }

  lemma {:induction false} ByteBitsJoin(a: seq<int>, b: seq<int>)
    requires Bytes(a) && Bytes(b)
    ensures Bytes(a + b) && ByteBits(a + b) == ByteBits(a) + ByteBits(b)
    decreases |b|
  {
    if |b| == 0 {
      assert a + b == a && ByteBits(b) == [];
      assert ByteBits(a) + [] == ByteBits(a);
    } else {
      hide ByteBits, BitsOf, Bytes;
      BytesJoin(a, b);
      var r, c := b[..|b| - 1], b[|b| - 1];
      ByteBitsJoin(a, r);
      assert a + b == (a + r) + [c] && b == r + [c];
      ByteBitsGrow(a + r, c);
      ByteBitsGrow(r, c);
      assert (ByteBits(a) + ByteBits(r)) + BitsOf(c, 8) == ByteBits(a) + (ByteBits(r) + BitsOf(c, 8));
    }
  }

  lemma {:induction false} ByteBitsFront(bytes: seq<int>)
    requires |bytes| > 0 && Bytes(bytes)
    ensures ByteBits(bytes) == BitsOf(bytes[0], 8) + ByteBits(bytes[1..])
    decreases |bytes|
  {
    if |bytes| == 1 {
      assert bytes[..0] == [] && bytes[1..] == [];
    } else {
      var m := |bytes| - 1;
      ByteBitsFront(bytes[..m]);
      assert bytes[..m][1..] == bytes[1..][..m - 1];
    }
  }

  lemma PowersOfBytes()
    ensures Pow2(8) == 256 && Pow2(24) == 0x100_0000 && Pow2(32) == WORD
  {
    assert Pow2(8) == 256;
    assert Pow2(12) == 4096;
    assert Pow2(16) == 65536;
    assert Pow2(20) == 0x10_0000;
    assert Pow2(24) == 0x100_0000;
    Pow2Is32();
  }

  /** A word shifted to the left, with a new lowest bit. */
  lemma ShiftBits(v: nat, d: nat, n: nat)
    requires d <= 1 && 1 <= n <= 32
    ensures BitsOf((2 * v + d) % WORD, n) == BitsOf(v, n)[1..] + [d == 1]
  {
    PowersOfBytes();
    BitsMod(2 * v + d, n, 32);
    assert (2 * v + d) / 2 == v && ((2 * v + d) % 2 == 1) == (d == 1);
    assert BitsOf(2 * v + d, n) == BitsOf(v, n - 1) + [d == 1];
    LowBits(v, n, n - 1);
  }

  lemma TopBit(lo: nat)
    requires lo < WORD
    ensures lo / 0x8000_0000 <= 1 && BitsOf(lo, 32)[0] == (lo / 0x8000_0000 == 1)
  {
    hide BitsOf;
    PowersOfBytes();
    assert Pow2(32) == 2 * Pow2(31);
    BitAt(lo, 32, 0);
  }

  lemma {:induction false} Pow2Plus(i: nat, j: nat)
    ensures Pow2(i + j) == Pow2(i) * Pow2(j)
  {
    if i > 0 {
      Pow2Plus(i - 1, j);
      assert 2 * Pow2(i - 1) * Pow2(j) == 2 * (Pow2(i - 1) * Pow2(j));
    }
  }

  /* ---- Writing ---- */

  /** The top byte leaves the buffer. */
  lemma TopByte(t: nat, L: nat, buff: nat) returns (q: nat, r: nat)
    requires 8 <= L <= 32 && t < Pow2(L) && buff == t * Pow2(32 - L)
    ensures buff / 0x100_0000 == q < 256 && r < Pow2(L - 8)
    ensures buff * 256 % WORD == r * Pow2(32 - (L - 8))
    ensures BitsOf(t, L) == BitsOf(q, 8) + BitsOf(r, L - 8)
  {
    hide Pow2, BitsOf;
    var M, P := Pow2(L - 8), Pow2(32 - L);
    PowersOfBytes();
    Pow2Plus(8, L - 8);
    Pow2Plus(L - 8, 32 - L);
    Pow2Plus(32 - L, 8);
    assert 32 - L + 8 == 32 - (L - 8);
    q, r := DivideTop(t, M);
    TopArithmetic(t, q, r, M, P, buff);
    JoinBits(q, 8, r, L - 8);
  }

  lemma DivideTop(t: nat, M: nat) returns (q: nat, r: nat)
    requires M >= 1 && t < 256 * M
    ensures t == q * M + r && r < M && q < 256
  {
    q, r := t / M, t % M;
    Unfold(t, M);
    if q > 256 { ProductGap(M, 256, q); }
  }

  lemma TopArithmetic(t: nat, q: nat, r: nat, M: nat, P: nat, buff: nat)
    requires t == q * M + r && r < M && M * P == 0x100_0000 && P >= 1 && buff == t * P && q < 256
    ensures buff / 0x100_0000 == q && buff * 256 % WORD == r * (P * 256)
  {
    ScaleBelow(r, M, P);
    SplitProduct(q, M, r, P);
    Assoc(r, P, 256);
    LinearTop(buff, q, r * P);
  }

  lemma SplitProduct(q: nat, M: nat, r: nat, P: nat)
    ensures (q * M + r) * P == q * (M * P) + r * P
  {
    Assoc(q, M, P);
  }

  lemma Assoc(a: nat, b: nat, c: nat)
    ensures a * b * c == a * (b * c)
  {
  }

  lemma LinearTop(buff: nat, q: nat, rp: nat)
    requires buff == q * 0x100_0000 + rp && rp < 0x100_0000 && q < 256
    ensures buff / 0x100_0000 == q && buff * 256 % WORD == rp * 256
  {
  }

  lemma ScaleBelow(r: nat, M: nat, P: nat)
    requires r < M && P >= 1
    ensures 0 <= r * P < M * P
  {
  }

  /** New bits enter the buffer below the live ones. */
  lemma NewBits(t: nat, L: nat, v: nat, n: nat, buff: nat)
    requires L + n <= 32 && t < Pow2(L) && v < Pow2(n) && buff == t * Pow2(32 - L)
    ensures buff + v * Pow2(32 - L - n) == (t * Pow2(n) + v) * Pow2(32 - (L + n)) < WORD
    ensures t * Pow2(n) + v < Pow2(L + n)
    ensures BitsOf(t * Pow2(n) + v, L + n) == BitsOf(t, L) + BitsOf(v, n)
  {
    hide Pow2, BitsOf;
    JoinBits(t, L, v, n);
    Pow2Plus(L, n);
    Pow2Plus(n, 32 - L - n);
    Pow2Plus(L + n, 32 - L - n);
    PowersOfBytes();
    assert n + (32 - L - n) == 32 - L && L + n + (32 - L - n) == 32 && 32 - (L + n) == 32 - L - n;
    NewArithmetic(t, v, Pow2(L), Pow2(n), Pow2(32 - L - n));
  }

  lemma NewArithmetic(t: nat, v: nat, T: nat, N: nat, P: nat)
    requires t < T && v < N && P >= 1
    ensures t * (N * P) + v * P == (t * N + v) * P < T * N * P
    ensures t * N + v < T * N
  {
    SplitProduct(t, N, v, P);
    Fits(t, v, T, N);
    ScaleBelow(t * N + v, T * N, P);
  }

  lemma Fits(t: nat, v: nat, T: nat, N: nat)
    requires t < T && v < N
    ensures t * N + v < T * N
  {
    assert (t + 1) * N <= T * N;
  }

  /** The live bits of a buffer word are at its top. */
  ghost predicate Aligned(buff: nat, top: nat, L: nat) {
    L <= 32 && top < Pow2(L) && buff == top * Pow2(32 - L)
  }

  lemma AlignedTop(t: nat, L: nat, buff: nat) returns (q: nat, r: nat)
    requires Aligned(buff, t, L) && L >= 8
    ensures buff / 0x100_0000 == q < 256 && Aligned(buff * 256 % WORD, r, L - 8)
    ensures BitsOf(t, L) == BitsOf(q, 8) + BitsOf(r, L - 8)
  {
    q, r := TopByte(t, L, buff);
  }

  /** The word after new bits have entered, and the number its live bits make up. */
  function Entered(buff: nat, L: nat, v: nat, n: nat): nat
    requires L + n <= 32
  {
    buff + v * Pow2(32 - L - n)
  }

  function Extended(t: nat, v: nat, n: nat): nat {
    t * Pow2(n) + v
  }

  lemma AlignedNew(t: nat, L: nat, v: nat, n: nat, buff: nat)
    requires Aligned(buff, t, L) && L + n <= 32 && v < Pow2(n)
    ensures Aligned(Entered(buff, L, v, n), Extended(t, v, n), L + n)
    ensures BitsOf(Extended(t, v, n), L + n) == BitsOf(t, L) + BitsOf(v, n)
  {
    NewBits(t, L, v, n, buff);
  }

  /** The bit buffer of the compressor. Live bits stand at the top of a 32-bit word. */
  class BitWriter {
    const zbits: array<int>
    var numZ: nat
    var bsBuff: nat
    var bsLive: nat
    ghost var top: nat

    ghost predicate Valid()
      reads this, zbits
    {
      && numZ <= zbits.Length && (forall i :: 0 <= i < numZ ==> 0 <= zbits[i] < 256)
      && bsLive < 32 && Aligned(bsBuff, top, bsLive)
    }

    /** Everything written so far. */
    ghost function Written(): (s: seq<bool>)
      reads this, zbits
      requires Valid()
      ensures |s| == 8 * numZ + bsLive
    {
      ByteBits(zbits[..numZ]) + BitsOf(top, bsLive)
    }

    /** BZ2_bsInitWrite on a buffer of the given size. */
    constructor (size: nat)
      ensures Valid() && Written() == [] && fresh(zbits) && zbits.Length == size && numZ == 0
    {
      zbits := new int[size];
      numZ, bsBuff, bsLive, top := 0, 0, 0, 0;
      new;
      assert zbits[..0] == [];
    }

    /** One byte goes out. */
    method PutByte()
      requires Valid() && bsLive >= 8 && numZ < zbits.Length
      modifies this, zbits
      ensures Valid() && Written() == old(Written()) && bsLive == old(bsLive) - 8 && numZ == old(numZ) + 1
    {
      hide Aligned, BitsOf, ByteBits;
      ghost var q, r := AlignedTop(top, bsLive, bsBuff);
      ghost var z := zbits[..numZ];
      zbits[numZ] := bsBuff / 0x100_0000;
      numZ := numZ + 1;
      bsBuff := bsBuff * 256 % WORD;
      bsLive := bsLive - 8;
      top := r;
      assert zbits[..numZ] == z + [q];
      ByteBitsGrow(z, q);
    }

    /** bsW: appends the n low bits of v, which must have no higher bits. */
    method W(n: nat, v: nat)
      requires Valid() && n <= 24 && v < Pow2(n) && |Written()| <= 8 * zbits.Length
      modifies this, zbits
      ensures Valid() && Written() == old(Written()) + BitsOf(v, n)
    {
      hide BitsOf, Pow2, ByteBits, Aligned, Extended;
      while bsLive >= 8
        invariant Valid() && Written() == old(Written())
        decreases bsLive
      {
        PutByte();
      }
      AlignedNew(top, bsLive, v, n, bsBuff);
      bsBuff := bsBuff + v * Pow2(32 - bsLive - n);
      top := Extended(top, v, n);
      bsLive := bsLive + n;
    }

    /** bsPutUChar */
    method PutUChar(c: int)
      requires Valid() && 0 <= c < 256 && |Written()| <= 8 * zbits.Length
      modifies this, zbits
      ensures Valid() && Written() == old(Written()) + BitsOf(c, 8)
    {
      PowersOfBytes();
      W(8, c);
    }

    /** bsPutUInt32 */
    method PutUInt32(u: nat)
      requires Valid() && u < WORD && |Written()| + 24 <= 8 * zbits.Length
      modifies this, zbits
      ensures Valid() && Written() == old(Written()) + BitsOf(u, 32)
    {
      hide BitsOf, ByteBits, Pow2;
      FourBytes(u);
      ghost var w := Written();
      var a, b, c, d := u / 0x100_0000 % 256, u / 65536 % 256, u / 256 % 256, u % 256;
      PutUChar(a);
      PutUChar(b);
      PutUChar(c);
      PutUChar(d);
      Chain(w, BitsOf(a, 8), BitsOf(b, 8), BitsOf(c, 8), BitsOf(d, 8));
    }

    /** The buffer is emptied once all its bytes have been put out; the live bits stay. */
    method Restart()
      requires Valid()
      modifies `numZ
      ensures Valid() && numZ == 0 && Written() == BitsOf(top, bsLive)
    {
      hide BitsOf, ByteBits, Aligned;
      numZ := 0;
      assert |ByteBits(zbits[..0])| == 0;
      assert [] + BitsOf(top, bsLive) == BitsOf(top, bsLive);
    }

    /** bsFinishWrite: pads with zero bits to a whole byte. The count of live bits stops at 0. */
    method Finish()
      requires Valid() && |Written()| <= 8 * zbits.Length
      modifies this, zbits
      ensures Valid() && bsLive == 0 && old(Written()) <= ByteBits(zbits[..numZ]) == Written()
      ensures |Written()| < |old(Written())| + 8
    {
      hide BitsOf, Pow2, ByteBits, Aligned, Extended;
      ghost var s := Written();
      while bsLive > 0
        invariant Valid() && s <= Written() && |s| <= 8 * zbits.Length
        invariant |Written()| == |s| || (bsLive == 0 && |Written()| < |s| + 8)
        decreases bsLive
      {
        if bsLive < 8 {
          AlignedNew(top, bsLive, 0, 8 - bsLive, bsBuff);
          Pow2One(8 - bsLive);
          top := Extended(top, 0, 8 - bsLive);
          bsLive := 8;
        }
        PutByte();
      }
      assert ByteBits(zbits[..numZ]) + BitsOf(top, 0) == ByteBits(zbits[..numZ]);
    }
  }

  /** The whole bytes of a writer, and its bits that do not make up a byte yet. */
  lemma WrittenParts(w: BitWriter)
    requires w.Valid()
    ensures Bytes(w.zbits[..w.numZ]) && w.Written() == ByteBits(w.zbits[..w.numZ]) + BitsOf(w.top, w.bsLive)
  {
  }

  lemma Pow2One(n: nat)
    ensures 0 < Pow2(n) && 0 * Pow2(n) == 0
  {
  }

  lemma Chain(w: seq<bool>, a: seq<bool>, b: seq<bool>, c: seq<bool>, d: seq<bool>)
    ensures (((w + a) + b) + c) + d == w + (((a + b) + c) + d)
  {
  }

  lemma FourBytes(u: nat)
    requires u < WORD
    ensures BitsOf(u, 32) ==
            ((BitsOf(u / 0x100_0000 % 256, 8) + BitsOf(u / 65536 % 256, 8)) + BitsOf(u / 256 % 256, 8))
            + BitsOf(u % 256, 8)
  {
    hide BitsOf, Pow2;
    PowersOfBytes();
    var x1, x2, x3 := u / 256, u / 65536, u / 0x100_0000;
    assert x2 == x1 / 256 && x3 == x2 / 256 && x3 < 256;
    JoinBits(x1, 24, u % 256, 8);
    JoinBits(x2, 16, x1 % 256, 8);
    JoinBits(x3, 8, x2 % 256, 8);
  }

  /* ---- Reading ---- */

  /** A byte enters the buffer below the live bits. */
  lemma NewByte(buff: nat, L: nat, c: nat)
    requires L <= 24 && c < 256
    ensures BitsOf((buff * 256 + c) % WORD, L + 8) == BitsOf(buff, L) + BitsOf(c, 8)
  {
    hide BitsOf, Pow2;
    PowersOfBytes();
    JoinBits(buff, L, c, 8);
    BitsMod(buff * 256 + c, L + 8, 32);
  }

  /** n bits leave the buffer. */
  lemma TakeBits(buff: nat, L: nat, n: nat)
    requires n <= L
    ensures buff / Pow2(L - n) % Pow2(n) == Value(BitsOf(buff, L)[..n])
    ensures BitsOf(buff, L)[n..] == BitsOf(buff, L - n)
  {
    hide BitsOf, Pow2, Value;
    HighBits(buff, L, n);
    HighValue(buff / Pow2(L - n), n);
    LowBits(buff, L, L - n);
  }

  lemma NothingIn(input: seq<int>, k: nat)
    requires k == |input|
    ensures ByteBits(input[k..]) == []
  {
  }

  /** The bit buffer of the decompressor and the input of the current call. What later calls will bring
      is not known to the code; future stands for it in the proofs. */
  class BitReader {
    var input: seq<int>
    var nextIn: nat
    var bsBuff: nat
    var bsLive: nat
    ghost var future: seq<bool>

    ghost predicate Valid()
      reads this
    {
      nextIn <= |input| && Bytes(input) && bsLive <= 32
    }

    /** All bits not yet consumed: in the bit buffer, in the input at hand, and in input to come. */
    ghost function Pending(): seq<bool>
      reads this
      requires Valid()
    {
      BitsOf(bsBuff, bsLive) + (ByteBits(input[nextIn..]) + future)
    }

    /** All input at hand is in the bit buffer. */
    predicate UsedUp()
      reads this
    {
      nextIn == |input|
    }

    constructor (ghost future: seq<bool>)
      ensures Valid() && Pending() == future && this.future == future && input == [] && nextIn == 0
    {
      input, nextIn, bsBuff, bsLive := [], 0, 0, 0;
      this.future := future;
      new;
      assert ByteBits(input[0..]) == [];
      assert [] + ([] + future) == future;
    }

    /** The input of a call. */
    method Offer(bytes: seq<int>, ghost later: seq<bool>)
      requires Valid() && input == [] && Bytes(bytes)
      modifies this
      ensures Valid() && input == bytes && nextIn == 0 && future == later
      ensures old(future) == ByteBits(bytes) + later ==> Pending() == old(Pending())
    {
      hide BitsOf;
      assert input[nextIn..] == [] && ByteBits(input[nextIn..]) == [];
      assert [] + future == future && bytes[0..] == bytes;
      input, nextIn := bytes, 0;
      future := later;
    }

    /** What a call leaves of its input goes back to the caller. */
    method Withdraw() returns (rest: seq<int>)
      requires Valid()
      modifies this
      ensures Valid() && Pending() == old(Pending()) && input == []
      ensures rest == old(input[nextIn..]) && future == ByteBits(rest) + old(future)
      ensures old(UsedUp()) ==> rest == [] && future == old(future)
    {
      hide BitsOf;
      rest := input[nextIn..];
      future := ByteBits(rest) + future;
      input, nextIn := [], 0;
      assert ByteBits(input[0..]) == [] && [] + future == future;
    }

    /** Moves one byte into the bit buffer. */
    method Refill()
      requires Valid() && bsLive <= 24 && nextIn < |input|
      modifies `nextIn, `bsBuff, `bsLive
      ensures Valid() && Pending() == old(Pending()) && bsLive == old(bsLive) + 8 && nextIn == old(nextIn) + 1
    {
      hide BitsOf, ByteBits;
      ghost var r, b := input[nextIn..], BitsOf(bsBuff, bsLive);
      NewByte(bsBuff, bsLive, input[nextIn]);
      ByteBitsFront(r);
      assert r[1..] == input[nextIn + 1..];
      ghost var tail := ByteBits(r[1..]) + future;
      assert BitsOf(bsBuff, bsLive) + ((BitsOf(r[0], 8) + ByteBits(r[1..])) + future) ==
             (BitsOf(bsBuff, bsLive) + BitsOf(r[0], 8)) + tail;
      bsBuff := (bsBuff * 256 + input[nextIn]) % WORD;
      bsLive := bsLive + 8;
      nextIn := nextIn + 1;
    }

    /** GET_BITS: the next n bits. When the input does not hold so many, what there is stays in the bit
        buffer, nothing is consumed, and the caller goes back to its own caller. */
    method GetBits(n: nat) returns (ok: bool, v: nat)
      requires Valid() && n <= 24
      modifies `nextIn, `bsBuff, `bsLive
      ensures Valid() && old(nextIn) <= nextIn
      ensures ok ==> |old(Pending())| >= n && v == Value(old(Pending())[..n]) && Pending() == old(Pending())[n..]
      ensures !ok ==> Pending() == old(Pending()) && UsedUp() && (future == [] ==> |Pending()| < n)
    {
      hide BitsOf, ByteBits, Value, Pow2;
      v := 0;
      while true
        invariant Valid() && Pending() == old(Pending()) && old(nextIn) <= nextIn
        decreases |input| - nextIn
      {
        if bsLive >= n {
          TakeBits(bsBuff, bsLive, n);
          ghost var p, b := Pending(), BitsOf(bsBuff, bsLive);
          v := bsBuff / Pow2(bsLive - n) % Pow2(n);
          bsLive := bsLive - n;
          assert p[..n] == b[..n] && p[n..] == b[n..] + p[|b|..];
          return true, v;
        }
        if nextIn == |input| {
          NothingIn(input, nextIn);
          return false, 0;
        }
        Refill();
      }
    }
  }
}
