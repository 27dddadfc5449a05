/** Runs of the decompressor over damaged streams: what is put out, and what is answered in the end. */
module DamagedRuns {
  import opened BitIO
  import opened Checksums
  import opened Decompressor
  import opened RoundTrip
  import opened StreamDamage
  import opened StreamFormat
  import opened StreamParser

  /** Once nothing more would come, the last answer is that of the bytes as a whole, and so is the output. */
  lemma LastAnswer(m: Meaning, small: bool, answer: Answer, out: seq<int>, spare: bool)
    requires Result(answer, out, spare, small, m) && Settled(answer, spare)
    ensures answer == match m.final
                      case Unfinished => Ok
                      case Finished => StreamEnd
                      case Corrupt => DataErr
                      case IllEnded => DataErr
                      case NotBzip2 => MagicErr
                      case RandomisedBlock => Randomised
    ensures out == m.bytes || Exempt(small, m)
  {
  }

  /** A stream with another number in place of a block's checksum, in any pieces and with any room: what is put
      out is a first part of the blocks up to that one, and once the run is settled it is all of them, and the
      answer is a data error. */
  method DecodeAltered(turns: seq<Turn>, small: bool, step: (Crc, int) -> Crc, ghost ds: seq<Sent>, ghost size: nat,
                       ghost j: nat, ghost v: nat, ghost pad: seq<bool>)
    returns (answer: Answer, out: seq<int>, spare: bool)
    requires TurnsOk(turns) && AllSent(ds, size) && 1 <= size <= 9 && j < |ds| && v < WORD && v != SentCrc(step, ds[j])
    requires |FirstBits(step, ds, size, j)| + 80 <= |StreamBits(step, size, ds) + pad|
    requires Bytes(Supplied(turns))
    requires ByteBits(Supplied(turns)) ==
             Altered(StreamBits(step, size, ds) + pad, |FirstBits(step, ds, size, j)| + 48, v)
    ensures out <= Content(ds[..j + 1], 0) && (answer == Ok || answer == DataErr)
    ensures Settled(answer, spare) ==> answer == DataErr && out == Content(ds[..j + 1], 0)
  {
    hide AllSent, StreamFrom, ByteBits, Content, StreamBits, FirstBits, Altered, Result;
    AlteredBlock(step, ds, size, j, v, pad);
    ghost var m := StreamFrom(step, ByteBits(Supplied(turns)));
    answer, out, spare := Decode(turns, small, step);
    FirstPart(small, m, answer, out, spare);
    OnlyThese(m, small, answer, out, spare);
    if Settled(answer, spare) { LastAnswer(m, small, answer, out, spare); }
  }

  lemma OnlyThese(m: Meaning, small: bool, answer: Answer, out: seq<int>, spare: bool)
    requires Result(answer, out, spare, small, m) && m.final == Corrupt
    ensures answer == Ok || answer == DataErr
  {
  }

  /** The first n bytes of a stream, in any pieces and with any room: no error is reported, nor the end, and what
      is put out is a part of the blocks that are there as a whole. */
  method DecodeTruncated(turns: seq<Turn>, small: bool, step: (Crc, int) -> Crc, ghost ds: seq<Sent>, ghost size: nat)
    returns (answer: Answer, out: seq<int>, spare: bool, ghost j: nat)
    requires TurnsOk(turns) && AllSent(ds, size) && 1 <= size <= 9 && Bytes(Supplied(turns))
    requires ByteBits(Supplied(turns)) < StreamBits(step, size, ds)
    ensures answer == Ok && j <= |ds| && out <= Content(ds[..j], 0)
    ensures j > 0 ==> |FirstBits(step, ds, size, j)| <= 8 * |Supplied(turns)|
    ensures j < |ds| ==> 8 * |Supplied(turns)| < |FirstBits(step, ds, size, j + 1)|
    ensures spare ==> out == Content(ds[..j], 0)
  {
    hide AllSent, StreamFrom, ByteBits, Content, StreamBits, FirstBits, Result;
    ghost var n := |ByteBits(Supplied(turns))|;
    j := Truncated(step, ds, size, n);
    assert StreamBits(step, size, ds)[..n] == ByteBits(Supplied(turns));
    ghost var m := StreamFrom(step, ByteBits(Supplied(turns)));
    answer, out, spare := Decode(turns, small, step);
    FirstPart(small, m, answer, out, spare);
    StillOk(m, small, answer, out, spare);
    if spare { LastAnswer(m, small, answer, out, spare); }
  }

  lemma StillOk(m: Meaning, small: bool, answer: Answer, out: seq<int>, spare: bool)
    requires Result(answer, out, spare, small, m) && m.final == Unfinished
    ensures answer == Ok
  {
  }
}
