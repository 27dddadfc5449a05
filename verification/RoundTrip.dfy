/** Whole runs of the decompressor: for any bytes and any way of handing them over and taking the output,
    the result is what the bytes mean; and a compressor's stream means its content. */
module RoundTrip {
  import opened BitIO
  import opened Bits
  import opened BlockCompressor
  import opened BlockDecompressor
  import opened BlockFormat
  import opened BlockParser
  import opened Checksums
  import Compressor
  import opened Counting
  import opened Decompressor
  import opened InverseBwt
  import MainCompare
  import opened MtfEncoder
  import opened Powers
  import opened Rle
  import opened StreamFormat
  import opened StreamParser
  import opened UnRle
  import opened WholeBlockParser

  /* ---- Any schedule of calls ---- */

  /** One call: the input that is added to what the last call left, and the room for output. */
  datatype Turn = Turn(piece: seq<int>, room: nat)

  ghost predicate TurnsOk(turns: seq<Turn>) {
    forall i :: 0 <= i < |turns| ==> Bytes(turns[i].piece)
  }

  /** All input of a schedule. */
  function Supplied(turns: seq<Turn>): seq<int> {
    if |turns| == 0 then [] else turns[0].piece + Supplied(turns[1..])
  }

  lemma {:induction false} SuppliedBytes(turns: seq<Turn>)
    requires TurnsOk(turns)
    ensures Bytes(Supplied(turns))
  {
    if |turns| > 0 { SuppliedBytes(turns[1..]); }
  }

  lemma SuppliedNext(turns: seq<Turn>, i: nat, rest: seq<int>)
    requires TurnsOk(turns) && i < |turns| && Bytes(rest)
    ensures Bytes(turns[i].piece) && Bytes(rest + turns[i].piece) && Bytes(Supplied(turns[i + 1..]))
    ensures Bytes(Supplied(turns[i..]))
    ensures ByteBits(rest) + ByteBits(Supplied(turns[i..])) ==
            ByteBits(rest + turns[i].piece) + ByteBits(Supplied(turns[i + 1..]))
  {
    hide ByteBits;
    var p, s := turns[i].piece, Supplied(turns[i + 1..]);
    SuppliedBytes(turns[i + 1..]);
    assert turns[i..][1..] == turns[i + 1..];
    ByteBitsJoin(p, s);
    ByteBitsJoin(rest, p);
    assert (ByteBits(rest) + ByteBits(p)) + ByteBits(s) == ByteBits(rest) + (ByteBits(p) + ByteBits(s));
  }

  lemma NoneSupplied(turns: seq<Turn>)
    ensures Supplied(turns[|turns|..]) == [] && Bytes([]) && ByteBits([]) == []
  {
  }

  /** The result of a run over bytes that mean m: the last answer, the bytes put out, and whether the last
      call had room to spare. */
  ghost predicate Result(answer: Answer, out: seq<int>, spare: bool, small: bool, m: Meaning) {
    match answer
    case Ok => out <= m.bytes && (spare ==> m == Meaning(out, Unfinished))
    case StreamEnd => m == Meaning(out, Finished)
    case DataErr => m == Meaning(out, Corrupt) || (m.final == IllEnded && out <= m.bytes && (small ==> out == m.bytes))
    case MagicErr => m == Meaning(out, NotBzip2)
    case Randomised => m == Meaning(out, RandomisedBlock)
    case SequenceErr => false
  }

  /** Nothing more would come of further calls. */
  predicate Settled(answer: Answer, spare: bool) {
    answer != Ok || spare
  }

  /** How a call leaves the decompressor when it answers Ok. */
  ghost predicate Waiting(s: DState, rest: seq<int>, spare: bool)
    requires s.Working()
    reads s, s.Reach()
  {
    if spare then rest == [] && (s.rd.future == [] ==> s.ToCome() == Meaning([], Unfinished))
    else
      || s.ToCome().bytes != [] || s.ToCome().final == IllEnded
      || (rest == [] && (s.rd.future == [] ==> s.ToCome() == Meaning([], Unfinished)))
  }

  lemma AtMost(s: DState, answer: Answer, out: seq<int>, room: nat, rest: seq<int>, m: Meaning)
    requires s.Called(answer, out, room, rest, m)
    ensures |out| <= room
  {
    hide DState.Valid, DState.ToCome;
  }

  lemma WaitingNow(s: DState, answer: Answer, out: seq<int>, room: nat, rest: seq<int>, m: Meaning)
    requires s.Called(answer, out, room, rest, m) && answer == Ok
    ensures s.Working() && m == Prepend(out, s.ToCome()) && Waiting(s, rest, |out| < room)
  {
    hide DState.Valid, DState.ToCome;
  }

  lemma ResultNow(s: DState, answer: Answer, out: seq<int>, room: nat, rest: seq<int>, m: Meaning, before: seq<int>,
                  all: Meaning)
    requires s.Called(answer, out, room, rest, m) && answer != Ok && all == Prepend(before, m)
    ensures Result(answer, before + out, false, s.smallDecompress, all)
  {
    hide DState.Valid, DState.ToCome, DState.Output, DState.ToPour;
    if answer == DataErr && s.Lost(m, out, room) && !s.smallDecompress {
      assert before + (out + s.ToPour()) == (before + out) + s.ToPour();
    }
  }

  /** One call of a run that has put out out so far, over bytes that mean m. */
  method Call(s: DState, input: seq<int>, room: nat, ghost later: seq<bool>, ghost out: seq<int>, ghost m: Meaning)
    returns (answer: Answer, rest: seq<int>, put: seq<int>)
    requires s.Working() && m == Prepend(out, s.ToCome()) && s.rd.input == [] && Bytes(input)
    requires s.rd.future == ByteBits(input) + later
    modifies s, s.letters, s.number, s.block, s.block.Parts(), s.rd, s.fast, s.slim
    ensures s.rd.input == [] && Bytes(rest) && s.rd.future == ByteBits(rest) + later && |put| <= room
    ensures (s.fast == old(s.fast) || fresh(s.fast)) && (s.slim == old(s.slim) || fresh(s.slim))
    ensures if answer == Ok then s.Working() && m == Prepend(out + put, s.ToCome()) && Waiting(s, rest, |put| < room)
            else Result(answer, out + put, false, s.smallDecompress, m)
  {
    hide DState.Valid, DState.ToCome, DState.Called, ByteBits, Result, Waiting, DState.FourAtLeast, BlockReader.Parts;
    ghost var now := s.ToCome();
    answer, rest, put := s.Decompress(input, room, later);
    AtMost(s, answer, put, room, rest, now);
    if answer == Ok {
      WaitingNow(s, answer, put, room, rest, now);
      PutOn(out, put, s.ToCome());
    } else {
      ResultNow(s, answer, put, room, rest, now, out, m);
    }
  }

  /** A run that stops at the first answer other than Ok. Whatever the bytes, however they are cut, and
      whatever room each call has, the result is that of the bytes as a whole; and the end of the stream is
      told in the very call that puts out the last byte. */
  method Decode(turns: seq<Turn>, small: bool, step: (Crc, int) -> Crc)
    returns (answer: Answer, out: seq<int>, spare: bool)
    requires TurnsOk(turns)
    ensures Bytes(Supplied(turns))
    ensures Result(answer, out, spare, small, StreamFrom(step, ByteBits(Supplied(turns))))
    ensures answer == Ok && |turns| > 0 && out == StreamFrom(step, ByteBits(Supplied(turns))).bytes ==>
              StreamFrom(step, ByteBits(Supplied(turns))).final in {Unfinished, IllEnded}
    ensures if |turns| == 0 then answer == Ok && !spare else answer == Ok && |out| < turns[|turns| - 1].room ==> spare
  {
    hide DState.Valid, DState.ToCome, StreamFrom, ByteBits, Result, Waiting, BlockReader.Parts;
    SuppliedBytes(turns);
    ghost var m := StreamFrom(step, ByteBits(Supplied(turns)));
    var s := new DState(small, step, ByteBits(Supplied(turns)));
    answer, out, spare := Ok, [], false;
    var rest: seq<int> := [];
    var i := 0;
    RunStarts(m, turns);
    while i < |turns| && answer == Ok
      invariant i <= |turns| && fresh(s) && fresh(s.rd) && fresh(s.letters) && fresh(s.number) && fresh(s.block)
      invariant fresh(s.block.Parts())
      invariant (s.fast == null || fresh(s.fast)) && (s.slim == null || fresh(s.slim)) && s.smallDecompress == small
      invariant if answer == Ok then s.Working() && m == Prepend(out, s.ToCome())
                else Result(answer, out, spare, small, m)
      invariant s.rd.input == [] && Bytes(rest) && Bytes(Supplied(turns[i..]))
      invariant s.rd.future == ByteBits(rest) + ByteBits(Supplied(turns[i..]))
      invariant answer == Ok && i > 0 ==> Waiting(s, rest, spare) && (|out| < turns[i - 1].room ==> spare)
      invariant i == 0 ==> answer == Ok && out == [] && !spare
    {
      SuppliedNext(turns, i, rest);
      var put;
      answer, rest, put := Call(s, rest + turns[i].piece, turns[i].room, ByteBits(Supplied(turns[i + 1..])), out, m);
      out := out + put;
      spare := answer == Ok && |put| < turns[i].room;
      i := i + 1;
    }
    if answer == Ok {
      NoneSupplied(turns);
      if i > 0 { RunEnds(s, out, rest, spare, m); } else { NothingRun(small, m); }
    }
  }

  lemma RunStarts(m: Meaning, turns: seq<Turn>)
    ensures Prepend([], m) == m && turns[0..] == turns && Bytes([]) && ByteBits([]) == []
    ensures forall b: seq<bool> :: [] + b == b
  {
    assert [] + m.bytes == m.bytes;
  }

  lemma NothingRun(small: bool, m: Meaning)
    ensures Result(Ok, [], false, small, m)
  {
  }

  lemma RunEnds(s: DState, out: seq<int>, rest: seq<int>, spare: bool, m: Meaning)
    requires s.Working() && m == Prepend(out, s.ToCome()) && Bytes(rest) && s.rd.future == ByteBits(rest) + []
    requires Waiting(s, rest, spare)
    ensures Result(Ok, out, spare, s.smallDecompress, m)
    ensures (out == m.bytes ==> m.final == Unfinished || m.final == IllEnded)
  {
  }

  /* ---- Schedules agree ---- */

  /** The fast form and a block that stops in the middle of a run. */
  ghost predicate Exempt(small: bool, m: Meaning) {
    !small && m.final == IllEnded
  }

  /** Two settled runs over the same bytes, in either form, have the same result, unless the fast form meets
      a block that stops in the middle of a run. */
  lemma ResultUnique(m: Meaning, small1: bool, a1: Answer, out1: seq<int>, spare1: bool,
                     small2: bool, a2: Answer, out2: seq<int>, spare2: bool)
    requires Result(a1, out1, spare1, small1, m) && Settled(a1, spare1) && !Exempt(small1, m)
    requires Result(a2, out2, spare2, small2, m) && Settled(a2, spare2) && !Exempt(small2, m)
    ensures a1 == a2 && out1 == out2
  {
  }

  /** Of two runs over the same bytes, settled or not, one has put out a first part of what the other has. */
  lemma ResultsNested(m: Meaning, small1: bool, a1: Answer, out1: seq<int>, spare1: bool,
                      small2: bool, a2: Answer, out2: seq<int>, spare2: bool)
    requires Result(a1, out1, spare1, small1, m) && Result(a2, out2, spare2, small2, m)
    ensures out1 <= out2 || out2 <= out1
  {
    FirstPart(small1, m, a1, out1, spare1);
    FirstPart(small2, m, a2, out2, spare2);
    assert out1 == m.bytes[..|out1|] && out2 == m.bytes[..|out2|];
    if |out1| <= |out2| { assert out1 == out2[..|out1|]; } else { assert out2 == out1[..|out2|]; }
  }

  lemma FirstPart(small: bool, m: Meaning, answer: Answer, out: seq<int>, spare: bool)
    requires Result(answer, out, spare, small, m)
    ensures out <= m.bytes
  {
  }

  lemma OneTurn(bytes: seq<int>, room: nat)
    ensures Supplied([Turn(bytes, room)]) == bytes
  {
    assert Supplied([Turn(bytes, room)][1..]) == [];
    assert bytes + [] == bytes;
  }

  /** Any schedule, with either form, against one call with all the input, with either form: the same bytes
      and the same last answer, as soon as both have had room enough. */
  method AgainstOneCall(turns: seq<Turn>, room: nat, small1: bool, small2: bool, step: (Crc, int) -> Crc)
    returns (a1: Answer, out1: seq<int>, spare1: bool, a2: Answer, out2: seq<int>, spare2: bool)
    requires TurnsOk(turns)
    ensures Bytes(Supplied(turns))
    ensures var m := StreamFrom(step, ByteBits(Supplied(turns)));
            Settled(a1, spare1) && Settled(a2, spare2) && !Exempt(small1, m) && !Exempt(small2, m) ==>
              a1 == a2 && out1 == out2
    ensures out1 <= out2 || out2 <= out1
  {
    hide StreamFrom, ByteBits, Result;
    SuppliedBytes(turns);
    ghost var m := StreamFrom(step, ByteBits(Supplied(turns)));
    OneTurn(Supplied(turns), room);
    a1, out1, spare1 := Decode(turns, small1, step);
    a2, out2, spare2 := Decode([Turn(Supplied(turns), room)], small2, step);
    ResultsNested(m, small1, a1, out1, spare1, small2, a2, out2, spare2);
    if Settled(a1, spare1) && Settled(a2, spare2) && !Exempt(small1, m) && !Exempt(small2, m) {
      ResultUnique(m, small1, a1, out1, spare1, small2, a2, out2, spare2);
    }
  }

  /** The exception is real: whenever the fast form meets a block that stops in the middle of a run, one
      call with room for everything and two calls with the same input end in the same error with
      different output, since the call that meets the block's end loses its bytes of it. */
  method FastLosesBytes(bytes: seq<int>, room: nat, step: (Crc, int) -> Crc)
    returns (a1: Answer, out1: seq<int>, a2: Answer, out2: seq<int>)
    requires Bytes(bytes) && StreamFrom(step, ByteBits(bytes)).final == IllEnded
    requires room > |StreamFrom(step, ByteBits(bytes)).bytes|
    ensures a1 == DataErr && a2 == Ok && |out2| == |out1| + 1 && out1 < out2 <= StreamFrom(step, ByteBits(bytes)).bytes
  {
    hide DState.Valid, DState.ToCome, StreamFrom, ByteBits, DState.Output, DState.ToPour;
    ghost var m := StreamFrom(step, ByteBits(bytes));
    assert ByteBits(bytes) + [] == ByteBits(bytes);
    var s1 := new DState(false, step, ByteBits(bytes));
    var rest;
    a1, rest, out1 := s1.Decompress(bytes, room, []);
    LostAtOnce(s1, a1, out1, room, rest, m);
    var s2 := new DState(false, step, ByteBits(bytes));
    a2, rest, out2 := s2.Decompress(bytes, |out1| + 1, []);
    NotYetLost(s2, a2, out2, |out1| + 1, rest, m);
    assert out1 == m.bytes[..|out1|] && out2 == m.bytes[..|out2|];
  }

  lemma LostAtOnce(s: DState, answer: Answer, out: seq<int>, room: nat, rest: seq<int>, m: Meaning)
    requires s.Called(answer, out, room, rest, m) && s.FourAtLeast(answer, m) && !s.smallDecompress
    requires s.rd.future == ByteBitsOf(rest)
    requires m.final == IllEnded && room > |m.bytes|
    ensures answer == DataErr && out <= m.bytes && |out| + 4 <= |m.bytes|
  {
    hide DState.Valid, DState.ToCome, DState.Output, DState.ToPour;
    assert ByteBitsOf([]) == [];
  }

  ghost function ByteBitsOf(s: seq<int>): seq<bool> {
    if Bytes(s) then ByteBits(s) else []
  }

  lemma NotYetLost(s: DState, answer: Answer, out: seq<int>, room: nat, rest: seq<int>, m: Meaning)
    requires s.Called(answer, out, room, rest, m) && !s.smallDecompress && s.rd.future == ByteBitsOf(rest)
    requires m.final == IllEnded && room + 3 <= |m.bytes|
    ensures answer == Ok && out <= m.bytes && |out| == room
  {
    hide DState.Valid, DState.ToCome, DState.Output, DState.ToPour;
    assert ByteBitsOf([]) == [];
  }

  /** Calling on with all the input and any positive room settles the run. */
  method DecodeAll(bytes: seq<int>, rooms: nat -> nat, small: bool, step: (Crc, int) -> Crc)
    returns (answer: Answer, out: seq<int>, spare: bool)
    requires Bytes(bytes) && forall i: nat :: rooms(i) > 0
    ensures Settled(answer, spare) && Result(answer, out, spare, small, StreamFrom(step, ByteBits(bytes)))
  {
    hide DState.Valid, DState.ToCome, StreamFrom, ByteBits, Result, Waiting, BlockReader.Parts;
    ghost var m := StreamFrom(step, ByteBits(bytes));
    var s := new DState(small, step, ByteBits(bytes));
    answer, out, spare := Ok, [], false;
    var rest, i := bytes, 0;
    NothingPut(m);
    NoneLater(bytes);
    while answer == Ok && !spare
      invariant fresh(s) && fresh(s.rd) && fresh(s.letters) && fresh(s.number) && fresh(s.block)
      invariant fresh(s.block.Parts())
      invariant (s.fast == null || fresh(s.fast)) && (s.slim == null || fresh(s.slim)) && s.smallDecompress == small
      invariant if answer == Ok then s.Working() && m == Prepend(out, s.ToCome())
                else Result(answer, out, spare, small, m)
      invariant s.rd.input == [] && Bytes(rest) && s.rd.future == ByteBits(rest) + []
      invariant answer == Ok && spare ==> Waiting(s, rest, spare)
      decreases answer == Ok && !spare, |m.bytes| - |out|
    {
      var put;
      answer, rest, put := Call(s, rest, rooms(i), [], out, m);
      out := out + put;
      spare := answer == Ok && |put| < rooms(i);
      i := i + 1;
    }
    if answer == Ok { RunEnds(s, out, rest, spare, m); }
  }

  lemma NoneLater(bytes: seq<int>)
    requires Bytes(bytes)
    ensures ByteBits(bytes) + [] == ByteBits(bytes)
  {
  }

  /* ---- A compressor's stream ---- */

  /** A complete stream, with anything after it, means its content. */
  lemma StreamMeans(bytes: seq<int>, more: seq<int>, content: seq<int>, step: (Crc, int) -> Crc, size: nat)
    requires Complete(bytes, content, step, size) && Bytes(more)
    ensures Bytes(bytes + more) && StreamFrom(step, ByteBits(bytes + more)) == Meaning(content, Finished)
  {
    hide AllSent, StreamBits, Content, StreamFrom, ByteBits, Chained;
    var ds: seq<Sent> :| CompleteVia(bytes, content, step, size, ds);
    var b, t := StreamBits(step, size, ds), ByteBits(bytes);
    ByteBitsJoin(bytes, more);
    var pad := t[|b|..] + ByteBits(more);
    assert t == b + t[|b|..];
    Join(b, t[|b|..], ByteBits(more));
    StreamParsed(step, ds, size, pad);
  }

  /** With all of a stream supplied at the first call, the bytes put out are the content as far as there is
      room, and the end is told exactly when there has been a call and room for all of the content. */
  method DecodeStream(bytes: seq<int>, sizes: seq<nat>, small: bool, step: (Crc, int) -> Crc, ghost content: seq<int>,
                      ghost size: nat)
    returns (out: seq<int>, ended: bool)
    requires Complete(bytes, content, step, size)
    ensures out <= content && |out| <= Sum(sizes) && (if ended then out == content else |out| == Sum(sizes))
    ensures ended <==> |sizes| > 0 && Sum(sizes) >= |content|
  {
    hide DState.Valid, DState.ToCome, StreamFrom, ByteBits, Waiting, BlockReader.Parts, Complete, Sum;
    assert bytes + [] == bytes;
    StreamMeans(bytes, [], content, step, size);
    NoneLater(bytes);
    ghost var m := Meaning(content, Finished);
    var s := new DState(small, step, ByteBits(bytes));
    out, ended := [], false;
    var rest := bytes;
    NothingPut(m);
    NoSizes(sizes);
    for i := 0 to |sizes|
      invariant fresh(s) && fresh(s.rd) && fresh(s.letters) && fresh(s.number) && fresh(s.block)
      invariant fresh(s.block.Parts())
      invariant (s.fast == null || fresh(s.fast)) && (s.slim == null || fresh(s.slim))
      invariant s.rd.input == [] && Bytes(rest) && s.rd.future == ByteBits(rest) + []
      invariant if ended then out == content && |content| <= Sum(sizes[..i]) && i > 0
                else
                  && s.Working() && m == Prepend(out, s.ToCome()) && |out| == Sum(sizes[..i])
                  && (i > 0 ==> out != content)
    {
      SumStep(sizes, i);
      if !ended {
        var answer, put;
        answer, rest, put := Call(s, rest, sizes[i], [], out, m);
        ghost var before := out;
        out := out + put;
        ended := answer == StreamEnd;
        if answer == Ok { NotDone(s, before, put, rest, sizes[i], m); }
      }
    }
    assert sizes[..|sizes|] == sizes;
    if !ended { FirstBytes(out, content, s.ToCome().bytes); }
  }

  /** In the middle of a stream, with all input there, a call that answers Ok has filled its room, and
      something is left. */
  lemma NotDone(s: DState, before: seq<int>, put: seq<int>, rest: seq<int>, room: nat, m: Meaning)
    requires s.Working() && m == Prepend(before + put, s.ToCome()) && m.final == Finished
    requires Waiting(s, rest, |put| < room) && |put| <= room
    requires Bytes(rest) && s.rd.future == ByteBits(rest) + []
    ensures |put| == room && before + put != m.bytes
  {
    hide DState.Valid, DState.ToCome;
  }

  lemma FirstBytes(out: seq<int>, content: seq<int>, left: seq<int>)
    requires content == out + left
    ensures out <= content
  {
  }

  /** The bytes handed over with this plan: so many at a time, with so much room for output, and the rest
      with the last call. */
  function Cut(bytes: seq<int>, plan: seq<(nat, nat)>, last: nat): (turns: seq<Turn>)
    ensures |turns| == |plan| + 1
    decreases |plan|
  {
    if |plan| == 0 then [Turn(bytes, last)]
    else
      var k := if plan[0].0 < |bytes| then plan[0].0 else |bytes|;
      [Turn(bytes[..k], plan[0].1)] + Cut(bytes[k..], plan[1..], last)
  }

  lemma {:induction false} CutSupplies(bytes: seq<int>, plan: seq<(nat, nat)>, last: nat)
    requires Bytes(bytes)
    ensures TurnsOk(Cut(bytes, plan, last)) && Supplied(Cut(bytes, plan, last)) == bytes
    ensures Cut(bytes, plan, last)[|plan|].room == last
    decreases |plan|
  {
    if |plan| == 0 {
      OneTurn(bytes, last);
    } else {
      var k := if plan[0].0 < |bytes| then plan[0].0 else |bytes|;
      CutSupplies(bytes[k..], plan[1..], last);
      var turns := Cut(bytes, plan, last);
      assert turns[1..] == Cut(bytes[k..], plan[1..], last);
      assert bytes[..k] + bytes[k..] == bytes;
    }
  }

  /** All the data at once, with any positive room for output at each call. */
  method CompressData(data: seq<int>, blockSize100k: nat, workFactor: nat, step: (Crc, int) -> Crc, rooms: nat -> nat)
    returns (bytes: seq<int>)
    requires Bytes(data) && 1 <= blockSize100k <= 9 && workFactor <= 250 && forall i: nat :: rooms(i) > 0
    ensures Complete(bytes, data, step, blockSize100k)
  {
    hide Complete, CompleteWhole, Compressor.EState.Valid, Compressor.EState.Taken, Compressor.EState.Given,
      Compressor.EState.Resting, Bytes;
    var s := new Compressor.EState(blockSize100k, workFactor, step);
    s.ShapeHolds();
    s.PositionHolds();
    bytes := Compressor.FinishAll(s, data, rooms);
    s.ShapeHolds();
    s.PositionHolds();
    assert [] + data == data && [] + bytes == bytes;
  }

  /** There and back: any data, block size, work factor and checksum step; output room for the compressor of
      any positive sizes; its stream handed over in any pieces to either form of the decoder, with any
      room at each call. What comes back is the data, as far as there was room; there is no error; and the
      end is told exactly when all of it has come back. */
  method ThereAndBack(data: seq<int>, blockSize100k: nat, workFactor: nat, step: (Crc, int) -> Crc, rooms: nat -> nat,
                      plan: seq<(nat, nat)>, last: nat, small: bool) returns (back: seq<int>, ended: bool)
    requires Bytes(data) && 1 <= blockSize100k <= 9 && workFactor <= 250 && forall i: nat :: rooms(i) > 0
    ensures back <= data && (ended <==> back == data)
    ensures last > |data| ==> ended
  {
    hide Complete, Bytes, Cut, Supplied, StreamFrom, ByteBits, TurnsOk;
    var bytes := CompressData(data, blockSize100k, workFactor, step, rooms);
    CompleteBytes(bytes, data, step, blockSize100k);
    assert bytes + [] == bytes;
    StreamMeans(bytes, [], data, step, blockSize100k);
    CutSupplies(bytes, plan, last);
    var answer, spare;
    answer, back, spare := Decode(Cut(bytes, plan, last), small, step);
    ended := answer == StreamEnd;
  }

  lemma CompleteBytes(bytes: seq<int>, content: seq<int>, step: (Crc, int) -> Crc, size: nat)
    requires Complete(bytes, content, step, size)
    ensures Bytes(bytes) && Bytes([])
  {
  }

  /* ---- A stream whose block stops in the middle of a run ---- */

  /** Such streams exist: a block of four equal bytes without their count. */
  method IllEndedStream(step: (Crc, int) -> Crc) returns (bytes: seq<int>)
    ensures Bytes(bytes) && StreamFrom(step, ByteBits(bytes)).final == IllEnded
  {
    hide Encodes, Sound, BlockBits, Room, BitWriter.Valid, ByteBits, StreamFrom, AllUsed, BitsOf;
    var block := new int[4 + MainCompare.OVERSHOOT](_ => 97);
    var inUse := new bool[256](c => c == 97);
    FourUsed(inUse[..], block[..4]);
    var w := new BitWriter(Room(5) + 200);
    HeaderBytes();
    PutBytes(w, [0x42, 0x5a, 0x68, 0x31]);
    ghost var o, x;
    o, x := CompressBlock(w, block, inUse, 4, 30, 0);
    ghost var b := block[..4];
    ghost var bits := ByteBits([0x42, 0x5a, 0x68, 0x31]) + BlockBits(0, o, x);
    NothingBefore(ByteBits([0x42, 0x5a, 0x68, 0x31]));
    w.Finish();
    bytes := WrittenBytes(w);
    IllEndedMeans(step, o, x, b, ByteBits(bytes)[|bits|..]);
    assert ByteBits(bytes) == bits + ByteBits(bytes)[|bits|..];
  }

  lemma FourUsed(inUse: seq<bool>, b: seq<int>)
    requires |inUse| == 256 && |b| == 4 && (forall k :: 0 <= k < 4 ==> b[k] == 97)
    requires forall c :: 0 <= c < 256 ==> inUse[c] == (c == 97)
    ensures AllUsed(inUse, b) && OnlyUsed(inUse, b)
  {
    assert b[0] == 97;
  }

  lemma HeaderBytes()
    ensures Bytes([0x42, 0x5a, 0x68, 0x31])
  {
  }

  lemma IllEndedMeans(step: (Crc, int) -> Crc, o: nat, x: Coded, b: seq<int>, rest: seq<bool>)
    requires Sound(x) && Encodes(b, o, x) && b == [97, 97, 97, 97]
    ensures Bytes([0x42, 0x5a, 0x68, 0x31])
    ensures StreamFrom(step, (ByteBits([0x42, 0x5a, 0x68, 0x31]) + BlockBits(0, o, x)) + rest).final == IllEnded
  {
    hide Encodes, Sound, BlockBits, BitsOf, Value, Pow2, LettersFrom, BlockFrom, CodedBits, HeadTail, ColumnOf,
      BlocksFrom, Expand, EndsWell, Letters;
    PowersOfBytes();
    HeaderLetters();
    HeaderBytes();
    ByteBitsGrow([0x42, 0x5a, 0x68], 0x31);
    assert [0x42, 0x5a, 0x68] + [0x31] == [0x42, 0x5a, 0x68, 0x31];
    hide ByteBits;
    var t := BlockBits(0, o, x) + rest;
    var letters, size := ByteBits([0x42, 0x5a, 0x68]), BitsOf(0x31, 8);
    Join(letters + size, BlockBits(0, o, x), rest);
    Join(letters, size, t);
    LettersParsed([0x42, 0x5a, 0x68], size + t);
    ValueAhead(0x31, 8, t);
    HeadFirst(0, o, x, rest);
    var l := BlockParsed(1, b, 0, o, x, rest);
    ValueAhead(0x31, 8, HeadTail(0, o) + (CodedBits(x) + rest));
    FourEnd(b, o, l);
    BlockUnfolds(step, 1, 0, t);
  }

  lemma BlockUnfolds(step: (Crc, int) -> Crc, size: nat, c: Crc, bits: seq<bool>)
    requires |bits| >= 8 && Value(bits[..8]) == 0x31
    ensures BlocksFrom(step, size, c, bits) == AfterBlock(step, size, c, BlockFrom(size, bits[8..]))
  {
    hide Value, BlockFrom, AfterBlock;
  }

  /** Four equal characters are read with a fifth as their count, and then the block is over. */
  lemma FourEnd(b: seq<int>, o: nat, l: seq<int>)
    requires b == [97, 97, 97, 97] && ColumnOf(b, o, l) && Within(l, 256)
    ensures o < |l| == 4 && !EndsWell(Letters(l, o), 4, 0)
  {
    hide ColumnOf, Links, Chars;
    CharsSpell(b, o, l, LinksFor(l));
    var s := Letters(l, o);
    assert s[..4] == b;
    assert s[0] == b[0] && s[1] == b[1] && s[2] == b[2] && s[3] == b[3];
    assert NextRun(s, 4, 0) == 5;
  }
}
