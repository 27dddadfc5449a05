/** Domain names on the wire, as in sections 3.1 and 4.1.4 of RFC 1035: two encoders that must agree,
    and a decoder that follows compression pointers. */
module DnsNames {

  const DOT := 46
  const MAX_LABEL := 63
  const MAX_NAME := 254
  const HEADER_SIZE := 12

  /** Bytes of a C string before its terminator. */
  ghost predicate Text(s: seq<int>) {
    forall i :: 0 <= i < |s| ==> 1 <= s[i] < 256
  }

  ghost predicate Bytes(s: seq<int>) {
    forall i :: 0 <= i < |s| ==> 0 <= s[i] < 256
  }

  /* ---- What a name is ---- */

  ghost predicate Label(l: seq<int>) {
    1 <= |l| <= MAX_LABEL && Text(l) && DOT !in l
  }

  ghost predicate Labels(ls: seq<seq<int>>) {
    forall k :: 0 <= k < |ls| ==> Label(ls[k])
  }

  /** The labels with dots between them. */
  function Dotted(ls: seq<seq<int>>): seq<int> {
    if |ls| == 0 then [] else if |ls| == 1 then ls[0] else ls[0] + [DOT] + Dotted(ls[1..])
  }

  /** The labels with their lengths before them, and a zero byte. */
  function Wire(ls: seq<seq<int>>): seq<int> {
    if |ls| == 0 then [0] else [|ls[0]|] + ls[0] + Wire(ls[1..])
  }

  lemma {:induction false} WireSize(ls: seq<seq<int>>)
    requires forall k :: 0 <= k < |ls| ==> |ls[k]| >= 1
    ensures |Wire(ls)| >= 2 * |ls| + 1
  {
    if |ls| > 0 { WireSize(ls[1..]); }
  }

  /* ---- The encoders' common reading of a text ---- */

  /** Length of the text up to the first dot. */
  function LabelLen(s: seq<int>): (n: nat)
    ensures n <= |s|
  {
    if |s| == 0 || s[0] == DOT then 0 else 1 + LabelLen(s[1..])
  }

  lemma {:induction false} LabelLenIs(s: seq<int>, n: nat)
    requires n <= |s| && (n < |s| ==> s[n] == DOT) && forall i :: 0 <= i < n ==> s[i] != DOT
    ensures LabelLen(s) == n
  {
    if n > 0 { LabelLenIs(s[1..], n - 1); }
  }

  /** A label ends at a dot or with the text, and has no dot in it. */
  lemma {:induction false} LabelEnds(s: seq<int>)
    ensures LabelLen(s) < |s| ==> s[LabelLen(s)] == DOT
    ensures DOT !in s[..LabelLen(s)]
  {
    if |s| > 0 && s[0] != DOT {
      LabelEnds(s[1..]);
      var l := s[..LabelLen(s)];
      assert l == [s[0]] + s[1..][..LabelLen(s[1..])];
    }
  }

  /** The text after the first dot. */
  function After(s: seq<int>): (r: seq<int>)
    ensures |s| > 0 ==> |r| < |s|
  {
    if LabelLen(s) < |s| then s[LabelLen(s) + 1..] else []
  }

  /* ---- dn_comp ---- */

  /** What dn_comp writes: a dot at the end adds nothing. */
  function Comp(s: seq<int>): seq<int>
    decreases |s|
  {
    if |s| == 0 then [0] else [LabelLen(s)] + s[..LabelLen(s)] + Comp(After(s))
  }

  ghost predicate Short(s: seq<int>)
    decreases |s|
  {
    |s| > 0 ==> LabelLen(s) <= MAX_LABEL && Short(After(s))
  }

  /** One label: its length, then its bytes. */
  method PutLabel(dest: array<int>, at: nat, l: seq<int>)
    requires at + 1 + |l| <= dest.Length
    modifies dest
    ensures dest[..] == old(dest[..at]) + ([|l|] + l) + old(dest[at + 1 + |l|..])
  {
    dest[at] := |l|;
    for i := 0 to |l|
      invariant dest[..at] == old(dest[..at]) && dest[at + 1 + |l|..] == old(dest[at + 1 + |l|..])
      invariant dest[at] == |l| && dest[at + 1..at + 1 + i] == l[..i]
    {
      dest[at + 1 + i] := l[i];
    }
    assert dest[..] == dest[..at] + ([dest[at]] + dest[at + 1..at + 1 + |l|]) + dest[at + 1 + |l|..];
  }

  /** The length of the next label, found byte by byte. */
  method NextLabel(s: seq<int>) returns (n: nat)
    ensures n == LabelLen(s)
  {
    n := 0;
    while n < |s| && s[n] != DOT
      invariant n <= |s| && forall i :: 0 <= i < n ==> s[i] != DOT
    {
      n := n + 1;
    }
    LabelLenIs(s, n);
  }

  /** dest has been written from off to at with the names's first labels; the rest is still to come. */
  ghost predicate Partly(src: seq<int>, rest: seq<int>, before: seq<int>, now: seq<int>, off: nat, at: nat, end: nat) {
    && off <= at <= end <= |before| == |now| && now[..off] == before[..off] && now[end..] == before[end..]
    && now[off..at] + Comp(rest) == Comp(src) && (Short(src) <==> Short(rest))
  }

  lemma Splice(now: seq<int>, w: seq<int>, next: seq<int>, off: nat, at: nat, end: nat)
    requires off <= at && at + |w| <= end <= |now| && next == now[..at] + w + now[at + |w|..]
    ensures |next| == |now| && next[..off] == now[..off] && next[end..] == now[end..]
    ensures next[off..at + |w|] == now[off..at] + w
  {
  }

  lemma PartlyStep(src: seq<int>, rest: seq<int>, before: seq<int>, now: seq<int>, next: seq<int>, off: nat, at: nat,
                   end: nat)
    requires Partly(src, rest, before, now, off, at, end) && rest != [] && LabelLen(rest) <= MAX_LABEL
    requires at + 1 + LabelLen(rest) <= end
    requires next == now[..at] + ([LabelLen(rest)] + rest[..LabelLen(rest)]) + now[at + 1 + LabelLen(rest)..]
    ensures Partly(src, After(rest), before, next, off, at + 1 + LabelLen(rest), end)
  {
    hide Comp, Short, LabelLen, After;
    var l := [LabelLen(rest)] + rest[..LabelLen(rest)];
    CompUnfolds(rest);
    Splice(now, l, next, off, at, end);
    JoinThree(now[off..at], l, Comp(After(rest)));
  }

  lemma CompUnfolds(s: seq<int>)
    requires s != [] && LabelLen(s) <= MAX_LABEL
    ensures Comp(s) == ([LabelLen(s)] + s[..LabelLen(s)]) + Comp(After(s)) && (Short(s) <==> Short(After(s)))
  {
    hide LabelLen;
  }

  lemma JoinThree(a: seq<int>, b: seq<int>, c: seq<int>)
    ensures (a + b) + c == a + (b + c)
  {
  }

  lemma PartlyEnds(src: seq<int>, before: seq<int>, now: seq<int>, next: seq<int>, off: nat, at: nat, end: nat)
    requires Partly(src, [], before, now, off, at, end) && at < end && next == now[at := 0]
    ensures Short(src) && |Comp(src)| == at + 1 - off && next[off..at + 1] == Comp(src)
    ensures next[..off] == before[..off] && next[end..] == before[end..]
  {
    assert next[off..at + 1] == now[off..at] + [0];
  }

  lemma PartlyFull(src: seq<int>, rest: seq<int>, before: seq<int>, now: seq<int>, off: nat, at: nat, end: nat)
    requires Partly(src, rest, before, now, off, at, end)
    ensures rest != [] && LabelLen(rest) > MAX_LABEL ==> !Short(src)
    ensures rest != [] && end - at < LabelLen(rest) + 1 ==> |Comp(src)| > end - off
    ensures rest == [] && at == end ==> |Comp(src)| > end - off
    ensures now[..off] == before[..off] && now[end..] == before[end..]
  {
    CompAtLeast(After(rest));
    assert |Comp(src)| == |now[off..at]| + |Comp(rest)|;
  }

  lemma CompAtLeast(s: seq<int>)
    ensures |Comp(s)| >= 1
  {
  }

  /** dn_comp: writes the name when its labels are short enough and there is room for all of it. */
  method DnComp(src: seq<int>, dest: array<int>, off: nat, space: nat) returns (len: int)
    requires off + space <= dest.Length
    modifies dest
    ensures len == if Short(src) && |Comp(src)| <= space then |Comp(src)| else -1
    ensures len >= 0 ==> dest[off..off + len] == Comp(src)
    ensures dest[..off] == old(dest[..off]) && dest[off + space..] == old(dest[off + space..])
  {
    hide Comp, Short, Partly;
    ghost var before, end := dest[..], off + space;
    var rest, at, room := src, off, space;
    PartlyStart(src, before, off, end);
    while rest != []
      invariant off <= at <= end && at + room == end && Partly(src, rest, before, dest[..], off, at, end)
      decreases |rest|
    {
      ghost var now := dest[..];
      var n := NextLabel(rest);
      PartlyFull(src, rest, before, now, off, at, end);
      if n > MAX_LABEL { return -1; }
      if room < n + 1 { return -1; }
      PutLabel(dest, at, rest[..n]);
      PartlyStep(src, rest, before, now, dest[..], off, at, end);
      at := at + 1 + n;
      room := room - 1 - n;
      rest := if n < |rest| then rest[n + 1..] else [];
    }
    PartlyFull(src, rest, before, dest[..], off, at, end);
    if room < 1 { return -1; }
    ghost var now := dest[..];
    dest[at] := 0;
    PartlyEnds(src, before, now, dest[..], off, at, end);
    len := at + 1 - off;
  }

  lemma PartlyStart(src: seq<int>, before: seq<int>, off: nat, end: nat)
    requires off <= end <= |before|
    ensures Partly(src, src, before, before, off, off, end)
  {
    assert before[off..off] + Comp(src) == Comp(src);
  }

  /** Labels joined by dots are taken apart again. */
  lemma {:induction false} CompOfLabels(ls: seq<seq<int>>)
    requires Labels(ls)
    ensures Comp(Dotted(ls)) == Wire(ls) && Short(Dotted(ls))
  {
    if |ls| > 0 {
      var s := Dotted(ls);
      assert Label(ls[0]);
      assert s[..|ls[0]|] == ls[0];
      LabelLenIs(s, |ls[0]|);
      if |ls| == 1 {
        assert ls[1..] == [];
      } else {
        assert s[|ls[0]| + 1..] == Dotted(ls[1..]);
      }
      CompOfLabels(ls[1..]);
    }
  }

  /* ---- The encoder that runs backwards ---- */

  /** What the backwards encoder writes behind a label's length byte. */
  function Tail(s: seq<int>): seq<int>
    decreases |s|
  {
    if |s| == 0 then [0]
    else if s[0] == DOT then [LabelLen(s[1..]) % 256] + Tail(s[1..])
    else [s[0]] + Tail(s[1..])
  }

  function Back(s: seq<int>): seq<int> {
    [LabelLen(s) % 256] + Tail(s)
  }

  /** The packet with the name's characters from j on in place; the zero byte counts as one more. The
      last length byte or zero written is at start. */
  ghost predicate Built(before: seq<int>, now: seq<int>, name: seq<int>, j: nat, start: int) {
    var off := HEADER_SIZE + 1 + |name|;
    && j <= |name| + 1 && off < |before| == |now| && now[..off - |name| + j] == before[..off - |name| + j]
    && now[off + 1..] == before[off + 1..]
    && (if j > |name| then start == off
        else start == HEADER_SIZE + 1 + j + LabelLen(name[j..]) && now[HEADER_SIZE + 1 + j..off + 1] == Tail(name[j..]))
  }

  /** The byte written when character i is reached, the zero byte included. */
  function BackByte(name: seq<int>, i: nat, start: int): int
    requires i <= |name|
  {
    if i == |name| then 0
    else if name[i] != DOT then name[i]
    else (start - (HEADER_SIZE + 1 + i) - 1) % 256
  }

  lemma BuiltStep(before: seq<int>, now: seq<int>, name: seq<int>, i: nat, start: int)
    requires Built(before, now, name, i + 1, start)
    ensures i <= |name| && HEADER_SIZE + 1 + i < |now|
    ensures Built(before, now[HEADER_SIZE + 1 + i := BackByte(name, i, start)], name, i,
                  if i < |name| && name[i] == DOT then HEADER_SIZE + 1 + i else start)
  {
    hide Tail;
    var off, rev := HEADER_SIZE + 1 + |name|, HEADER_SIZE + 1 + i;
    var next := now[rev := BackByte(name, i, start)];
    assert next[rev..off + 1] == [next[rev]] + now[rev + 1..off + 1];
    assert next[..rev] == now[..rev + 1][..rev];
    if i == |name| {
      TailLast(name);
    } else {
      TailStep(name, i);
    }
  }

  lemma FrontByte(before: seq<int>, now: seq<int>, h: nat, off: nat, v: int, t: seq<int>)
    requires h < off < |now| == |before| && now[..h + 1] == before[..h + 1] && now[off + 1..] == before[off + 1..]
    requires now[h + 1..off + 1] == t && t[off - h - 1] == 0
    ensures now[h := v][off := 0] == before[..h] + ([v] + t) + before[off + 1..]
  {
    var u := now[h := v];
    assert u[off] == now[h + 1..off + 1][off - h - 1];
    assert u == u[..h] + [u[h]] + u[h + 1..off + 1] + u[off + 1..];
    assert u[..h] == now[..h + 1][..h];
  }

  lemma Slices(a: seq<int>, b: seq<int>, c: seq<int>)
    ensures (a + b + c)[..|a|] == a && (a + b + c)[|a|..|a| + |b|] == b && (a + b + c)[|a| + |b|..] == c
  {
  }

  lemma BuiltAll(before: seq<int>, now: seq<int>, name: seq<int>, start: int)
    requires Built(before, now, name, 0, start)
    ensures start == HEADER_SIZE + 1 + LabelLen(name) && |now| == |before| > HEADER_SIZE + 1 + |name|
    ensures now[HEADER_SIZE := LabelLen(name) % 256][HEADER_SIZE + 1 + |name| := 0]
            == before[..HEADER_SIZE] + Back(name) + before[HEADER_SIZE + 2 + |name|..]
    ensures |Back(name)| == |name| + 2
  {
    assert name[0..] == name;
    TailEnds(name);
    hide Tail;
    FrontByte(before, now, HEADER_SIZE, HEADER_SIZE + 1 + |name|, LabelLen(name) % 256, Tail(name));
  }

  lemma {:induction false} TailEnds(s: seq<int>)
    ensures |Tail(s)| == |s| + 1 && Tail(s)[|s|] == 0
  {
    if |s| > 0 { TailEnds(s[1..]); }
  }

  /** The packet builder of res_query_compat: from the last character to the first, every dot becomes
      the length of the label behind it. */
  method EncodeBackwards(dname: seq<int>, packet: array<int>)
    requires Text(dname) && HEADER_SIZE + |dname| + 2 <= packet.Length
    modifies packet
    ensures packet[HEADER_SIZE..HEADER_SIZE + |dname| + 2] == Back(dname)
    ensures packet[..HEADER_SIZE] == old(packet[..HEADER_SIZE])
    ensures packet[HEADER_SIZE + |dname| + 2..] == old(packet[HEADER_SIZE + |dname| + 2..])
  {
    ghost var before := packet[..];
    var off := HEADER_SIZE + 1 + |dname|;
    var rev, start, i := off, off, |dname|;
    assert Built(before, before, dname, |dname| + 1, start);
    hide Tail, Built;
    while i >= 0
      invariant -1 <= i <= |dname| && rev == HEADER_SIZE + 1 + i && Built(before, packet[..], dname, i + 1, start)
    {
      BuiltStep(before, packet[..], dname, i, start);
      if i == |dname| || dname[i] != DOT {
        packet[rev] := if i == |dname| then 0 else dname[i];
      } else {
        packet[rev] := (start - rev - 1) % 256;
        start := rev;
      }
      rev := rev - 1;
      i := i - 1;
    }
    BuiltAll(before, packet[..], dname, start);
    packet[rev] := (start - rev - 1) % 256;
    packet[off] := 0;
    Slices(before[..HEADER_SIZE], Back(dname), before[HEADER_SIZE + 2 + |dname|..]);
  }

  lemma TailLast(s: seq<int>)
    ensures s[|s|..] == [] && Tail(s[|s|..]) == [0] && LabelLen(s[|s|..]) == 0
  {
  }

  lemma TailStep(s: seq<int>, i: nat)
    requires i < |s|
    ensures Tail(s[i..]) == [if s[i] == DOT then LabelLen(s[i + 1..]) % 256 else s[i]] + Tail(s[i + 1..])
    ensures LabelLen(s[i..]) == if s[i] == DOT then 0 else 1 + LabelLen(s[i + 1..])
  {
    assert s[i..][1..] == s[i + 1..];
  }

  /** What follows the first label. */
  function Behind(s: seq<int>): seq<int> {
    if LabelLen(s) < |s| then Back(After(s)) else [0]
  }

  lemma LaterLabel(s: seq<int>)
    requires |s| > 0 && s[0] != DOT
    ensures LabelLen(s) == 1 + LabelLen(s[1..]) && s[..LabelLen(s)] == [s[0]] + s[1..][..LabelLen(s[1..])]
    ensures After(s) == After(s[1..]) && Behind(s) == Behind(s[1..])
  {
    hide Tail;
    var m := LabelLen(s[1..]);
    assert LabelLen(s) == 1 + m;
    hide LabelLen;
    LaterSlices(s, m);
  }

  lemma LaterSlices(s: seq<int>, m: nat)
    requires |s| > 0 && m <= |s| - 1
    ensures s[..1 + m] == [s[0]] + s[1..][..m] && (m < |s| - 1 ==> s[m + 2..] == s[1..][m + 1..])
  {
  }

  lemma {:induction false} TailUnfolds(s: seq<int>)
    ensures Tail(s) == s[..LabelLen(s)] + Behind(s)
  {
    if |s| == 0 || s[0] == DOT {
      NoLabel(s);
      hide Tail, Behind, LabelLen;
      assert s[..0] + Behind(s) == Behind(s);
    } else {
      TailUnfolds(s[1..]);
      assert Tail(s) == [s[0]] + Tail(s[1..]);
      hide Tail, Behind, After, LabelLen;
      LaterLabel(s);
      JoinThree([s[0]], s[1..][..LabelLen(s[1..])], Behind(s[1..]));
    }
  }

  lemma NoLabel(s: seq<int>)
    requires |s| == 0 || s[0] == DOT
    ensures LabelLen(s) == 0 && Tail(s) == Behind(s)
  {
    if |s| > 0 { assert s[0 + 1..] == s[1..]; }
  }

  /** The backwards encoder writes the same bytes as dn_comp, except that an empty name and a dot at the
      end cost it one more zero byte. */
  lemma {:induction false} BackAndComp(s: seq<int>)
    requires Short(s)
    ensures Back(s) == Comp(s) + Extra(s)
    decreases |s|
  {
    hide Tail, LabelLen;
    if |s| == 0 {
      TailLast(s);
      assert s[0..] == s;
    } else {
      var n, r := LabelLen(s), After(s);
      assert Comp(s) == [n] + s[..n] + Comp(r);
      assert Back(s) == [n] + Tail(s);
      TailUnfolds(s);
      BackAndComp(r);
      ExtraSame(s);
      NoneAfter(s);
      hide Back, Comp, Behind, Short, After, Extra;
      Regroup(n, s[..n], Comp(r), Extra(s));
    }
  }

  /** The zero byte a dot at the end, or no text at all, costs. */
  function Extra(s: seq<int>): seq<int> {
    if s == [] || s[|s| - 1] == DOT then [0] else []
  }

  lemma ExtraSame(s: seq<int>)
    requires |s| > 0
    ensures if LabelLen(s) < |s| then Extra(s) == Extra(After(s)) else Extra(s) == []
  {
    hide LabelLen, Extra;
    LabelEnds(s);
    ExtraBy(s, LabelLen(s));
  }

  lemma ExtraBy(s: seq<int>, n: nat)
    requires n <= |s| && |s| > 0 && (n < |s| ==> s[n] == DOT) && DOT !in s[..n]
    ensures if n < |s| then Extra(s) == Extra(s[n + 1..]) else Extra(s) == []
  {
    if n < |s| {
      if n + 1 < |s| { assert s[n + 1..][|s| - n - 2] == s[|s| - 1]; }
    } else {
      assert s[..n][n - 1] == s[n - 1];
    }
  }

  lemma NoneAfter(s: seq<int>)
    requires |s| > 0
    ensures if LabelLen(s) < |s| then Behind(s) == Back(After(s)) else Behind(s) == Comp(After(s)) + []
  {
    hide Tail;
  }

  lemma Regroup(n: int, l: seq<int>, c: seq<int>, x: seq<int>)
    ensures [n] + (l + (c + x)) == ([n] + l + c) + x
  {
  }

  /** Exactly when both encoders agree. */
  lemma EncodersAgree(s: seq<int>)
    requires Short(s)
    ensures Back(s) == Comp(s) <==> s != [] && s[|s| - 1] != DOT
  {
    BackAndComp(s);
    assert |Comp(s) + [0]| == |Comp(s)| + 1;
    assert Comp(s) + [] == Comp(s);
  }

  lemma {:induction false} LastIsNoDot(ls: seq<seq<int>>)
    requires Labels(ls) && ls != []
    ensures Dotted(ls) != [] && Dotted(ls)[|Dotted(ls)| - 1] != DOT
  {
    assert Label(ls[0]);
    if |ls| > 1 { LastIsNoDot(ls[1..]); }
  }

  /** For a name of labels the backwards encoder writes the wire form too. */
  lemma BackOfLabels(ls: seq<seq<int>>)
    requires Labels(ls) && ls != []
    ensures Back(Dotted(ls)) == Wire(ls)
  {
    CompOfLabels(ls);
    LastIsNoDot(ls);
    EncodersAgree(Dotted(ls));
  }

  /* ---- dn_expand ---- */

  datatype Option<T> = None | Some(value: T)

  function Pointer(pkt: seq<int>, p: nat): int
    requires p + 1 < |pkt|
  {
    pkt[p] % 64 * 256 + pkt[p + 1]
  }

  /** The labels found from p on in n steps, pointers followed. */
  ghost function Parse(pkt: seq<int>, p: nat, n: nat): Option<seq<seq<int>>>
    requires Bytes(pkt)
    decreases n
  {
    if n == 0 || p >= |pkt| then None
    else if pkt[p] >= 64 then
      if p + 1 == |pkt| || Pointer(pkt, p) >= |pkt| then None else Parse(pkt, Pointer(pkt, p), n - 1)
    else if pkt[p] > 0 then
      if p + 1 + pkt[p] >= |pkt| then None
      else Prefixed([pkt[p + 1..p + 1 + pkt[p]]], Parse(pkt, p + 1 + pkt[p], n - 1))
    else Some([])
  }

  function Prefixed(ls: seq<seq<int>>, o: Option<seq<seq<int>>>): Option<seq<seq<int>>> {
    if o.Some? then Some(ls + o.value) else None
  }

  /** How many bytes the name takes where it starts: a pointer ends it. */
  function Span(pkt: seq<int>, p: nat, n: nat): nat
    requires Bytes(pkt)
    decreases n
  {
    if n == 0 || p >= |pkt| then 0
    else if pkt[p] >= 64 then 2
    else if pkt[p] > 0 then 1 + pkt[p] + Span(pkt, p + 1 + pkt[p], n - 1)
    else 1
  }

  /** The name can be read and leaves room for the zero byte. */
  ghost predicate Fits(o: Option<seq<seq<int>>>, cap: int) {
    o.Some? && |Dotted(o.value)| < cap
  }

  lemma {:induction false} DottedSize(ls: seq<seq<int>>, more: seq<seq<int>>)
    ensures |Dotted(ls + more)| >= |Dotted(ls)|
  {
    if |ls| > 1 {
      DottedSize(ls[1..], more);
      assert (ls + more)[1..] == ls[1..] + more;
    } else if |ls| == 1 {
      assert (ls + more)[0] == ls[0];
    }
  }

  lemma {:induction false} DottedGrows(ls: seq<seq<int>>, l: seq<int>)
    ensures Dotted(ls + [l]) == if |ls| == 0 then l else Dotted(ls) + [DOT] + l
  {
    if |ls| > 1 {
      DottedGrows(ls[1..], l);
      assert (ls + [l])[1..] == ls[1..] + [l];
    } else if |ls| == 1 {
      assert (ls + [l])[1..] == [l];
    }
  }

  /** The state of the loop: the labels read so far, and where the rest is. */
  ghost predicate Following(pkt: seq<int>, src: nat, N: nat, found: seq<seq<int>>, p: nat, n: nat, len: int) {
    && Bytes(pkt) && Parse(pkt, src, N) == Prefixed(found, Parse(pkt, p, n))
    && (if len < 0 then src <= p && Span(pkt, src, N) == p - src + Span(pkt, p, n) else len == Span(pkt, src, N))
    && (forall k :: 0 <= k < |found| ==> |found[k]| >= 1)
  }

  lemma FollowStart(pkt: seq<int>, src: nat, N: nat)
    requires Bytes(pkt)
    ensures Following(pkt, src, N, [], src, N, -1)
  {
    var o := Parse(pkt, src, N);
    if o.Some? { assert [] + o.value == o.value; }
  }

  lemma FollowPointer(pkt: seq<int>, src: nat, N: nat, found: seq<seq<int>>, p: nat, n: nat, len: int)
    requires Following(pkt, src, N, found, p, n, len) && n > 0 && p < |pkt| && pkt[p] >= 64
    ensures p + 1 == |pkt| || Pointer(pkt, p) >= |pkt| ==> Parse(pkt, src, N) == None
    ensures p + 1 < |pkt| && Pointer(pkt, p) < |pkt| ==>
              && 0 <= Pointer(pkt, p)
              && Following(pkt, src, N, found, Pointer(pkt, p), n - 1, if len < 0 then p + 2 - src else len)
  {
  }

  lemma LabelRead(pkt: seq<int>, p: nat, n: nat)
    requires Bytes(pkt) && n > 0 && p < |pkt| && 0 < pkt[p] < 64
    ensures p + 1 + pkt[p] >= |pkt| ==> Parse(pkt, p, n) == None
    ensures p + 1 + pkt[p] < |pkt| ==>
              && Parse(pkt, p, n) == Prefixed([pkt[p + 1..p + 1 + pkt[p]]], Parse(pkt, p + 1 + pkt[p], n - 1))
              && Span(pkt, p, n) == 1 + pkt[p] + Span(pkt, p + 1 + pkt[p], n - 1)
  {
  }

  lemma FollowLabel(pkt: seq<int>, src: nat, N: nat, found: seq<seq<int>>, p: nat, n: nat, len: int)
    requires Following(pkt, src, N, found, p, n, len) && n > 0 && p < |pkt| && 0 < pkt[p] < 64
    ensures p + 1 + pkt[p] >= |pkt| ==> Parse(pkt, src, N) == None
    ensures p + 1 + pkt[p] < |pkt| ==>
              var l := pkt[p + 1..p + 1 + pkt[p]];
              && Following(pkt, src, N, found + [l], p + 1 + pkt[p], n - 1, len)
              && Dotted(found + [l]) == (if found == [] then l else Dotted(found) + [DOT] + l)
              && (Parse(pkt, src, N).Some? ==> |Dotted(Parse(pkt, src, N).value)| >= |Dotted(found + [l])|)
  {
    hide Parse, Span, Dotted;
    LabelRead(pkt, p, n);
    if p + 1 + pkt[p] < |pkt| {
      var l, o := pkt[p + 1..p + 1 + pkt[p]], Parse(pkt, p + 1 + pkt[p], n - 1);
      DottedGrows(found, l);
      if o.Some? {
        assert found + ([l] + o.value) == (found + [l]) + o.value;
        DottedSize(found + [l], o.value);
      }
    }
  }

  lemma FollowEnd(pkt: seq<int>, src: nat, N: nat, found: seq<seq<int>>, p: nat, n: nat, len: int)
    requires Following(pkt, src, N, found, p, n, len) && n > 0 && p < |pkt| && pkt[p] == 0
    ensures Parse(pkt, src, N) == Some(found) && Span(pkt, src, N) == if len < 0 then p + 1 - src else len
  {
    assert found + [] == found;
  }

  lemma FollowOut(pkt: seq<int>, src: nat, N: nat, found: seq<seq<int>>, p: nat, len: int)
    requires Following(pkt, src, N, found, p, 0, len)
    ensures Parse(pkt, src, N) == None
  {
  }

  /** The number of steps the counter allows: it goes up by two and stays below the packet's size. */
  function Allowed(size: nat): nat {
    (size + 1) / 2
  }

  /** Copies a label. */
  method CopyLabel(pkt: seq<int>, p: nat, n: nat, dest: array<int>, at: nat)
    requires p + n <= |pkt| && at + n <= dest.Length
    modifies dest
    ensures dest[..at + n] == old(dest[..at]) + pkt[p..p + n]
  {
    for j := 0 to n
      invariant dest[..at + j] == old(dest[..at]) + pkt[p..p + j]
    {
      dest[at + j] := pkt[p + j];
      assert dest[..at + j + 1] == dest[..at + j] + [pkt[p + j]];
    }
  }

  /** The steps left when the counter stands at i. */
  function StepsLeft(size: nat, i: nat): nat {
    if i < size then (size - i + 1) / 2 else 0
  }

  /** dn_expand: the name at src, or -1 when there is none, when it does not fit, or when the counter
      runs out, as it must when pointers go round in a circle. */
  method DnExpand(pkt: seq<int>, src: nat, dest: array<int>, space: int) returns (len: int)
    requires Bytes(pkt) && src <= |pkt| && space <= dest.Length
    modifies dest
    ensures len >= 0 <==> Fits(Parse(pkt, src, Allowed(|pkt|)), if space > 254 then 254 else space)
    ensures len < 0 ==> len == -1
    ensures len >= 0 ==>
              len == Span(pkt, src, Allowed(|pkt|)) && Holds(dest[..], Dotted(Parse(pkt, src, Allowed(|pkt|)).value))
  {
    hide Parse, Span, Dotted, Following, Prefixed, Fits;
    ghost var N := Allowed(|pkt|);
    len := -1;
    var dend := if space > MAX_NAME then MAX_NAME else space;
    if src == |pkt| || space <= 0 {
      NothingToRead(pkt, src, N, dend);
      return;
    }
    var p, at, i := src, 0, 0;
    ghost var found: seq<seq<int>> := [];
    FollowStart(pkt, src, N);
    DottedNone();
    while i < |pkt|
      invariant 0 <= i <= |pkt| + 1 && 0 <= p < |pkt| && 0 <= at < dend && -1 <= len
      invariant Following(pkt, src, N, found, p, StepsLeft(|pkt|, i), len)
      invariant dest[..at] == Dotted(found) && (at == 0 <==> found == [])
    {
      FollowBytes(pkt, src, N, found, p, StepsLeft(|pkt|, i), len);
      if pkt[p] >= 64 {
        FollowPointer(pkt, src, N, found, p, StepsLeft(|pkt|, i), len);
        FitsNot(pkt, src, N, dend);
        if p + 1 == |pkt| { return -1; }
        var j := Pointer(pkt, p);
        if len < 0 { len := p + 2 - src; }
        if j >= |pkt| { return -1; }
        p := j;
      } else if pkt[p] > 0 {
        FollowLabel(pkt, src, N, found, p, StepsLeft(|pkt|, i), len);
        FitsNot(pkt, src, N, dend);
        ghost var d := dest[..at];
        if at != 0 {
          dest[at] := DOT;
          at := at + 1;
        }
        var j := pkt[p];
        p := p + 1;
        if j >= |pkt| - p || j >= dend - at { return -1; }
        ghost var l := pkt[p..p + j];
        assert dest[..at] == if found == [] then d else d + [DOT];
        CopyLabel(pkt, p, j, dest, at);
        found := found + [l];
        p, at := p + j, at + j;
      } else {
        FollowEnd(pkt, src, N, found, p, StepsLeft(|pkt|, i), len);
        FitsNot(pkt, src, N, dend);
        dest[at] := 0;
        if len < 0 { len := p + 1 - src; }
        return;
      }
      i := i + 2;
    }
    FollowOut(pkt, src, N, found, p, len);
    FitsNot(pkt, src, N, dend);
    len := -1;
  }

  /** A zero-terminated text. */
  ghost predicate Holds(dest: seq<int>, text: seq<int>) {
    |text| < |dest| && dest[..|text|] == text && dest[|text|] == 0
  }

  lemma FitsNot(pkt: seq<int>, src: nat, n: nat, cap: int)
    requires Bytes(pkt)
    ensures Fits(Parse(pkt, src, n), cap) <==> Parse(pkt, src, n).Some? && |Dotted(Parse(pkt, src, n).value)| < cap
  {
  }

  lemma FollowBytes(pkt: seq<int>, src: nat, N: nat, found: seq<seq<int>>, p: nat, n: nat, len: int)
    requires Following(pkt, src, N, found, p, n, len) && p < |pkt|
    ensures 0 <= pkt[p] < 256 && (p + 1 < |pkt| ==> 0 <= Pointer(pkt, p)) && (len < 0 ==> src <= p)
  {
  }

  lemma NothingToRead(pkt: seq<int>, src: nat, n: nat, cap: int)
    requires Bytes(pkt) && (src >= |pkt| || cap <= 0)
    ensures !Fits(Parse(pkt, src, n), cap)
  {
  }

  lemma DottedNone()
    ensures Dotted([]) == []
  {
  }

  /* ---- There and back ---- */

  /** s stands in the packet at p. */
  ghost predicate At(pkt: seq<int>, p: nat, s: seq<int>) {
    p + |s| <= |pkt| && pkt[p..p + |s|] == s
  }

  lemma AtParts(pkt: seq<int>, p: nat, s: seq<int>, t: seq<int>)
    requires At(pkt, p, s + t)
    ensures At(pkt, p, s) && At(pkt, p + |s|, t)
  {
    var u := pkt[p..p + |s + t|];
    assert pkt[p..p + |s|] == u[..|s|] == s;
    assert pkt[p + |s|..p + |s| + |t|] == u[|s|..] == t;
  }

  lemma AtBound(pkt: seq<int>, p: nat, s: seq<int>)
    requires At(pkt, p, s)
    ensures p + |s| <= |pkt|
  {
  }

  /** Labels that another part of a name follows. */
  function Front(ls: seq<seq<int>>): seq<int> {
    if |ls| == 0 then [] else [|ls[0]|] + ls[0] + Front(ls[1..])
  }

  lemma {:induction false} WireIsFront(ls: seq<seq<int>>)
    ensures Wire(ls) == Front(ls) + [0]
  {
    if |ls| > 0 { WireIsFront(ls[1..]); }
  }

  /** One label is read. */
  lemma ParseLabel(pkt: seq<int>, p: nat, l: seq<int>, n: nat)
    requires Bytes(pkt) && Label(l) && At(pkt, p, [|l|] + l) && p + 1 + |l| < |pkt| && n > 0
    ensures Parse(pkt, p, n) == Prefixed([l], Parse(pkt, p + 1 + |l|, n - 1))
    ensures Span(pkt, p, n) == 1 + |l| + Span(pkt, p + 1 + |l|, n - 1)
  {
    AtParts(pkt, p, [|l|], l);
    assert pkt[p] == pkt[p..p + 1][0] == |l|;
  }

  /** Labels are read, and then what is behind them. */
  lemma {:induction false} ParseFront(pkt: seq<int>, p: nat, ls: seq<seq<int>>, n: nat)
    requires Bytes(pkt) && Labels(ls) && At(pkt, p, Front(ls)) && p + |Front(ls)| < |pkt| && n >= |ls|
    ensures Parse(pkt, p, n) == Prefixed(ls, Parse(pkt, p + |Front(ls)|, n - |ls|))
    ensures Span(pkt, p, n) == |Front(ls)| + Span(pkt, p + |Front(ls)|, n - |ls|)
    decreases |ls|
  {
    hide Parse, Span;
    if |ls| == 0 {
      PrefixedNone(Parse(pkt, p, n));
    } else {
      var l := [|ls[0]|] + ls[0];
      assert Label(ls[0]);
      AtParts(pkt, p, l, Front(ls[1..]));
      ParseLabel(pkt, p, ls[0], n);
      ParseFront(pkt, p + |l|, ls[1..], n - 1);
      PrefixedTwice(ls, Parse(pkt, p + |Front(ls)|, n - |ls|));
    }
  }

  lemma PrefixedNone(o: Option<seq<seq<int>>>)
    ensures Prefixed([], o) == o
  {
    if o.Some? { assert [] + o.value == o.value; }
  }

  lemma PrefixedTwice(ls: seq<seq<int>>, o: Option<seq<seq<int>>>)
    requires |ls| > 0
    ensures Prefixed([ls[0]], Prefixed(ls[1..], o)) == Prefixed(ls, o)
  {
    if o.Some? { assert [ls[0]] + (ls[1..] + o.value) == ls + o.value; }
  }

  lemma ParseWire(pkt: seq<int>, p: nat, ls: seq<seq<int>>, n: nat)
    requires Bytes(pkt) && Labels(ls) && At(pkt, p, Wire(ls)) && n > |ls|
    ensures Parse(pkt, p, n) == Some(ls) && Span(pkt, p, n) == |Wire(ls)|
  {
    WireIsFront(ls);
    AtParts(pkt, p, Front(ls), [0]);
    ParseFront(pkt, p, ls, n);
    var z := p + |Front(ls)|;
    assert pkt[z] == pkt[z..z + 1][0] == 0;
    assert ls + [] == ls;
  }

  /** A pointer to a name that stands elsewhere, behind any number of labels. */
  function PointerTo(q: nat): seq<int> {
    [192 + q / 256, q % 256]
  }

  lemma ParsePointer(pkt: seq<int>, p: nat, q: nat, n: nat)
    requires Bytes(pkt) && At(pkt, p, PointerTo(q)) && q < |pkt| && q < 16384 && n > 0
    ensures Parse(pkt, p, n) == Parse(pkt, q, n - 1) && Span(pkt, p, n) == 2
  {
    assert pkt[p] == pkt[p..p + 2][0] && pkt[p + 1] == pkt[p..p + 2][1];
    assert Pointer(pkt, p) == q;
  }

  lemma ParseCompressed(pkt: seq<int>, p: nat, ls: seq<seq<int>>, q: nat, rest: seq<seq<int>>, n: nat)
    requires Bytes(pkt) && Labels(ls) && Labels(rest) && At(pkt, p, Front(ls) + PointerTo(q))
    requires At(pkt, q, Wire(rest)) && q < 16384
    requires n >= |ls| + |rest| + 2
    ensures Parse(pkt, p, n) == Some(ls + rest) && Span(pkt, p, n) == |Front(ls)| + 2
  {
    hide Parse, Span, Front, Wire, At, Labels, Bytes;
    WireIsFront(rest);
    AtParts(pkt, p, Front(ls), PointerTo(q));
    AtBound(pkt, p + |Front(ls)|, PointerTo(q));
    AtBound(pkt, q, Wire(rest));
    ParseFront(pkt, p, ls, n);
    ParsePointer(pkt, p + |Front(ls)|, q, n - |ls|);
    ParseWire(pkt, q, rest, n - |ls| - 1);
  }

  /** The counter allows enough steps for a name behind one pointer: every label takes two bytes or
      more, the pointer two, and no byte is read twice. */
  lemma CounterSuffices(pkt: seq<int>, p: nat, ls: seq<seq<int>>, q: nat, rest: seq<seq<int>>)
    requires Labels(ls) && Labels(rest) && p + |Front(ls)| + 2 <= |pkt| && q + |Wire(rest)| <= |pkt|
    requires p + |Front(ls)| + 2 <= q || q + |Wire(rest)| <= p
    ensures Allowed(|pkt|) >= |ls| + |rest| + 2
  {
    WireIsFront(ls);
    forall k | 0 <= k < |ls| ensures |ls[k]| >= 1 { assert Label(ls[k]); }
    forall k | 0 <= k < |rest| ensures |rest[k]| >= 1 { assert Label(rest[k]); }
    WireSize(ls);
    WireSize(rest);
  }

  /** dn_expand reads what dn_comp wrote, where it stands. */
  lemma ExpandsDirectly(pkt: seq<int>, p: nat, ls: seq<seq<int>>)
    requires Bytes(pkt) && Labels(ls) && At(pkt, p, Comp(Dotted(ls))) && |Dotted(ls)| < MAX_NAME
    ensures Parse(pkt, p, Allowed(|pkt|)) == Some(ls) && Span(pkt, p, Allowed(|pkt|)) == |Comp(Dotted(ls))|
  {
    hide Parse, Span;
    CompOfLabels(ls);
    forall k | 0 <= k < |ls| ensures |ls[k]| >= 1 { assert Label(ls[k]); }
    WireSize(ls);
    ParseWire(pkt, p, ls, Allowed(|pkt|));
  }

  /** And through a pointer, alone or behind further labels. */
  lemma ExpandsThroughPointer(pkt: seq<int>, p: nat, ls: seq<seq<int>>, q: nat, rest: seq<seq<int>>)
    requires Bytes(pkt) && Labels(ls) && Labels(rest) && At(pkt, p, Front(ls) + PointerTo(q))
    requires At(pkt, q, Comp(Dotted(rest)))
    requires q < 16384 && (p + |Front(ls)| + 2 <= q || q + |Comp(Dotted(rest))| <= p)
    ensures Parse(pkt, p, Allowed(|pkt|)) == Some(ls + rest) && Span(pkt, p, Allowed(|pkt|)) == |Front(ls)| + 2
  {
    hide Parse, Span;
    CompOfLabels(rest);
    CounterSuffices(pkt, p, ls, q, rest);
    ParseCompressed(pkt, p, ls, q, rest, Allowed(|pkt|));
  }

  /** Where the reading of a name goes on from p: behind a label, or where a pointer points; nowhere at the
      end of the name and where it cannot be read. */
  ghost function Successor(pkt: seq<int>, p: nat): Option<nat>
    requires Bytes(pkt)
  {
    if p >= |pkt| then None
    else if pkt[p] >= 64 then
      if p + 1 == |pkt| || Pointer(pkt, p) >= |pkt| then None else Some(Pointer(pkt, p))
    else if pkt[p] > 0 && p + 1 + pkt[p] < |pkt| then Some(p + 1 + pkt[p])
    else None
  }

  /** From every position of the set the reading goes on to a position of the set. */
  ghost predicate Closed(pkt: seq<int>, loop: set<nat>)
    requires Bytes(pkt)
  {
    forall p {:trigger Successor(pkt, p)} :: p in loop ==> Successor(pkt, p).Some? && Successor(pkt, p).value in loop
  }

  /** Loops of labels and pointers, of whatever length and however they are entered, are refused. */
  lemma {:induction false} LoopsAreRefused(pkt: seq<int>, loop: set<nat>, p: nat, n: nat)
    requires Bytes(pkt) && Closed(pkt, loop) && p in loop
    ensures Parse(pkt, p, n) == None
    decreases n
  {
    hide Closed;
    if n > 0 {
      StaysInside(pkt, loop, p);
      ParseGoesOn(pkt, p, n);
      hide Parse, Successor;
      LoopsAreRefused(pkt, loop, Successor(pkt, p).value, n - 1);
    }
  }

  lemma StaysInside(pkt: seq<int>, loop: set<nat>, p: nat)
    requires Bytes(pkt) && Closed(pkt, loop) && p in loop
    ensures Successor(pkt, p).Some? && Successor(pkt, p).value in loop
  {
    hide Successor;
  }

  lemma ParseGoesOn(pkt: seq<int>, p: nat, n: nat)
    requires Bytes(pkt) && n > 0 && Successor(pkt, p).Some?
    ensures Parse(pkt, p, n) == None <==> Parse(pkt, Successor(pkt, p).value, n - 1) == None
  {
  }

  /** The position after k steps. */
  ghost function Visited(pkt: seq<int>, p: nat, k: nat): Option<nat>
    requires Bytes(pkt)
  {
    if k == 0 then Some(p)
    else match Visited(pkt, p, k - 1)
         case Some(q) => Successor(pkt, q)
         case None => None
  }

  lemma {:induction false} VisitedFrom(pkt: seq<int>, p: nat, q: nat, k: nat)
    requires Bytes(pkt) && Successor(pkt, p) == Some(q)
    ensures Visited(pkt, p, k + 1) == Visited(pkt, q, k)
  {
    if k > 0 { VisitedFrom(pkt, p, q, k - 1); }
  }

  /** A name is read in n steps exactly if fewer than n steps lead to a zero byte. */
  lemma {:induction false} ReadWhen(pkt: seq<int>, p: nat, n: nat)
    requires Bytes(pkt)
    ensures Parse(pkt, p, n).Some? <==>
            exists k: nat, q: nat :: k < n && Visited(pkt, p, k) == Some(q) && q < |pkt| && pkt[q] == 0
    decreases n
  {
    if n > 0 && p < |pkt| {
      if pkt[p] == 0 {
        assert Visited(pkt, p, 0) == Some(p);
      } else if Successor(pkt, p).Some? {
        var s := Successor(pkt, p).value;
        ReadWhen(pkt, s, n - 1);
        if Parse(pkt, s, n - 1).Some? {
          var k: nat, q: nat :| k < n - 1 && Visited(pkt, s, k) == Some(q) && q < |pkt| && pkt[q] == 0;
          VisitedFrom(pkt, p, s, k);
        } else {
          forall k: nat, q: nat | k < n && Visited(pkt, p, k) == Some(q) && q < |pkt| ensures pkt[q] != 0 {
            if k > 0 { VisitedFrom(pkt, p, s, k - 1); }
          }
        }
      } else {
        NowhereFrom(pkt, p, n);
      }
    } else if p >= |pkt| {
      NowhereFrom(pkt, p, n);
    }
  }

  lemma {:induction false} NowhereFrom(pkt: seq<int>, p: nat, n: nat)
    requires Bytes(pkt) && Successor(pkt, p) == None
    ensures forall k: nat :: 0 < k <= n ==> Visited(pkt, p, k) == None
  {
    if n > 0 { NowhereFrom(pkt, p, n - 1); }
  }

  /** Within dn_expand's counter a name is read exactly if its zero byte comes after k steps, each a label or a
      pointer, with 2 * k below the size of the packet. */
  lemma ReadWithinCounter(pkt: seq<int>, p: nat)
    requires Bytes(pkt)
    ensures Parse(pkt, p, Allowed(|pkt|)).Some? <==>
            exists k: nat, q: nat :: 2 * k < |pkt| && Visited(pkt, p, k) == Some(q) && q < |pkt| && pkt[q] == 0
  {
    hide Parse, Visited;
    ReadWhen(pkt, p, Allowed(|pkt|));
    assert forall k: nat :: k < Allowed(|pkt|) <==> 2 * k < |pkt|;
  }

  /** Every byte from 64 on begins a pointer, not only those from 192 on that section 4.1.4 of RFC 1035 gives
      this meaning: the low 14 bits of it and the next byte say where the name goes on. */
  lemma ReservedIsPointer(pkt: seq<int>, p: nat, n: nat)
    requires Bytes(pkt) && p + 1 < |pkt| && 64 <= pkt[p]
    ensures var q := (256 * pkt[p] + pkt[p + 1]) % 16384;
            && (q < |pkt| ==> Parse(pkt, p, n + 1) == Parse(pkt, q, n))
            && (q >= |pkt| ==> Parse(pkt, p, n + 1) == None)
  {
    var h := pkt[p] / 64;
    assert pkt[p] == 64 * h + pkt[p] % 64;
    assert 256 * pkt[p] + pkt[p + 1] == 16384 * h + Pointer(pkt, p);
  }
}
