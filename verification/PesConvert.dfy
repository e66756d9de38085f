/** The server's two packet converters, at work on byte buffers. */
module PesConvert {
  import opened Options
  import opened Bytes
  import opened PesFormat

  const CHUNK := 2048
  const ES_HEADER := 9

  /** The largest payload of a chunk. */
  const BLOCK := (CHUNK - ES_HEADER) / 4 * 4

  // ---------------------------------------------------------------- MPEG-1 PES to MPEG-2 PES

  /** What the converter takes for an MPEG-1 packet; everything else it ignores. */
  predicate Recognised(d: seq<byte>) {
    && |d| > 7 && d[0] == 0 && d[1] == 0 && d[2] == 1 && (IsVideo(d[3]) || IsAudio(d[3]))
    && !(0x80 <= d[6] < 0xc0) && |d| == FromLen16(d[4], d[5]) + 6
  }

  /** Bytes after stuffing and buffer size field. */
  function Left(p: Packet): nat
    requires ValidStamps(p.stamps)
  {
    |StampField(p.stamps)| + |p.payload|
  }

  /** The byte after the stuffing tells whether a buffer size field follows. */
  lemma AfterStuffing(p: Packet)
    requires WellFormed(p)
    ensures var rest := StdField(p.std) + StampField(p.stamps) + p.payload;
            StampField(p.stamps) != [] && rest[0] < 0x80 && (0x40 <= rest[0] <==> p.std.Some?)
  {
    hide Stamp;
    var f := StampField(p.stamps);
    assert f[0] < 0x40;
  }

  lemma Layout1(p: Packet)
    requires WellFormed(p)
    ensures var d, s := Encode1(p), 6 + p.stuffing;
            var t := s + |StdField(p.std)|;
            && t < |d| && d[..4] == [0, 0, 1, p.id] && FromLen16(d[4], d[5]) == |d| - 6
            && (forall i :: 6 <= i < s ==> d[i] == 0xff) && d[s] < 0x80
            && (0x40 <= d[s] <==> p.std.Some?)
            && d[t..] == StampField(p.stamps) + p.payload
  {
    hide StampField, StdField, Body, FromLen16, Len16;
    var fill := seq(p.stuffing, _ => 0xff as byte);
    var std, tail := StdField(p.std), StampField(p.stamps) + p.payload;
    AfterStuffing(p);
    BodyParts(p, fill);
    LengthField(|Body(p)|);
    Parts([0, 0, 1, p.id], Len16(|Body(p)|), fill, std, tail);
  }

  lemma BodyParts(p: Packet, fill: seq<byte>)
    requires ValidStamps(p.stamps) && fill == seq(p.stuffing, _ => 0xff as byte)
    ensures Body(p) == fill + (StdField(p.std) + (StampField(p.stamps) + p.payload))
    ensures StdField(p.std) + (StampField(p.stamps) + p.payload) == StdField(p.std) + StampField(p.stamps) + p.payload
  {}

  lemma Parts(head: seq<byte>, length: seq<byte>, fill: seq<byte>, std: seq<byte>, tail: seq<byte>)
    requires |head| == 4 && |length| == 2
    ensures var d, s := head + length + (fill + (std + tail)), 6 + |fill|;
            && d[..4] == head && d[4] == length[0] && d[5] == length[1]
            && (forall i :: 6 <= i < s ==> d[i] == fill[i - 6])
            && (std + tail != [] ==> d[s] == (std + tail)[0]) && d[s + |std|..] == tail
  {}

  /** Every well-formed packet of more than 7 bytes is converted. */
  lemma RecognisesMpeg1(p: Packet)
    requires WellFormed(p) && |Body(p)| >= 2
    ensures Recognised(Encode1(p))
  {
    Layout1(p);
    var d := Encode1(p);
    if p.stuffing == 0 {
      assert d[6] < 0x80;
    }
  }

  // ---------------------------------------------------------------- what the code reads, for any bytes

  /** Where the stuffing ends: the first byte below 0x80, or the end of the packet. */
  function StuffingEnd(d: seq<byte>, i: nat): (s: nat)
    requires i <= |d|
    ensures i <= s <= |d| && (s < |d| ==> d[s] < 0x80) && forall k :: i <= k < s ==> d[k] >= 0x80
    decreases |d| - i
  {
    if i == |d| || d[i] < 0x80 then i else StuffingEnd(d, i + 1)
  }

  /** Where the time stamps are looked for, behind stuffing and buffer size field. */
  function StampsAt(d: seq<byte>): nat
    requires |d| > 6
  {
    var s := StuffingEnd(d, 6);
    if s < |d| && d[s] >= 0x40 then s + 2 else s
  }

  /** The time stamps, or the byte that stands for none. */
  function StampsLength(b: byte): (n: nat)
    ensures n == 5 || n == 10 || n == 1
    ensures (n == 5 <==> b as int / 16 == 2) && (n == 10 <==> b as int / 16 == 3)
  {
    if 0x20 <= b < 0x30 then 5 else if 0x30 <= b < 0x40 then 10 else 1
  }

  /** There are 5 bytes left for the time stamps. With less the packet is dropped. */
  predicate HasStamps(d: seq<byte>)
    requires |d| > 6
  {
    StampsAt(d) + 5 <= |d|
  }

  /** No byte behind the packet is looked at: the stuffing ends, and two time stamps are not cut off. */
  predicate ReadsInside(d: seq<byte>)
    requires |d| > 6
  {
    && StuffingEnd(d, 6) < |d|
    && (HasStamps(d) ==> StampsAt(d) + StampsLength(d[StampsAt(d)]) <= |d|)
  }

  function HeaderFrom(d: seq<byte>, t: nat): (h: seq<byte>)
    requires t < |d| && t + StampsLength(d[t]) <= |d|
    ensures 3 <= |h| <= 13
  {
    var n := StampsLength(d[t]);
    if n == 5 then [0x80, 0x80, 5] + Masked(d[t..t + 5])
    else if n == 10 then [0x80, 0xc0, 10] + Masked(d[t..t + 5]) + Masked(d[t + 5..t + 10])
    else [0x80, 0, 0]
  }

  function PayloadFrom(d: seq<byte>): seq<byte>
    requires |d| > 6 && ReadsInside(d) && HasStamps(d)
  {
    d[StampsAt(d) + StampsLength(d[StampsAt(d)])..]
  }

  /** The packet that is built. */
  function Converted(d: seq<byte>): seq<byte>
    requires |d| > 6 && ReadsInside(d) && HasStamps(d)
  {
    var h := HeaderFrom(d, StampsAt(d));
    d[..4] + Len16(|h| + |PayloadFrom(d)|) + h + PayloadFrom(d)
  }

  lemma MaskKeeps(s: seq<byte>)
    requires |s| == 5
    ensures ParseStamp(Masked(s)) == ParseStamp(s)
  {}

  /** Whatever the bytes say, the converted packet says the same: the time stamps found there, and all that follows
      them as payload. */
  lemma ConvertedKeeps(d: seq<byte>)
    requires Recognised(d) && ReadsInside(d) && HasStamps(d)
    ensures var o, t := Converted(d), StampsAt(d);
            var n := StampsLength(d[t]);
            && IsMpeg2(o) && o[..4] == d[..4] && GetPayload(o) == d[t + n..]
            && GetPts(o) == (if n >= 5 then Some(ParseStamp(d[t..t + 5])) else None)
            && GetDts(o) == (if n == 10 then Some(ParseStamp(d[t + 5..t + 10])) else None)
            && (FromLen16(o[4], o[5]) == |o| - 6 <==> |o| - 6 <= 0xffff)
  {
    hide Masked, ParseStamp, FromLen16, Len16, StuffingEnd, IsMpeg2, GetPts, GetDts, GetPayload;
    var t := StampsAt(d);
    var n := StampsLength(d[t]);
    var s1, s2 := if n >= 5 then d[t..t + 5] else [], if n == 10 then d[t + 5..t + 10] else [];
    ReadBack(d[..4], n, s1, s2, HeaderFrom(d, t), PayloadFrom(d));
  }

  lemma ReadBack(head: seq<byte>, n: nat, s1: seq<byte>, s2: seq<byte>, h: seq<byte>, tail: seq<byte>)
    requires |head| == 4 && (IsVideo(head[3]) || IsAudio(head[3])) && (n == 1 || n == 5 || n == 10)
    requires (n >= 5 ==> |s1| == 5) && (n == 10 ==> |s2| == 5) && |tail| <= 0xffff
    requires h == if n == 5 then [0x80, 0x80, 5] + Masked(s1)
                  else if n == 10 then [0x80, 0xc0, 10] + Masked(s1) + Masked(s2) else [0x80, 0, 0]
    ensures var o := head + Len16(|h| + |tail|) + h + tail;
            && IsMpeg2(o) && o[..4] == head && GetPayload(o) == tail
            && GetPts(o) == (if n >= 5 then Some(ParseStamp(s1)) else None)
            && GetDts(o) == (if n == 10 then Some(ParseStamp(s2)) else None)
            && (FromLen16(o[4], o[5]) == |o| - 6 <==> |o| - 6 <= 0xffff)
  {
    hide Masked, ParseStamp, FromLen16, Len16;
    var o := head + Len16(|h| + |tail|) + h + tail;
    LengthField(|h| + |tail|);
    PutTogether(head, Len16(|h| + |tail|), h, tail);
    assert o[3] == o[..4][3] && o[6] == h[0] && o[7] == h[1] && o[8] == h[2];
    if n >= 5 {
      MaskKeeps(s1);
      assert o[9..14] == h[3..8] == Masked(s1);
    }
    if n == 10 {
      MaskKeeps(s2);
      assert o[14..19] == h[8..13] == Masked(s2);
    }
  }

  lemma PutTogether(head: seq<byte>, length: seq<byte>, h: seq<byte>, tail: seq<byte>)
    requires |head| == 4 && |length| == 2
    ensures var o := head + length + h + tail;
            && o[..4] == head && o[4] == length[0] && o[5] == length[1] && o[6 + |h|..] == tail
            && forall i :: 0 <= i < |h| ==> o[6 + i] == h[i]
  {}

  /** A well-formed packet is read as what it is. */
  lemma ConvertsWellFormed(p: Packet)
    requires WellFormed(p) && |Body(p)| >= 2
    ensures var d := Encode1(p);
            && Recognised(d) && ReadsInside(d) && (HasStamps(d) <==> Left(p) >= 5)
            && (Left(p) >= 5 ==> Converted(d) == Convert(p) && PayloadFrom(d) == p.payload)
  {
    hide Stamp, StampField, Encode1, Convert, Converted, Masked, FromLen16, StdField;
    RecognisesMpeg1(p);
    Layout1(p);
    var d, s := Encode1(p), 6 + p.stuffing;
    StdLength(p.std);
    StuffingIs(d, 6, s);
    var t, f := StampsAt(d), StampField(p.stamps);
    assert t == s + |StdField(p.std)|;
    Prefixes(p);
    assert d[t] == d[t..][0] == f[0];
    Slice(d, t, |f|, f + p.payload);
    if Left(p) >= 5 {
      HeaderIs(d, t, p);
      ConvertedIs(d, p);
    }
  }

  lemma StdLength(std: Option<(byte, byte)>)
    ensures |StdField(std)| == if std.Some? then 2 else 0
  {}

  lemma {:induction false} StuffingIs(d: seq<byte>, i: nat, s: nat)
    requires i <= s < |d| && d[s] < 0x80 && forall k :: i <= k < s ==> d[k] >= 0x80
    ensures StuffingEnd(d, i) == s
    decreases s - i
  {
    if i < s {
      StuffingIs(d, i + 1, s);
    }
  }

  /** A packet of nothing but stuffing is read beyond its end, and so is one cut off within its second time stamp. */
  lemma ReadsOn(id: byte, n: nat, stamps: seq<byte>)
    requires (IsVideo(id) || IsAudio(id)) && 2 <= n <= 0xffff
    requires 5 <= |stamps| < 10 && 0x30 <= stamps[0] < 0x40
    ensures var d := [0, 0, 1, id] + Len16(n) + seq(n, _ => 0xff as byte); Recognised(d) && !ReadsInside(d)
    ensures var d := [0, 0, 1, id] + Len16(|stamps|) + stamps; Recognised(d) && !ReadsInside(d)
  {
    LengthField(n);
    LengthField(|stamps|);
    var d := [0, 0, 1, id] + Len16(|stamps|) + stamps;
    assert d[6] == stamps[0];
    StuffingIs(d, 6, 6);
  }

  // ---------------------------------------------------------------- the conversion, on arrays

  /** Of one whole packet of a video or audio stream, the top two bits of its byte 6 decide; MPEG-2 packets, and bytes
      that are not one whole packet, are left alone. */
  lemma OthersIgnored(d: seq<byte>)
    ensures |d| < 8 || IsMpeg2(d) || d[..3] != [0, 0, 1] || |d| - 6 != FromLen16(d[4], d[5]) ==> !Recognised(d)
    ensures |d| >= 8 && d[..3] == [0, 0, 1] && (IsVideo(d[3]) || IsAudio(d[3])) && |d| - 6 == FromLen16(d[4], d[5]) ==>
              (Recognised(d) <==> d[6] as int / 0x40 != 2)
  {
    if |d| >= 8 && d[..3] == [0, 0, 1] {
      assert d[0] == d[..3][0] && d[1] == d[..3][1] && d[2] == d[..3][2];
    }
  }

  method CopyStamp(from: array<byte>, i1: nat, to: array<byte>, i2: nat)
    requires from != to && i1 + 5 <= from.Length && i2 + 5 <= to.Length
    modifies to
    ensures to[..i2] == old(to[..i2])
    ensures to[i2..i2 + 5] == Masked(from[i1..i1 + 5])
  {
    to[i2] := (from[i1] / 2 % 8) * 2;
    to[i2 + 1] := from[i1 + 1];
    to[i2 + 2] := from[i1 + 2] - from[i1 + 2] % 2;
    to[i2 + 3] := from[i1 + 3];
    to[i2 + 4] := from[i1 + 4] - from[i1 + 4] % 2;
  }

  /** Skip stuffing and buffer size field, unless the stuffing runs on behind the packet. */
  method SkipFill(data1: array<byte>) returns (i1: nat, inside: bool)
    requires data1.Length > 6
    ensures inside <==> StuffingEnd(data1[..], 6) < data1.Length
    ensures inside ==> i1 == StampsAt(data1[..])
  {
    i1 := 6;
    while i1 < data1.Length && data1[i1] >= 0x80
      invariant 6 <= i1 <= data1.Length && StuffingEnd(data1[..], 6) == StuffingEnd(data1[..], i1)
    {
      i1 := i1 + 1;
    }
    inside := i1 < data1.Length;
    if inside && 0x40 <= data1[i1] < 0x80 {
      i1 := i1 + 2;
    }
  }

  lemma Prefixes(p: Packet)
    requires ValidStamps(p.stamps)
    ensures var f := StampField(p.stamps);
            && f != [] && |f| == StampsLength(f[0])
            && (0x20 <= f[0] < 0x30 <==> p.stamps.Pts?) && (0x30 <= f[0] < 0x40 <==> p.stamps.PtsDts?)
            && (p.stamps.PtsDts? ==> f[..5] == Stamp(3, p.stamps.pts) && f[5..] == Stamp(1, p.stamps.dts))
  {}

  lemma Slice(a: seq<byte>, i: nat, k: nat, tail: seq<byte>)
    requires i + k <= |a| && k <= |tail| && tail == a[i..]
    ensures tail[..k] == a[i..i + k] && tail[k..] == a[i + k..]
  {}

  method WritePts(data1: array<byte>, i1: nat, data2: array<byte>)
    requires data1 != data2 && i1 + 5 <= data1.Length && data2.Length >= 25
    modifies data2
    ensures data2[6..14] == [0x80, 0x80, 5] + Masked(data1[i1..i1 + 5]) && data2[..6] == old(data2[..6])
  {
    data2[6], data2[7], data2[8] := 0x80, 0x80, 5;
    CopyStamp(data1, i1, data2, 9);
    assert data2[6..9] == data2[..9][6..] == [0x80, 0x80, 5];
    assert data2[6..14] == data2[6..9] + data2[9..14];
    assert data2[..6] == data2[..9][..6];
  }

  method WritePtsDts(data1: array<byte>, i1: nat, data2: array<byte>)
    requires data1 != data2 && i1 + 10 <= data1.Length && data2.Length >= 25
    modifies data2
    ensures data2[6..19] == [0x80, 0xc0, 10] + Masked(data1[i1..i1 + 5]) + Masked(data1[i1 + 5..i1 + 10])
    ensures data2[..6] == old(data2[..6])
  {
    data2[6], data2[7], data2[8] := 0x80, 0xc0, 10;
    CopyStamp(data1, i1, data2, 9);
    assert data2[6..9] == data2[..9][6..] == [0x80, 0xc0, 10];
    CopyStamp(data1, i1 + 5, data2, 14);
    assert data2[6..9] == data2[..14][6..9] && data2[9..14] == data2[..14][9..];
    assert data2[6..19] == data2[6..9] + data2[9..14] + data2[14..19];
    assert data2[..6] == data2[..14][..6];
  }

  /** The new header from byte 6 on. */
  method WriteHeader(data1: array<byte>, i1: nat, data2: array<byte>) returns (j1: nat, i2: nat)
    requires data1 != data2 && data2.Length >= 25
    requires i1 < data1.Length && i1 + StampsLength(data1[i1]) <= data1.Length
    modifies data2
    ensures j1 == i1 + StampsLength(data1[i1])
    ensures var h := HeaderFrom(data1[..], i1);
            i2 == 6 + |h| && data2[6..i2] == h && data2[..6] == old(data2[..6])
  {
    hide Masked;
    ghost var d := data1[..];
    if 0x20 <= data1[i1] < 0x30 {
      assert data1[i1..i1 + 5] == d[i1..i1 + 5];
      WritePts(data1, i1, data2);
      j1, i2 := i1 + 5, 14;
    } else if 0x30 <= data1[i1] < 0x40 {
      assert data1[i1..i1 + 5] == d[i1..i1 + 5] && data1[i1 + 5..i1 + 10] == d[i1 + 5..i1 + 10];
      WritePtsDts(data1, i1, data2);
      j1, i2 := i1 + 10, 19;
    } else {
      data2[6], data2[7], data2[8] := 0x80, 0, 0;
      j1, i2 := i1 + 1, 9;
    }
  }

  method CopyBytes(from: array<byte>, j: nat, to: array<byte>, i: nat, k: nat)
    requires from != to && j + k <= from.Length && i + k <= to.Length
    modifies to
    ensures to[..i] == old(to[..i]) && to[i..i + k] == from[j..j + k]
  {
    forall x | 0 <= x < k {
      to[i + x] := from[j + x];
    }
  }

  method SetLength(to: array<byte>, newlen: int, i: nat)
    requires 6 <= i <= to.Length
    modifies to
    ensures to[..4] == old(to[..4]) && [to[4], to[5]] == Len16(newlen) && to[6..i] == old(to[6..i])
  {
    to[4], to[5] := ((newlen / 256) % 256) as byte, (newlen % 256) as byte;
  }

  /** Sync bytes, stream, length and new header, `i2` bytes of `data2`; the payload starts at `j1`. */
  method BuildHeader(data1: array<byte>, i1: nat, data2: array<byte>) returns (i2: nat, j1: nat)
    requires data2 != data1 && data2.Length == data1.Length + 64 && Recognised(data1[..])
    requires ReadsInside(data1[..]) && HasStamps(data1[..]) && i1 == StampsAt(data1[..])
    modifies data2
    ensures j1 <= data1.Length && data1[j1..] == PayloadFrom(data1[..])
    ensures 6 <= i2 <= 25 && data2[..i2] + data1[j1..] == Converted(data1[..])
  {
    hide StuffingEnd, HeaderFrom, FromLen16, Len16;
    ghost var d := data1[..];
    CopyBytes(data1, 0, data2, 0, 6);
    assert data2[..6] == d[..6];
    j1, i2 := WriteHeader(data1, i1, data2);
    SetLength(data2, FromLen16(data1[4], data1[5]) + i2 - j1, i2);
    assert data2[..4] == d[..6][..4] == d[..4];
    ghost var front, h := data2[..i2], HeaderFrom(d, i1);
    assert front[..4] == d[..4] && front[4..6] == [data2[4], data2[5]] && front[6..] == h;
    assert front == d[..4] + [data2[4], data2[5]] + h;
    assert data1[j1..] == d[j1..];
  }

  /** Build the MPEG-2 packet, `n` bytes of `data2`; `i1` is where stuffing and buffer size field end. */
  method Build(data1: array<byte>, i1: nat) returns (data2: array<byte>, n: nat, j1: nat)
    requires Recognised(data1[..]) && ReadsInside(data1[..]) && HasStamps(data1[..]) && i1 == StampsAt(data1[..])
    ensures 0 < n <= data2.Length == data1.Length + 64 && data2[..n] == Converted(data1[..])
    ensures j1 <= data1.Length && data1[j1..] == PayloadFrom(data1[..])
  {
    hide Converted, PayloadFrom, Recognised, ReadsInside;
    var len := data1.Length;
    data2 := new byte[len + 64];
    var i2;
    i2, j1 := BuildHeader(data1, i1, data2);
    ghost var front := data2[..i2];
    n := i2 + len - j1;
    CopyBytes(data1, j1, data2, i2, len - j1);
    assert data1[j1..len] == data1[j1..];
    Join(data2[..n], i2, front, data1[j1..]);
  }

  lemma Join(o: seq<byte>, i: nat, front: seq<byte>, back: seq<byte>)
    requires i <= |o| && o[..i] == front && o[i..] == back
    ensures o == front + back
  {}

  /** Convert an MPEG-1 packet and play it. `played` is what Play says it took. If the code looks behind the packet,
      what it does is not defined. */
  method PlayMpeg1Pes(data1: array<byte>, played: int) returns (r: int, sent: Option<seq<byte>>, inside: bool)
    ensures inside <==> (Recognised(data1[..]) ==> ReadsInside(data1[..]))
    ensures !Recognised(data1[..]) ==> r == data1.Length && sent == None
    ensures var d := data1[..];
            inside && Recognised(d) ==>
              if HasStamps(d) then
                && sent == (if PayloadFrom(d) == [] then None else Some(Converted(d)))
                && r == if PayloadFrom(d) != [] && played == |Converted(d)| then |d| else 0
              else r == |d| && sent == None
  {
    hide Converted, PayloadFrom, StampsAt, StuffingEnd;
    var len := data1.Length;
    sent, r, inside := None, len, true;
    if Recognised(data1[..]) {
      var i1;
      i1, inside := SkipFill(data1);
      if inside && len >= i1 + 5 {
        inside := i1 + StampsLength(data1[i1]) <= len;
        if inside {
          var data2, n, j1 := Build(data1, i1);
          r := 0;
          if len - j1 > 0 {
            sent, r := Some(data2[..n]), played;
          }
          r := if r == n then FromLen16(data1[4], data1[5]) + 6 else 0;
        }
      }
    }
  }

  lemma HeaderIs(d: seq<byte>, t: nat, p: Packet)
    requires ValidStamps(p.stamps) && t + |StampField(p.stamps)| <= |d|
    requires d[t..t + |StampField(p.stamps)|] == StampField(p.stamps)
    ensures t + StampsLength(d[t]) <= |d| && StampsLength(d[t]) == |StampField(p.stamps)|
    ensures HeaderFrom(d, t) == Header2(p)
  {
    hide Masked, Stamp;
    var f := StampField(p.stamps);
    Prefixes(p);
    assert d[t] == f[0];
    if p.stamps.PtsDts? {
      assert d[t..t + 5] == f[..5] && d[t + 5..t + 10] == f[5..];
    }
  }

  lemma ConvertedIs(d: seq<byte>, p: Packet)
    requires |d| > 6 && WellFormed(p) && ReadsInside(d) && HasStamps(d) && d[..4] == [0, 0, 1, p.id]
    requires HeaderFrom(d, StampsAt(d)) == Header2(p) && PayloadFrom(d) == p.payload
    ensures Converted(d) == Convert(p)
  {
    hide HeaderFrom, Header2, PayloadFrom, ReadsInside, HasStamps, StampsAt;
  }

  // ---------------------------------------------------------------- elementary stream to MPEG-2 PES

  const SEQUENCE_END: byte := 0xb7
  const NAL_END_SEQ: byte := 0x0a

  /** An MPEG-2 PES packet without time stamps. */
  function EsPacket(id: byte, payload: seq<byte>): seq<byte> {
    [0, 0, 1, id] + Len16(|payload| + 3) + [0x80, 0, 0] + payload
  }

  /** The empty packet with time stamp 0 that goes first. */
  function PtsPacket(id: byte): seq<byte> {
    [0, 0, 1, id, 0, 8, 0x80, 0x80, 5, 0, 0, 0, 0, 0]
  }

  function EndPacket(id: byte, h264: bool): seq<byte> {
    EsPacket(id, [0, 0, 1, if h264 then NAL_END_SEQ else SEQUENCE_END])
  }

  /** The first packet says time stamp 0 and carries nothing; the last one carries the end code of the codec. */
  lemma FirstAndLast(id: byte, h264: bool)
    requires IsVideo(id) || IsAudio(id)
    ensures var p := PtsPacket(id);
            && IsMpeg2(p) && GetPts(p) == Some(0) && GetDts(p) == None && GetPayload(p) == []
            && FromLen16(p[4], p[5]) == |p| - 6 && p[8] as nat == |p| - 9 && p[..3] == [0, 0, 1] && p[3] == id
    ensures var e := EndPacket(id, h264);
            && IsMpeg2(e) && GetPts(e) == None && GetPayload(e) == [0, 0, 1, if h264 then 0x0a else 0xb7]
            && FromLen16(e[4], e[5]) == |e| - 6 && e[7] == 0 && e[8] == 0 && e[..3] == [0, 0, 1] && e[3] == id
  {
    hide EsPacket, Carried, PtsPacket;
    FirstIs(id);
    PlainPacket(id, [0, 0, 1, if h264 then NAL_END_SEQ else SEQUENCE_END]);
  }

  lemma FirstIs(id: byte)
    requires IsVideo(id) || IsAudio(id)
    ensures var p := PtsPacket(id);
            && IsMpeg2(p) && GetPts(p) == Some(0) && GetDts(p) == None && GetPayload(p) == []
            && FromLen16(p[4], p[5]) == |p| - 6 && p[8] as nat == |p| - 9 && p[..3] == [0, 0, 1] && p[3] == id
  {
    hide ParseStamp;
    var p := PtsPacket(id);
    var none: seq<byte> := [0, 0, 0, 0, 0];
    assert p[9..14] == none;
    ZeroStamp(none);
  }

  lemma ZeroStamp(s: seq<byte>)
    requires s == [0, 0, 0, 0, 0]
    ensures ParseStamp(s) == 0
  {}

  lemma PlainPacket(id: byte, payload: seq<byte>)
    requires (IsVideo(id) || IsAudio(id)) && |payload| < 0x1000
    ensures var e := EsPacket(id, payload);
            && IsMpeg2(e) && GetPts(e) == None && GetPayload(e) == payload
            && FromLen16(e[4], e[5]) == |e| - 6 && e[7] == 0 && e[8] == 0 && e[..3] == [0, 0, 1] && e[3] == id
  {
    hide ParseStamp, Len16, FromLen16;
    LengthField(|payload| + 3);
    assert EsPacket(id, payload)[9..] == payload;
  }

  /** What the packets carry, put together again. */
  function Payloads(packets: seq<seq<byte>>): seq<byte> {
    if packets == [] then [] else Carried(packets[0]) + Payloads(packets[1..])
  }

  function Carried(q: seq<byte>): seq<byte> {
    if |q| >= 9 then GetPayload(q) else []
  }

  lemma {:induction false} PayloadsAppend(packets: seq<seq<byte>>, q: seq<byte>)
    ensures Payloads(packets + [q]) == Payloads(packets) + Carried(q)
  {
    var more := packets + [q];
    if packets == [] {
      assert more[1..] == [] && Carried(q) + [] == Carried(q);
    } else {
      assert more[1..] == packets[1..] + [q];
      PayloadsAppend(packets[1..], q);
      Associate(Carried(packets[0]), Payloads(packets[1..]), Carried(q));
    }
  }

  lemma Associate(a: seq<byte>, b: seq<byte>, c: seq<byte>)
    ensures (a + b) + c == a + (b + c)
  {}

  /** A packet of the size the sender promises, with a length field that says so, and nothing more in its
      header. */
  predicate GoodChunk(q: seq<byte>, id: byte) {
    && 9 < |q| <= CHUNK && q == EsPacket(id, GetPayload(q)) && FromLen16(q[4], q[5]) == |q| - 6
    && q[6] == 0x80 && q[7] == 0 && q[8] == 0
  }

  lemma EsPacketGood(id: byte, payload: seq<byte>)
    requires 0 < |payload| <= CHUNK - ES_HEADER
    ensures GoodChunk(EsPacket(id, payload), id) && GetPayload(EsPacket(id, payload)) == payload
  {
    assert EsPacket(id, payload)[9..] == payload;
  }

  lemma NextSlice(a: seq<byte>, i: nat, n: nat)
    requires i + n <= |a|
    ensures a[..i] + a[i..i + n] == a[..i + n]
  {}

  /** Header and payload of one packet, put together in the frame buffer. */
  method Pack(frame: array<byte>, id: byte, data: array<byte>, done: nat, n: nat) returns (packet: seq<byte>)
    requires frame != data && 0 < n <= CHUNK - ES_HEADER && done + n <= data.Length && frame.Length == CHUNK + 32
    modifies frame
    ensures GoodChunk(packet, id) && Carried(packet) == data[done..done + n] && |packet| == ES_HEADER + n
  {
    var header := [0, 0, 1, id] + Len16(n + 3) + [0x80, 0, 0];
    forall k | 0 <= k < ES_HEADER + n {
      frame[k] := if k < ES_HEADER then header[k] else data[done + k - ES_HEADER];
    }
    packet := frame[..ES_HEADER + n];
    assert packet == header + data[done..done + n];
    EsPacketGood(id, data[done..done + n]);
  }

  /** Pack an elementary stream. Play takes the first `accepted` chunks; nothing is sent after a refusal. */
  method PlayMpeg2Es(data: array<byte>, streamId: nat, h264: bool, accepted: nat)
    returns (ok: bool, chunks: seq<seq<byte>>, sent: seq<seq<byte>>)
    ensures var id := (streamId % 256) as byte;
            && (forall k :: 0 <= k < |chunks| ==> GoodChunk(chunks[k], id))
            && sent == [PtsPacket(id)] + chunks +
                       if ok && streamId / 16 % 16 == 14 then [EndPacket(id, h264)] else []
    ensures Payloads(chunks) <= data[..] && (ok ==> Payloads(chunks) == data[..])
    ensures ok <==> |chunks| <= accepted
    ensures |chunks| <= accepted + 1
    ensures forall k :: 0 <= k < |chunks| - 1 ==> |chunks[k]| == ES_HEADER + BLOCK
  {
    hide GoodChunk, Carried;
    var id := (streamId % 256) as byte;
    var frame := new byte[CHUNK + 32];
    var todo, done := data.Length, 0;
    ghost var all := data[..];
    chunks, ok := [], true;
    while todo > 0 && ok
      invariant todo + done == data.Length && 0 <= done && 0 <= todo
      invariant forall k :: 0 <= k < |chunks| ==> GoodChunk(chunks[k], id)
      invariant forall k :: 0 <= k < |chunks| && (k < |chunks| - 1 || todo > 0) ==> |chunks[k]| == ES_HEADER + BLOCK
      invariant |chunks| <= accepted + 1 && (ok <==> |chunks| <= accepted)
      invariant Payloads(chunks) == all[..done] && data[..] == all
      decreases todo
    {
      var blocklen := if todo > BLOCK then BLOCK else todo;
      var packet := Pack(frame, id, data, done, blocklen);
      PayloadsAppend(chunks, packet);
      assert data[done..done + blocklen] == all[done..done + blocklen];
      NextSlice(all, done, blocklen);
      done, todo := done + blocklen, todo - blocklen;
      ok := |chunks| < accepted;
      chunks := chunks + [packet];
    }
    assert ok ==> all[..done] == all;
    sent := [PtsPacket(id)] + chunks + if ok && streamId / 16 % 16 == 14 then [EndPacket(id, h264)] else [];
  }
}
