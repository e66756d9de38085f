/** PES packets of MPEG-1 (ISO/IEC 11172-1, section 2.4.3.3) and MPEG-2 (ISO/IEC 13818-1, sections 2.4.3.6 and
    2.4.3.7), as far as the converters need them. */
module PesFormat {
  import opened Options
  import opened Bytes

  const MAX_STAMP := 0x2_0000_0000

  datatype Stamps = NoStamps | Pts(pts: nat) | PtsDts(pts: nat, dts: nat)

  /** An MPEG-1 PES packet: `stuffing` bytes of 0xff, perhaps a buffer size field, time stamps, payload. */
  datatype Packet = Packet(id: byte, stuffing: nat, std: Option<(byte, byte)>, stamps: Stamps, payload: seq<byte>)

  predicate IsVideo(id: byte) { 0xe0 <= id <= 0xef }

  predicate IsAudio(id: byte) { 0xc0 <= id <= 0xdf || id == 0xbd }

  function Len16(n: int): (s: seq<byte>)
    ensures |s| == 2
  {
    [((n / 256) % 256) as byte, (n % 256) as byte]
  }

  function FromLen16(hi: byte, lo: byte): (n: nat)
    ensures n <= 0xffff
  {
    hi as nat * 256 + lo as nat
  }

  // ---------------------------------------------------------------- MPEG-1

  /** 33 bits in five bytes, with a 4-bit prefix and three marker bits. */
  function Stamp(prefix: nat, t: nat): (s: seq<byte>)
    requires prefix < 16 && t < MAX_STAMP
    ensures |s| == 5
    ensures prefix as int * 16 <= s[0] as int < prefix as int * 16 + 16
  {
    var q1 := t / 0x80;
    var q2 := q1 / 0x100;
    var q3 := q2 / 0x80;
    var q4 := q3 / 0x100;
    [(prefix * 16 + q4 * 2 + 1) as byte, (q3 % 0x100) as byte, (q2 % 0x80 * 2 + 1) as byte,
     (q1 % 0x100) as byte, (t % 0x80 * 2 + 1) as byte]
  }

  predicate ValidStamps(s: Stamps) {
    match s
    case NoStamps => true
    case Pts(p) => p < MAX_STAMP
    case PtsDts(p, d) => p < MAX_STAMP && d < MAX_STAMP
  }

  function StampField(s: Stamps): seq<byte>
    requires ValidStamps(s)
  {
    match s
    case NoStamps => [0x0f]
    case Pts(p) => Stamp(2, p)
    case PtsDts(p, d) => Stamp(3, p) + Stamp(1, d)
  }

  function StdField(std: Option<(byte, byte)>): seq<byte> {
    match std
    case None => []
    case Some(b) => [b.0, b.1]
  }

  function Body(p: Packet): seq<byte>
    requires ValidStamps(p.stamps)
  {
    seq(p.stuffing, _ => 0xff as byte) + StdField(p.std) + StampField(p.stamps) + p.payload
  }

  predicate WellFormed(p: Packet) {
    && (IsVideo(p.id) || IsAudio(p.id))
    && ValidStamps(p.stamps)
    && (p.std.Some? ==> 0x40 <= p.std.value.0 < 0x80)
    && |Body(p)| <= 0xffff
  }

  function Encode1(p: Packet): seq<byte>
    requires WellFormed(p)
  {
    [0, 0, 1, p.id] + Len16(|Body(p)|) + Body(p)
  }

  // ---------------------------------------------------------------- MPEG-2, as written

  /** A stamp as the converter copies it: without prefix and without the markers in the odd bytes. */
  function Masked(s: seq<byte>): (r: seq<byte>)
    requires |s| == 5
    ensures |r| == 5
  {
    [(s[0] / 2 % 8) * 2, s[1], s[2] - s[2] % 2, s[3], s[4] - s[4] % 2]
  }

  function StampField2(s: Stamps): seq<byte>
    requires ValidStamps(s)
  {
    match s
    case NoStamps => []
    case Pts(p) => Masked(Stamp(2, p))
    case PtsDts(p, d) => Masked(Stamp(3, p)) + Masked(Stamp(1, d))
  }

  function Flags(s: Stamps): byte {
    match s
    case NoStamps => 0
    case Pts(_) => 0x80
    case PtsDts(_, _) => 0xc0
  }

  function Header2(p: Packet): seq<byte>
    requires ValidStamps(p.stamps)
  {
    [0x80, Flags(p.stamps), |StampField2(p.stamps)| as byte] + StampField2(p.stamps)
  }

  function Convert(p: Packet): seq<byte>
    requires ValidStamps(p.stamps)
  {
    [0, 0, 1, p.id] + Len16(|Header2(p)| + |p.payload|) + Header2(p) + p.payload
  }

  // ---------------------------------------------------------------- MPEG-2, as read

  /** The time stamp in five bytes, whatever prefix and markers they carry. */
  function ParseStamp(s: seq<byte>): nat
    requires |s| == 5
  {
    (s[0] as nat / 2 % 8) * 0x4000_0000 + s[1] as nat * 0x40_0000 + (s[2] as nat / 2) * 0x8000 +
        s[3] as nat * 0x80 + s[4] as nat / 2
  }

  predicate IsMpeg2(b: seq<byte>) {
    |b| >= 9 && (IsVideo(b[3]) || IsAudio(b[3])) && 0x80 <= b[6] < 0x90
  }

  function GetPts(b: seq<byte>): Option<nat> {
    if IsMpeg2(b) && |b| > 13 && b[7] >= 0x80 then Some(ParseStamp(b[9..14])) else None
  }

  function GetDts(b: seq<byte>): Option<nat> {
    if IsMpeg2(b) && |b| > 18 && b[7] / 0x40 % 2 == 1 then Some(ParseStamp(b[14..19])) else None
  }

  function GetPayload(b: seq<byte>): seq<byte>
    requires |b| >= 9
  {
    if 9 + b[8] as nat <= |b| then b[9 + b[8] as nat..] else []
  }

  // ---------------------------------------------------------------- what conversion keeps

  lemma TopBits(prefix: nat, top: nat)
    requires prefix < 8 && top < 8
    ensures (prefix * 16 + top * 2 + 1) / 2 % 8 == top && (top * 2) / 2 % 8 == top
  {
    assert (prefix * 16 + top * 2 + 1) / 2 == 8 * prefix + top;
  }

  lemma StampSurvives(prefix: nat, t: nat)
    requires prefix < 8 && t < MAX_STAMP
    ensures ParseStamp(Masked(Stamp(prefix, t))) == t && ParseStamp(Stamp(prefix, t)) == t
  {
    var q1 := t / 0x80;
    var q2 := q1 / 0x100;
    var q3 := q2 / 0x80;
    var q4 := q3 / 0x100;
    var s := Stamp(prefix, t);
    var m := Masked(s);
    assert q4 < 8;
    TopBits(prefix, q4);
    assert s[2] as nat / 2 == q2 % 0x80 == m[2] as nat / 2;
    assert s[4] as nat / 2 == t % 0x80 == m[4] as nat / 2;
    assert t == q4 * 0x4000_0000 + (q3 % 0x100) * 0x40_0000 + (q2 % 0x80) * 0x8000 + (q1 % 0x100) * 0x80 + t % 0x80;
  }

  function WantPts(s: Stamps): Option<nat> {
    if s.NoStamps? then None else Some(s.pts)
  }

  function WantDts(s: Stamps): Option<nat> {
    if s.PtsDts? then Some(s.dts) else None
  }

  lemma Layout2(p: Packet)
    requires ValidStamps(p.stamps)
    ensures var o, k := Convert(p), |StampField2(p.stamps)|;
            && |o| == 9 + k + |p.payload| && o[..3] == [0, 0, 1] && o[3] == p.id && [o[4], o[5]] == Len16(|o| - 6)
            && o[6] == 0x80 && o[7] == Flags(p.stamps) && o[8] as nat == k
            && o[9..9 + k] == StampField2(p.stamps) && o[9 + k..] == p.payload
  {}

  lemma NoneRead(p: Packet)
    requires WellFormed(p) && p.stamps.NoStamps?
    ensures GetPts(Convert(p)) == None && GetDts(Convert(p)) == None
  {
    Layout2(p);
  }

  lemma PtsRead(p: Packet)
    requires WellFormed(p) && p.stamps.Pts?
    ensures GetPts(Convert(p)) == Some(p.stamps.pts) && GetDts(Convert(p)) == None
  {
    Layout2(p);
    StampSurvives(2, p.stamps.pts);
  }

  lemma BothRead(p: Packet)
    requires WellFormed(p) && p.stamps.PtsDts?
    ensures GetPts(Convert(p)) == Some(p.stamps.pts) && GetDts(Convert(p)) == Some(p.stamps.dts)
  {
    Layout2(p);
    StampSurvives(3, p.stamps.pts);
    StampSurvives(1, p.stamps.dts);
    var o := Convert(p);
    assert o[9..14] == o[9..19][..5] && o[14..19] == o[9..19][5..];
  }

  lemma LengthField(n: nat)
    requires n < 0x2_0000
    ensures FromLen16(Len16(n)[0], Len16(n)[1]) == n <==> n <= 0xffff
  {}

  /** A converted packet is an MPEG-2 packet of the same stream with the same time stamps and payload, whatever the
      stuffing and buffer size field; its length field is right exactly if time stamps and payload, with 3 bytes more,
      are not longer than it can say. */
  lemma ConversionKeeps(p: Packet)
    requires WellFormed(p)
    ensures var o := Convert(p);
            && IsMpeg2(o) && o[..3] == [0, 0, 1] && o[3] == p.id
            && GetPts(o) == WantPts(p.stamps) && GetDts(o) == WantDts(p.stamps)
            && GetPayload(o) == p.payload
            && (FromLen16(o[4], o[5]) == |o| - 6 <==> 3 + |StampField2(p.stamps)| + |p.payload| <= 0xffff)
  {
    Layout2(p);
    LengthField(|Convert(p)| - 6);
    match p.stamps
    case NoStamps => NoneRead(p);
    case Pts(_) => PtsRead(p);
    case PtsDts(_, _) => BothRead(p);
  }

  /** The longest packet without time stamps, 65534 bytes of payload, gets a length field of 1. */
  lemma LengthLost(id: byte, payload: seq<byte>)
    requires (IsVideo(id) || IsAudio(id)) && |payload| == 65534
    ensures var p := Packet(id, 0, None, NoStamps, payload);
            var o := Convert(p);
            WellFormed(p) && |o| - 6 == 65537 && FromLen16(o[4], o[5]) == 1
  {
    var p := Packet(id, 0, None, NoStamps, payload);
    assert |Body(p)| == 65535;
    Layout2(p);
  }
}
