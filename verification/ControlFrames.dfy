/** The control stream from server to client: text lines, and OSD commands in binary after a line that says so. */
module ControlFrames {
  import opened Bytes

  const CR: byte := 13
  const LF: byte := 10

  /** The line buffer takes this many characters. */
  const MAX_LINE := 8126

  /** Longest command the server sends: its buffer also holds CR, LF and a terminator. */
  const MAX_COMMAND := 4093

  /** The server's osd_command_t; a client accepts any size from 60 bytes on. */
  const OSD_SIZE := 62
  const OSD_MIN_SIZE := 60

  const OSDCMD: seq<byte> := [79, 83, 68, 67, 77, 68]

  /** A colour of a palette. */
  datatype Color = Color(cb: byte, cr: byte, y: byte, alpha: byte)

  /** An OSD command. `data` and `palette` are the sender's pointers: only whether they are null means anything. */
  datatype OsdCommand = OsdCommand(cmd: byte, wnd: byte, layer: byte, pts: nat, delay: nat,
                                   x: nat, y: nat, w: nat, h: nat,
                                   datalen: nat, numRle: nat, data: nat, colors: nat, palette: nat,
                                   x1: nat, y1: nat, x2: nat, y2: nat, flags: byte, scaling: byte)

  datatype Message =
    | Text(line: seq<byte>)
    | Osd(command: OsdCommand, palette: seq<Color>, bitmap: seq<byte>)

  /** A message and what follows it; or more bytes are needed; or the stream is unusable. */
  datatype Read<+T> = Done(value: T, rest: seq<byte>) | Wait | Broken

  function Lower(b: byte): byte {
    if 65 <= b <= 90 then b + 32 else b
  }

  predicate IsOsdLine(line: seq<byte>) {
    |line| >= 6 && forall i :: 0 <= i < 6 ==> Lower(line[i]) == Lower(OSDCMD[i])
  }

  // ---------------------------------------------------------------- the server's side

  function Colors(palette: seq<Color>): seq<byte> {
    if palette == [] then []
    else [palette[0].cb, palette[0].cr, palette[0].y, palette[0].alpha] + Colors(palette[1..])
  }

  /** The osd_command_t as it is written: its size, then each field in network order. */
  function Header(c: OsdCommand): seq<byte> {
    Place(c) + Contents(c) + Rest(c)
  }

  function Place(c: OsdCommand): (s: seq<byte>)
    ensures |s| == 24
  {
    [OSD_SIZE as byte, c.cmd, c.wnd, c.layer] + ToNet(c.pts, 8) + ToNet(c.delay, 4) + Extent(c)
  }

  function Extent(c: OsdCommand): (s: seq<byte>)
    ensures |s| == 8
  {
    ToNet(c.x, 2) + ToNet(c.y, 2) + ToNet(c.w, 2) + ToNet(c.h, 2)
  }

  function Contents(c: OsdCommand): (s: seq<byte>)
    ensures |s| == 28
  {
    ToNet(c.datalen, 4) + ToNet(c.numRle, 4) + ToNet(c.data, 8) + ToNet(c.colors, 4) + ToNet(c.palette, 8)
  }

  function Rest(c: OsdCommand): (s: seq<byte>)
    ensures |s| == 10
  {
    ToNet(c.x1, 2) + ToNet(c.y1, 2) + ToNet(c.x2, 2) + ToNet(c.y2, 2) + [c.flags, c.scaling]
  }

  function Encode(m: Message): seq<byte> {
    match m
    case Text(line) => line + [CR, LF]
    case Osd(command, palette, bitmap) => OSDCMD + [CR, LF] + Header(command) + Colors(palette) + bitmap
  }

  function EncodeAll(ms: seq<Message>): seq<byte> {
    if ms == [] then [] else Encode(ms[0]) + EncodeAll(ms[1..])
  }

  /** A line that begins with OSDCMD, in capitals or not. */
  predicate Announces(line: seq<byte>) {
    && |line| >= 6 && line[0] in {79, 111} && line[1] in {83, 115} && line[2] in {68, 100}
    && line[3] in {67, 99} && line[4] in {77, 109} && line[5] in {68, 100}
  }

  /** Each number fits its field. */
  predicate InRange(c: OsdCommand) {
    && c.pts < Pow256(8) && c.data < Pow256(8) && c.palette < Pow256(8)
    && c.delay < Pow256(4) && c.datalen < Pow256(4) && c.numRle < Pow256(4) && c.colors < Pow256(4)
    && c.x < Pow256(2) && c.y < Pow256(2) && c.w < Pow256(2) && c.h < Pow256(2)
    && c.x1 < Pow256(2) && c.y1 < Pow256(2) && c.x2 < Pow256(2) && c.y2 < Pow256(2)
  }

  /** A palette has as many colours, and a bitmap as many bytes, as the command says; there is none without a
      pointer. */
  predicate Sendable(m: Message) {
    match m
    case Text(line) =>
      0 < |line| <= MAX_COMMAND && 0 !in line && CR !in line && LF !in line && !Announces(line)
    case Osd(c, palette, bitmap) =>
      && InRange(c)
      && |palette| == (if c.palette != 0 then c.colors else 0)
      && |bitmap| == (if c.data != 0 then c.datalen else 0)
  }

  // ---------------------------------------------------------------- the client's side

  /** The rest of a line of which `got` is read already: up to LF, without CR and NUL, or up to the buffer's size. */
  function ReadLine(got: seq<byte>, bytes: seq<byte>): Read<seq<byte>>
    decreases |bytes|
  {
    if |got| >= MAX_LINE then Done(got, bytes)
    else if bytes == [] then Wait
    else if bytes[0] == 0 || bytes[0] == CR then ReadLine(got, bytes[1..])
    else if bytes[0] == LF then Done(got, bytes[1..])
    else ReadLine(got + [bytes[0]], bytes[1..])
  }

  function Take(bytes: seq<byte>, n: nat): Read<seq<byte>> {
    if |bytes| < n then Wait else Done(bytes[..n], bytes[n..])
  }

  /** rd_osdcmd: the fields of a header of 60 bytes or more; a short one has no flags or scaling. */
  function Fields(b: seq<byte>): OsdCommand
    requires |b| >= OSD_MIN_SIZE
  {
    OsdCommand(b[1], b[2], b[3], FromNet(b[4..12]), FromNet(b[12..16]),
               FromNet(b[16..18]), FromNet(b[18..20]), FromNet(b[20..22]), FromNet(b[22..24]),
               FromNet(b[24..28]), FromNet(b[28..32]), FromNet(b[32..40]), FromNet(b[40..44]), FromNet(b[44..52]),
               FromNet(b[52..54]), FromNet(b[54..56]), FromNet(b[56..58]), FromNet(b[58..60]),
               if |b| > 60 then b[60] else 0, if |b| > 61 then b[61] else 0)
  }

  /** The palette's and the bitmap's size in bytes, as the client works them out. */
  function PaletteSize(c: OsdCommand): nat {
    if c.palette != 0 then 4 * c.colors else 0
  }

  function BitmapSize(c: OsdCommand): nat {
    if c.data != 0 then c.datalen else 0
  }

  /** The bytes of a palette taken as colours. */
  function ColorsOf(b: seq<byte>): seq<Color> {
    if |b| < 4 then [] else [Color(b[0], b[1], b[2], b[3])] + ColorsOf(b[4..])
  }

  function ReadOsd(bytes: seq<byte>): Read<Message> {
    if bytes == [] then Wait
    else if bytes[0] < 2 then Broken
    else
      match Take(bytes, bytes[0] as nat)
      case Wait => Wait
      case Broken => Broken
      case Done(header, rest) =>
        if |header| < OSD_MIN_SIZE then Broken
        else
          var command := Fields(header);
          match Take(rest, PaletteSize(command))
          case Wait => Wait
          case Broken => Broken
          case Done(palette, rest') =>
            match Take(rest', BitmapSize(command))
            case Wait => Wait
            case Broken => Broken
            case Done(bitmap, rest'') => Done(Osd(command, ColorsOf(palette), bitmap), rest'')
  }

  lemma {:induction false} LineShrinks(got: seq<byte>, bytes: seq<byte>)
    ensures var r := ReadLine(got, bytes);
            r.Done? ==> |r.rest| <= |bytes| && |r.value| >= |got| && (|got| < MAX_LINE ==> |r.rest| < |bytes|)
    decreases |bytes|
  {
    if |got| < MAX_LINE && bytes != [] {
      if bytes[0] == 0 || bytes[0] == CR {
        LineShrinks(got, bytes[1..]);
      } else if bytes[0] != LF {
        LineShrinks(got + [bytes[0]], bytes[1..]);
      }
    }
  }

  /** The next message; empty lines are skipped. */
  function ReadMessage(bytes: seq<byte>): Read<Message>
    decreases |bytes|
  {
    LineShrinks([], bytes);
    match ReadLine([], bytes)
    case Wait => Wait
    case Broken => Broken
    case Done(line, rest) =>
      if line == [] then ReadMessage(rest)
      else if IsOsdLine(line) then ReadOsd(rest)
      else Done(Text(line), rest)
  }

  lemma {:induction false} MessageShrinks(bytes: seq<byte>)
    ensures ReadMessage(bytes).Done? ==> |ReadMessage(bytes).rest| < |bytes|
    decreases |bytes|
  {
    LineShrinks([], bytes);
    var r := ReadLine([], bytes);
    if r.Done? && r.value == [] {
      MessageShrinks(r.rest);
    }
  }

  function ReadAll(bytes: seq<byte>): seq<Message>
    decreases |bytes|
  {
    MessageShrinks(bytes);
    match ReadMessage(bytes)
    case Done(m, rest) => [m] + ReadAll(rest)
    case _ => []
  }

  // ---------------------------------------------------------------- round trip

  /** A line without carriage returns and NULs. */
  function Kept(line: seq<byte>): seq<byte> {
    if line == [] then []
    else (if line[0] == 0 || line[0] == CR then [] else [line[0]]) + Kept(line[1..])
  }

  /** Any line that fits the buffer is read up to its end, without carriage returns and NULs; of one that does not fit,
      as much as fits. */
  lemma {:induction false} LineIs(got: seq<byte>, line: seq<byte>, more: seq<byte>)
    requires LF !in line
    ensures |got| + |Kept(line)| < MAX_LINE ==> ReadLine(got, line + [LF] + more) == Done(got + Kept(line), more)
    ensures |got| + |Kept(line)| == MAX_LINE && (line == [] || line[|line| - 1] !in {0, CR}) ==>
              ReadLine(got, line + more) == Done(got + Kept(line), more)
    decreases |line|
  {
    assert line + more == line + ([] + more);
    if line == [] {
      assert got + [] == got && [LF] + more == [] + [LF] + more && ([LF] + more)[1..] == more;
    } else {
      var next := if line[0] == 0 || line[0] == CR then got else got + [line[0]];
      assert (line + [LF] + more)[1..] == line[1..] + [LF] + more && (line + more)[1..] == line[1..] + more;
      assert got + Kept(line) == next + Kept(line[1..]);
      LineIs(next, line[1..], more);
    }
  }

  lemma {:induction false} KeptWhole(line: seq<byte>)
    requires 0 !in line && CR !in line
    ensures Kept(line + [CR]) == line
  {
    if line == [] {
      assert line + [CR] == [CR] && [CR][1..] == [];
    } else {
      assert (line + [CR])[1..] == line[1..] + [CR];
      KeptWhole(line[1..]);
    }
  }

  lemma LineBack(line: seq<byte>, more: seq<byte>)
    requires |line| < MAX_LINE && 0 !in line && CR !in line && LF !in line
    ensures ReadLine([], line + [CR, LF] + more) == Done(line, more)
  {
    KeptWhole(line);
    LineIs([], line + [CR], more);
    assert line + [CR] + [LF] + more == line + [CR, LF] + more && [] + line == line;
  }

  /** Empty lines are skipped. */
  lemma EmptySkipped(line: seq<byte>, more: seq<byte>)
    requires LF !in line && Kept(line) == []
    ensures ReadMessage(line + [LF] + more) == ReadMessage(more)
  {
    LineIs([], line, more);
  }

  lemma OnlyAnnounced(line: seq<byte>)
    ensures IsOsdLine(line) <==> Announces(line)
  {
    if Announces(line) {
      assert forall i :: 0 <= i < 6 ==> Lower(line[i]) == OSDCMD[i] + 32;
    }
    if IsOsdLine(line) {
      assert Lower(line[0]) == 111 && Lower(line[1]) == 115 && Lower(line[2]) == 100;
      assert Lower(line[3]) == 99 && Lower(line[4]) == 109 && Lower(line[5]) == 100;
    }
  }

  lemma TakeFront(a: seq<byte>, b: seq<byte>)
    ensures Take(a + b, |a|) == Done(a, b)
  {}

  /** The pieces of bytes that were put together. */
  lemma Pieces(a: seq<byte>, b: seq<byte>, c: seq<byte>, d: seq<byte>, e: seq<byte>)
    ensures var p, i := a + b + c + d + e, |a| + |b|;
            && p[..|a|] == a && p[|a|..i] == b && p[i..i + |c|] == c
            && p[i + |c|..i + |c| + |d|] == d && p[i + |c| + |d|..] == e
  {}

  /** A piece of a part of `b`. */
  lemma PieceAt(b: seq<byte>, i: nat, p: seq<byte>, k: nat, n: nat)
    requires i + |p| <= |b| && k + n <= |p| && b[i..i + |p|] == p
    ensures b[i + k..i + k + n] == p[k..k + n]
  {
    forall x | k <= x < k + n
      ensures b[i + x] == p[x]
    {
      assert b[i + x] == b[i..i + |p|][x];
    }
  }

  lemma PlaceBack(c: OsdCommand, b: seq<byte>)
    requires InRange(c) && |b| >= OSD_MIN_SIZE && b[..24] == Place(c)
    ensures var f := Fields(b);
            && b[0] == OSD_SIZE as byte && f.cmd == c.cmd && f.wnd == c.wnd && f.layer == c.layer && f.pts == c.pts
            && f.delay == c.delay && f.x == c.x && f.y == c.y && f.w == c.w && f.h == c.h
  {
    hide InRange, ToNet, FromNet, Pow256, Extent;
    Ranges(c);
    var ids := [OSD_SIZE as byte, c.cmd, c.wnd, c.layer];
    var p := Place(c);
    Pieces(ids, ToNet(c.pts, 8), ToNet(c.delay, 4), Extent(c), []);
    assert p == ids + ToNet(c.pts, 8) + ToNet(c.delay, 4) + Extent(c) + [];
    PieceAt(b, 0, p, 0, 4);
    PieceAt(b, 0, p, 4, 8);
    PieceAt(b, 0, p, 12, 4);
    PieceAt(b, 0, p, 16, 8);
    assert forall i :: 0 <= i < 4 ==> b[i] == p[i] == ids[i];
    assert b[0 + 4..0 + 4 + 8] == b[4..12] && b[0 + 12..0 + 12 + 4] == b[12..16] && b[0 + 16..0 + 16 + 8] == b[16..24];
    ExtentBack(c, b);
  }

  lemma ExtentBack(c: OsdCommand, b: seq<byte>)
    requires InRange(c) && |b| >= OSD_MIN_SIZE && b[16..24] == Extent(c)
    ensures var f := Fields(b); f.x == c.x && f.y == c.y && f.w == c.w && f.h == c.h
  {
    hide InRange, ToNet, FromNet, Pow256;
    Ranges(c);
    var p := Extent(c);
    Pieces(ToNet(c.x, 2), ToNet(c.y, 2), ToNet(c.w, 2), ToNet(c.h, 2), []);
    assert p == ToNet(c.x, 2) + ToNet(c.y, 2) + ToNet(c.w, 2) + ToNet(c.h, 2) + [];
    PieceAt(b, 16, p, 0, 2);
    PieceAt(b, 16, p, 2, 2);
    PieceAt(b, 16, p, 4, 2);
    PieceAt(b, 16, p, 6, 2);
  }

  /** Every field is read back from its bytes. */
  lemma Ranges(c: OsdCommand)
    requires InRange(c)
    ensures FromNet(ToNet(c.pts, 8)) == c.pts && FromNet(ToNet(c.delay, 4)) == c.delay
    ensures FromNet(ToNet(c.x, 2)) == c.x && FromNet(ToNet(c.y, 2)) == c.y
    ensures FromNet(ToNet(c.w, 2)) == c.w && FromNet(ToNet(c.h, 2)) == c.h
    ensures FromNet(ToNet(c.datalen, 4)) == c.datalen && FromNet(ToNet(c.numRle, 4)) == c.numRle
    ensures FromNet(ToNet(c.data, 8)) == c.data && FromNet(ToNet(c.colors, 4)) == c.colors
    ensures FromNet(ToNet(c.palette, 8)) == c.palette
    ensures FromNet(ToNet(c.x1, 2)) == c.x1 && FromNet(ToNet(c.y1, 2)) == c.y1
    ensures FromNet(ToNet(c.x2, 2)) == c.x2 && FromNet(ToNet(c.y2, 2)) == c.y2
  {
    hide ToNet, FromNet, Pow256;
    ToNetFromNet(c.pts, 8);
    ToNetFromNet(c.delay, 4);
    ToNetFromNet(c.x, 2);
    ToNetFromNet(c.y, 2);
    ToNetFromNet(c.w, 2);
    ToNetFromNet(c.h, 2);
    ToNetFromNet(c.datalen, 4);
    ToNetFromNet(c.numRle, 4);
    ToNetFromNet(c.data, 8);
    ToNetFromNet(c.colors, 4);
    ToNetFromNet(c.palette, 8);
    ToNetFromNet(c.x1, 2);
    ToNetFromNet(c.y1, 2);
    ToNetFromNet(c.x2, 2);
    ToNetFromNet(c.y2, 2);
  }

  lemma ContentsBack(c: OsdCommand, b: seq<byte>)
    requires InRange(c) && |b| >= OSD_MIN_SIZE && b[24..52] == Contents(c)
    ensures var f := Fields(b);
            && f.datalen == c.datalen && f.numRle == c.numRle && f.data == c.data
            && f.colors == c.colors && f.palette == c.palette
  {
    hide InRange, ToNet, FromNet, Pow256;
    Ranges(c);
    var p := Contents(c);
    Pieces(ToNet(c.datalen, 4), ToNet(c.numRle, 4), ToNet(c.data, 8), ToNet(c.colors, 4), ToNet(c.palette, 8));
    PieceAt(b, 24, p, 0, 4);
    PieceAt(b, 24, p, 4, 4);
    PieceAt(b, 24, p, 8, 8);
    PieceAt(b, 24, p, 16, 4);
    PieceAt(b, 24, p, 20, 8);
  }

  lemma RestBack(c: OsdCommand, b: seq<byte>)
    requires InRange(c) && |b| == OSD_SIZE && b[52..62] == Rest(c)
    ensures var f := Fields(b);
            && f.x1 == c.x1 && f.y1 == c.y1 && f.x2 == c.x2 && f.y2 == c.y2
            && f.flags == c.flags && f.scaling == c.scaling
  {
    hide InRange, ToNet, FromNet, Pow256;
    Ranges(c);
    var p := Rest(c);
    Pieces(ToNet(c.x1, 2), ToNet(c.y1, 2), ToNet(c.x2, 2), ToNet(c.y2, 2), [c.flags, c.scaling]);
    PieceAt(b, 52, p, 0, 2);
    PieceAt(b, 52, p, 2, 2);
    PieceAt(b, 52, p, 4, 2);
    PieceAt(b, 52, p, 6, 2);
    PieceAt(b, 52, p, 8, 2);
    assert b[60] == b[60..62][0] && b[61] == b[60..62][1];
  }

  /** The client finds every field where the server put it. */
  lemma HeaderBack(c: OsdCommand)
    requires InRange(c)
    ensures |Header(c)| == OSD_SIZE && Header(c)[0] == OSD_SIZE as byte && Fields(Header(c)) == c
  {
    hide InRange, Place, Contents, Rest;
    var b := Header(c);
    assert b[..24] == Place(c) && b[24..52] == Contents(c) && b[52..62] == Rest(c);
    PlaceBack(c, b);
    ContentsBack(c, b);
    RestBack(c, b);
  }

  lemma {:induction false} ColorsBack(palette: seq<Color>)
    ensures |Colors(palette)| == 4 * |palette| && ColorsOf(Colors(palette)) == palette
  {
    if palette != [] {
      ColorsBack(palette[1..]);
      assert Colors(palette)[4..] == Colors(palette[1..]);
    }
  }

  /** A header of any size from 60 bytes on is accepted: what it lacks is 0, what it has beyond is skipped. */
  lemma FieldsOfSize(c: OsdCommand, b: seq<byte>)
    requires InRange(c) && |b| >= OSD_MIN_SIZE && b[1..60] == Header(c)[1..60]
    ensures Fields(b) == c.(flags := if |b| > 60 then b[60] else 0, scaling := if |b| > 61 then b[61] else 0)
  {
    hide InRange, Header, ToNet, FromNet;
    HeaderBack(c);
    var h := Header(c);
    forall i, j | 1 <= i <= j <= 60
      ensures b[i..j] == h[i..j]
    {
      SamePart(b, h, i, j);
    }
    assert b[1] == b[1..2][0] == h[1..2][0] && b[2] == b[2..3][0] == h[2..3][0] && b[3] == b[3..4][0] == h[3..4][0];
  }

  lemma SamePart(a: seq<byte>, b: seq<byte>, i: nat, j: nat)
    requires 1 <= i <= j <= 60 <= |a| && 60 <= |b| && a[1..60] == b[1..60]
    ensures a[i..j] == b[i..j]
  {
    forall k | i <= k < j
      ensures a[k] == b[k]
    {
      assert a[k] == a[1..60][k - 1] && b[k] == b[1..60][k - 1];
    }
  }

  lemma OsdSized(b: seq<byte>, palette: seq<Color>, bitmap: seq<byte>, more: seq<byte>)
    requires OSD_MIN_SIZE <= |b| < 256 && b[0] as nat == |b|
    requires 4 * |palette| == PaletteSize(Fields(b)) && |bitmap| == BitmapSize(Fields(b))
    ensures ReadOsd(b + (Colors(palette) + (bitmap + more))) == Done(Osd(Fields(b), palette, bitmap), more)
  {
    hide Fields, Colors, ColorsOf, Take, PaletteSize, BitmapSize;
    var colors := Colors(palette);
    ColorsBack(palette);
    TakeFront(b, colors + (bitmap + more));
    TakeFront(colors, bitmap + more);
    TakeFront(bitmap, more);
    assert (b + (colors + (bitmap + more)))[0] == b[0];
  }

  /** A smaller one is refused, as soon as it is complete. */
  lemma OsdRefused(bytes: seq<byte>)
    requires bytes != [] && bytes[0] < 60
    ensures ReadOsd(bytes) == if bytes[0] < 2 || |bytes| >= bytes[0] as nat then Broken else Wait
  {}

  lemma OsdBack(m: Message, more: seq<byte>)
    requires m.Osd? && Sendable(m)
    ensures ReadOsd(Header(m.command) + (Colors(m.palette) + (m.bitmap + more))) == Done(m, more)
  {
    hide Header, Fields, InRange, Colors;
    HeaderBack(m.command);
    OsdSized(Header(m.command), m.palette, m.bitmap, more);
  }

  lemma MessageBack(m: Message, more: seq<byte>)
    requires Sendable(m)
    ensures ReadMessage(Encode(m) + more) == Done(m, more)
  {
    match m
    case Text(line) =>
      OnlyAnnounced(line);
      LineBack(line, more);
    case Osd(command, palette, bitmap) =>
      var tail := Header(command) + (Colors(palette) + (bitmap + more));
      assert Encode(m) + more == OSDCMD + [CR, LF] + tail;
      LineBack(OSDCMD, tail);
      OsdBack(m, more);
  }

  /** Whatever mix of commands and OSD updates the server sends, the client reads the same list: no binary byte is ever
      taken for text, and no text for binary. */
  lemma {:induction false} AllBack(ms: seq<Message>)
    requires forall i :: 0 <= i < |ms| ==> Sendable(ms[i])
    ensures ReadAll(EncodeAll(ms)) == ms
  {
    if ms != [] {
      MessageBack(ms[0], EncodeAll(ms[1..]));
      AllBack(ms[1..]);
    }
  }
}
