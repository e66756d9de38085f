/** Reassembly of frames from a TCP or pipe data stream: a header of 13 bytes, then as many bytes as it says. */
module TcpFrames {
  import opened Bytes

  const HEADER := 13
  const CONTROL_POS := 0xffff_ffff_ffff_ffff
  const TS_SYNC: byte := 0x47

  datatype Frame = Frame(pos: nat, stream: byte, payload: seq<byte>)

  /** `rest` is the unfinished frame; `ok` is false from a frame on that does not fit the buffer. */
  datatype Parsed = Parsed(frames: seq<Frame>, rest: seq<byte>, ok: bool)

  /** The `int` that holds 13 plus an unsigned 32-bit length. */
  function Total(len: nat): (t: int)
    requires len < 0x1_0000_0000
    ensures t <= 0x7fff_ffff
  {
    var sum := (HEADER + len) % 0x1_0000_0000;
    if sum > 0x7fff_ffff then sum - 0x1_0000_0000 else sum
  }

  function Length(bytes: seq<byte>): (len: nat)
    requires |bytes| >= HEADER
    ensures len < 0x1_0000_0000
  {
    assert Pow256(4) == 0x1_0000_0000;
    FromNet(bytes[8..12])
  }

  /** How many bytes the frame at the front takes. */
  function Size(bytes: seq<byte>): (n: nat)
    requires |bytes| >= HEADER
    ensures n >= HEADER
  {
    var t := Total(Length(bytes));
    if t > HEADER then t else HEADER
  }

  predicate Fits(bytes: seq<byte>, max: nat)
    requires |bytes| >= HEADER
  {
    Total(Length(bytes)) + HEADER < max
  }

  function Decode(bytes: seq<byte>): Frame
    requires |bytes| >= HEADER
  {
    Frame(FromNet(bytes[..8]), bytes[12], bytes[HEADER..])
  }

  predicate Whole(bytes: seq<byte>, max: nat) {
    |bytes| >= HEADER && Fits(bytes, max) && |bytes| >= Size(bytes)
  }

  /** `q` is what follows `p`. */
  function Then(p: Parsed, q: Parsed): Parsed {
    Parsed(p.frames + q.frames, q.rest, q.ok)
  }

  function Parse(bytes: seq<byte>, max: nat): (p: Parsed)
    decreases |bytes|
  {
    if !Whole(bytes, max) then Parsed([], bytes, |bytes| < HEADER || Fits(bytes, max))
    else Then(Parsed([Decode(bytes[..Size(bytes)])], [], true), Parse(bytes[Size(bytes)..], max))
  }

  lemma WholeOn(a: seq<byte>, b: seq<byte>, max: nat)
    requires Whole(a, max)
    ensures Whole(a + b, max) && Size(a + b) == Size(a)
  {
    assert (a + b)[8..12] == a[8..12];
  }

  lemma ThenThen(p: Parsed, q: Parsed, r: Parsed)
    ensures Then(Then(p, q), r) == Then(p, Then(q, r))
    ensures p.frames == [] ==> Then(p, q) == q
  {}

  lemma ParseStep(a: seq<byte>, b: seq<byte>, max: nat)
    requires Whole(a, max)
    ensures Parse(a + b, max) == Then(Parsed([Decode(a[..Size(a)])], [], true), Parse(a[Size(a)..] + b, max))
  {
    WholeOn(a, b, max);
    var n := Size(a);
    assert (a + b)[..n] == a[..n] && (a + b)[n..] == a[n..] + b;
  }

  /** Parsing can stop after any byte and go on from the unfinished frame. */
  lemma {:induction false} ParseOn(a: seq<byte>, b: seq<byte>, max: nat)
    requires Parse(a, max).ok
    ensures Parse(a + b, max) == Then(Parse(a, max), Parse(Parse(a, max).rest + b, max))
    decreases |a|
  {
    var q := Parse(Parse(a, max).rest + b, max);
    if Whole(a, max) {
      var first, a' := Parsed([Decode(a[..Size(a)])], [], true), a[Size(a)..];
      ParseStep(a, b, max);
      ParseOn(a', b, max);
      ThenThen(first, Parse(a', max), q);
    } else {
      ThenThen(Parse(a, max), q, q);
    }
  }

  /** Nothing is parsed beyond a frame that does not fit. */
  lemma {:induction false} ParseBroken(a: seq<byte>, b: seq<byte>, max: nat)
    requires !Parse(a, max).ok
    ensures Parse(a + b, max).frames == Parse(a, max).frames && !Parse(a + b, max).ok
    decreases |a|
  {
    if Whole(a, max) {
      ParseStep(a, b, max);
      ParseBroken(a[Size(a)..], b, max);
    } else {
      assert (a + b)[8..12] == a[8..12];
    }
  }

  function Flatten(chunks: seq<seq<byte>>): seq<byte> {
    if chunks == [] then [] else chunks[0] + Flatten(chunks[1..])
  }

  /** Parse chunk by chunk, keeping only the frames and the unfinished rest. */
  function Feed(p: Parsed, chunks: seq<seq<byte>>, max: nat): Parsed
    decreases |chunks|
  {
    if chunks == [] || !p.ok then p
    else Feed(Then(Parsed(p.frames, [], true), Parse(p.rest + chunks[0], max)), chunks[1..], max)
  }

  lemma Associate(a: seq<byte>, b: seq<byte>, c: seq<byte>)
    ensures (a + b) + c == a + (b + c)
  {}

  /** The frames do not depend on how the stream was cut up. */
  lemma {:induction false} AnyChunks(a: seq<byte>, chunks: seq<seq<byte>>, max: nat)
    ensures var p, q := Feed(Parse(a, max), chunks, max), Parse(a + Flatten(chunks), max);
            p.frames == q.frames && p.ok == q.ok && (p.ok ==> p.rest == q.rest)
    decreases |chunks|
  {
    if chunks == [] {
      assert a + [] == a;
    } else if !Parse(a, max).ok {
      ParseBroken(a, Flatten(chunks), max);
    } else {
      var p, c, rest := Parse(a, max), chunks[0], Flatten(chunks[1..]);
      ParseOn(a, c, max);
      assert Then(Parsed(p.frames, [], true), Parse(p.rest + c, max)) == Parse(a + c, max);
      AnyChunks(a + c, chunks[1..], max);
      Associate(a, c, rest);
    }
  }

  // ---------------------------------------------------------------- the sender

  function Encode(f: Frame): seq<byte> {
    ToNet(f.pos, 8) + ToNet(|f.payload|, 4) + [f.stream] + f.payload
  }

  function EncodeAll(fs: seq<Frame>): seq<byte> {
    if fs == [] then [] else Encode(fs[0]) + EncodeAll(fs[1..])
  }

  /** A frame the client's buffer can take, for buffers of less than 2 GB. */
  predicate Sendable(f: Frame, max: nat) {
    f.pos < Pow256(8) && 2 * HEADER + |f.payload| < max <= 0x7fff_ffff
  }

  lemma EncodeFront(f: Frame, more: seq<byte>, max: nat)
    requires Sendable(f, max)
    ensures var bytes := Encode(f) + more;
            && |bytes| >= HEADER && Fits(bytes, max) && Size(bytes) == |Encode(f)| <= |bytes|
            && bytes[..Size(bytes)] == Encode(f) && bytes[Size(bytes)..] == more && Decode(Encode(f)) == f
  {
    var bytes := Encode(f) + more;
    assert Pow256(4) == 0x1_0000_0000;
    assert bytes[8..12] == ToNet(|f.payload|, 4);
    assert Encode(f)[..8] == ToNet(f.pos, 8) && Encode(f)[HEADER..] == f.payload;
    ToNetFromNet(|f.payload|, 4);
    ToNetFromNet(f.pos, 8);
  }

  /** What the server frames, the client unframes. */
  lemma {:induction false} ParseEncoded(fs: seq<Frame>, max: nat)
    requires forall i :: 0 <= i < |fs| ==> Sendable(fs[i], max)
    ensures Parse(EncodeAll(fs), max) == Parsed(fs, [], true)
  {
    if fs != [] {
      EncodeFront(fs[0], EncodeAll(fs[1..]), max);
      ParseEncoded(fs[1..], max);
      assert [fs[0]] + fs[1..] == fs;
    }
  }

  // ---------------------------------------------------------------- lengths that are too large

  /** A frame is taken exactly if it, and one more header, are shorter than the buffer; otherwise the stream is given
      up. */
  lemma FrameDecides(f: Frame, max: nat)
    requires f.pos < Pow256(8) && HEADER + |f.payload| <= 0x7fff_ffff
    ensures Parse(Encode(f), max) ==
            if 2 * HEADER + |f.payload| < max then Parsed([f], [], true) else Parsed([], Encode(f), false)
  {
    hide Encode, Decode, Length;
    var b := Encode(f);
    EncodedFields(f);
    assert b[..|b|] == b && b[|b|..] == [];
  }

  lemma EncodedFields(f: Frame)
    requires f.pos < Pow256(8) && |f.payload| < 0x1_0000_0000
    ensures var b := Encode(f); |b| == HEADER + |f.payload| && Length(b) == |f.payload| && Decode(b) == f
  {
    hide ToNet, FromNet;
    var b := Encode(f);
    assert Pow256(4) == 0x1_0000_0000;
    assert b[8..12] == ToNet(|f.payload|, 4) && b[..8] == ToNet(f.pos, 8) && b[HEADER..] == f.payload;
    ToNetFromNet(|f.payload|, 4);
    ToNetFromNet(f.pos, 8);
  }

  /** A length that does not fit a C `int` together with the header is taken for none at all: the frame ends with its
      header. */
  lemma LengthOverflows(bytes: seq<byte>, max: nat)
    requires |bytes| >= HEADER && Length(bytes) >= 0x7fff_fff3 && 2 * HEADER < max
    ensures Parse(bytes, max) == Then(Parsed([Frame(FromNet(bytes[..8]), bytes[12], [])], [], true),
                                      Parse(bytes[HEADER..], max))
  {
    hide FromNet, Length, Then;
    var b := bytes[..HEADER];
    assert Size(bytes) == HEADER && Whole(bytes, max);
    assert b[..8] == bytes[..8] && b[HEADER..] == [];
    assert Decode(b) == Frame(FromNet(bytes[..8]), bytes[12], []);
  }
}
