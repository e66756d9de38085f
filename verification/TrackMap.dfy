/** The track list messages: what the client prints, and what the server reads. */
module TrackMap {

  /** The language has no leading blanks. */
  datatype Track = Track(id: int, lang: string)

  /** The tracks found and the current one, or a scan that never ends. */
  datatype Outcome = Done(tracks: seq<Track>, current: int) | Hangs

  const SUBTITLE_AUTO := -1
  const SUBTITLE_NONE := -2

  // ---------------------------------------------------------------- printing

  predicate IsDigit(c: char) {
    '0' <= c <= '9'
  }

  function Digit(d: nat): (c: char)
    requires d < 10
    ensures IsDigit(c) && c as int - '0' as int == d
  {
    d as char + '0'
  }

  function Decimal(n: nat): (s: string)
    ensures s != [] && forall c :: c in s ==> IsDigit(c)
  {
    if n < 10 then [Digit(n)] else Decimal(n / 10) + [Digit(n % 10)]
  }

  function Show(i: int): (s: string)
    ensures s != []
  {
    if i < 0 then "-" + Decimal(-i) else Decimal(i)
  }

  function Entry(t: Track, current: int): (s: string)
    ensures s != []
  {
    (if t.id == current then "*" else "") + Show(t.id) + ":" + t.lang + " "
  }

  function Entries(tracks: seq<Track>, current: int): string {
    if tracks == [] then "" else Entry(tracks[0], current) + Entries(tracks[1..], current)
  }

  /** Without a subtitle track chosen, a first entry says so. */
  function Chosen(current: int): string {
    if current >= 0 then ""
    else "*" + Show(current) + ":" + (if current == SUBTITLE_NONE then "none" else "auto") + " "
  }

  function Marked(current: int, auto: int): int {
    if current == SUBTITLE_AUTO then auto else current
  }

  function PrintSpu(tracks: seq<Track>, current: int, auto: int): string {
    " " + Chosen(current) + Entries(tracks, Marked(current, auto)) + "\r\n"
  }

  function PrintAudio(tracks: seq<Track>, current: int): string {
    " " + Entries(tracks, current) + "\r\n"
  }

  // ---------------------------------------------------------------- reading

  /** How many characters come before the first `c`, or before the end. */
  function Until(s: string, c: char): (k: nat)
    ensures k <= |s| && (k < |s| ==> s[k] == c) && forall i :: 0 <= i < k ==> s[i] != c
  {
    if s == [] || s[0] == c then 0 else 1 + Until(s[1..], c)
  }

  function Blanks(s: string): (k: nat)
    ensures k <= |s| && (k < |s| ==> s[k] != ' ') && forall i :: 0 <= i < k ==> s[i] == ' '
  {
    if s == [] || s[0] != ' ' then 0 else 1 + Blanks(s[1..])
  }

  /** The text after the first `c`, if there is one. */
  function After(s: string, c: char): (r: string)
    ensures |r| <= |s| && (s != [] ==> |r| < |s|)
  {
    var k := Until(s, c);
    if k < |s| then s[k + 1..] else []
  }

  function Number(s: string, n: nat): nat {
    if s == [] || !IsDigit(s[0]) then n else Number(s[1..], 10 * n + (s[0] as int - '0' as int))
  }

  predicate IsSpace(c: char) {
    c == ' ' || '\t' <= c <= '\r'
  }

  function Signed(s: string): int {
    if s != [] && s[0] == '-' then -(Number(s[1..], 0) as int)
    else if s != [] && s[0] == '+' then Number(s[1..], 0)
    else Number(s, 0)
  }

  /** The C library's conversion, without its limits. */
  function Atoi(s: string): int {
    if s != [] && IsSpace(s[0]) then Atoi(s[1..]) else Signed(s)
  }

  /** The text after leading blanks and one star. */
  function Unstarred(s: string): (r: string)
    ensures |r| <= |s|
  {
    var t := s[Blanks(s)..];
    if t != [] && t[0] == '*' then t[1..] else t
  }

  predicate Starred(s: string) {
    var k := Blanks(s);
    k < |s| && s[k] == '*'
  }

  /** The language that ends before the next blank. */
  function Word(s: string): string {
    s[..Until(s, ' ')]
  }

  /** What one turn of a scan does with the text. */
  datatype Turn =
    | Found(track: Track, starred: bool, rest: string)
    | NoTrack(current: int, rest: string)
    | Skip(rest: string)
    | Stuck

  /** A track's number, up to a colon, and its language, up to a blank. */
  function TrackTurn(s: string): (r: Turn)
    requires s != []
    ensures r.Found? && |r.rest| < |s|
  {
    var t := Unstarred(s);
    var lang := After(t, ':');
    Found(Track(Atoi(t), Word(lang)), Starred(s), After(lang, ' '))
  }

  function SpuTurn(s: string): (r: Turn)
    requires s != []
    ensures !r.Stuck? ==> |r.rest| < |s|
  {
    var t := Unstarred(s);
    if Starred(s) && t != [] && t[0] == '-' then NoTrack(Atoi(t), t[Until(t, ' ')..])
    else if t != [] && IsDigit(t[0]) then TrackTurn(s)
    else if t == s then Stuck
    else Skip(t)
  }

  function TurnOf(spu: bool, s: string): (r: Turn)
    requires s != []
    ensures !r.Stuck? ==> |r.rest| < |s|
  {
    if spu then SpuTurn(s) else TrackTurn(s)
  }

  /** A turn that leaves the text as it is will do so forever. */
  function Scan(spu: bool, s: string, tracks: seq<Track>, current: int): Outcome
    decreases |s|
  {
    if s == [] then Done(tracks, current)
    else
      match TurnOf(spu, s)
      case Found(t, starred, rest) => Scan(spu, rest, tracks + [t], if starred then t.id else current)
      case NoTrack(c, rest) => Scan(spu, rest, tracks, c)
      case Skip(rest) => Scan(spu, rest, tracks, current)
      case Stuck => Hangs
  }

  /** A message ends before the first carriage return. */
  function Line(s: string): string {
    s[..Until(s, '\r')]
  }

  function ReadSpu(s: string): Outcome {
    Scan(true, Line(s), [], SUBTITLE_AUTO)
  }

  /** `current` is the audio track before the message. */
  function ReadAudio(s: string, current: int): Outcome {
    Scan(false, Line(s), [], current)
  }

  // ---------------------------------------------------------------- characters

  lemma {:induction false} UntilIn(a: string, c: char, b: string)
    requires c !in a
    ensures Until(a + [c] + b, c) == |a|
  {
    var s := a + [c] + b;
    if a != [] {
      assert s[1..] == a[1..] + [c] + b;
      UntilIn(a[1..], c, b);
    }
  }

  lemma {:induction false} UntilSooner(a: string, c: char, b: string)
    requires c in a
    ensures Until(a + b, c) == Until(a, c) < |a|
  {
    var s := a + b;
    if a[0] != c {
      assert s[1..] == a[1..] + b;
      UntilSooner(a[1..], c, b);
    }
  }

  lemma {:induction false} NumberOfDigits(a: string, b: string, m: nat)
    requires forall c :: c in a ==> IsDigit(c)
    ensures Number(a + b, m) == Number(b, Number(a, m))
  {
    if a == [] {
      assert a + b == b;
    } else {
      assert (a + b)[1..] == a[1..] + b;
      assert a[0] in a;
      NumberOfDigits(a[1..], b, 10 * m + (a[0] as int - '0' as int));
    }
  }

  lemma {:induction false} NumberOfDecimal(n: nat)
    ensures Number(Decimal(n), 0) == n
  {
    if n < 10 {
      assert Decimal(n)[1..] == [];
    } else {
      NumberOfDecimal(n / 10);
      NumberOfDigits(Decimal(n / 10), [Digit(n % 10)], 0);
    }
  }

  lemma SignedDigits(d: string, rest: string)
    requires d != [] && (forall c :: c in d ==> IsDigit(c)) && (rest != [] ==> !IsDigit(rest[0]))
    ensures Signed(d + rest) == Number(d, 0) && Signed("-" + d + rest) == -(Number(d, 0) as int)
  {
    assert d[0] in d;
    NumberOfDigits(d, rest, 0);
    var s := "-" + d + rest;
    assert s[1..] == d + rest;
  }

  /** A printed number is read back. */
  lemma AtoiOfShow(i: int, rest: string)
    requires rest != [] ==> !IsDigit(rest[0])
    ensures Atoi(Show(i) + rest) == i
  {
    var n := if i < 0 then -i else i;
    SignedDigits(Decimal(n), rest);
    assert Decimal(n)[0] in Decimal(n);
    NumberOfDecimal(n);
  }
}
