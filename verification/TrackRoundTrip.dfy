/** When printed track lists are read back, and when their reading ends. */
module TrackRoundTrip {
  import opened TrackMap

  // ---------------------------------------------------------------- one entry

  predicate AllBlank(b: string) {
    forall c :: c in b ==> c == ' '
  }

  lemma {:induction false} BlanksBefore(b: string, x: string)
    requires AllBlank(b) && (x != [] ==> x[0] != ' ')
    ensures Blanks(b + x) == |b| && (b + x)[|b|..] == x
  {
    if b == [] {
      assert b + x == x;
    } else {
      assert b[0] in b && (b + x)[1..] == b[1..] + x;
      assert forall c :: c in b[1..] ==> c in b;
      BlanksBefore(b[1..], x);
    }
  }

  lemma Head(b: string, star: string, x: string)
    requires AllBlank(b) && (star == "" || star == "*")
    requires x != [] && x[0] != ' ' && x[0] != '*'
    ensures Unstarred(b + star + x) == x && (Starred(b + star + x) <==> star == "*")
  {
    assert b + star + x == b + (star + x);
    BlanksBefore(b, star + x);
  }

  lemma WordRead(lang: string, rest: string)
    ensures ' ' !in lang ==> Word(lang + " " + rest) == lang && After(lang + " " + rest, ' ') == rest
    ensures ' ' in lang ==> |Word(lang + " " + rest)| < |lang|
  {
    if ' ' in lang {
      assert lang + " " + rest == lang + (" " + rest);
      UntilSooner(lang, ' ', " " + rest);
    } else {
      UntilIn(lang, ' ', rest);
    }
  }

  lemma NumberRead(id: int, tail: string)
    requires id >= 0
    ensures var x := Show(id) + ":" + tail;
            IsDigit(x[0]) && Atoi(x) == id && After(x, ':') == tail
  {
    assert Show(id)[0] in Show(id);
    assert Show(id) + ":" + tail == Show(id) + ([':'] + tail);
    AtoiOfShow(id, [':'] + tail);
    UntilIn(Show(id), ':', tail);
  }

  lemma TurnAtNumber(b: string, star: string, x: string)
    requires AllBlank(b) && (star == "" || star == "*") && x != [] && IsDigit(x[0])
    ensures var s, lang := b + star + x, After(x, ':');
            SpuTurn(s) == TrackTurn(s) == Found(Track(Atoi(x), Word(lang)), star == "*", After(lang, ' '))
  {
    hide Atoi, After, Word;
    Head(b, star, x);
    hide Unstarred, Starred;
  }

  lemma TurnOfEntry(b: string, t: Track, marked: int, rest: string)
    requires AllBlank(b) && t.id >= 0
    ensures var s, lang := b + Entry(t, marked) + rest, t.lang + " " + rest;
            var f := Found(Track(t.id, Word(lang)), t.id == marked, After(lang, ' '));
            && SpuTurn(s) == TrackTurn(s) == f
            && (' ' !in t.lang ==> f.track == t && f.rest == rest)
            && (' ' in t.lang ==> f.track != t)
  {
    hide SpuTurn, TrackTurn, Atoi, After, Word, Show;
    var star, lang := if t.id == marked then "*" else "", t.lang + " " + rest;
    var x := Show(t.id) + ":" + lang;
    assert b + Entry(t, marked) + rest == b + star + x;
    NumberRead(t.id, lang);
    TurnAtNumber(b, star, x);
    WordRead(t.lang, rest);
  }

  // ---------------------------------------------------------------- all entries

  predicate Plain(tracks: seq<Track>) {
    forall i :: 0 <= i < |tracks| ==> ' ' !in tracks[i].lang
  }

  predicate Numbered(tracks: seq<Track>) {
    forall i :: 0 <= i < |tracks| ==> tracks[i].id >= 0
  }

  /** The current track, once the list has been read. */
  function Current(tracks: seq<Track>, marked: int, before: int): int {
    if exists i :: 0 <= i < |tracks| && tracks[i].id == marked then marked else before
  }

  lemma CurrentOfRest(tracks: seq<Track>, marked: int, before: int)
    requires tracks != []
    ensures Current(tracks, marked, before) ==
            Current(tracks[1..], marked, if tracks[0].id == marked then marked else before)
  {
    if i :| 0 < i < |tracks| && tracks[i].id == marked {
      assert tracks[1..][i - 1].id == marked;
    }
  }

  /** Tracks once read stay. */
  lemma {:induction false} ScanKeeps(spu: bool, s: string, got: seq<Track>, current: int)
    ensures var r := Scan(spu, s, got, current);
            r.Done? ==> |got| <= |r.tracks| && got == r.tracks[..|got|]
    decreases |s|
  {
    hide TurnOf;
    if s != [] {
      match TurnOf(spu, s)
      case Found(t, starred, rest) => ScanKeeps(spu, rest, got + [t], if starred then t.id else current);
      case NoTrack(c, rest) => ScanKeeps(spu, rest, got, c);
      case Skip(rest) => ScanKeeps(spu, rest, got, current);
      case Stuck =>
    }
  }

  /** A turn that finds a track. */
  lemma ScanFound(spu: bool, s: string, f: Turn, got: seq<Track>, current: int)
    requires s != [] && f.Found? && TurnOf(spu, s) == f
    ensures var r := Scan(spu, s, got, current);
            && r == Scan(spu, f.rest, got + [f.track], if f.starred then f.track.id else current)
            && (r.Done? ==> |r.tracks| > |got| && r.tracks[|got|] == f.track)
  {
    hide TurnOf;
    ScanKeeps(spu, f.rest, got + [f.track], if f.starred then f.track.id else current);
  }

  /** The first of the printed entries is one turn of the scan. */
  lemma ScanFirst(spu: bool, b: string, tracks: seq<Track>, marked: int, got: seq<Track>, current: int)
    requires AllBlank(b) && tracks != [] && tracks[0].id >= 0
    ensures var t := tracks[0];
            var r := Scan(spu, b + Entries(tracks, marked), got, current);
            && (' ' !in t.lang ==>
                  r == Scan(spu, Entries(tracks[1..], marked), got + [t], if t.id == marked then marked else current))
            && (' ' in t.lang && r.Done? ==> |r.tracks| > |got| && r.tracks[|got|] != t)
  {
    hide Scan, SpuTurn, TrackTurn, Entry;
    var t, rest := tracks[0], Entries(tracks[1..], marked);
    var s := b + Entry(t, marked) + rest;
    assert b + Entries(tracks, marked) == s;
    TurnOfEntry(b, t, marked, rest);
    ScanFound(spu, s, TrackTurn(s), got, current);
  }

  /** The printed entries are read back exactly if no language contains a blank. */
  lemma {:induction false} ScanEntries(spu: bool, b: string, tracks: seq<Track>, marked: int,
                                       got: seq<Track>, current: int)
    requires AllBlank(b) && Numbered(tracks) && (tracks == [] ==> spu || b == "")
    ensures Scan(spu, b + Entries(tracks, marked), got, current) == Done(got + tracks, Current(tracks, marked, current))
            <==> Plain(tracks)
    decreases |tracks|
  {
    hide Scan, Entry, Entries, Current;
    if tracks == [] {
      NoEntries(spu, b, marked, got, current);
    } else {
      var t := tracks[0];
      ScanFirst(spu, b, tracks, marked, got, current);
      assert got + tracks == got + [t] + tracks[1..];
      if ' ' !in t.lang {
        assert "" + Entries(tracks[1..], marked) == Entries(tracks[1..], marked);
        ScanEntries(spu, "", tracks[1..], marked, got + [t], if t.id == marked then marked else current);
        CurrentOfRest(tracks, marked, current);
        assert Plain(tracks) <==> Plain(tracks[1..]);
      } else {
        assert (got + tracks)[|got|] == t;
      }
    }
  }

  lemma NoEntries(spu: bool, b: string, marked: int, got: seq<Track>, current: int)
    requires b == "" || (spu && AllBlank(b))
    ensures Scan(spu, b + Entries([], marked), got, current) == Done(got + [], Current([], marked, current))
  {
    assert b + Entries([], marked) == b;
    if b != "" {
      BlanksBefore(b, "");
      assert b + "" == b && Unstarred(b) == "";
    }
  }

  // ---------------------------------------------------------------- whole messages

  /** No language contains a carriage return, which would end the message. */
  predicate OneLine(tracks: seq<Track>) {
    forall i :: 0 <= i < |tracks| ==> '\r' !in tracks[i].lang
  }

  predicate Foreign(c: char) {
    c != '*' && c != ':' && c != ' ' && c != '-' && !IsDigit(c)
  }

  lemma ShowAvoids(i: int, c: char)
    requires Foreign(c)
    ensures c !in Show(i)
  {}

  /** The entries hold no other characters than their own, numbers, and those of the languages. */
  lemma {:induction false} EntriesAvoid(tracks: seq<Track>, marked: int, c: char)
    requires Foreign(c) && forall i :: 0 <= i < |tracks| ==> c !in tracks[i].lang
    ensures c !in Entries(tracks, marked)
  {
    if tracks != [] {
      ShowAvoids(tracks[0].id, c);
      EntriesAvoid(tracks[1..], marked, c);
    }
  }

  lemma LineOf(x: string)
    requires '\r' !in x
    ensures Line(x + "\r\n") == x
  {
    assert x + "\r\n" == x + ['\r'] + "\n";
    UntilIn(x, '\r', "\n");
  }

  /** An entry for no track sets the current one to what it says. */
  lemma ScanChosen(chosen: int, x: string)
    requires chosen < 0
    ensures Scan(true, " " + Chosen(chosen) + x, [], SUBTITLE_AUTO) == Scan(true, " " + x, [], chosen)
  {
    hide SpuTurn, Chosen;
    ChosenTurn(chosen, x);
  }

  lemma TurnAtMinus(t: string)
    requires t != [] && t[0] == '-'
    ensures SpuTurn(" " + "*" + t) == NoTrack(Atoi(t), t[Until(t, ' ')..])
  {
    hide Atoi, Until;
    Head(" ", "*", t);
    hide Unstarred, Starred;
  }

  lemma ChosenTurn(chosen: int, x: string)
    requires chosen < 0
    ensures SpuTurn(" " + Chosen(chosen) + x) == NoTrack(chosen, " " + x)
  {
    hide SpuTurn, Atoi, Until, Decimal, Chosen;
    var word := if chosen == SUBTITLE_NONE then "none" else "auto";
    var n, tail := Show(chosen), [':'] + word + " " + x;
    ChosenText(chosen, x, word);
    MinusText(n, word, x);
    TurnAtMinus(n + tail);
    AtoiOfShow(chosen, tail);
  }

  lemma ChosenText(chosen: int, x: string, word: string)
    requires chosen < 0 && word == if chosen == SUBTITLE_NONE then "none" else "auto"
    ensures " " + Chosen(chosen) + x == " " + "*" + (Show(chosen) + ([':'] + word + " " + x))
  {
    hide Show;
  }

  lemma MinusText(n: string, word: string, x: string)
    requires n != [] && n[0] == '-' && ' ' !in n && ' ' !in word
    ensures var t := n + ([':'] + word + " " + x);
            t[0] == '-' && t[Until(t, ' ')..] == " " + x
  {
    var t, head := n + ([':'] + word + " " + x), n + [':'] + word;
    assert t == head + [' '] + x;
    UntilIn(head, ' ', x);
  }

  lemma OneLineEntries(tracks: seq<Track>, marked: int)
    requires OneLine(tracks)
    ensures '\r' !in Entries(tracks, marked)
  {
    EntriesAvoid(tracks, marked, '\r');
  }

  lemma ChosenPlain(chosen: int)
    ensures '\r' !in Chosen(chosen) && (chosen >= 0 ==> Chosen(chosen) == "")
  {
    hide Show;
    ShowAvoids(chosen, '\r');
  }

  lemma SpuText(tracks: seq<Track>, chosen: int, auto: int)
    requires OneLine(tracks)
    ensures ReadSpu(PrintSpu(tracks, chosen, auto)) ==
            Scan(true, " " + Entries(tracks, Marked(chosen, auto)), [], if chosen < 0 then chosen else SUBTITLE_AUTO)
  {
    hide Scan, Entries, Show, Line, OneLine, Chosen;
    var marked := Marked(chosen, auto);
    var x := Entries(tracks, marked);
    OneLineEntries(tracks, marked);
    ChosenPlain(chosen);
    LineOf(" " + Chosen(chosen) + x);
    if chosen < 0 {
      ScanChosen(chosen, x);
    } else {
      assert " " + Chosen(chosen) + x == " " + x;
    }
  }

  /** A subtitle list is read back exactly if no language contains a blank: the same tracks, and the current one, which
      is the automatic one if that was chosen and is listed. */
  lemma SpuRoundTrip(tracks: seq<Track>, chosen: int, auto: int)
    requires Numbered(tracks) && OneLine(tracks)
    ensures ReadSpu(PrintSpu(tracks, chosen, auto)) ==
            Done(tracks, Current(tracks, Marked(chosen, auto), if chosen < 0 then chosen else SUBTITLE_AUTO))
            <==> Plain(tracks)
  {
    var marked := Marked(chosen, auto);
    SpuText(tracks, chosen, auto);
    ScanEntries(true, " ", tracks, marked, [], if chosen < 0 then chosen else SUBTITLE_AUTO);
    assert [] + tracks == tracks;
  }

  predicate Has(tracks: seq<Track>, id: int) {
    exists i :: 0 <= i < |tracks| && tracks[i].id == id
  }

  /** The current track the server comes to: with the automatic choice the automatic track, if it is listed; else the
      chosen one, if it is listed; "none" stays "none". */
  function Resolved(tracks: seq<Track>, chosen: int, auto: int): int {
    if chosen == -1 then (if Has(tracks, auto) then auto else -1)
    else if chosen >= 0 then (if Has(tracks, chosen) then chosen else -1)
    else chosen
  }

  lemma SpuCurrent(tracks: seq<Track>, chosen: int, auto: int)
    requires Numbered(tracks) && OneLine(tracks) && Plain(tracks)
    ensures ReadSpu(PrintSpu(tracks, chosen, auto)) == Done(tracks, Resolved(tracks, chosen, auto))
  {
    SpuRoundTrip(tracks, chosen, auto);
  }

  /** An audio list is read back exactly if it is not empty and no language contains a blank. */
  lemma AudioRoundTrip(tracks: seq<Track>, current: int, before: int)
    requires Numbered(tracks) && OneLine(tracks)
    ensures ReadAudio(PrintAudio(tracks, current), before) == Done(tracks, Current(tracks, current, before))
            <==> tracks != [] && Plain(tracks)
  {
    var x := Entries(tracks, current);
    EntriesAvoid(tracks, current, '\r');
    LineOf(" " + x);
    if tracks == [] {
      assert " " + x == " ";
      ScanFound(false, " ", TrackTurn(" "), [], before);
    } else {
      ScanEntries(false, " ", tracks, current, [], before);
      assert [] + tracks == tracks;
    }
  }

  // ---------------------------------------------------------------- when the scan ends

  /** Of a language's text after its first blank: whether the scan, as it goes on there, comes to something that is
      neither a star nor a digit. */
  predicate Stalls(x: string)
    decreases |x|
  {
    var y := x[Blanks(x)..];
    if y == [] then false
    else if y[0] == '*' then
      if |y| > 1 && y[1] == '-' then Stalls(y[1..][Until(y[1..], ' ')..]) else Stalls(y[1..])
    else !IsDigit(y[0]) || (':' in y && Stalls(After(After(y, ':'), ' ')))
  }

  predicate Trips(lang: string) {
    ' ' in lang && Stalls(After(lang, ' '))
  }

  predicate SomeTrips(tracks: seq<Track>) {
    exists i :: 0 <= i < |tracks| && Trips(tracks[i].lang)
  }

  /** The subtitle scan of this text never ends. */
  predicate Endless(s: string) {
    Scan(true, s, [], 0) == Hangs
  }

  /** What was found before does not matter to that. */
  lemma {:induction false} ScanSame(s: string, got: seq<Track>, current: int, got': seq<Track>, current': int)
    ensures Scan(true, s, got, current) == Hangs <==> Scan(true, s, got', current') == Hangs
    decreases |s|
  {
    hide SpuTurn;
    if s != [] {
      match SpuTurn(s)
      case Found(t, starred, rest) =>
        ScanSame(rest, got + [t], if starred then t.id else current, got' + [t], if starred then t.id else current');
      case NoTrack(c, rest) => ScanSame(rest, got, c, got', c);
      case Skip(rest) => ScanSame(rest, got, current, got', current');
      case Stuck =>
    }
  }

  lemma EndlessTurn(s: string)
    requires s != []
    ensures Endless(s) <==> SpuTurn(s).Stuck? || Endless(SpuTurn(s).rest)
  {
    hide SpuTurn;
    match SpuTurn(s)
    case Found(t, starred, rest) => ScanSame(rest, [], 0, [] + [t], if starred then t.id else 0);
    case NoTrack(c, rest) => ScanSame(rest, [], 0, [], c);
    case Skip(rest) =>
    case Stuck =>
  }

  /** Text whose first character after any blanks is neither a star nor a digit. */
  lemma StuckAt(s: string)
    requires var k := Blanks(s); k < |s| && s[k] != '*' && !IsDigit(s[k])
    ensures Endless(s)
  {
    var t := s[Blanks(s)..];
    assert Blanks(t) == 0 && t[0..] == t;
  }

  /** A star that does not announce "no track" may be taken away. */
  lemma StarTaken(s: string)
    requires Starred(s) && (Unstarred(s) == [] || Unstarred(s)[0] != '-')
    ensures Endless(s) <==> Endless(Unstarred(s))
  {
    hide Scan, Atoi, Word, After, Endless;
    var t := Unstarred(s);
    EndlessTurn(s);
    if t != [] && IsDigit(t[0]) {
      assert Blanks(t) == 0 && t[0..] == t;
      EndlessTurn(t);
    }
  }

  /** The text after the first `c` of `a + z`. */
  lemma AfterIn(a: string, c: char, z: string)
    ensures c in a ==> After(a + z, c) == After(a, c) + z && Until(a + z, c) == Until(a, c) < |a|
    ensures c !in a && z != [] && z[0] == c ==> After(a + z, c) == z[1..] && Until(a + z, c) == Until(a, c) == |a|
  {
    if c in a {
      UntilSooner(a, c, z);
    } else if z != [] && z[0] == c {
      assert a + z == a + [c] + z[1..];
      UntilIn(a, c, z[1..]);
    }
  }

  lemma StartOf(x: string, z: string)
    requires Blanks(x) < |x|
    ensures var s, y := x + z, x[Blanks(x)..];
            && Blanks(s) == Blanks(x) && s[Blanks(s)..] == y + z && s != []
            && (Starred(s) <==> y[0] == '*')
            && (y[0] == '*' ==> Unstarred(s) == y[1..] + z)
            && (y[0] != '*' ==> Unstarred(s) == y + z)
  {
    hide Blanks, Starred, Unstarred;
    var y := x[Blanks(x)..];
    BlanksThrough(x, z);
    FirstOf(x + z);
    TailOf(y, z);
  }

  lemma FirstOf(s: string)
    requires Blanks(s) < |s|
    ensures var t := s[Blanks(s)..];
            (Starred(s) <==> t[0] == '*') && Unstarred(s) == if t[0] == '*' then t[1..] else t
  {
    hide Blanks;
  }

  lemma TailOf(y: string, z: string)
    requires y != []
    ensures (y + z)[0] == y[0] && (y + z)[1..] == y[1..] + z
  {}

  lemma BlanksThrough(x: string, z: string)
    requires Blanks(x) < |x|
    ensures Blanks(x + z) == Blanks(x) && (x + z)[Blanks(x)..] == x[Blanks(x)..] + z
  {
    var k := Blanks(x);
    var b, y := x[..k], x[k..];
    assert x + z == b + (y + z);
    BlanksBefore(b, y + z);
  }

  lemma MinusTurn(s: string, y: string, z: string)
    requires s != [] && Starred(s) && Unstarred(s) == y + z && y != [] && y[0] == '-' && z != [] && z[0] == ' '
    ensures !SpuTurn(s).Stuck? && SpuTurn(s).rest == y[Until(y, ' ')..] + z
  {
    hide Starred, Unstarred, Until, Atoi;
    AfterIn(y, ' ', z);
    assert (y + z)[Until(y, ' ')..] == y[Until(y, ' ')..] + z;
  }

  /** The scan goes on in the middle of a language, with more entries to come. */
  lemma {:induction false} TailHangs(x: string, tracks: seq<Track>, marked: int)
    requires Numbered(tracks)
    ensures Endless(x + " " + Entries(tracks, marked)) <==> Stalls(x) || SomeTrips(tracks)
    decreases |tracks|, 1, |x|, 1
  {
    hide Scan, Endless, Entries, SpuTurn, TrackTurn, Unstarred, Starred, Atoi, Word, After, IsDigit, SomeTrips;
    var k, z := Blanks(x), " " + Entries(tracks, marked);
    var s, y := x + z, x[k..];
    assert x + " " + Entries(tracks, marked) == s;
    if y == [] {
      assert s == (x + " ") + Entries(tracks, marked);
      ScanHangs(x + " ", tracks, marked);
    } else {
      StartOf(x, z);
      if y[0] == '*' {
        StarHangs(x, tracks, marked);
      } else if IsDigit(y[0]) {
        DigitHangs(x, tracks, marked);
      } else {
        StuckAt(s);
      }
    }
  }

  lemma {:induction false} StarHangs(x: string, tracks: seq<Track>, marked: int)
    requires Numbered(tracks) && Blanks(x) < |x| && x[Blanks(x)] == '*'
    ensures Endless(x + " " + Entries(tracks, marked)) <==> Stalls(x) || SomeTrips(tracks)
    decreases |tracks|, 1, |x|, 0
  {
    hide Scan, Endless, Entries, SpuTurn, Unstarred, Starred, Atoi, IsDigit, SomeTrips, Until, Blanks, After;
    var z, y1 := " " + Entries(tracks, marked), x[Blanks(x)..][1..];
    var s := x + z;
    assert x + " " + Entries(tracks, marked) == s;
    StartOf(x, z);
    if y1 != [] && y1[0] == '-' {
      var r := y1[Until(y1, ' ')..];
      MinusTurn(s, y1, z);
      EndlessTurn(s);
      assert r + z == r + " " + Entries(tracks, marked);
      TailHangs(r, tracks, marked);
    } else {
      StarTaken(s);
      assert y1 + z == y1 + " " + Entries(tracks, marked);
      TailHangs(y1, tracks, marked);
    }
  }

  lemma {:induction false} DigitHangs(x: string, tracks: seq<Track>, marked: int)
    requires Numbered(tracks) && Blanks(x) < |x| && IsDigit(x[Blanks(x)])
    ensures Endless(x + " " + Entries(tracks, marked)) <==> Stalls(x) || SomeTrips(tracks)
    decreases |tracks|, 1, |x|, 0
  {
    hide Scan, Endless, Entries, Unstarred, Starred, Atoi, Word, After, SomeTrips;
    var z, y := " " + Entries(tracks, marked), x[Blanks(x)..];
    var s := x + z;
    assert x + " " + Entries(tracks, marked) == s;
    StartOf(x, z);
    EndlessTurn(s);
    assert SpuTurn(s).rest == After(After(y + z, ':'), ' ');
    if ':' in y {
      AfterIn(y, ':', z);
      var lang := After(y, ':');
      assert lang + z == lang + " " + Entries(tracks, marked);
      LanguageHangs(lang, tracks, marked);
      NothingStalls(lang);
    } else {
      NumberSwallowed(y, tracks, marked);
      if tracks == [] {
        NoneTrips();
      } else {
        LanguageHangs(tracks[0].lang, tracks[1..], marked);
        TripsInRest(tracks);
      }
    }
  }

  lemma NothingStalls(lang: string)
    ensures ' ' !in lang ==> !Stalls(After(lang, ' '))
  {}

  lemma NoneTrips()
    ensures !SomeTrips([]) && !Endless("")
  {}

  lemma TripsInRest(tracks: seq<Track>)
    requires tracks != []
    ensures SomeTrips(tracks) <==> Trips(tracks[0].lang) || SomeTrips(tracks[1..])
  {
    hide Trips;
    if i :| 0 < i < |tracks| && Trips(tracks[i].lang) {
      assert tracks[1..][i - 1] == tracks[i];
    }
  }

  /** A number without a colon takes the place of the next entry's number. */
  lemma NumberSwallowed(y: string, tracks: seq<Track>, marked: int)
    requires ':' !in y && Numbered(tracks)
    ensures After(After(y + (" " + Entries(tracks, marked)), ':'), ' ') ==
            if tracks == [] then "" else After(tracks[0].lang + " " + Entries(tracks[1..], marked), ' ')
  {
    hide Show, After;
    if tracks == [] {
      NoColon(y + " ");
      assert y + (" " + "") == y + " ";
    } else {
      var t := tracks[0];
      var tail := t.lang + " " + Entries(tracks[1..], marked);
      var number := (if t.id == marked then "*" else "") + Show(t.id);
      DigitsOnly(t.id);
      FirstNumber(tracks, marked, number, tail);
      assert y + (" " + (number + (":" + tail))) == y + " " + number + (":" + tail);
      AfterIn(y + " " + number, ':', ":" + tail);
      assert (":" + tail)[1..] == tail;
    }
  }

  lemma FirstNumber(tracks: seq<Track>, marked: int, number: string, tail: string)
    requires tracks != [] && number == (if tracks[0].id == marked then "*" else "") + Show(tracks[0].id)
    requires tail == tracks[0].lang + " " + Entries(tracks[1..], marked)
    ensures Entries(tracks, marked) == number + (":" + tail)
  {
    hide Show;
    assert Entries(tracks, marked) == Entry(tracks[0], marked) + Entries(tracks[1..], marked);
  }

  lemma NoColon(y: string)
    requires ':' !in y
    ensures After(After(y, ':'), ' ') == ""
  {}

  lemma DigitsOnly(i: int)
    requires i >= 0
    ensures ':' !in Show(i)
  {}

  /** The scan goes on behind the first word of a language, and need not end there. */
  lemma {:induction false} LanguageHangs(lang: string, tracks: seq<Track>, marked: int)
    requires Numbered(tracks)
    ensures Endless(After(lang + " " + Entries(tracks, marked), ' ')) <==> Trips(lang) || SomeTrips(tracks)
    decreases |tracks|, 1, |lang|, 0
  {
    hide Endless, Entries, After, SomeTrips, Stalls;
    var z := " " + Entries(tracks, marked);
    assert lang + " " + Entries(tracks, marked) == lang + z && z[1..] == Entries(tracks, marked);
    AfterIn(lang, ' ', z);
    if ' ' in lang {
      var x := After(lang, ' ');
      assert x + z == x + " " + Entries(tracks, marked);
      TailHangs(x, tracks, marked);
    } else {
      assert "" + Entries(tracks, marked) == Entries(tracks, marked);
      ScanHangs("", tracks, marked);
    }
  }

  /** The scan of printed entries never ends exactly if it trips over one of the languages. */
  lemma {:induction false} ScanHangs(b: string, tracks: seq<Track>, marked: int)
    requires AllBlank(b) && Numbered(tracks)
    ensures Endless(b + Entries(tracks, marked)) <==> SomeTrips(tracks)
    decreases |tracks|, 0
  {
    hide Scan, SpuTurn, TrackTurn, Entry, Word, After, SomeTrips, Trips;
    if tracks == [] {
      NoEntries(true, b, marked, [], 0);
      NoneTrips();
    } else {
      var t, rest := tracks[0], Entries(tracks[1..], marked);
      var s := b + Entry(t, marked) + rest;
      assert b + Entries(tracks, marked) == s;
      TurnOfEntry(b, t, marked, rest);
      EndlessTurn(s);
      LanguageHangs(t.lang, tracks[1..], marked);
      TripsInRest(tracks);
    }
  }

  /** The reading of a printed subtitle list never ends exactly if the scan trips over the rest of one of the languages,
      each looked at alone. */
  lemma SpuEnds(tracks: seq<Track>, chosen: int, auto: int)
    requires Numbered(tracks) && OneLine(tracks)
    ensures ReadSpu(PrintSpu(tracks, chosen, auto)) == Hangs <==>
            exists i :: 0 <= i < |tracks| && Trips(tracks[i].lang)
  {
    hide Scan, Trips, Entries;
    var marked, current := Marked(chosen, auto), if chosen < 0 then chosen else SUBTITLE_AUTO;
    SpuText(tracks, chosen, auto);
    ScanSame(" " + Entries(tracks, marked), [], current, [], 0);
    ScanHangs(" ", tracks, marked);
  }

  /** A blank, and later something else. */
  predicate Splits(lang: string) {
    exists i, j :: 0 <= i < j < |lang| && lang[i] == ' ' && lang[j] != ' '
  }

  /** Nothing that the scan could take for part of a list. */
  predicate Wordy(lang: string) {
    forall c :: c in lang ==> c != '*' && c != ':' && !IsDigit(c)
  }

  /** The scan trips over a first blank that is followed, after more blanks, by anything but a star or a digit. */
  lemma TripsAt(word: string, gap: string, c: char, more: string)
    requires ' ' !in word && AllBlank(gap) && c != ' ' && c != '*' && !IsDigit(c)
    ensures Trips(word + " " + (gap + ([c] + more)))
  {
    hide IsDigit, After, Until;
    var z := " " + (gap + ([c] + more));
    assert word + " " + (gap + ([c] + more)) == word + z && z[1..] == gap + ([c] + more);
    AfterIn(word, ' ', z);
    BlanksBefore(gap, [c] + more);
  }

  /** Without digits, stars and colons, the scan trips exactly over a blank followed later by anything else. */
  lemma WordyTrips(lang: string)
    requires Wordy(lang)
    ensures Trips(lang) <==> Splits(lang)
  {
    hide IsDigit;
    var k := Until(lang, ' ');
    if k < |lang| {
      var x := lang[k + 1..];
      var j := Blanks(x);
      if j < |x| {
        assert x[j] == lang[k + 1 + j] && x[j] in lang && lang[k] == ' ';
      } else {
        assert forall m :: k < m < |lang| ==> lang[m] == x[m - k - 1] == ' ';
      }
    }
  }
}
