/** The server's reading of a track list, which walks over the text and cuts it in place. */
module TrackReader {
  import opened TrackMap

  const NUL := '\0'

  /** The text from `m` on ends at `e`. */
  ghost predicate Ends(s: seq<char>, m: nat, e: nat) {
    m <= e < |s| && s[e] == NUL && NUL !in s[m..e]
  }

  /** What a C function sees. */
  function CString(s: seq<char>): string {
    s[..Until(s, NUL)]
  }

  lemma CStringIs(s: seq<char>, m: nat, e: nat)
    requires Ends(s, m, e)
    ensures CString(s[m..]) == s[m..e]
  {
    assert s[m..] == s[m..e] + [NUL] + s[e + 1..];
    UntilIn(s[m..e], NUL, s[e + 1..]);
  }

  method SkipBlanks(text: array<char>, start: nat, ghost e: nat) returns (m: nat)
    requires Ends(text[..], start, e)
    ensures start <= m <= e && Ends(text[..], m, e) && m - start == Blanks(text[start..e])
  {
    m := start;
    while text[m] == ' '
      invariant start <= m <= e && m - start + Blanks(text[m..e]) == Blanks(text[start..e])
      decreases e - m
    {
      assert text[m..e][1..] == text[m + 1..e];
      m := m + 1;
    }
  }

  method SkipTo(text: array<char>, start: nat, c: char, ghost e: nat) returns (m: nat)
    requires Ends(text[..], start, e) && c != NUL
    ensures start <= m <= e && Ends(text[..], m, e) && m - start == Until(text[start..e], c)
  {
    m := start;
    while text[m] != NUL && text[m] != c
      invariant start <= m <= e && m - start + Until(text[m..e], c) == Until(text[start..e], c)
      decreases e - m
    {
      assert text[m..e][1..] == text[m + 1..e];
      m := m + 1;
    }
  }

  /** Read a number, and go on after the next colon. */
  method TakeNumber(text: array<char>, start: nat, ghost e: nat) returns (id: int, m: nat)
    requires Ends(text[..], start, e)
    ensures start <= m <= e && Ends(text[..], m, e)
    ensures id == Atoi(text[start..e]) && text[m..e] == After(text[start..e], ':')
  {
    CStringIs(text[..], start, e);
    assert text[..][start..] == text[start..] && text[..][start..e] == text[start..e];
    id := Atoi(CString(text[start..]));
    m := SkipTo(text, start, ':', e);
    if text[m] == ':' {
      m := m + 1;
    }
  }

  /** Read a language, and cut the text after it. */
  method TakeWord(text: array<char>, start: nat, ghost e: nat) returns (lang: string, m: nat)
    requires Ends(text[..], start, e)
    modifies text
    ensures start <= m <= e && Ends(text[..], m, e)
    ensures lang == Word(old(text[start..e])) && text[m..e] == After(old(text[start..e]), ' ')
  {
    m := SkipTo(text, start, ' ', e);
    ghost var stop := m;
    assert text[start..stop] == Word(text[start..e]);
    if text[m] == ' ' {
      text[m] := NUL;
      m := m + 1;
    }
    CStringIs(text[..], start, stop);
    assert text[..][start..] == text[start..] && text[..][start..stop] == text[start..stop];
    lang := CString(text[start..]);
  }

  /** Skip blanks and one star. */
  method TakeStar(text: array<char>, start: nat, ghost e: nat) returns (starred: bool, m: nat)
    requires Ends(text[..], start, e)
    ensures start <= m <= e && Ends(text[..], m, e)
    ensures starred == Starred(text[start..e]) && text[m..e] == Unstarred(text[start..e])
  {
    m := SkipBlanks(text, start, e);
    assert text[m..e] == text[start..e][m - start..];
    starred := text[m] == '*';
    if starred {
      m := m + 1;
    }
  }

  method TakeTrack(text: array<char>, start: nat, ghost e: nat) returns (track: Track, m: nat)
    requires Ends(text[..], start, e)
    modifies text
    ensures start <= m <= e && Ends(text[..], m, e)
    ensures var t := old(text[start..e]);
            var lang := After(t, ':');
            track == Track(Atoi(t), Word(lang)) && text[m..e] == After(lang, ' ')
  {
    var id, from := TakeNumber(text, start, e);
    var lang: string;
    lang, m := TakeWord(text, from, e);
    track := Track(id, lang);
  }

  /** The scan goes on from `m` with these results, or would stay where it is for ever. */
  ghost predicate GoesOn(spu: bool, before: string, tracks: seq<Track>, current: int, hung: bool,
                         after: string, tracks': seq<Track>, current': int) {
    Scan(spu, before, tracks, current) == if hung then Hangs else Scan(spu, after, tracks', current')
  }

  /** One turn of the subtitle scan. */
  method SpuStep(text: array<char>, start: nat, ghost e: nat, tracks: seq<Track>, current: int)
    returns (hung: bool, m: nat, tracks': seq<Track>, current': int)
    requires Ends(text[..], start, e) && start < e
    modifies text
    ensures start <= m <= e && Ends(text[..], m, e) && (hung <==> m == start)
    ensures GoesOn(true, old(text[start..e]), tracks, current, hung, text[m..e], tracks', current')
  {
    hide Atoi, Until, After, Word, Unstarred, Starred;
    tracks', current', hung := tracks, current, false;
    var starred, from := TakeStar(text, start, e);
    m := from;
    if starred && text[m] == '-' {
      CStringIs(text[..], m, e);
      assert text[..][m..] == text[m..] && text[..][m..e] == text[m..e];
      current' := Atoi(CString(text[m..]));
      m := SkipTo(text, m, ' ', e);
      assert text[m..e] == text[from..e][m - from..];
    } else if IsDigit(text[m]) {
      var track: Track;
      track, m := TakeTrack(text, m, e);
      tracks' := tracks + [track];
      current' := if starred then track.id else current;
    } else {
      hung := m == start;
    }
  }

  /** One turn of the audio scan. */
  method AudioStep(text: array<char>, start: nat, ghost e: nat, tracks: seq<Track>, current: int)
    returns (m: nat, tracks': seq<Track>, current': int)
    requires Ends(text[..], start, e) && start < e
    modifies text
    ensures start < m <= e && Ends(text[..], m, e)
    ensures GoesOn(false, old(text[start..e]), tracks, current, false, text[m..e], tracks', current')
  {
    hide Atoi, Until, After, Word, Unstarred, Starred;
    var starred, from := TakeStar(text, start, e);
    var track: Track;
    track, m := TakeTrack(text, from, e);
    tracks' := tracks + [track];
    current' := if starred then track.id else current;
  }

  /** Cut the text at the first carriage return. */
  method CutLine(text: array<char>, ghost e: nat) returns (ghost end: nat)
    requires Ends(text[..], 0, e)
    modifies text
    ensures Ends(text[..], 0, end) && text[..end] == Line(old(text[..e]))
  {
    var m := SkipTo(text, 0, '\r', e);
    end := m;
    assert text[..e] == text[0..e];
    if text[m] == '\r' {
      text[m] := NUL;
    }
  }

  /** Read a subtitle list up to `e`, or find that the scan never ends. */
  method ReadSpuList(text: array<char>, ghost e: nat) returns (out: Outcome)
    requires Ends(text[..], 0, e)
    modifies text
    ensures out == ReadSpu(old(text[..e]))
  {
    hide Scan, Line;
    ghost var end := CutLine(text, e);
    var m, tracks, current := 0, [], SUBTITLE_AUTO;
    ghost var all := text[..end];
    assert all == text[0..end];
    while text[m] != NUL
      invariant Ends(text[..], m, end)
          && Scan(true, text[m..end], tracks, current) == Scan(true, all, [], SUBTITLE_AUTO)
      decreases end - m
    {
      var hung, next, tracks', current' := SpuStep(text, m, end, tracks, current);
      if hung {
        return Hangs;
      }
      m, tracks, current := next, tracks', current';
    }
    assert text[m..end] == [];
    ScanEnds(true, tracks, current);
    out := Done(tracks, current);
  }

  /** Read an audio list up to `e`. */
  method ReadAudioList(text: array<char>, before: int, ghost e: nat) returns (tracks: seq<Track>, current: int)
    requires Ends(text[..], 0, e)
    modifies text
    ensures Done(tracks, current) == ReadAudio(old(text[..e]), before)
  {
    hide Scan, Line;
    ghost var end := CutLine(text, e);
    var m := 0;
    tracks, current := [], before;
    ghost var all := text[..end];
    assert all == text[0..end];
    while text[m] != NUL
      invariant Ends(text[..], m, end) && Scan(false, text[m..end], tracks, current) == Scan(false, all, [], before)
      decreases end - m
    {
      m, tracks, current := AudioStep(text, m, end, tracks, current);
    }
    assert text[m..end] == [];
    ScanEnds(false, tracks, current);
  }

  lemma ScanEnds(spu: bool, tracks: seq<Track>, current: int)
    ensures Scan(spu, [], tracks, current) == Done(tracks, current)
  {}
}
