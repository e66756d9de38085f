/** The client's printing of its track lists. */
module TrackPrinter {
  import opened TrackMap
  import opened TrackReader
  import opened TrackRoundTrip

  const SPU_HEAD := "INFO TRACKMAP SPU "
  const AUDIO_HEAD := "INFO TRACKMAP AUDIO "

  const BUFFER_SIZE := 1024
  const MARGIN := 32

  /** The loops ask for so many tracks. */
  const TRACKS := 32

  /** The last index at which formatted text may end. */
  const LIMIT := BUFFER_SIZE - MARGIN - 1

  /** The language of a track, if the stream tells it. */
  datatype Language = Told(text: string) | Untold

  /** The text without the blanks and line ends it begins with. */
  function Trim(s: string): string {
    if s != [] && s[0] in " \r\n" then Trim(s[1..]) else s
  }

  /** Exactly these are taken off. */
  lemma {:induction false} TrimEffect(s: string)
    ensures var r := Trim(s);
            && |r| <= |s| && s[|s| - |r|..] == r && (r != [] ==> r[0] !in " \r\n")
            && forall i :: 0 <= i < |s| - |r| ==> s[i] in " \r\n"
  {
    if s != [] && s[0] in " \r\n" {
      TrimEffect(s[1..]);
      assert forall i :: 0 < i < |s| ==> s[i] == s[1..][i - 1];
    }
  }

  function Slot(lang: Language, i: nat, count: int): seq<Track> {
    match lang
    case Told(text) => [Track(i, Trim(text))]
    case Untold => if i < count then [Track(i, Show(i))] else []
  }

  /** Tracks with a language, and those without that the stream counts. */
  function Listed(langs: seq<Language>, count: int): (r: seq<Track>)
    ensures Numbered(r)
  {
    if langs == [] then []
    else Listed(langs[..|langs| - 1], count) + Slot(langs[|langs| - 1], |langs| - 1, count)
  }

  /** What a listed track may be. */
  predicate MayList(langs: seq<Language>, count: int, t: Track) {
    0 <= t.id < |langs| &&
    (if langs[t.id].Told? then t.lang == Trim(langs[t.id].text) else t.id < count && t.lang == Show(t.id))
  }

  /** Only such tracks, in rising order. */
  ghost predicate ListsOnly(r: seq<Track>, langs: seq<Language>, count: int) {
    && (forall k :: 0 <= k < |r| ==> MayList(langs, count, r[k]))
    && (forall k, m :: 0 <= k < m < |r| ==> r[k].id < r[m].id)
  }

  lemma NoneListed(langs: seq<Language>, count: int)
    ensures ListsOnly([], langs, count)
  {}

  lemma {:induction false} ListedOnly(langs: seq<Language>, count: int)
    ensures ListsOnly(Listed(langs, count), langs, count)
  {
    hide ListsOnly, Slot;
    if langs != [] {
      var n := |langs| - 1;
      var prev, slot := Listed(langs[..n], count), Slot(langs[n], n, count);
      ListedOnly(langs[..n], count);
      OnlyMore(langs, count, prev, slot);
    } else {
      NoneListed(langs, count);
    }
  }

  lemma OnlyMore(langs: seq<Language>, count: int, prev: seq<Track>, slot: seq<Track>)
    requires langs != [] && slot == Slot(langs[|langs| - 1], |langs| - 1, count)
    requires ListsOnly(prev, langs[..|langs| - 1], count)
    ensures ListsOnly(prev + slot, langs, count)
  {
    hide Trim, Show;
    var n, r := |langs| - 1, prev + slot;
    forall k | 0 <= k < |r|
      ensures MayList(langs, count, r[k]) && (k < |prev| ==> r[k].id < n)
    {
      if k < |prev| {
        assert MayList(langs[..n], count, prev[k]) && r[k] == prev[k];
      }
    }
  }

  lemma {:induction false} ListedAll(langs: seq<Language>, count: int, i: nat)
    requires i < |langs| && (langs[i].Told? || i < count)
    ensures exists k :: 0 <= k < |Listed(langs, count)| && Listed(langs, count)[k].id == i
  {
    hide Trim, Show;
    var n := |langs| - 1;
    var prev, r := Listed(langs[..n], count), Listed(langs, count);
    if i == n {
      assert r[|prev|].id == i;
    } else {
      ListedAll(langs[..n], count, i);
      var k :| 0 <= k < |prev| && prev[k].id == i;
      assert r[k].id == i;
    }
  }

  /** The tracks listed are those whose language is told, and those below the stream's count, in rising order; one
      without a language has its number as language. */
  lemma ListedWhich(langs: seq<Language>, count: int)
    ensures var r := Listed(langs, count);
            && ListsOnly(r, langs, count)
            && (forall i :: 0 <= i < |langs| && (langs[i].Told? || i < count) ==>
                  exists k :: 0 <= k < |r| && r[k].id == i)
  {
    hide Listed;
    ListedOnly(langs, count);
    forall i | 0 <= i < |langs| && (langs[i].Told? || i < count)
      ensures exists k :: 0 <= k < |Listed(langs, count)| && Listed(langs, count)[k].id == i
    {
      ListedAll(langs, count, i);
    }
  }

  lemma {:induction false} EntriesAppend(a: seq<Track>, b: seq<Track>, marked: int)
    ensures Entries(a + b, marked) == Entries(a, marked) + Entries(b, marked)
  {
    if a == [] {
      assert a + b == b;
    } else {
      assert (a + b)[1..] == a[1..] + b;
      EntriesAppend(a[1..], b, marked);
    }
  }

  /** The entries of a longer list are longer. */
  lemma ListedMore(langs: seq<Language>, i: nat, count: int, marked: int)
    requires i < |langs|
    ensures Entries(Listed(langs[..i + 1], count), marked) ==
            Entries(Listed(langs[..i], count), marked) + Entries(Slot(langs[i], i, count), marked)
  {
    assert langs[..i + 1][..i] == langs[..i];
    EntriesAppend(Listed(langs[..i], count), Slot(langs[i], i, count), marked);
  }

  lemma NothingListed(langs: seq<Language>, count: int, marked: int)
    ensures Entries(Listed(langs[..0], count), marked) == ""
    ensures Entries([], marked) == ""
  {}

  lemma OneEntry(t: Track, marked: int)
    ensures Entries([t], marked) == Entry(t, marked)
  {
    assert [t][1..] == [];
  }

  // ---------------------------------------------------------------- the message buffer

  /** Where text that would end at `n` really ends. */
  function CutAt(n: nat): nat {
    if n < LIMIT then n else LIMIT
  }

  /** Text is in the buffer up to where it was cut. */
  ghost predicate Holds(buffer: seq<char>, full: string) {
    var k := CutAt(|full|);
    |buffer| == BUFFER_SIZE && buffer[..k] == full[..k] && buffer[k] == NUL
  }

  /** Append text, cut at the limit. The length is that of the whole text. */
  method Format(buffer: array<char>, ghost before: string, at: nat, text: string) returns (n: nat)
    requires Holds(buffer[..], before) && at == |before| <= LIMIT
    modifies buffer
    ensures n == |text| && Holds(buffer[..], before + text)
  {
    n := |text|;
    var k := CutAt(at + n);
    forall i | at <= i < k {
      buffer[i] := text[i - at];
    }
    buffer[k] := NUL;
    assert forall i :: 0 <= i < k ==> buffer[i] == (before + text)[i];
    assert buffer[..][..k] == (before + text)[..k];
  }

  /** The entries of the first `i` tracks. */
  function Printed(langs: seq<Language>, i: nat, count: int, marked: int): string
    requires i <= |langs|
  {
    Entries(Listed(langs[..i], count), marked)
  }

  lemma {:induction false} PrintedLength(langs: seq<Language>, i: nat, count: int, marked: int)
    requires i <= |langs|
    ensures |Printed(langs, i, count, marked)| <= |Printed(langs, |langs|, count, marked)|
    decreases |langs| - i
  {
    if i < |langs| {
      ListedMore(langs, i, count, marked);
      PrintedLength(langs, i + 1, count, marked);
    }
  }

  /** Where printing from track `i` on stops: behind the last track, or behind the first entry reaching the limit. */
  function StopAt(langs: seq<Language>, count: int, marked: int, used: nat, i: nat): (stop: nat)
    requires i <= |langs|
    ensures i <= stop <= |langs| && (stop < |langs| ==> used + |Printed(langs, stop, count, marked)| > LIMIT)
    ensures forall k :: i <= k < stop ==> used + |Printed(langs, k, count, marked)| <= LIMIT
    decreases |langs| - i
  {
    if i == |langs| || used + |Printed(langs, i, count, marked)| > LIMIT then i
    else StopAt(langs, count, marked, used, i + 1)
  }

  /** All that is printed behind `head`, cut or not. */
  function Text(head: string, langs: seq<Language>, count: int, marked: int): string {
    head + Printed(langs, StopAt(langs, count, marked, |head|, 0), count, marked)
  }

  /** Print the entries behind the text that is in the buffer. */
  method PrintEntries(buffer: array<char>, ghost before: string, used: nat,
                      langs: seq<Language>, count: int, marked: int)
    returns (cnt: nat)
    requires |langs| == TRACKS && Holds(buffer[..], before) && used == |before| <= LIMIT
    modifies buffer
    ensures cnt == |Text(before, langs, count, marked)| && Holds(buffer[..], Text(before, langs, count, marked))
  {
    hide Listed, Entries, Entry, Trim, Show, Holds;
    cnt := used;
    var i := 0;
    NothingListed(langs, count, marked);
    assert before + "" == before;
    while i < TRACKS && cnt < BUFFER_SIZE - MARGIN
      invariant i <= TRACKS && cnt == used + |Printed(langs, i, count, marked)|
      invariant Holds(buffer[..], before + Printed(langs, i, count, marked))
      invariant StopAt(langs, count, marked, used, 0) == StopAt(langs, count, marked, used, i)
    {
      ListedMore(langs, i, count, marked);
      ghost var text := before + Printed(langs, i, count, marked);
      ghost var entries := Entries(Slot(langs[i], i, count), marked);
      assert before + Printed(langs, i + 1, count, marked) == text + entries;
      var n := 0;
      match langs[i] {
        case Told(lang) =>
          OneEntry(Track(i, Trim(lang)), marked);
          n := Format(buffer, text, cnt, Entry(Track(i, Trim(lang)), marked));
        case Untold =>
          if i < count {
            OneEntry(Track(i, Show(i)), marked);
            n := Format(buffer, text, cnt, Entry(Track(i, Show(i)), marked));
          } else {
            assert text + "" == text;
          }
      }
      cnt := cnt + n;
      i := i + 1;
    }
  }

  /** End the message and take the text out of the buffer. The line end is only written if it lies inside the buffer;
      what the code does otherwise is not defined. A message that was cut has no line end. */
  method EndMessage(buffer: array<char>, cnt: nat, ghost full: string) returns (sent: string, inside: bool)
    requires Holds(buffer[..], full) && cnt == |full| && NUL !in full
    modifies buffer
    ensures inside <==> |full| + 3 <= BUFFER_SIZE
    ensures inside ==> sent == if |full| <= LIMIT then full + "\r\n" else full[..LIMIT]
  {
    buffer[BUFFER_SIZE - 1] := NUL;
    inside := cnt + 3 <= BUFFER_SIZE;
    if inside {
      buffer[cnt] := '\r';
      buffer[cnt + 1] := '\n';
      buffer[cnt + 2] := NUL;
      ghost var k := CutAt(cnt);
      assert buffer[..k] == full[..k];
      ghost var e := if cnt <= LIMIT then cnt + 2 else LIMIT;
      ghost var text := if cnt <= LIMIT then full + "\r\n" else full[..LIMIT];
      assert buffer[..e] == text && buffer[e] == NUL && NUL !in text;
      assert Ends(buffer[..], 0, e);
      CStringIs(buffer[..], 0, e);
      assert buffer[..][0..] == buffer[..] && buffer[..][0..e] == buffer[..e];
      sent := CString(buffer[..]);
    } else {
      sent := "";
    }
  }

  // ---------------------------------------------------------------- what fits

  /** No language holds a NUL: they are C strings. */
  predicate CStrings(langs: seq<Language>) {
    forall i :: 0 <= i < |langs| && langs[i].Told? ==> NUL !in langs[i].text
  }

  /** No language has more than 25 characters. */
  predicate ShortNames(langs: seq<Language>) {
    forall i :: 0 <= i < |langs| && langs[i].Told? ==> |Trim(langs[i].text)| <= 25
  }

  lemma {:induction false} TrimAvoids(s: string, c: char)
    requires c !in s
    ensures c !in Trim(s)
  {
    if s != [] && s[0] in " \r\n" {
      TrimAvoids(s[1..], c);
    }
  }

  lemma {:induction false} ListedAvoids(langs: seq<Language>, count: int)
    requires CStrings(langs)
    ensures forall i :: 0 <= i < |Listed(langs, count)| ==> NUL !in Listed(langs, count)[i].lang
  {
    if langs != [] {
      var k := |langs| - 1;
      ListedAvoids(langs[..k], count);
      if langs[k].Told? {
        TrimAvoids(langs[k].text, NUL);
      }
      ShowAvoids(k, NUL);
    }
  }

  lemma PrintedAvoids(langs: seq<Language>, i: nat, count: int, marked: int)
    requires CStrings(langs) && i <= |langs|
    ensures NUL !in Printed(langs, i, count, marked)
  {
    ListedAvoids(langs[..i], count);
    EntriesAvoid(Listed(langs[..i], count), marked, NUL);
  }

  /** If the whole list fits, all of it is printed. */
  lemma AllPrinted(head: string, langs: seq<Language>, count: int, marked: int)
    requires |head| + |Entries(Listed(langs, count), marked)| <= LIMIT
    ensures Text(head, langs, count, marked) == head + Entries(Listed(langs, count), marked)
  {
    assert langs[..|langs|] == langs;
    PrintedLength(langs, StopAt(langs, count, marked, |head|, 0), count, marked);
  }

  lemma ShortEntry(t: Track, marked: int)
    requires 0 <= t.id < 100 && |t.lang| <= 25
    ensures |Entry(t, marked)| <= 30
  {
    assert t.id >= 10 ==> |Decimal(t.id / 10)| == 1;
  }

  /** With short names only, the line end always lies inside the buffer. */
  lemma ShortFits(head: string, langs: seq<Language>, count: int, marked: int)
    requires |langs| == TRACKS && ShortNames(langs) && |head| <= LIMIT
    ensures |Text(head, langs, count, marked)| + 3 <= BUFFER_SIZE
  {
    hide Listed, Entries, Trim, StopAt;
    var used := |head|;
    var stop := StopAt(langs, count, marked, used, 0);
    if stop == 0 {
      NothingListed(langs, count, marked);
    } else {
      var i := stop - 1;
      assert used + |Printed(langs, i, count, marked)| <= LIMIT;
      ListedMore(langs, i, count, marked);
      assert Printed(langs, stop, count, marked) ==
             Printed(langs, i, count, marked) + Entries(Slot(langs[i], i, count), marked);
      NothingListed(langs, count, marked);
      if langs[i].Told? {
        OneEntry(Track(i, Trim(langs[i].text)), marked);
        ShortEntry(Track(i, Trim(langs[i].text)), marked);
      } else {
        assert i >= 10 ==> |Decimal(i / 10)| == 1;
        OneEntry(Track(i, Show(i)), marked);
        ShortEntry(Track(i, Show(i)), marked);
      }
    }
  }

  lemma {:induction false} LongPrinted(langs: seq<Language>, i: nat, count: int, marked: int)
    requires i <= |langs| && i <= 10 && marked < 0
    requires forall k :: 0 <= k < i ==> langs[k].Told? && |Trim(langs[k].text)| == 127
    ensures |Printed(langs, i, count, marked)| == 130 * i
  {
    hide Listed, Entries, Trim;
    NothingListed(langs, count, marked);
    if i > 0 {
      LongPrinted(langs, i - 1, count, marked);
      ListedMore(langs, i - 1, count, marked);
      OneEntry(Track(i - 1, Trim(langs[i - 1].text)), marked);
    }
  }

  /** With 32 languages of 127 characters, which the stream may tell, and no current track, the audio message stops at
      the eighth, and its line end would lie outside the buffer. */
  lemma LongOverruns(langs: seq<Language>, text: string, count: int, marked: int)
    requires |text| == 127 && text[0] !in " \r\n" && langs == seq(TRACKS, _ => Told(text)) && marked < 0
    ensures StopAt(langs, count, marked, |AUDIO_HEAD|, 0) == 8
    ensures |Text(AUDIO_HEAD, langs, count, marked)| == BUFFER_SIZE + 36
  {
    hide StopAt, Printed;
    var stop := StopAt(langs, count, marked, |AUDIO_HEAD|, 0);
    LongPrinted(langs, 7, count, marked);
    LongPrinted(langs, 8, count, marked);
    LongPrinted(langs, if stop < 8 then stop else 8, count, marked);
  }

  // ---------------------------------------------------------------- the messages

  /** What is sent; `inside` if the code stays within the buffer. */
  ghost predicate Message(head: string, langs: seq<Language>, count: int, marked: int, sent: string, inside: bool) {
    var full := Text(head, langs, count, marked);
    && (inside <==> |full| + 3 <= BUFFER_SIZE)
    && (inside ==> sent == if |full| <= LIMIT then full + "\r\n" else full[..LIMIT])
  }

  /** Print a list behind `head`, which is in the buffer, and end the message. */
  method PrintList(buffer: array<char>, ghost head: string, used: nat, langs: seq<Language>, count: int, marked: int)
    returns (sent: string, inside: bool)
    requires |langs| == TRACKS && CStrings(langs) && NUL !in head && Holds(buffer[..], head) && used == |head| <= LIMIT
    modifies buffer
    ensures Message(head, langs, count, marked, sent, inside)
    ensures |head| + |Entries(Listed(langs, count), marked)| <= LIMIT ==>
              inside && sent == head + Entries(Listed(langs, count), marked) + "\r\n"
    ensures ShortNames(langs) ==> inside
  {
    hide Printed, Listed, Entries, Trim, StopAt;
    var cnt := PrintEntries(buffer, head, used, langs, count, marked);
    PrintedAvoids(langs, StopAt(langs, count, marked, |head|, 0), count, marked);
    sent, inside := EndMessage(buffer, cnt, Text(head, langs, count, marked));
    if |head| + |Entries(Listed(langs, count), marked)| <= LIMIT {
      AllPrinted(head, langs, count, marked);
    }
    if ShortNames(langs) {
      ShortFits(head, langs, count, marked);
    }
  }

  /** The smallest C integer. */
  const INT_MIN := -0x8000_0000

  function Pow10(k: nat): (p: nat)
    ensures p > 0
  {
    if k == 0 then 1 else 10 * Pow10(k - 1)
  }

  lemma {:induction false} DecimalLength(n: nat, k: nat)
    requires k > 0 && n < Pow10(k)
    ensures |Decimal(n)| <= k
  {
    assert Pow10(0) == 1;
    if n >= 10 {
      DecimalLength(n / 10, k - 1);
    }
  }

  lemma ChosenLength(chosen: int)
    requires INT_MIN <= chosen
    ensures |Chosen(chosen)| <= 20 && NUL !in Chosen(chosen)
  {
    if chosen < 0 {
      assert Pow10(2) == 100 && Pow10(4) == 10000 && Pow10(6) == 1000000 && Pow10(8) == 100000000;
      assert Pow10(10) == 10000000000;
      DecimalLength(-chosen, 10);
      ShowAvoids(chosen, NUL);
    }
  }

  /** Start the message, with an entry for no track if none is chosen. */
  method SpuHead(buffer: array<char>, chosen: int) returns (cnt: nat)
    requires buffer.Length == BUFFER_SIZE && INT_MIN <= chosen
    modifies buffer
    ensures var head := SPU_HEAD + Chosen(chosen);
            Holds(buffer[..], head) && cnt == |head| <= LIMIT && NUL !in head
  {
    hide Show;
    buffer[0] := NUL;
    assert "" + SPU_HEAD == SPU_HEAD;
    ChosenLength(chosen);
    cnt := Format(buffer, "", 0, SPU_HEAD);
    if chosen < 0 {
      var n := Format(buffer, SPU_HEAD, cnt, Chosen(chosen));
      cnt := cnt + n;
    } else {
      assert SPU_HEAD + Chosen(chosen) == SPU_HEAD;
    }
  }

  /** The subtitle message: what is printed for every list, cut or not. */
  method PrintSpuTracks(buffer: array<char>, langs: seq<Language>, count: int, chosen: int, auto: int)
    returns (sent: string, inside: bool)
    requires buffer.Length == BUFFER_SIZE && |langs| == TRACKS && CStrings(langs) && INT_MIN <= chosen
    modifies buffer
    ensures Message(SPU_HEAD + Chosen(chosen), langs, count, Marked(chosen, auto), sent, inside)
    ensures |"INFO TRACKMAP SPU" + PrintSpu(Listed(langs, count), chosen, auto)| <= LIMIT + 2 ==>
              inside && sent == "INFO TRACKMAP SPU" + PrintSpu(Listed(langs, count), chosen, auto)
    ensures ShortNames(langs) ==> inside
    ensures var tracks := Listed(langs, count);
            |"INFO TRACKMAP SPU" + PrintSpu(tracks, chosen, auto)| <= LIMIT + 2 && OneLine(tracks) && Plain(tracks) ==>
              |sent| >= 17 && ReadSpu(sent[17..]) == Done(tracks, Resolved(tracks, chosen, auto))
  {
    hide Entries, Listed, Show, Message, Trim, Chosen, Holds, ShortNames, CStrings, ReadSpu, PrintSpu, OneLine, Plain;
    var cnt := SpuHead(buffer, chosen);
    var current := if chosen == SUBTITLE_AUTO then auto else chosen;
    ghost var head := SPU_HEAD + Chosen(chosen);
    sent, inside := PrintList(buffer, head, cnt, langs, count, current);
    SpuWhole(Listed(langs, count), chosen, auto);
    if OneLine(Listed(langs, count)) && Plain(Listed(langs, count)) {
      SpuRead(Listed(langs, count), chosen, auto);
    }
  }

  lemma SpuRead(tracks: seq<Track>, chosen: int, auto: int)
    requires Numbered(tracks) && OneLine(tracks) && Plain(tracks)
    ensures var sent := "INFO TRACKMAP SPU" + PrintSpu(tracks, chosen, auto);
            |sent| >= 17 && ReadSpu(sent[17..]) == Done(tracks, Resolved(tracks, chosen, auto))
  {
    hide PrintSpu, ReadSpu, Numbered, OneLine, Plain, Resolved;
    SpuCurrent(tracks, chosen, auto);
    var p := PrintSpu(tracks, chosen, auto);
    assert ("INFO TRACKMAP SPU" + p)[17..] == p;
  }

  lemma SpuWhole(tracks: seq<Track>, chosen: int, auto: int)
    ensures "INFO TRACKMAP SPU" + PrintSpu(tracks, chosen, auto) ==
            SPU_HEAD + Chosen(chosen) + Entries(tracks, Marked(chosen, auto)) + "\r\n"
  {
    hide Chosen, Entries;
  }

  /** The audio message. */
  method PrintAudioTracks(buffer: array<char>, langs: seq<Language>, count: int, current: int)
    returns (sent: string, inside: bool)
    requires buffer.Length == BUFFER_SIZE && |langs| == TRACKS && CStrings(langs)
    modifies buffer
    ensures Message(AUDIO_HEAD, langs, count, current, sent, inside)
    ensures |"INFO TRACKMAP AUDIO" + PrintAudio(Listed(langs, count), current)| <= LIMIT + 2 ==>
              inside && sent == "INFO TRACKMAP AUDIO" + PrintAudio(Listed(langs, count), current)
    ensures ShortNames(langs) ==> inside
  {
    hide Entries, Listed, Show, Message, Trim;
    assert "" + AUDIO_HEAD == AUDIO_HEAD;
    buffer[0] := NUL;
    var cnt := Format(buffer, "", 0, AUDIO_HEAD);
    sent, inside := PrintList(buffer, AUDIO_HEAD, cnt, langs, count, current);
    assert "INFO TRACKMAP AUDIO" + PrintAudio(Listed(langs, count), current) ==
           AUDIO_HEAD + Entries(Listed(langs, count), current) + "\r\n";
  }
}
