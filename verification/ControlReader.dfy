/** The client's control thread: readline, raw reads, and the loop over messages, for any timing of the socket. */
module ControlReaders {
  import opened Bytes
  import opened ControlFrames

  /** One outcome of select and recv. `Ready(0)` is the end of the stream. */
  datatype Event = Ready(chunk: nat) | Interrupted | TimedOut | Aborted | Failed | Stopped

  /** `Waiting`: the events have run out. */
  datatype Status = Complete | Waiting | Lost

  /** A round that ends the connection; a raw read does not survive an interrupted recv. `input` is what was still to
      come. */
  predicate Breaks(e: Event, input: seq<byte>, raw: bool) {
    e.Failed? || e.Stopped? || (e.Ready? && (e.chunk == 0 || input == [])) || (raw && e.Interrupted?)
  }

  /** An outcome that no read survives, or no raw read. */
  predicate Halts(e: Event, raw: bool) {
    e.Failed? || e.Stopped? || e == Ready(0) || (raw && e.Interrupted?)
  }

  class ControlReader {
    const line: array<byte>

    /** Bytes still to come from the server, and what the socket will do. */
    var input: seq<byte>
    const events: seq<Event>
    var at: nat

    ghost predicate Valid()
      reads this
    {
      line.Length == MAX_LINE + 2 && at <= |events|
    }

    /** How many of the first `k` rounds found something to read. */
    ghost function Arrivals(k: nat): nat
      requires k <= |events|
    {
      if k == 0 then 0 else Arrivals(k - 1) + if events[k - 1].Ready? then 1 else 0
    }

    /** How many of the first `k` rounds had an outcome that halts. */
    ghost function Halted(k: nat, raw: bool): nat
      requires k <= |events|
    {
      if k == 0 then 0 else Halted(k - 1, raw) + if Halts(events[k - 1], raw) then 1 else 0
    }

    lemma OneRound(k: nat)
      requires k < |events|
      ensures Arrivals(k + 1) == Arrivals(k) + if events[k].Ready? then 1 else 0
      ensures Halted(k + 1, false) == Halted(k, false) + if Halts(events[k], false) then 1 else 0
      ensures Halted(k + 1, true) == Halted(k, true) + if Halts(events[k], true) then 1 else 0
    {}

    /** Rounds from `was` on are used up, and each that found something to read has taken a byte or more of the
        `length` there were; the status says why no message came of them, and nothing is read on after an outcome that
        halts. */
    ghost predicate Gone(status: Status, was: nat, length: nat, raw: bool)
      reads this
    {
      && was <= at <= |events|
      && |input| + Arrivals(if status.Lost? && was < at then at - 1 else at) <= length + Arrivals(was)
      && (status.Waiting? ==> at == |events|)
      && (status.Lost? ==> was < at && Breaks(events[at - 1], input, raw))
      && Halted(if status.Lost? && was < at then at - 1 else at, false) == Halted(was, false)
    }

    constructor (input: seq<byte>, events: seq<Event>)
      ensures Valid() && this.input == input && this.events == events && fresh(line)
    {
      line := new byte[MAX_LINE + 2];
      this.input, this.events, at := input, events, 0;
    }

    /** readline_control: one byte at a time, into the line buffer, NUL-terminated. */
    method ReadLineInto() returns (n: nat, status: Status)
      requires Valid()
      modifies `input, `at, line
      ensures n <= MAX_LINE && Gone(status, old(at), old(|input|), false)
      ensures status.Complete? ==> ReadLine([], old(input)) == Done(line[..n], input) && line[n] == 0
      ensures status.Complete? ==> |input| < |old(input)|
    {
      hide Arrivals, Halted;
      n := 0;
      line[0] := 0;
      ghost var was := input;
      while n < MAX_LINE
        invariant n <= MAX_LINE && line[n] == 0
        invariant ReadLine(line[..n], input) == ReadLine([], was)
        invariant |input| <= |was| && (n > 0 ==> |input| < |was|)
        invariant Gone(Complete, old(at), old(|input|), true)
        decreases |events| - at
      {
        if at == |events| {
          return n, Waiting;
        }
        var e := events[at];
        OneRound(at);
        at := at + 1;
        if e.TimedOut? || e.Aborted? || e.Interrupted? {
          continue;
        }
        if !e.Ready? || e.chunk == 0 || input == [] {
          return n, Lost;
        }
        ghost var got := line[..n];
        line[n] := input[0];
        input := input[1..];
        assert line[..n] == got && line[..n + 1] == got + [line[n]];
        if line[n] != 0 {
          if line[n] == CR {
            line[n] := 0;
          } else if line[n] == LF {
            line[n] := 0;
            return n, Complete;
          } else {
            n := n + 1;
            line[n] := 0;
          }
        }
        assert line[..n] == if n == |got| then got else got + [line[n - 1]];
      }
      status := Complete;
    }

    /** read_socket: exactly `n` bytes, in whatever pieces they come. */
    method ReadSocket(n: nat) returns (data: seq<byte>, status: Status)
      requires Valid()
      modifies `input, `at
      ensures Gone(status, old(at), old(|input|), true)
      ensures Halted(if status.Lost? then at - 1 else at, true) == Halted(old(at), true)
      ensures status.Complete? ==> Take(old(input), n) == Done(data, input)
    {
      hide Arrivals, Halted;
      var buffer := new byte[n];
      var total := 0;
      ghost var was := input;
      while total < n
        invariant old(at) <= at <= |events| && Halted(at, true) == Halted(old(at), true)
        invariant total <= n && total <= |was| && buffer[..total] == was[..total] && input == was[total..]
        invariant Gone(Complete, old(at), old(|input|), true)
        decreases |events| - at
      {
        if at == |events| {
          return [], Waiting;
        }
        var e := events[at];
        OneRound(at);
        at := at + 1;
        if e.TimedOut? || e.Aborted? {
          continue;
        }
        if !e.Ready? || input == [] || e.chunk == 0 {
          return [], Lost;
        }
        var k := if e.chunk < n - total then e.chunk else n - total;
        k := if k < |input| then k else |input|;
        forall i | 0 <= i < k {
          buffer[total + i] := input[i];
        }
        assert buffer[..total + k] == was[..total] + input[..k];
        total, input := total + k, input[k..];
      }
      assert buffer[..] == buffer[..n];
      data, status := buffer[..], Complete;
    }

    /** handle_osdcmd, up to the point where the command is executed. */
    method ReadOsdCommand() returns (m: Message, status: Status)
      requires Valid()
      modifies `input, `at
      ensures Gone(status, old(at), old(|input|), true) || (status.Lost? && ReadOsd(old(input)).Broken?)
      ensures old(at) <= at <= |events|
      ensures status.Complete? ==> ReadOsd(old(input)) == Done(m, input)
    {
      hide Arrivals, Halted, Breaks, Halts;
      m := Text([]);
      ghost var was := input;
      var first;
      first, status := ReadSocket(1);
      if !status.Complete? {
        return;
      }
      if first[0] < 2 {
        return m, Lost;
      }
      var others;
      others, status := ReadSocket(first[0] as nat - 1);
      if !status.Complete? {
        return;
      }
      var header := first + others;
      assert header == was[..first[0] as nat] && input == was[first[0] as nat..];
      if |header| < OSD_MIN_SIZE {
        return m, Lost;
      }
      var palette, bitmap;
      var command := Fields(header);
      palette, status := ReadSocket(PaletteSize(command));
      if !status.Complete? {
        return;
      }
      bitmap, status := ReadSocket(BitmapSize(command));
      m := Osd(command, ColorsOf(palette), bitmap);
    }

    /** One turn of the control thread: the next line that is not empty, and what follows it if it announces an OSD
        command. */
    method Next() returns (m: Message, status: Status)
      requires Valid()
      modifies `input, `at, line
      ensures old(at) <= at <= |events|
      ensures Gone(status, old(at), old(|input|), true) || (status.Lost? && ReadMessage(old(input)).Broken?)
      ensures status.Complete? ==> ReadMessage(old(input)) == Done(m, input)
    {
      m := Text([]);
      ghost var was := input;
      while true
        invariant ReadMessage(input) == ReadMessage(was) && Gone(Complete, old(at), old(|input|), true)
        decreases |input|
      {
        var n;
        n, status := ReadLineInto();
        if !status.Complete? {
          return;
        }
        if n > 0 {
          var text := line[..n];
          if IsOsdLine(text) {
            m, status := ReadOsdCommand();
          } else {
            m := Text(text);
          }
          return;
        }
        assert line[..n] == [];
      }
    }

    /** The control thread's loop. However the bytes arrive, the messages read are the first ones sent; there are
        `limit` of them unless the events run out, the connection ends, or what follows is no message. */
    method ReadMessages(limit: nat) returns (ms: seq<Message>, status: Status)
      requires Valid()
      modifies `input, `at, line
      ensures ms <= ReadAll(old(input)) && (status.Complete? <==> |ms| == limit)
      ensures Gone(status, old(at), old(|input|), true) || (status.Lost? && ms == ReadAll(old(input)))
    {
      hide ReadMessage, Breaks, Arrivals;
      ms, status := [], Complete;
      ghost var was := input;
      for i := 0 to limit
        invariant ReadAll(was) == ms + ReadAll(input) && |ms| == i && status.Complete?
        invariant Gone(Complete, old(at), old(|input|), true)
      {
        var m;
        m, status := Next();
        if !status.Complete? {
          return;
        }
        ms := ms + [m];
      }
    }
  }
}
