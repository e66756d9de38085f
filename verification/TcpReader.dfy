/** The resumable reader itself: one buffer, filled piece by piece over any number of calls. */
module TcpReaders {
  import opened Bytes
  import opened TcpFrames

  datatype Recv = Got(chunk: nat) | Eof | TryAgain

  /** What one round of the read loop meets: a readable socket (with or without a free buffer, and what recv gives), or
      another outcome of select. */
  datatype Event =
    | Ready(freeBuffer: bool, recv: Recv)
    | Timeout
    | Aborted
    | Stopped

  datatype Result =
    | Block(frame: Frame)
    | Control(frame: Frame)
    | NoData
    | Disconnected

  ghost predicate IsControl(f: Frame) {
    f.pos == CONTROL_POS && f.payload != [] && f.payload[0] != TS_SYNC && f.payload[0] != 0
  }

  /** What the buffer holds after the bytes `raw` of a frame: as they came, and from the moment the header is complete
      with its two numbers in host order. */
  ghost function InMemory(raw: seq<byte>): seq<byte> {
    if |raw| < HEADER then raw else Swap(raw[..8]) + Swap(raw[8..12]) + raw[12..]
  }

  /** A round that must receive something, if there is anything to receive. */
  predicate Productive(e: Event) {
    e.Ready? && e.freeBuffer && e.recv.Got? && e.recv.chunk > 0
  }

  function ProductiveCount(events: seq<Event>): nat {
    if events == [] then 0
    else ProductiveCount(events[..|events| - 1]) + if Productive(events[|events| - 1]) then 1 else 0
  }

  /** A round after which the call ends without a frame, whatever was received. */
  predicate Pauses(e: Event) {
    e.Timeout? || e.Aborted? || (e.Ready? && (e.recv.TryAgain? || (e.recv.Got? && e.recv.chunk == 0)))
  }

  predicate Ends(e: Event) {
    e.Stopped? || (e.Ready? && e.recv.Eof?)
  }

  /** A round that finds no buffer to receive into: it looks at nothing else. */
  predicate Blind(e: Event, hasBuffer: bool) {
    e.Ready? && !e.freeBuffer && !hasBuffer
  }

  class TcpReader {
    const maxSize: nat
    const buffer: array<byte>
    var hasBuffer: bool
    var size: nat

    /** Everything received, everything handed on (blocks and in-band controls), and the unfinished frame's bytes. */
    ghost var received: seq<byte>
    ghost var frames: seq<Frame>
    ghost var partial: seq<byte>

    ghost predicate Valid()
      reads this, buffer
    {
      && Parse(received, maxSize) == Parsed(frames, partial, true)
      && 2 * HEADER < maxSize
      && !Whole(partial, maxSize) && (|partial| >= HEADER ==> Fits(partial, maxSize))
      && |partial| == size
      && buffer.Length == maxSize && size <= maxSize
      && (if hasBuffer then buffer[..size] == InMemory(partial) else size == 0)
    }

    constructor (maxSize: nat)
      requires 2 * HEADER < maxSize
      ensures Valid() && received == [] && frames == [] && this.maxSize == maxSize && fresh(buffer) && !hasBuffer
    {
      this.maxSize := maxSize;
      buffer := new byte[maxSize];
      hasBuffer, size := false, 0;
      received, frames, partial := [], [], [];
    }

    /** Append received bytes to the buffer. */
    method Store(chunk: seq<byte>)
      requires hasBuffer && size + |chunk| <= buffer.Length
      modifies `size, `received, `partial, buffer
      ensures size == old(size) + |chunk| && buffer[..size] == old(buffer[..size]) + chunk
      ensures received == old(received) + chunk && partial == old(partial) + chunk
    {
      forall k | 0 <= k < |chunk| {
        buffer[size + k] := chunk[k];
      }
      size := size + |chunk|;
      received, partial := received + chunk, partial + chunk;
    }

    /** Bring the two numbers of a complete header to host order, in place. */
    method DecodeHeader()
      requires hasBuffer && size == HEADER == |partial| && size <= buffer.Length && buffer[..size] == partial
      modifies buffer
      ensures buffer[..size] == InMemory(partial)
    {
      forall i | 0 <= i < 8 ensures Swap(partial[..8])[i] == partial[7 - i] { SwapIndex(partial[..8], i); }
      forall i | 0 <= i < 4 ensures Swap(partial[8..12])[i] == partial[11 - i] { SwapIndex(partial[8..12], i); }
      forall i | 0 <= i < 12 {
        buffer[i] := if i < 8 then buffer[7 - i] else buffer[19 - i];
      }
      assert InMemory(partial)[12] == partial[12];
    }

    /** The length field as the host reads it from the decoded header. */
    method HeaderLength() returns (len: nat)
      requires hasBuffer && HEADER <= size == |partial| && size <= buffer.Length && buffer[..size] == InMemory(partial)
      ensures len == Length(partial)
    {
      assert buffer[8..12] == buffer[..size][8..12] == Swap(partial[8..12]);
      SwapReads(partial[8..12]);
      len := FromHost(buffer[8..12]);
    }

    /** Take the finished frame out of the buffer. */
    method Finish() returns (r: Result)
      requires hasBuffer && HEADER <= size == |partial| && HEADER < maxSize == buffer.Length
      requires Parse(received, maxSize) == Parsed(frames + [Decode(partial)], [], true)
      requires size <= maxSize && buffer[..size] == InMemory(partial) && 2 * HEADER < maxSize
      modifies `size, `hasBuffer, `frames, `partial
      ensures Valid() && (r.Block? || r.Control?) && r.frame == Decode(old(partial))
          && frames == old(frames) + [r.frame] && !hasBuffer
      ensures r.frame.payload != [] ==> (r.Control? <==> IsControl(r.frame))
      ensures r.Block? ==> !IsControl(r.frame)
    {
      var memory := buffer[..size];
      assert memory[..8] == Swap(partial[..8]) && memory[12] == partial[12] && memory[HEADER..] == partial[HEADER..];
      SwapReads(partial[..8]);
      var frame := Frame(FromHost(buffer[..8]), buffer[12], buffer[HEADER..size]);
      assert buffer[..8] == memory[..8] && buffer[HEADER..size] == memory[HEADER..];
      hasBuffer, size := false, 0;
      frames, partial := frames + [frame], [];
      if frame.pos == CONTROL_POS && buffer[HEADER] != TS_SYNC && buffer[HEADER] != 0 {
        return Control(frame);
      }
      r := Block(frame);
    }

    /** More of a header. `broken` if it is complete and announces a frame that does not fit. */
    method TakeHeader(chunk: seq<byte>) returns (todo: int, broken: bool)
      requires Valid() && hasBuffer && size < HEADER && size + |chunk| <= HEADER
      modifies `size, `received, `partial, buffer
      ensures received == old(received) + chunk && partial == old(partial) + chunk && size == |partial| <= HEADER
      ensures buffer[..size] == InMemory(partial)
      ensures todo == if size < HEADER then HEADER else Total(Length(partial))
      ensures broken <==> size == HEADER && !Fits(partial, maxSize)
    {
      Store(chunk);
      todo, broken := HEADER, false;
      if size == HEADER {
        assert partial == buffer[..size];
        DecodeHeader();
        var len := HeaderLength();
        todo := Total(len);
        broken := todo + size >= maxSize;
      }
    }

    /** More of a payload. */
    method TakePayload(chunk: seq<byte>)
      requires Valid() && hasBuffer && HEADER <= size && size + |chunk| <= maxSize
      modifies `size, `received, `partial, buffer
      ensures received == old(received) + chunk && partial == old(partial) + chunk && size == |partial|
      ensures buffer[..size] == InMemory(partial) && Length(partial) == Length(old(partial))
    {
      PayloadInMemory(partial, chunk);
      Store(chunk);
    }

    /** One successful recv: go on (`NoData`), or a finished frame, or a frame that does not fit. */
    method Accept(chunk: seq<byte>, want: int) returns (todo: int, r: Result)
      requires Valid() && hasBuffer && chunk != [] && size + |chunk| <= want
      requires want == if size < HEADER then HEADER else Total(Length(partial))
      modifies `size, `hasBuffer, `received, `frames, `partial, buffer
      ensures received == old(received) + chunk
      ensures r.NoData? ==> Valid() && hasBuffer && frames == old(frames)
      ensures r.NoData? ==> todo == if size < HEADER then HEADER else Total(Length(partial))
      ensures r.Block? || r.Control? ==> Valid() && frames == old(frames) + [r.frame] && partial == [] && !hasBuffer
      ensures r.Control? && r.frame.payload != [] ==> IsControl(r.frame)
      ensures r.Block? ==> !IsControl(r.frame)
      ensures r.Disconnected? ==>
          !Parse(received, maxSize).ok && Parse(received, maxSize).frames == frames == old(frames)
    {
      ParseOn(received, chunk, maxSize);
      if size < HEADER {
        var broken;
        todo, broken := TakeHeader(chunk);
        if broken {
          return todo, Disconnected;
        }
      } else {
        todo := want;
        TakePayload(chunk);
      }
      if size >= todo {
        FinalPiece(partial, maxSize);
        r := Finish();
      } else {
        r := NoData;
      }
    }

    /** One round of the read loop. `NoData` with `again` means go round again. */
    method Round(event: Event, net: seq<byte>, want: int) returns (r: Result, again: bool, todo: int, rest: seq<byte>)
      requires Valid()
      requires want == if size < HEADER then HEADER else Total(Length(partial))
      modifies this, buffer
      ensures |received| >= |old(received)| && received + rest == old(received) + net
      ensures r.NoData? ==> Valid() && frames == old(frames)
      ensures Productive(event) && net != [] ==> |received| > |old(received)|
      ensures r.NoData? && !again ==> Pauses(event) || net == []
      ensures r.Disconnected? && Valid() ==> Ends(event)
      ensures Ends(event) && !Blind(event, old(hasBuffer)) ==> r.Disconnected? && received == old(received)
      ensures Pauses(event) && !Blind(event, old(hasBuffer)) ==> r.NoData? && !again && received == old(received)
      ensures Blind(event, old(hasBuffer)) ==> again && received == old(received) && !hasBuffer
      ensures again ==> r.NoData? && todo == if size < HEADER then HEADER else Total(Length(partial))
      ensures r.Block? || r.Control? ==> Valid() && frames == old(frames) + [r.frame] && partial == [] && !hasBuffer
      ensures r.Control? && r.frame.payload != [] ==> IsControl(r.frame)
      ensures r.Block? ==> !IsControl(r.frame)
      ensures r.Disconnected? ==>
                && frames == old(frames)
                && (Valid() || (!Parse(received, maxSize).ok && Parse(received, maxSize).frames == frames))
    {
      again, todo, rest := false, want, net;
      if !event.Ready? {
        return if event.Stopped? then Disconnected else NoData, again, todo, rest;
      }
      if !hasBuffer {
        if !event.freeBuffer {
          return NoData, true, todo, rest;
        }
        hasBuffer, size, todo := true, 0, HEADER;
      }
      if !event.recv.Got? {
        return if event.recv.Eof? then Disconnected else NoData, again, todo, rest;
      }
      var n := Smallest(event.recv.chunk, todo - size, |rest|);
      if n <= 0 {
        return NoData, again, todo, rest;
      }
      TakeMore(received, rest, n);
      todo, r := Accept(rest[..n], todo);
      rest := rest[n..];
      again := r.NoData?;
    }

    /** Read on with what the socket gives: a finished frame, or nothing yet, or the end of the connection. `rest` is
        what was not received, `used` the number of rounds. */
    method ReadBlock(events: seq<Event>, net: seq<byte>) returns (r: Result, rest: seq<byte>, used: nat)
      requires Valid()
      modifies this, buffer
      ensures |received| >= |old(received)| && received + rest == old(received) + net
      ensures used <= |events| && (rest == [] || |received| - |old(received)| >= ProductiveCount(events[..used]))
      ensures r.NoData? ==> Valid() && frames == old(frames)
      ensures r.NoData? && used < |events| ==> (0 < used && Pauses(events[used - 1])) || rest == []
      ensures r.Disconnected? && Valid() ==> 0 < used && Ends(events[used - 1])
      ensures r.NoData? && 0 < used && Ends(events[used - 1]) ==> Blind(events[used - 1], hasBuffer)
      ensures forall k :: 0 <= k < used - 1 && (Ends(events[k]) || Pauses(events[k])) ==> Blind(events[k], false)
      ensures r.Block? || r.Control? ==> Valid() && frames == old(frames) + [r.frame] && partial == [] && !hasBuffer
      ensures r.Control? && r.frame.payload != [] ==> IsControl(r.frame)
      ensures r.Block? ==> !IsControl(r.frame)
      ensures r.Disconnected? ==>
                && frames == old(frames)
                && (Valid() || (!Parse(received, maxSize).ok && Parse(received, maxSize).frames == frames))
    {
      hide Parse, Whole, Fits, Total, Length, InMemory, IsControl, Productive, Pauses;
      var todo := HEADER;
      if hasBuffer && size >= HEADER {
        var len := HeaderLength();
        todo := Total(len);
      }
      rest, used := net, 0;
      for i := 0 to |events|
        invariant used == i && Valid() && frames == old(frames)
        invariant rest == [] || |received| - |old(received)| >= ProductiveCount(events[..used])
        invariant |received| >= |old(received)| && received + rest == old(received) + net
        invariant todo == if size < HEADER then HEADER else Total(Length(partial))
        invariant 0 < i && Ends(events[i - 1]) ==> Blind(events[i - 1], hasBuffer)
        invariant forall k :: 0 <= k < i && (Ends(events[k]) || Pauses(events[k])) ==> Blind(events[k], false)
      {
        var again;
        used := i + 1;
        assert events[..used][..i] == events[..i];
        r, again, todo, rest := Round(events[i], rest, todo);
        if !again {
          return;
        }
      }
      r := NoData;
    }
  }

  lemma PayloadInMemory(raw: seq<byte>, chunk: seq<byte>)
    requires |raw| >= HEADER
    ensures InMemory(raw + chunk) == InMemory(raw) + chunk && Length(raw + chunk) == Length(raw)
  {
    assert (raw + chunk)[..8] == raw[..8] && (raw + chunk)[8..12] == raw[8..12];
    assert (raw + chunk)[12..] == raw[12..] + chunk;
  }

  lemma TakeMore(a: seq<byte>, rest: seq<byte>, n: nat)
    requires n <= |rest|
    ensures (a + rest[..n]) + rest[n..] == a + rest
  {}

  function Smallest(a: int, b: int, c: int): (m: int)
    ensures m <= a && m <= b && m <= c && (m == a || m == b || m == c)
  {
    if a <= b && a <= c then a else if b <= c then b else c
  }

  lemma FinalPiece(bytes: seq<byte>, max: nat)
    requires |bytes| >= HEADER && Fits(bytes, max) && |bytes| == Size(bytes)
    ensures Parse(bytes, max) == Parsed([Decode(bytes)], [], true)
  {
    assert bytes[..|bytes|] == bytes;
  }
}
