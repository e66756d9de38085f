/** What the UDP/RTP receive queue does, said over unbounded packet numbers.

    The sender numbers its packets 0, 1, 2, ... and puts only the number modulo 256 on the wire.
    Here the queue is a map from unbounded number to packet; `UdpLink` is the 256-slot array that
    must behave like it. */
module UdpWindow {
  import opened Options

  const SEQ_RANGE := 256
  const HALF_RANGE := 128
  const MAX_QUEUED := 64
  const MAX_REQUEST_SCAN := 19

  /** `num` is the sender's number (the receiver only ever looks at `num % 256`), `padding` the outcome
      of the idle-padding test on the packet's buffer. */
  datatype Packet = Packet(num: int, pos: nat, payload: seq<bv8>, padding: bool)

  /** One datagram, after its header is parsed. `Control` is an in-band control message other than
      UDP MISSING; `Invalid` is one that the packet check drops. */
  datatype Datagram =
    | Data(packet: Packet)
    | Missing(seq1: int, seq2: int, rpos: nat)
    | Control
    | Invalid

  datatype Delivery = Delivery(number: int, packet: Packet)

  /** UDP RESEND seq1-seq2 pos. */
  datatype Request = Request(seq1: nat, seq2: nat, pos: nat)

  /** The link. `start`, `log`, `dropped`, `fillers`, `skips` and `requests` are its history since the last reset:
      first number expected, packets handed on, empty packets thrown away, UDP MISSING messages
      accepted, window skips, re-send requests. `epoch` counts resets. */
  datatype Win = Win(
    pending: map<int, Packet>,
    base: int,
    current: int,
    started: bool,
    padding: bool,
    resend: nat,
    inputPos: nat,
    missed: int,
    start: int,
    log: seq<Delivery>,
    dropped: nat,
    fillers: nat,
    skips: nat,
    requests: seq<Request>,
    epoch: nat)

  /** A newly initialised link, after `epoch` resets. */
  function Fresh(epoch: nat): Win {
    Win(map[], 0, 0, false, false, 0, 0, 0, 0, [], 0, 0, 0, [], epoch)
  }

  /** What one turn of the read loop gives: a packet, "nothing now", or "go round again". */
  datatype Outcome = Deliver(packet: Packet) | NothingNow | Again

  // ---------------------------------------------------------------- behaviour

  /** The number sequence byte `s` stands for, seen from `base`. */
  function Unwrap(base: int, s: int): (u: int)
    ensures base <= u < base + SEQ_RANGE
    ensures u % SEQ_RANGE == s % SEQ_RANGE
  {
    base + (s - base) % SEQ_RANGE
  }

  /** The first pending number from `b` on, or `top` if there is none below it. */
  function First(m: map<int, Packet>, b: int, top: int): (f: int)
    requires b <= top
    ensures b <= f <= top
    ensures f < top ==> f in m
    ensures forall u :: b <= u < f ==> u !in m
    decreases top - b
  {
    if b == top || b in m then b else First(m, b + 1, top)
  }

  function Skip(w: Win): Win {
    var f := First(w.pending, w.base, w.base + SEQ_RANGE);
    w.(base := f, missed := w.missed + (f - w.base))
  }

  /** Take the packet at the head of the window. */
  function Pop(w: Win): Win
    requires w.base in w.pending
  {
    var p := w.pending[w.base];
    w.(pending := w.pending - {w.base},
       base := w.base + 1,
       inputPos := p.pos + |p.payload|,
       resend := if w.resend > 0 then w.resend - 1 else 0,
       log := if p.payload != [] then w.log + [Delivery(w.base, p)] else w.log,
       dropped := if p.payload != [] then w.dropped else w.dropped + 1)
  }

  function Flush(w: Win): Win {
    if w.padding && w.pending != map[] then Skip(w) else w
  }

  /** Hand on the head of the window, dropping empty packets on the way. */
  function Drain(w: Win): (Win, Option<Packet>)
    decreases |w.pending|
  {
    if w.base !in w.pending then (w, None)
    else
      var w' := Flush(Pop(w));
      assert |w.pending - {w.base}| < |w.pending| by { Smaller(w.pending, w.base); }
      if w.pending[w.base].payload != [] then (w', Some(w.pending[w.base])) else Drain(w')
  }

  /** Give up waiting for missing packets when too many are queued. */
  function Shrink(w: Win): Win {
    if |w.pending| > MAX_QUEUED then Skip(w).(resend := 0, skips := w.skips + 1) else w
  }

  function Process(w: Win): (Win, Option<Packet>) {
    if w.pending == map[] then (w, None) else Drain(Flush(Shrink(w)))
  }

  /** The number a packet gets when it arrives; the first packet of a link starts the numbering. */
  function Started(w: Win, p: Packet): Win {
    if w.started then w
    else w.(base := p.num, start := w.start + (p.num - w.base), started := true)
  }

  predicate InWindow(w: Win, p: Packet) {
    (p.num - Started(w, p).base) % SEQ_RANGE <= HALF_RANGE
  }

  /** Queue a packet, or reset the link if it lies outside the window. */
  function Arrive(w: Win, p: Packet): Win {
    if InWindow(w, p) then
      var w' := Started(w, p);
      var u := Unwrap(w'.base, p.num);
      w'.(current := u, padding := p.padding, pending := w'.pending[u := p])
    else Fresh(w.epoch + 1)
  }

  predicate Accepted(w: Win, d: Datagram) {
    d.Missing? && d.seq1 == w.base % SEQ_RANGE
  }

  function MissingCount(d: Datagram): (n: nat)
    requires d.Missing?
    ensures n < SEQ_RANGE
  {
    (d.seq2 + 1 - d.seq1) % SEQ_RANGE
  }

  /** The packets stay in their slots, and a slot stands for the number it has seen from the new base. */
  function Rekey(m: map<int, Packet>, base: int, b: int): map<int, Packet> {
    map u | b <= u < b + SEQ_RANGE && Unwrap(base, u) in m :: m[Unwrap(base, u)]
  }

  /** UDP MISSING: move to the last number of the range and put an empty packet there. A queued packet that is passed
      over stays in its slot, which from then on stands for a number 256 higher. */
  function Jump(w: Win, d: Datagram): Win
    requires d.Missing?
  {
    var n := MissingCount(d);
    w.(base := w.base + n - 1, pending := Rekey(w.pending, w.base, w.base + n - 1),
       missed := w.missed + n, fillers := w.fillers + 1)
  }

  /** The message itself, cut down to an empty packet; its number is only known modulo 256. */
  function Filler(d: Datagram): Packet
    requires d.Missing?
  {
    Packet(d.seq2 % SEQ_RANGE, d.rpos, [], false)
  }

  /** Where the scan for the end of a gap stops, `top` at the latest. */
  function Scan(m: map<int, Packet>, base: int, u: int, top: int): int
    decreases top - u
  {
    if u >= top || Unwrap(base, u) in m then u else Scan(m, base, u + 1, top)
  }

  function Resend(w: Win): Win {
    if w.resend > 0 || (w.current + 1 - w.base) % SEQ_RANGE == 0 || w.pending == map[] then w
    else
      var c := Scan(w.pending, w.base, w.current, w.current + MAX_REQUEST_SCAN);
      w.(current := c,
         resend := (c - w.base) % SEQ_RANGE,
         requests := w.requests + [Request(w.base % SEQ_RANGE, (c - 1) % SEQ_RANGE, w.inputPos)])
  }

  function Queued(w: Win, p: Packet): (Win, Outcome) {
    var a := Arrive(w, p);
    if !InWindow(w, p) then (a, NothingNow)
    else
      var (w', r) := Process(a);
      if r.Some? then (w', Deliver(r.value)) else (Resend(w'), Again)
  }

  /** One datagram through the read loop. */
  function Turn(w: Win, d: Datagram): (Win, Outcome) {
    match d
    case Control => (w, NothingNow)
    case Invalid => (w, NothingNow)
    case Data(p) => Queued(w, p)
    case Missing(_, _, _) =>
      if Accepted(w, d) then Queued(Jump(w, d), Filler(d)) else (w, NothingNow)
  }

  /** A whole call: packets come from the queue, then from `inbox`. Gives back what was not read. */
  function Read(w: Win, inbox: seq<Datagram>): (Win, Option<Packet>, seq<Datagram>)
    decreases |inbox|
  {
    var (w', r) := Process(w);
    if r.Some? then (w', r, inbox)
    else if inbox == [] then (w', None, [])
    else
      var (w'', o) := Turn(w', inbox[0]);
      match o
      case Deliver(p) => (w'', Some(p), inbox[1..])
      case NothingNow => (w'', None, inbox[1..])
      case Again => Read(w'', inbox[1..])
  }

  /** Several calls, each with the datagrams that are there for it. */
  function Run(w: Win, calls: seq<seq<Datagram>>): Win
    decreases |calls|
  {
    if calls == [] then w else Run(Read(w, calls[0]).0, calls[1..])
  }

  lemma Smaller(m: map<int, Packet>, u: int)
    requires u in m
    ensures |m - {u}| == |m| - 1
  {
    var m' := m - {u};
    assert m'.Keys == m.Keys - {u};
  }

  lemma Periodic(s: int, k: int)
    ensures (s + SEQ_RANGE * k) % SEQ_RANGE == s % SEQ_RANGE
  {}

  lemma JumpResidue(base: int, s: int)
    ensures (base + (s + 1 - base % SEQ_RANGE) % SEQ_RANGE - 1) % SEQ_RANGE == s % SEQ_RANGE
  {
    var b := base % SEQ_RANGE;
    var d := s + 1 - b;
    var k := base / SEQ_RANGE - d / SEQ_RANGE;
    assert base == SEQ_RANGE * (base / SEQ_RANGE) + b && d == SEQ_RANGE * (d / SEQ_RANGE) + d % SEQ_RANGE;
    assert base + d % SEQ_RANGE - 1 == s + SEQ_RANGE * k;
    Periodic(s, k);
  }
}
