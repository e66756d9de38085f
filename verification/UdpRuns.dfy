/** Theorems about whole runs of the receive queue, and about re-send requests. */
module UdpRuns {
  import opened Options
  import opened UdpWindow
  import opened UdpOrder

  // ---------------------------------------------------------------- the invariant

  ghost predicate Ordered(log: seq<Delivery>) {
    forall i, j :: 0 <= i < j < |log| ==> log[i].number < log[j].number
  }

  ghost predicate LogWithin(w: Win, top: int) {
    Ordered(w.log) && forall i :: 0 <= i < |w.log| ==> w.start <= w.log[i].number < top
  }

  /** Every number from the first one on is delivered, thrown away as empty, or counted as missed;
      a UDP MISSING counts its whole range as missed and then drops one empty packet of its own. */
  ghost predicate Accounted(w: Win) {
    w.base - w.start == |w.log| + (w.dropped - w.fillers) + w.missed
  }

  ghost predicate Inv(w: Win) {
    && Ahead(w, SEQ_RANGE - 1) && |w.pending| <= MAX_QUEUED + 1
    && (!w.started ==> w.pending == map[] && w.log == [])
    && w.start <= w.base && w.fillers <= w.dropped && 0 <= w.missed
    && LogWithin(w, w.base)
    && Accounted(w)
  }

  lemma LogGrows(a: Win, w': Win, r: Option<Packet>, b: int)
    requires Released(a, w', r) && w'.start == a.start
    requires LogWithin(a, b) && a.start <= b <= a.base + 1 && b <= w'.base
    requires b == a.base + 1 ==> a.base in a.pending && a.pending[a.base].payload == []
    ensures LogWithin(w', w'.base)
  {
    if r.Some? {
      var last := w'.log[|a.log|];
      assert b <= last.number;
      assert forall i :: 0 <= i < |a.log| ==> w'.log[i] == a.log[i];
    }
  }

  /** A release keeps the invariant. Normally `b` is the base; after a UDP MISSING for 256 numbers the base is one
      back, on an empty packet, and `b` is where it was. */
  lemma ProcessKeeps(a: Win, b: int)
    requires Ahead(a, SEQ_RANGE - 1) && |a.pending| <= MAX_QUEUED + 1
    requires a.started || (a.pending == map[] && a.log == [])
    requires a.start <= b && 0 <= a.missed && LogWithin(a, b) && Accounted(a)
    requires a.fillers <= a.dropped
             || (a.fillers == a.dropped + 1 && a.base in a.pending && a.pending[a.base].payload == [])
    requires b == a.base || (b == a.base + 1 && a.base in a.pending && a.pending[a.base].payload == [])
    ensures var (w', r) := Process(a); Inv(w') && (r.None? ==> Idle(w'))
  {
    ProcessEffect(a);
    var (w', r) := Process(a);
    RestSmaller(a.pending, w'.base);
    LogGrows(a, w', r, b);
  }

  lemma ArriveKeeps(w: Win, p: Packet)
    requires Inv(w) && Idle(w) && InWindow(w, p)
    ensures var (w', r) := Process(Arrive(w, p)); Inv(w') && (r.None? ==> Idle(w'))
  {
    ProcessKeeps(Arrive(w, p), Arrive(w, p).base);
  }

  lemma JumpArrives(w: Win, d: Datagram)
    requires Accepted(w, d)
    ensures InWindow(Jump(w, d), Filler(d))
    ensures var s, a := Started(Jump(w, d), Filler(d)), Arrive(Jump(w, d), Filler(d));
            a == s.(current := s.base, padding := false, pending := s.pending[s.base := Filler(d)])
  {
    hide Rekey;
    JumpResidue(w.base, d.seq2);
  }

  lemma JumpKeeps(w: Win, d: Datagram)
    requires Inv(w) && Idle(w) && Accepted(w, d)
    ensures InWindow(Jump(w, d), Filler(d))
    ensures var (w', r) := Process(Arrive(Jump(w, d), Filler(d))); Inv(w') && (r.None? ==> Idle(w'))
  {
    JumpArrives(w, d);
    RekeySize(w.pending, w.base, Jump(w, d).base);
    var a := Arrive(Jump(w, d), Filler(d));
    ProcessKeeps(a, if MissingCount(d) == 0 then a.base + 1 else a.base);
  }

  lemma QueuedKeeps(w: Win, p: Packet)
    requires InWindow(w, p)
    requires var (w', r) := Process(Arrive(w, p)); Inv(w') && (r.None? ==> Idle(w'))
    ensures var (w', o) := Queued(w, p); Inv(w') && (o.Again? ==> Idle(w'))
  {
    var (w', r) := Process(Arrive(w, p));
    assert r.Some? || r.None?;
  }

  /** One datagram keeps the invariant, and the loop only goes round again when nothing more can be handed on. */
  lemma TurnKeeps(w: Win, d: Datagram)
    requires Inv(w) && Idle(w)
    ensures var (w', o) := Turn(w, d); Inv(w') && (o.Again? ==> Idle(w'))
  {
    match d
    case Data(p) =>
      if InWindow(w, p) {
        ArriveKeeps(w, p);
        QueuedKeeps(w, p);
      }
    case Missing(_, _, _) =>
      if Accepted(w, d) {
        JumpKeeps(w, d);
        QueuedKeeps(Jump(w, d), Filler(d));
      }
    case _ =>
  }

  lemma {:induction false} ReadKeeps(w: Win, inbox: seq<Datagram>)
    requires Inv(w)
    ensures Inv(Read(w, inbox).0)
    decreases |inbox|
  {
    ProcessKeeps(w, w.base);
    var (w', r) := Process(w);
    if r.None? && inbox != [] {
      TurnKeeps(w', inbox[0]);
      if Turn(w', inbox[0]).1.Again? {
        ReadKeeps(Turn(w', inbox[0]).0, inbox[1..]);
      }
    }
  }

  /** In every run of the link, whatever arrives: packets come out in strictly increasing order of the numbers they are
      filed under, every number is accounted for, at most 65 packets are queued; and whenever the socket is about to be
      read the head slot is empty, at most 64 are queued, and none after a padding packet. */
  lemma {:induction false} RunKeeps(w: Win, calls: seq<seq<Datagram>>)
    requires Inv(w)
    ensures var w' := Run(w, calls);
            && Inv(w')
            && (Process(w').1.None? ==> Idle(Process(w').0))
    decreases |calls|
  {
    if calls == [] {
      ProcessKeeps(w, w.base);
    } else {
      ReadKeeps(w, calls[0]);
      RunKeeps(Read(w, calls[0]).0, calls[1..]);
    }
  }

  // ---------------------------------------------------------------- what the sender promises

  /** Where a release from `u` on stops: at the first number not queued, or behind the first packet with a payload. */
  function ReleaseEnd(m: map<int, Packet>, u: int, top: int): (e: int)
    ensures u < top ==> u <= e <= top
    decreases top - u
  {
    if u >= top || u !in m then u else if m[u].payload != [] then u + 1 else ReleaseEnd(m, u + 1, top)
  }

  /** An accepted UDP MISSING passes over no queued packet that is less than 128 numbers back from where the release
      stops that follows. */
  ghost predicate JumpClear(w: Win, d: Datagram) {
    Accepted(w, d) ==>
      forall u :: u in w.pending && u < Jump(w, d).base ==>
        u + HALF_RANGE <= ReleaseEnd(w.pending, Jump(w, d).base + 1, w.base + SEQ_RANGE)
  }

  /** An accepted UDP MISSING passes over no queued packet that has a payload. */
  ghost predicate PayloadKept(w: Win, d: Datagram) {
    Accepted(w, d) ==> forall u :: u in w.pending && w.pending[u].payload != [] ==> Jump(w, d).base <= u
  }

  /** A packet arrives at most 127 behind or 128 ahead of the next expected number. */
  ghost predicate Near(w: Win, d: Datagram) {
    d.Data? && w.started ==> -HALF_RANGE < d.packet.num - w.base <= HALF_RANGE
  }

  datatype Promise = ClearJumps | TrueNumbering

  ghost predicate Meets(w: Win, d: Datagram, p: Promise) {
    if p.ClearJumps? then JumpClear(w, d) else PayloadKept(w, d) && Near(w, d)
  }

  /** The datagrams a call reads meet the promise. */
  ghost predicate Fair(w: Win, inbox: seq<Datagram>, p: Promise)
    decreases |inbox|
  {
    var (w', r) := Process(w);
    r.Some? || inbox == []
    || (Meets(w', inbox[0], p) && (Turn(w', inbox[0]).1.Again? ==> Fair(Turn(w', inbox[0]).0, inbox[1..], p)))
  }

  ghost predicate FairRun(w: Win, calls: seq<seq<Datagram>>, p: Promise)
    decreases |calls|
  {
    calls == [] || (Fair(w, calls[0], p) && FairRun(Read(w, calls[0]).0, calls[1..], p))
  }

  // ---------------------------------------------------------------- half the range

  ghost predicate Narrow(w: Win) {
    Ahead(w, HALF_RANGE)
  }

  lemma ProcessNarrow(a: Win)
    requires Narrow(a) && |a.pending| <= MAX_QUEUED + 1
    ensures Narrow(Process(a).0)
  {
    ProcessEffect(a);
  }

  /** Where a packet is found after the jump. */
  function Moved(u: int, b: int): int {
    if u < b then u + SEQ_RANGE else u
  }

  lemma MovedThere(m: map<int, Packet>, base: int, b: int, u: int)
    requires base <= u < base + SEQ_RANGE && b <= Moved(u, b) < b + SEQ_RANGE && u in m
    ensures Moved(u, b) in Rekey(m, base, b)
  {
    hide Unwrap;
    SameNumber(base, b, u, Moved(u, b));
  }

  lemma MovedBack(m: map<int, Packet>, base: int, b: int, v: int)
    requires v in Rekey(m, base, b)
    requires forall u :: u in m ==> base <= u < base + SEQ_RANGE && b <= Moved(u, b) < b + SEQ_RANGE
    ensures Unwrap(base, v) in m && v == Moved(Unwrap(base, v), b)
  {
    hide Unwrap;
    SameNumber(base, b, Moved(Unwrap(base, v), b), v);
  }

  lemma {:induction false} EndSame(m: map<int, Packet>, m': map<int, Packet>, u: int, top: int)
    requires forall v :: u <= v < top ==> (v in m <==> v in m') && (v in m ==> m[v] == m'[v])
    ensures ReleaseEnd(m, u, top) == ReleaseEnd(m', u, top)
    decreases top - u
  {
    if u < top && u in m && m[u].payload == [] {
      EndSame(m, m', u + 1, top);
    }
  }

  lemma {:induction false} DrainEnd(w: Win, top: int)
    requires !w.padding && w.base <= top && top !in w.pending
    ensures Drain(w).0.base == ReleaseEnd(w.pending, w.base, top)
    decreases |w.pending|
  {
    if w.base in w.pending {
      Smaller(w.pending, w.base);
      if w.pending[w.base].payload == [] {
        EndSame(w.pending, Pop(w).pending, w.base + 1, top);
        DrainEnd(Pop(w), top);
      }
    }
  }

  lemma ProcessEnd(w: Win, top: int)
    requires !w.padding && w.base <= top && top !in w.pending && w.base in w.pending
    ensures Process(w).0.base == ReleaseEnd(w.pending, w.base, top)
  {
    hide Drain, ReleaseEnd;
    assert First(w.pending, w.base, w.base + SEQ_RANGE) == w.base;
    DrainEnd(Shrink(w), top);
  }

  /** The packets that a jump does not pass over stay where they are, and the slot of the gap stays empty. */
  lemma RekeyAhead(m: map<int, Packet>, base: int, b: int, v: int)
    requires base - 1 <= b < v <= base + SEQ_RANGE && b < base + SEQ_RANGE - 1
    requires base !in m && forall u :: u in m ==> u <= base + HALF_RANGE
    ensures var r := Rekey(m, base, b); (v in r <==> v in m) && (v in r ==> r[v] == m[v])
  {
    if v == base + SEQ_RANGE {
      assert Unwrap(base, v) == base;
    } else {
      UnwrapNear(base, v);
    }
  }

  /** The release after a jump stops where `JumpClear` says. */
  lemma JumpEnd(w: Win, d: Datagram)
    requires Inv(w) && Idle(w) && Narrow(w) && Accepted(w, d) && w.started
    ensures Process(Arrive(Jump(w, d), Filler(d))).0.base ==
            ReleaseEnd(w.pending, Jump(w, d).base + 1, w.base + SEQ_RANGE)
  {
    hide Process, Rekey, Arrive, InWindow, MissingCount, Unwrap;
    JumpArrives(w, d);
    var b, top, a := Jump(w, d).base, w.base + SEQ_RANGE, Arrive(Jump(w, d), Filler(d));
    forall v | b < v <= top
      ensures (v in a.pending <==> v in w.pending) && (v in a.pending ==> a.pending[v] == w.pending[v])
    {
      RekeyAhead(w.pending, w.base, b, v);
    }
    ProcessEnd(a, top);
    EndSame(a.pending, w.pending, b + 1, top);
  }

  /** Every queued packet is at most 128 ahead after a UDP MISSING exactly if the jump is clear. */
  lemma NarrowDecides(w: Win, d: Datagram)
    requires Inv(w) && Idle(w) && Narrow(w) && Accepted(w, d)
    ensures Narrow(Turn(w, d).0) <==> JumpClear(w, d)
  {
    hide Process, Rekey, Arrive, InWindow, MissingCount, Filler, ReleaseEnd, Turn, Unwrap;
    JumpArrives(w, d);
    RekeySize(w.pending, w.base, Jump(w, d).base);
    JumpAhead(w, d);
    var a := Arrive(Jump(w, d), Filler(d));
    ProcessEffect(a);
    var w' := Process(a).0;
    TurnQueue(w, d);
    if w.started {
      JumpEnd(w, d);
      MovedNarrow(w.pending, w.base, Jump(w, d).base, a.pending, w'.base);
    } else {
      assert Jump(w, d).pending == map[];
    }
  }

  lemma TurnQueue(w: Win, d: Datagram)
    requires Accepted(w, d)
    ensures var w', t := Process(Arrive(Jump(w, d), Filler(d))).0, Turn(w, d).0;
            t.base == w'.base && t.pending == w'.pending
  {
    hide Process, Rekey, Arrive, InWindow, MissingCount, Filler, Scan;
    JumpArrives(w, d);
  }

  lemma MovedNarrow(m: map<int, Packet>, base: int, b: int, a: map<int, Packet>, e: int)
    requires base - 1 <= b < base + SEQ_RANGE - 1 && forall u :: u in m ==> base < u <= base + HALF_RANGE
    requires forall v :: v in a <==> v in Rekey(m, base, b) || v == b
    requires b < e <= base + SEQ_RANGE
    ensures (forall v :: v in Rest(a, e) ==> v <= e + HALF_RANGE) <==>
            (forall u :: u in m && u < b ==> u + HALF_RANGE <= e)
  {
    hide Unwrap, Rekey;
    if forall u :: u in m && u < b ==> u + HALF_RANGE <= e {
      forall v | v in Rest(a, e)
        ensures v <= e + HALF_RANGE
      {
        MovedBack(m, base, b, v);
      }
    } else {
      var u :| u in m && u < b && u + HALF_RANGE > e;
      MovedThere(m, base, b, u);
      assert u + SEQ_RANGE in Rest(a, e);
    }
  }

  lemma TurnNarrow(w: Win, d: Datagram)
    requires Inv(w) && Idle(w) && Narrow(w) && JumpClear(w, d)
    ensures Narrow(Turn(w, d).0)
  {
    hide Process, Scan, JumpClear;
    match d
    case Data(p) =>
      if InWindow(w, p) {
        ProcessNarrow(Arrive(w, p));
      }
    case Missing(_, _, _) =>
      if Accepted(w, d) {
        NarrowDecides(w, d);
      }
    case _ =>
  }

  lemma {:induction false} ReadNarrow(w: Win, inbox: seq<Datagram>)
    requires Inv(w) && Narrow(w) && Fair(w, inbox, ClearJumps)
    ensures Narrow(Read(w, inbox).0)
    decreases |inbox|
  {
    ProcessKeeps(w, w.base);
    ProcessNarrow(w);
    var (w', r) := Process(w);
    if r.None? && inbox != [] {
      TurnKeeps(w', inbox[0]);
      TurnNarrow(w', inbox[0]);
      if Turn(w', inbox[0]).1.Again? {
        ReadNarrow(Turn(w', inbox[0]).0, inbox[1..]);
      }
    }
  }

  /** If every UDP MISSING is clear, every queued packet is at most 128 ahead in every state. */
  lemma {:induction false} RunNarrow(w: Win, calls: seq<seq<Datagram>>)
    requires Inv(w) && Narrow(w) && FairRun(w, calls, ClearJumps)
    ensures Narrow(Run(w, calls))
    decreases |calls|
  {
    if calls != [] {
      ReadKeeps(w, calls[0]);
      ReadNarrow(w, calls[0]);
      RunNarrow(Read(w, calls[0]).0, calls[1..]);
    }
  }

  // ---------------------------------------------------------------- the sender's numbers

  /** The window test is right about a packet, and queues it under its own number, exactly when it is at most 127
      behind or 128 ahead (of all packets less than 256 away). */
  lemma WindowTest(w: Win, p: Packet)
    requires w.started && -SEQ_RANGE < p.num - w.base < SEQ_RANGE
    ensures -HALF_RANGE < p.num - w.base <= HALF_RANGE <==>
            && (InWindow(w, p) <==> w.base <= p.num)
            && (InWindow(w, p) ==> Unwrap(w.base, p.num) == p.num)
  {}

  ghost predicate TrueNumbers(w: Win) {
    && (forall u :: u in w.pending && w.pending[u].payload != [] ==> w.pending[u].num == u)
    && (forall i :: 0 <= i < |w.log| ==> w.log[i].packet.num == w.log[i].number)
  }

  lemma ProcessTrue(w: Win)
    requires Ahead(w, SEQ_RANGE - 1) && |w.pending| <= MAX_QUEUED + 1 && TrueNumbers(w)
    ensures TrueNumbers(Process(w).0)
  {
    ProcessEffect(w);
    var (w', r) := Process(w);
    if r.Some? {
      assert w'.log == w.log + [w'.log[|w.log|]];
    }
  }

  lemma TurnTrue(w: Win, d: Datagram)
    requires Inv(w) && Idle(w) && PayloadKept(w, d) && Near(w, d) && TrueNumbers(w)
    ensures TrueNumbers(Turn(w, d).0)
  {
    hide Process, Scan;
    match d
    case Data(p) =>
      if InWindow(w, p) {
        ArriveTrue(w, p);
        ProcessTrue(Arrive(w, p));
      }
    case Missing(_, _, _) =>
      if Accepted(w, d) {
        JumpTrue(w, d);
        ProcessTrue(Arrive(Jump(w, d), Filler(d)));
      }
    case _ =>
  }

  lemma ArriveTrue(w: Win, p: Packet)
    requires Inv(w) && Idle(w) && Near(w, Data(p)) && TrueNumbers(w) && InWindow(w, p)
    ensures Ahead(Arrive(w, p), SEQ_RANGE - 1) && |Arrive(w, p).pending| <= MAX_QUEUED + 1 && TrueNumbers(Arrive(w, p))
  {
    if w.started {
      WindowTest(w, p);
    }
  }

  lemma JumpTrue(w: Win, d: Datagram)
    requires Inv(w) && Idle(w) && Accepted(w, d) && PayloadKept(w, d) && TrueNumbers(w)
    ensures var a := Arrive(Jump(w, d), Filler(d));
            Ahead(a, SEQ_RANGE - 1) && |a.pending| <= MAX_QUEUED + 1 && TrueNumbers(a)
  {
    hide Unwrap, Arrive, InWindow, MissingCount;
    JumpArrives(w, d);
    JumpAhead(w, d);
    var b := Jump(w, d).base;
    var a := Arrive(Jump(w, d), Filler(d));
    RekeySize(w.pending, w.base, b);
    forall v | v in a.pending && a.pending[v].payload != []
      ensures a.pending[v].num == v
    {
      SameNumber(w.base, b, Unwrap(w.base, v), v);
    }
  }

  lemma {:induction false} ReadTrue(w: Win, inbox: seq<Datagram>)
    requires Inv(w) && Fair(w, inbox, TrueNumbering) && TrueNumbers(w)
    ensures TrueNumbers(Read(w, inbox).0)
    decreases |inbox|
  {
    ProcessKeeps(w, w.base);
    ProcessTrue(w);
    var (w', r) := Process(w);
    if r.None? && inbox != [] {
      TurnKeeps(w', inbox[0]);
      TurnTrue(w', inbox[0]);
      if Turn(w', inbox[0]).1.Again? {
        ReadTrue(Turn(w', inbox[0]).0, inbox[1..]);
      }
    }
  }

  lemma {:induction false} RunTrue(w: Win, calls: seq<seq<Datagram>>)
    requires Inv(w) && FairRun(w, calls, TrueNumbering) && TrueNumbers(w)
    ensures Inv(Run(w, calls)) && TrueNumbers(Run(w, calls))
    decreases |calls|
  {
    if calls != [] {
      ReadKeeps(w, calls[0]);
      ReadTrue(w, calls[0]);
      RunTrue(Read(w, calls[0]).0, calls[1..]);
    }
  }

  /** The sender's numbers, in the order in which packets were handed on, are strictly increasing. */
  ghost predicate SenderOrder(log: seq<Delivery>) {
    forall i, j :: 0 <= i < j < |log| ==> log[i].packet.num < log[j].packet.num
  }

  /** From link start, packets are handed on in strictly increasing order of the numbers the sender gave them. */
  lemma InSenderOrder(epoch: nat, calls: seq<seq<Datagram>>)
    requires FairRun(Fresh(epoch), calls, TrueNumbering)
    ensures SenderOrder(Run(Fresh(epoch), calls).log)
  {
    RunTrue(Fresh(epoch), calls);
  }

  // ---------------------------------------------------------------- re-send requests

  lemma {:induction false} ScanStops(m: map<int, Packet>, base: int, u: int, top: int)
    requires u <= top
    ensures var c := Scan(m, base, u, top);
            && u <= c <= top && (c < top ==> Unwrap(base, c) in m)
            && forall g :: u <= g < c ==> Unwrap(base, g) !in m
    decreases top - u
  {
    if u < top && Unwrap(base, u) !in m {
      ScanStops(m, base, u + 1, top);
    }
  }

  /** Between packet `number` and the gap at `base` no slot is occupied, by a packet that a UDP MISSING passed over. */
  ghost predicate NoStale(m: map<int, Packet>, number: int, base: int) {
    forall u :: u in m ==> !(number + SEQ_RANGE <= u < base + SEQ_RANGE)
  }

  lemma ScanAfterRelease(m: map<int, Packet>, base: int, u: int)
    requires base !in m && base - MAX_QUEUED - 1 <= u < base
    ensures var c := Scan(m, base, u, u + MAX_REQUEST_SCAN);
            && u <= c <= u + MAX_REQUEST_SCAN
            && (base < c <==> base - u < MAX_REQUEST_SCAN && NoStale(m, u, base))
            && (base < c ==> forall g :: base <= g < c ==> g !in m)
  {
    var top := u + MAX_REQUEST_SCAN;
    var c := Scan(m, base, u, top);
    ScanStops(m, base, u, top);
    forall g | u <= g <= top
      ensures Unwrap(base, g) == if g < base then g + SEQ_RANGE else g
    {
      UnwrapNear(base, g);
    }
    forall g | base <= g < c
      ensures g !in m
    {
      assert Unwrap(base, g) == g;
    }
    if base < c {
      assert NoStale(m, u, base) by {
        forall v | v in m
          ensures !(u + SEQ_RANGE <= v < base + SEQ_RANGE)
        {
          if u + SEQ_RANGE <= v < base + SEQ_RANGE {
            UnwrapNear(base, v - SEQ_RANGE);
          }
        }
      }
    }
  }

  /** Once a packet is accepted and the queue has stopped at a gap, that packet is still queued, at most 128 ahead, or
      at most 65 numbers behind the gap. */
  lemma AcceptedRecently(a: Win)
    requires Ahead(a, SEQ_RANGE - 1) && |a.pending| <= MAX_QUEUED + 1
    requires a.current in a.pending && a.current <= a.base + HALF_RANGE && Process(a).1.None?
    ensures var w := Process(a).0;
            || w.pending == map[]
            || (w.current in w.pending && w.base < w.current <= w.base + HALF_RANGE)
            || w.base - MAX_QUEUED - 1 <= w.current < w.base
  {
    hide Drain, First;
    ProcessEffect(a);
    SkipEffect(a);
    SkipEffect(Shrink(a));
    DrainEffect(Flush(Shrink(a)));
  }

  /** At most one request is added; it starts at the first missing number, ends before the end of the scan, and asks for
      1 to 128 numbers, as many as are then waited for, exactly when packet `number` is less than 19 numbers behind the
      gap, or ahead of it, with no packet in the slots between. */
  ghost predicate RequestFits(w: Win, w': Win, number: int) {
    w'.requests == w.requests
    || (&& |w'.requests| == |w.requests| + 1 && w'.requests[|w.requests|].seq1 == w'.base % SEQ_RANGE
        && w'.requests[|w.requests|].seq2 == (w'.current - 1) % SEQ_RANGE
        && w'.requests[|w.requests|].pos == w'.inputPos
        && (w'.base - number < MAX_REQUEST_SCAN && NoStale(w'.pending, number, w'.base) <==>
            1 <= w'.resend <= HALF_RANGE && w'.resend == w'.current - w'.base))
  }

  /** A re-send request covers the gap: up to the packet just accepted if that is still queued, else up to the first
      packet after the gap or the end of the scan. */
  lemma RequestExact(w: Win)
    requires Inv(w) && Idle(w) && |Resend(w).requests| > |w.requests|
    requires || (w.current in w.pending && w.base < w.current <= w.base + HALF_RANGE)
             || w.base - MAX_QUEUED - 1 <= w.current < w.base
    ensures var w' := Resend(w);
            && RequestFits(w, w', w.current)
            && (w.base < w.current ==> w'.current == w.current)
            && (w.current < w.base < w'.current ==> forall g :: w.base <= g < w'.current ==> g !in w.pending)
            && (Narrow(w) ==> NoStale(w.pending, w.current, w.base))
  {
    var c := Scan(w.pending, w.base, w.current, w.current + MAX_REQUEST_SCAN);
    if w.current < w.base {
      ScanAfterRelease(w.pending, w.base, w.current);
    } else {
      UnwrapNear(w.base, w.current);
    }
    ResidueNear(c, w.base);
  }

  /** The number under which a datagram that passes the window test is queued. */
  function NumberFor(w: Win, d: Datagram): int
    requires d.Data? || d.Missing?
  {
    if d.Data? then Arrive(w, d.packet).current else Arrive(Jump(w, d), Filler(d)).current
  }

  lemma ReleaseRequest(a: Win)
    requires Ahead(a, SEQ_RANGE - 1) && |a.pending| <= MAX_QUEUED + 1
    requires a.current in a.pending && a.current <= a.base + HALF_RANGE
    requires var (b, r) := Process(a); r.None? && Inv(b) && Idle(b)
    ensures RequestFits(a, Resend(Process(a).0), a.current)
  {
    var b := Process(a).0;
    AcceptedRecently(a);
    ProcessEffect(a);
    if |Resend(b).requests| > |b.requests| {
      RequestExact(b);
    }
  }

  /** So every re-send request of every run fits the packet that triggered it. */
  lemma TurnRequest(w: Win, d: Datagram)
    requires Inv(w) && Idle(w) && Turn(w, d).1.Again?
    ensures (d.Data? || d.Missing?) && RequestFits(w, Turn(w, d).0, NumberFor(w, d))
  {
    hide Process, Resend, Jump, Arrive, RequestFits, Inv;
    match d
    case Data(p) => ArriveRequest(w, p);
    case Missing(_, _, _) => JumpRequest(w, d);
  }

  lemma ArriveRequest(w: Win, p: Packet)
    requires Inv(w) && Idle(w) && InWindow(w, p) && Process(Arrive(w, p)).1.None?
    ensures RequestFits(w, Resend(Process(Arrive(w, p)).0), Arrive(w, p).current)
  {
    hide Process, Resend;
    ArriveKeeps(w, p);
    ReleaseRequest(Arrive(w, p));
  }

  lemma JumpRequest(w: Win, d: Datagram)
    requires Inv(w) && Idle(w) && Accepted(w, d) && Process(Arrive(Jump(w, d), Filler(d))).1.None?
    ensures var a := Arrive(Jump(w, d), Filler(d));
            RequestFits(w, Resend(Process(a).0), a.current)
  {
    hide Process, Resend, Rekey;
    JumpArrives(w, d);
    RekeySize(w.pending, w.base, Jump(w, d).base);
    JumpKeeps(w, d);
    JumpAhead(w, d);
    ReleaseRequest(Arrive(Jump(w, d), Filler(d)));
  }

  lemma JumpAhead(w: Win, d: Datagram)
    requires Inv(w) && Accepted(w, d)
    ensures Ahead(Arrive(Jump(w, d), Filler(d)), SEQ_RANGE - 1)
  {
    hide Unwrap, Arrive, Filler, InWindow, MissingCount;
    JumpArrives(w, d);
  }

  // ---------------------------------------------------------------- no request too early

  function Taken(w: Win): nat {
    |w.log| + w.dropped
  }

  /** From `w` to `w'`, in one link epoch and without a window skip, no new request is made before as many packets
      have left the queue as the last request asked for. */
  ghost predicate Calm(w: Win, w': Win) {
    && w.epoch <= w'.epoch
    && (w.epoch == w'.epoch ==>
          && w.skips <= w'.skips && Taken(w) <= Taken(w')
          && (w.skips == w'.skips && Taken(w') - Taken(w) < w.resend ==>
                w'.requests == w.requests && w'.resend == w.resend - (Taken(w') - Taken(w))))
  }

  lemma {:induction false} DrainCalm(w: Win)
    ensures Calm(w, Drain(w).0)
    decreases |w.pending|
  {
    if w.base in w.pending {
      Smaller(w.pending, w.base);
      if w.pending[w.base].payload == [] {
        DrainCalm(Flush(Pop(w)));
      }
    }
  }

  lemma QueuedCalm(w: Win, p: Packet)
    ensures Calm(w, Queued(w, p).0)
  {
    hide Process, Scan;
    ProcessCalm(Arrive(w, p));
  }

  lemma ProcessCalm(w: Win)
    ensures Calm(w, Process(w).0)
  {
    hide Drain, First;
    DrainCalm(Flush(Shrink(w)));
  }

  lemma TurnCalm(w: Win, d: Datagram)
    ensures Calm(w, Turn(w, d).0)
  {
    match d
    case Data(p) => QueuedCalm(w, p);
    case Missing(_, _, _) => QueuedCalm(Jump(w, d), Filler(d));
    case _ =>
  }

  lemma {:induction false} ReadCalm(w: Win, inbox: seq<Datagram>)
    ensures Calm(w, Read(w, inbox).0)
    decreases |inbox|
  {
    hide Process, Turn;
    ProcessCalm(w);
    var (w', r) := Process(w);
    if r.None? && inbox != [] {
      TurnCalm(w', inbox[0]);
      if Turn(w', inbox[0]).1.Again? {
        ReadCalm(Turn(w', inbox[0]).0, inbox[1..]);
      }
    }
  }

  lemma {:induction false} RunCalm(w: Win, calls: seq<seq<Datagram>>)
    ensures Calm(w, Run(w, calls))
    decreases |calls|
  {
    if calls != [] {
      ReadCalm(w, calls[0]);
      RunCalm(Read(w, calls[0]).0, calls[1..]);
    }
  }
}
