/** The receive queue as it is kept: 256 slots, one per sequence byte, and counters modulo 256. Every method computes
    what `UdpWindow` says over unbounded numbers. */
module UdpLinks {
  import opened Options
  import opened UdpWindow
  import opened UdpOrder
  import opened UdpRuns

  function NextSeq(s: nat): (r: nat)
    ensures r < SEQ_RANGE
  {
    (s + 1) % SEQ_RANGE
  }

  /** Slot `i` holds the pending packet whose number, seen from `base`, is `i` modulo 256. */
  ghost predicate SlotRight(q: seq<Option<Packet>>, m: map<int, Packet>, base: int, i: nat)
    requires |q| == SEQ_RANGE && i < SEQ_RANGE
  {
    var u := Unwrap(base, i);
    if u in m then q[i] == Some(m[u]) else q[i] == None
  }

  ghost predicate Slots(q: seq<Option<Packet>>, m: map<int, Packet>, base: int) {
    && |q| == SEQ_RANGE
    && (forall u :: u in m ==> base <= u < base + SEQ_RANGE)
    && forall i :: 0 <= i < SEQ_RANGE ==> SlotRight(q, m, base, i)
  }

  lemma InReach(q: seq<Option<Packet>>, m: map<int, Packet>, base: int)
    requires Slots(q, m, base)
    ensures forall u :: u in m ==> base <= u < base + SEQ_RANGE
  {}

  lemma UnwrapUnique(base: int, i: int, u: int)
    requires base <= u < base + SEQ_RANGE && u % SEQ_RANGE == i
    ensures Unwrap(base, i) == u
  {}

  lemma SlotOf(q: seq<Option<Packet>>, m: map<int, Packet>, base: int, u: int)
    requires Slots(q, m, base) && base <= u < base + SEQ_RANGE
    ensures q[u % SEQ_RANGE] == if u in m then Some(m[u]) else None
  {
    assert SlotRight(q, m, base, u % SEQ_RANGE);
    UnwrapUnique(base, u % SEQ_RANGE, u);
  }

  /** The slots mean the same from any base that leaves the packets within reach. */
  lemma Rebase(q: seq<Option<Packet>>, m: map<int, Packet>, base: int, b: int)
    requires Slots(q, m, base)
    requires forall u :: u in m ==> b <= u < b + SEQ_RANGE
    ensures Slots(q, m, b)
  {
    forall i | 0 <= i < SEQ_RANGE
      ensures SlotRight(q, m, b, i)
    {
      assert SlotRight(q, m, base, i);
      var u, v := Unwrap(base, i), Unwrap(b, i);
      if u in m {
        UnwrapUnique(b, i, u);
      } else if v in m {
        UnwrapUnique(base, i, v);
      }
    }
  }

  /** Seen from any other base, the slots hold the same packets under the numbers that go with that base. */
  lemma RekeySlots(q: seq<Option<Packet>>, m: map<int, Packet>, base: int, b: int)
    requires Slots(q, m, base)
    ensures Slots(q, Rekey(m, base, b), b)
  {
    hide Unwrap;
    var r := Rekey(m, base, b);
    forall i | 0 <= i < SEQ_RANGE
      ensures SlotRight(q, r, b, i)
    {
      assert SlotRight(q, m, base, i);
      SameNumber(base, b, Unwrap(base, i), Unwrap(b, i));
    }
  }

  lemma PutSlot(q: seq<Option<Packet>>, m: map<int, Packet>, base: int, u: int, p: Packet)
    requires Slots(q, m, base) && base <= u < base + SEQ_RANGE
    ensures Slots(q[u % SEQ_RANGE := Some(p)], m[u := p], base)
  {
    var q', m' := q[u % SEQ_RANGE := Some(p)], m[u := p];
    UnwrapUnique(base, u % SEQ_RANGE, u);
    forall i | 0 <= i < SEQ_RANGE
      ensures SlotRight(q', m', base, i)
    {
      assert SlotRight(q, m, base, i);
    }
  }

  lemma ClearSlot(q: seq<Option<Packet>>, m: map<int, Packet>, base: int)
    requires Slots(q, m, base)
    ensures Slots(q[base % SEQ_RANGE := None], m - {base}, base + 1)
  {
    var q', m' := q[base % SEQ_RANGE := None], m - {base};
    forall i | 0 <= i < SEQ_RANGE
      ensures SlotRight(q', m', base, i)
    {
      assert SlotRight(q, m, base, i);
    }
    Rebase(q', m', base, base + 1);
  }

  ghost function Occupied(q: seq<Option<Packet>>): set<int> {
    set i | 0 <= i < |q| && q[i].Some?
  }

  /** The counter the link keeps, the number of pending packets, is the number of occupied slots. */
  lemma {:induction false} OccupiedCount(q: seq<Option<Packet>>, m: map<int, Packet>, base: int)
    requires Slots(q, m, base)
    ensures |Occupied(q)| == |m|
    decreases |m|
  {
    Inhabited(m);
    if u :| u in m {
      var i := u % SEQ_RANGE;
      var q', m' := q[i := None], m - {u};
      SlotOf(q, m, base, u);
      Smaller(m, u);
      forall k | 0 <= k < SEQ_RANGE
        ensures SlotRight(q', m', base, k)
      {
        assert SlotRight(q, m, base, k);
      }
      OccupiedCount(q', m', base);
      assert Occupied(q') == Occupied(q) - {i};
    } else {
      forall i | 0 <= i < SEQ_RANGE
        ensures q[i].None?
      {
        assert SlotRight(q, m, base, i);
      }
      assert Occupied(q) == {};
    }
  }

  class UdpLink {
    const queue: array<Option<Packet>>
    var queued: nat
    var nextSeq: nat
    var currentSeq: nat
    var isPadding: bool
    var receivedFrames: int
    var resendRequested: nat
    var queueInputPos: nat
    var missedFrames: int

    /** The same link over unbounded numbers. */
    ghost var win: Win

    ghost predicate Coupled()
      reads this, queue
    {
      && queue.Length == SEQ_RANGE
      && Slots(queue[..], win.pending, win.base)
      && queued == |win.pending|
      && nextSeq == win.base % SEQ_RANGE && currentSeq == win.current % SEQ_RANGE
      && isPadding == win.padding && (receivedFrames == -1 <==> !win.started)
      && resendRequested == win.resend && queueInputPos == win.inputPos && missedFrames == win.missed
    }

    constructor ()
      ensures Coupled() && win == Fresh(0) && Inv(win)
      ensures fresh(queue)
    {
      queue := new Option<Packet>[SEQ_RANGE](_ => None);
      queued, nextSeq, currentSeq, isPadding, receivedFrames := 0, 0, 0, false, -1;
      resendRequested, queueInputPos, missedFrames := 0, 0, 0;
      win := Fresh(0);
    }

    /** Free every queued packet and start over. */
    method Reset()
      requires queue.Length == SEQ_RANGE
      modifies this, queue
      ensures Coupled() && win == Fresh(old(win.epoch) + 1)
    {
      for i := 0 to SEQ_RANGE
        invariant forall k :: 0 <= k < i ==> queue[k] == None
        invariant win == old(win)
      {
        queue[i] := None;
      }
      queued, nextSeq, currentSeq, isPadding, receivedFrames := 0, 0, 0, false, -1;
      resendRequested, queueInputPos, missedFrames := 0, 0, 0;
      win := Fresh(win.epoch + 1);
      assert forall i :: 0 <= i < SEQ_RANGE ==> SlotRight(queue[..], win.pending, win.base, i);
    }

    /** Move to the next occupied slot, counting the empty ones as missed. */
    method SkipMissing()
      requires Coupled() && win.pending != map[]
      modifies this
      ensures Coupled() && win == Skip(old(win))
    {
      SkipEffect(win);
      ghost var s := Skip(win);
      Rebase(queue[..], win.pending, win.base, s.base);
      Walk(queue[..], s.base);
      win := s;
    }

    /** Walk over empty slots up to the next occupied one, which is that of number `top`. */
    method Walk(ghost q: seq<Option<Packet>>, ghost top: int)
      requires queue.Length == SEQ_RANGE && q == queue[..] && Slots(q, win.pending, win.base)
      requires nextSeq == win.base % SEQ_RANGE && win.base <= top < win.base + SEQ_RANGE && top in win.pending
      requires forall u :: win.base <= u < top ==> u !in win.pending
      modifies `nextSeq, `missedFrames
      ensures nextSeq == top % SEQ_RANGE && missedFrames == old(missedFrames) + (top - win.base)
    {
      hide Slots;
      ghost var b := win.base;
      SlotOf(q, win.pending, win.base, b);
      while queue[nextSeq].None?
        invariant win.base <= b <= top
        invariant nextSeq == b % SEQ_RANGE && missedFrames == old(missedFrames) + (b - win.base)
        invariant queue[nextSeq].None? <==> b !in win.pending
        decreases top - b
      {
        NextResidue(b);
        nextSeq := NextSeq(nextSeq);
        missedFrames := missedFrames + 1;
        b := b + 1;
        SlotOf(q, win.pending, win.base, b);
      }
    }

    /** Take the packet at the head of the window. */
    method TakeHead() returns (p: Packet)
      requires Coupled() && win.base in win.pending
      modifies this, queue
      ensures Coupled() && p == old(win.pending[win.base]) && win == Pop(old(win))
    {
      SlotOf(queue[..], win.pending, win.base, win.base);
      ClearSlot(queue[..], win.pending, win.base);
      Smaller(win.pending, win.base);
      p := queue[nextSeq].value;
      queueInputPos := p.pos + |p.payload|;
      queue[nextSeq] := None;
      queued := queued - 1;
      nextSeq := NextSeq(nextSeq);
      if resendRequested > 0 {
        resendRequested := resendRequested - 1;
      }
      win := Pop(win);
    }

    /** Skip missing packets when too many others are queued. */
    method ShrinkWindow()
      requires Coupled()
      modifies this
      ensures Coupled() && win == Shrink(old(win))
    {
      if queued > SEQ_RANGE / 4 {
        SkipMissing();
        resendRequested := 0;
        win := win.(resend := 0, skips := win.skips + 1);
      }
    }

    /** udp_process_queue */
    method ProcessQueue() returns (r: Option<Packet>)
      requires Coupled()
      modifies this, queue
      ensures Coupled() && (win, r) == Process(old(win))
    {
      hide Slots;
      if queued <= 0 {
        return None;
      }
      ShrinkWindow();
      if isPadding && queued > 0 {
        SkipMissing();
      }
      SlotOf(queue[..], win.pending, win.base, win.base);
      while queued > 0 && queue[nextSeq].Some?
        invariant Coupled() && Drain(win) == Process(old(win))
        invariant queue[nextSeq].Some? <==> win.base in win.pending
        decreases queued
      {
        var p := TakeHead();
        if isPadding && queued > 0 {
          SkipMissing();
        }
        if p.payload != [] {
          return Some(p);
        }
        SlotOf(queue[..], win.pending, win.base, win.base);
      }
      r := None;
    }

    /** Move the last received number on to the next occupied slot, 19 slots at most. */
    method ScanGap()
      requires Coupled()
      modifies `currentSeq
      ensures currentSeq == Scan(win.pending, win.base, win.current, win.current + MAX_REQUEST_SCAN) % SEQ_RANGE
    {
      hide Slots, Scan, Unwrap;
      ghost var c := win.current;
      ghost var top := c + MAX_REQUEST_SCAN;
      var maxReq := 20;
      SlotAt(queue[..], win.pending, win.base, c);
      while queue[currentSeq].None? && maxReq - 1 > 0
        invariant 0 < maxReq && c + maxReq - 1 == top && currentSeq == c % SEQ_RANGE
        invariant Scan(win.pending, win.base, c, top) == Scan(win.pending, win.base, win.current, top)
        invariant queue[currentSeq].Some? <==> Unwrap(win.base, c) in win.pending
        decreases maxReq
      {
        NextResidue(c);
        ScanNext(win.pending, win.base, c, top);
        maxReq := maxReq - 1;
        currentSeq := NextSeq(currentSeq);
        c := c + 1;
        SlotAt(queue[..], win.pending, win.base, c);
      }
      ScanDone(win.pending, win.base, c, top);
    }

    /** udp_process_resend. Gives back the request sent, if any. */
    method ProcessResend() returns (request: Option<Request>)
      requires Coupled()
      modifies `currentSeq, `resendRequested, `win
      ensures Coupled() && win == Resend(old(win))
      ensures win.requests == old(win.requests) + if request.Some? then [request.value] else []
    {
      hide Slots, Scan;
      request := None;
      if resendRequested > 0 {
        return;
      }
      NextResidue(win.current);
      SameByte(win.current + 1, win.base);
      if NextSeq(currentSeq) != nextSeq && queued > 0 {
        ghost var w := Resend(win);
        ResendIs(win);
        ScanGap();
        ResidueBefore(w.current);
        Distance(w.current, win.base);
        request := Some(Request(nextSeq, (currentSeq + SEQ_RANGE - 1) % SEQ_RANGE, queueInputPos));
        resendRequested := (currentSeq + SEQ_RANGE - nextSeq) % SEQ_RANGE;
        win := w;
      }
    }

    /** The first received packet starts the numbering. */
    method StartWith(p: Packet)
      requires Coupled() && (!win.started ==> win.pending == map[])
      modifies this
      ensures Coupled() && win == Started(old(win), p).(current := p.num, padding := p.padding)
      ensures (currentSeq + SEQ_RANGE - nextSeq) % SEQ_RANGE == (p.num - win.base) % SEQ_RANGE
    {
      currentSeq := p.num % SEQ_RANGE;
      isPadding := p.padding;
      if receivedFrames == -1 {
        Rebase(queue[..], win.pending, win.base, p.num);
        nextSeq := currentSeq;
        receivedFrames := 0;
      }
      win := Started(win, p).(current := p.num, padding := p.padding);
      Distance(p.num, win.base);
    }

    /** Put a packet into its slot, replacing a duplicate. */
    method Insert(p: Packet)
      requires Coupled() && win.current == p.num
      modifies this, queue
      ensures Coupled()
      ensures var u := Unwrap(old(win.base), p.num);
              win == old(win).(current := u, pending := old(win.pending)[u := p])
    {
      ghost var u := Unwrap(win.base, p.num);
      SlotOf(queue[..], win.pending, win.base, u);
      PutSlot(queue[..], win.pending, win.base, u, p);
      if queue[currentSeq].Some? {
        queued := queued - 1;
      }
      queue[currentSeq] := Some(p);
      queued := queued + 1;
      win := win.(current := u, pending := win.pending[u := p]);
    }

    /** Queue a packet, or reset the link if it lies outside the window. */
    method Enqueue(p: Packet) returns (ok: bool)
      requires Coupled() && (!win.started ==> win.pending == map[])
      modifies this, queue
      ensures Coupled() && ok == InWindow(old(win), p) && win == Arrive(old(win), p)
    {
      StartWith(p);
      ok := (currentSeq + SEQ_RANGE - nextSeq) % SEQ_RANGE <= HALF_RANGE;
      if ok {
        Insert(p);
      } else {
        Reset();
      }
    }

    /** Move past the numbers a UDP MISSING message gives up. */
    method JumpOver(ghost d: Datagram, seq1: int, seq2: int)
      requires d.Missing? && d.seq1 == seq1 && d.seq2 == seq2
      requires Coupled() && Accepted(win, d)
      modifies this
      ensures Coupled() && win == Jump(old(win), d)
      ensures nextSeq == seq2 % SEQ_RANGE
    {
      hide Slots, Rekey, Unwrap;
      var n := (seq2 + 1 - seq1) % SEQ_RANGE;
      InReach(queue[..], win.pending, win.base);
      JumpResidue(win.base, seq2);
      RekeySlots(queue[..], win.pending, win.base, Jump(win, d).base);
      RekeySize(win.pending, win.base, Jump(win, d).base);
      missedFrames := missedFrames + n;
      nextSeq := seq2 % SEQ_RANGE;
      win := Jump(win, d);
    }

    /** vdr_plugin_read_block_udp: hand on a queued packet, or read the socket until there is one, nothing is left, or
        a datagram ends the call. */
    method ReadBlock(inbox: seq<Datagram>) returns (r: Option<Packet>, rest: seq<Datagram>)
      requires Coupled() && Inv(win)
      modifies this, queue
      ensures Coupled() && Inv(win)
      ensures (win, r, rest) == Read(old(win), inbox)
    {
      hide Slots, Process;
      rest := inbox;
      while true
        invariant Coupled() && Inv(win)
        invariant Read(win, rest) == Read(old(win), inbox)
        decreases |rest|
      {
        ProcessKeeps(win, win.base);
        r := ProcessQueue();
        if r.Some? || rest == [] {
          return;
        }
        var d := rest[0];
        rest := rest[1..];
        TurnKeeps(win, d);
        var p: Packet;
        match d {
          case Data(q) =>
            p := q;
          case Missing(seq1, seq2, rpos) =>
            if seq1 != nextSeq {
              return;
            }
            JumpOver(d, seq1, seq2);
            p := Packet(seq2 % SEQ_RANGE, rpos, [], false);
          case _ =>
            return;
        }
        var ok := Enqueue(p);
        if !ok {
          return;
        }
        r := ProcessQueue();
        if r.Some? {
          return;
        }
        var _ := ProcessResend();
      }
    }
  }

  lemma ResendIs(w: Win)
    requires w.resend == 0 && (w.current + 1 - w.base) % SEQ_RANGE != 0 && w.pending != map[]
    ensures var c := Scan(w.pending, w.base, w.current, w.current + MAX_REQUEST_SCAN);
            Resend(w) == w.(
              current := c, resend := (c - w.base) % SEQ_RANGE,
              requests := w.requests + [Request(w.base % SEQ_RANGE, (c - 1) % SEQ_RANGE, w.inputPos)])
  {}

  lemma NextResidue(c: int)
    ensures NextSeq(c % SEQ_RANGE) == (c + 1) % SEQ_RANGE
  {}

  lemma Distance(a: int, b: int)
    ensures (a % SEQ_RANGE + SEQ_RANGE - b % SEQ_RANGE) % SEQ_RANGE == (a - b) % SEQ_RANGE
  {}

  lemma SameByte(a: int, b: int)
    ensures a % SEQ_RANGE == b % SEQ_RANGE <==> (a - b) % SEQ_RANGE == 0
  {}

  lemma ResidueBefore(a: int)
    ensures (a % SEQ_RANGE + SEQ_RANGE - 1) % SEQ_RANGE == (a - 1) % SEQ_RANGE
  {}

  lemma SlotAt(q: seq<Option<Packet>>, m: map<int, Packet>, base: int, c: int)
    requires Slots(q, m, base)
    ensures q[c % SEQ_RANGE].Some? <==> Unwrap(base, c) in m
  {
    SlotOf(q, m, base, Unwrap(base, c));
  }
}
