/** A run from link start that ends in a malformed re-send request: the packet that fills a gap lets twenty others out,
    so that it is 21 numbers behind the next gap. */
module UdpLate {
  import opened Options
  import opened UdpWindow
  import opened UdpOrder
  import opened UdpRuns
  import opened UdpExamples

  /** A packet with a header only. */
  function Empty(num: int): Packet {
    Packet(num, 0, [], false)
  }

  /** Packets `k` to `n - 1` have been received, number 1 has not. */
  function Waiting(k: int, n: int): map<int, Packet> {
    map u | k <= u < n :: Empty(u)
  }

  function Gap(n: int): Win {
    Win(Waiting(2, n), 1, n - 1, true, false, 1, 0, 0, 0, [], 1, 0, 0, [Request(1, 1, 0)], 0)
  }

  const START: Win := Win(map[], 1, 0, true, false, 0, 0, 0, 0, [], 1, 0, 0, [], 0)

  function Packets(k: int, n: int): seq<Datagram>
    decreases n - k
  {
    if k >= n then [] else [Data(Empty(k))] + Packets(k + 1, n)
  }

  function LateInbox(top: int): seq<Datagram> {
    [Data(Empty(0))] + ([Data(Empty(2))] + (Packets(3, top) + ([Data(Empty(top + 1))] + ([Data(Empty(1))] + []))))
  }

  // ---------------------------------------------------------------- queueing

  /** A header-only packet that arrives where it is expected, in an empty queue. */
  lemma ArriveEmpty(w: Win, p: Packet)
    requires w.pending == map[] && p.payload == [] && !p.padding && p.num == Started(w, p).base
    ensures var b := Started(w, p);
            Turn(w, Data(p)) ==
            (b.(current := p.num, padding := false, base := p.num + 1, inputPos := p.pos,
                resend := if w.resend > 0 then w.resend - 1 else 0, dropped := w.dropped + 1), Again)
  {
    hide Drain, Skip, Process, Scan;
    var a := Arrive(w, p);
    assert a.pending == map[p.num := p] && a.base == p.num;
    assert |a.pending| == 1;
    ProcessFew(a, p.num);
    DrainHead(a);
    assert a.pending - {p.num} == map[];
    assert Flush(Pop(a)) == Pop(a);
    DrainGap(Pop(a));
  }

  lemma First()
    ensures Turn(Fresh(0), Data(Empty(0))) == (START, Again)
  {
    hide Turn;
    ArriveEmpty(Fresh(0), Empty(0));
  }

  lemma {:induction false} WaitingSize(k: int, n: int)
    requires k <= n
    ensures |Waiting(k, n)| == n - k
    decreases n - k
  {
    if k < n {
      WaitingSize(k, n - 1);
      Smaller(Waiting(k, n), n - 1);
      assert Waiting(k, n) - {n - 1} == Waiting(k, n - 1);
    } else {
      assert Waiting(k, n) == map[];
    }
  }

  lemma Second()
    ensures Turn(START, Data(Empty(2))) == (Gap(3), Again)
  {
    hide Drain, Skip, Process, Scan;
    var a := Arrive(START, Empty(2));
    assert a.pending == map[2 := Empty(2)] == Waiting(2, 3);
    WaitingSize(2, 3);
    ProcessFew(a, 2);
    DrainGap(a);
    ScanDone(a.pending, 1, 2, 21);
    assert [] + [Request(1, 1, 0)] == [Request(1, 1, 0)];
    assert Resend(a) == Gap(3);
  }

  lemma Another(n: int)
    requires 3 <= n < 60
    ensures Turn(Gap(n), Data(Empty(n))) == (Gap(n + 1), Again)
  {
    hide Drain, Skip, Process, Scan;
    var a := Arrive(Gap(n), Empty(n));
    UnwrapNear(1, n);
    ResidueNear(n, 1);
    assert a.pending == Waiting(2, n + 1);
    WaitingSize(2, n + 1);
    ProcessFew(a, n);
    DrainGap(a);
    assert Resend(a) == Gap(n + 1);
  }

  lemma {:induction false} Others(k: int, n: int, tail: seq<Datagram>)
    requires 3 <= k <= n < 60
    ensures Read(Gap(k), Packets(k, n) + tail) == Read(Gap(n), tail)
    decreases n - k
  {
    hide Read, Turn;
    if k < n {
      Another(k);
      WaitingSize(2, k);
      ReadTurn(Gap(k), Data(Empty(k)), Packets(k + 1, n) + tail);
      assert Packets(k, n) + tail == [Data(Empty(k))] + (Packets(k + 1, n) + tail);
      Others(k + 1, n, tail);
    } else {
      assert Packets(k, n) + tail == tail;
    }
  }

  // ---------------------------------------------------------------- the late packet

  /** A stretch of header-only packets is dropped up to the next gap. */
  lemma {:induction false} DrainStretch(w: Win, n: int)
    requires w.base <= n && !w.padding && n !in w.pending
    requires forall u :: w.base <= u < n ==> u in w.pending && w.pending[u] == Empty(u)
    ensures var (w', r) := Drain(w);
            && r == None && w'.base == n && w'.current == w.current && w'.requests == w.requests
            && w'.pending == (map u | u in w.pending && !(w.base <= u < n) :: w.pending[u])
            && w'.resend == (if w.resend < n - w.base then 0 else w.resend - (n - w.base))
            && w'.inputPos == if w.base < n then 0 else w.inputPos
    decreases n - w.base
  {
    if w.base == n {
      DrainGap(w);
      assert w.pending == (map u | u in w.pending && !(w.base <= u < n) :: w.pending[u]);
    } else {
      DrainHead(w);
      var w' := Pop(w);
      assert Flush(w') == w';
      DrainStretch(w', n);
      assert (map u | u in w'.pending && !(w'.base <= u < n) :: w'.pending[u]) ==
             (map u | u in w.pending && !(w.base <= u < n) :: w.pending[u]);
    }
  }

  lemma {:induction false} ScanAll(m: map<int, Packet>, base: int, u: int, top: int)
    requires u <= top && forall g :: u <= g < top ==> Unwrap(base, g) !in m
    ensures Scan(m, base, u, top) == top
    decreases top - u
  {
    if u < top {
      ScanAll(m, base, u + 1, top);
    }
  }

  /** Number `n` is missing, `n + 1` is there. */
  function Ahead1(n: int): Win {
    Gap(n).(current := n + 1, pending := Waiting(2, n)[n + 1 := Empty(n + 1)])
  }

  lemma Jumped(n: int)
    requires 3 <= n < 60
    ensures Turn(Gap(n), Data(Empty(n + 1))) == (Ahead1(n), Again)
  {
    hide Drain, Skip, Process, Scan;
    var a := Arrive(Gap(n), Empty(n + 1));
    UnwrapNear(1, n + 1);
    ResidueNear(n + 1, 1);
    WaitingSize(2, n);
    assert a == Ahead1(n) && |a.pending| == n - 1;
    ProcessFew(a, n + 1);
    DrainGap(a);
  }

  lemma Late(n: int)
    requires MAX_REQUEST_SCAN + 1 < n < 60
    ensures var (w, o) := Turn(Ahead1(n), Data(Empty(1)));
            && o == Again && w.requests == [Request(1, 1, 0), Request(n, MAX_REQUEST_SCAN, 0)]
            && w.resend == SEQ_RANGE - (n - MAX_REQUEST_SCAN - 1)
            && w.base !in w.pending && |w.pending| <= 1 && !w.padding
  {
    hide Drain, Skip, Process, Scan, Waiting;
    var a := Arrive(Ahead1(n), Empty(1));
    assert a == Ahead1(n).(current := 1, pending := Ahead1(n).pending[1 := Empty(1)]);
    LateRelease(n, a);
    LateResend(Process(a).0, n);
  }

  lemma LateRelease(n: int, a: Win)
    requires MAX_REQUEST_SCAN + 1 < n < 60
    requires a == Ahead1(n).(current := 1, pending := Ahead1(n).pending[1 := Empty(1)])
    ensures var (w, r) := Process(a);
            && r == None && w.pending == map[n + 1 := Empty(n + 1)] && w.base == n && w.current == 1 && w.resend == 0
            && w.inputPos == 0 && w.requests == [Request(1, 1, 0)] && !w.padding
  {
    hide Drain, Skip, Process, Scan;
    WaitingSize(2, n);
    assert |a.pending| <= n;
    ProcessFew(a, 1);
    DrainStretch(a, n);
    DrainFrame(a);
  }

  lemma {:induction false} DrainFrame(w: Win)
    ensures Drain(w).0.padding == w.padding
    decreases |w.pending|
  {
    if w.base in w.pending {
      Smaller(w.pending, w.base);
      DrainHead(w);
      if w.pending[w.base].payload == [] {
        DrainFrame(Flush(Pop(w)));
      }
    }
  }

  lemma LateResend(w: Win, n: int)
    requires MAX_REQUEST_SCAN + 1 < n < 60
    requires w.pending == map[n + 1 := Empty(n + 1)] && w.base == n && w.current == 1 && w.resend == 0
    requires w.inputPos == 0 && w.requests == [Request(1, 1, 0)]
    ensures var w' := Resend(w);
            && w'.requests == [Request(1, 1, 0), Request(n, MAX_REQUEST_SCAN, 0)]
            && w'.resend == SEQ_RANGE - (n - MAX_REQUEST_SCAN - 1)
            && w'.base == n && w'.pending == w.pending && w'.padding == w.padding
  {
    hide Scan;
    forall g | 1 <= g < MAX_REQUEST_SCAN + 1
      ensures Unwrap(n, g) !in w.pending
    {
      UnwrapNear(n, g);
    }
    ScanAll(w.pending, n, 1, MAX_REQUEST_SCAN + 1);
    ResidueNear(2, n);
    ResidueNear(MAX_REQUEST_SCAN + 1, n);
    ResidueNear(n, 0);
    assert n + 1 in w.pending && n % SEQ_RANGE == n;
    assert [Request(1, 1, 0)] + [Request(n, MAX_REQUEST_SCAN, 0)] ==
        [Request(1, 1, 0), Request(n, MAX_REQUEST_SCAN, 0)];
  }

  lemma GapRests(n: int)
    requires 3 <= n < 60
    ensures Gap(n).base !in Gap(n).pending && |Gap(n).pending| <= MAX_QUEUED
    ensures Ahead1(n).base !in Ahead1(n).pending && |Ahead1(n).pending| <= MAX_QUEUED
  {
    WaitingSize(2, n);
  }

  /** Packets 0 and 2 to `n - 1` arrive, then `n + 1`, then 1. With `n` beyond 20 the second request asks for a range
      that ends before it starts, and so many numbers are waited for that no request follows. */
  lemma LateRequest(n: int)
    requires MAX_REQUEST_SCAN + 1 < n < 60
    ensures var w := Run(Fresh(0), [LateInbox(n)]);
            && w.requests == [Request(1, 1, 0), Request(n, MAX_REQUEST_SCAN, 0)] && MAX_REQUEST_SCAN < n
            && w.resend == SEQ_RANGE - (n - MAX_REQUEST_SCAN - 1) && w.resend > HALF_RANGE
  {
    hide Read, Run, Turn, Process, Waiting;
    var t3: seq<Datagram> := [Data(Empty(1))] + [];
    var t2 := [Data(Empty(n + 1))] + t3;
    var t1 := [Data(Empty(2))] + (Packets(3, n) + t2);
    First();
    ReadTurn(Fresh(0), Data(Empty(0)), t1);
    Second();
    ReadTurn(START, Data(Empty(2)), Packets(3, n) + t2);
    Others(3, n, t2);
    GapRests(n);
    Jumped(n);
    ReadTurn(Gap(n), Data(Empty(n + 1)), t3);
    Late(n);
    ReadTurn(Ahead1(n), Data(Empty(1)), []);
    var w := Turn(Ahead1(n), Data(Empty(1))).0;
    ReadNothing(w);
    var noCalls: seq<seq<Datagram>> := [];
    RunCall(Fresh(0), LateInbox(n), noCalls);
    assert [LateInbox(n)] + noCalls == [LateInbox(n)];
    RunNothing(w);
  }
}
