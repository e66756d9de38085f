/** A run from link start in which the receive queue does not do what it is for. */
module UdpExamples {
  import opened Options
  import opened UdpWindow
  import opened UdpOrder
  import opened UdpRuns

  function Sent(num: int, padding: bool): Packet {
    Packet(num, 0, [7], padding)
  }

  // One step each, said once for any link.

  lemma DrainHead(w: Win)
    requires w.base in w.pending
    ensures Drain(w) ==
            if w.pending[w.base].payload != [] then (Flush(Pop(w)), Some(w.pending[w.base])) else Drain(Flush(Pop(w)))
  {}

  lemma DrainGap(w: Win)
    requires w.base !in w.pending
    ensures Drain(w) == (w, None)
  {}

  lemma SkipTo(w: Win, f: int)
    requires w.base <= f < w.base + SEQ_RANGE && f in w.pending && forall u :: w.base <= u < f ==> u !in w.pending
    ensures Skip(w) == w.(base := f, missed := w.missed + (f - w.base))
  {}

  lemma ProcessFew(w: Win, u: int)
    requires u in w.pending && |w.pending| <= MAX_QUEUED
    ensures Process(w) == Drain(Flush(w))
  {}

  lemma RekeyOne(base: int, b: int, u: int, v: int, p: Packet)
    requires base <= u < base + SEQ_RANGE && b <= v < b + SEQ_RANGE && Unwrap(base, v) == u
    ensures Rekey(map[u := p], base, b) == map[v := p]
  {
    forall x
      ensures x in Rekey(map[u := p], base, b) <==> x == v
    {
      if x in Rekey(map[u := p], base, b) {
        SameNumber(base, b, x, v);
      }
    }
  }

  const P0 := Sent(0, false)
  const P2 := Sent(2, false)
  const P4 := Sent(4, true)
  const LOG0 := [Delivery(0, P0)]
  const LOG1 := LOG0 + [Delivery(4, P4)]
  const LOG2 := LOG1 + [Delivery(258, P2)]
  const ASKED := [Request(1, 1, 1)]

  function W1(): Win { Win(map[], 1, 0, true, false, 0, 1, 0, 0, LOG0, 0, 0, 0, [], 0) }
  function W2(): Win { Win(map[2 := P2], 1, 2, true, false, 1, 1, 0, 0, LOG0, 0, 0, 0, ASKED, 0) }
  function W3(): Win { Win(map[258 := P2], 4, 3, true, false, 0, 0, 3, 0, LOG0, 1, 1, 0, ASKED, 0) }
  function W4(): Win { Win(map[258 := P2], 258, 4, true, true, 0, 1, 256, 0, LOG1, 1, 1, 0, ASKED, 0) }
  function W5(): Win { Win(map[], 259, 4, true, true, 0, 1, 256, 0, LOG2, 1, 1, 0, ASKED, 0) }

  /** A packet with a payload that arrives where it is expected, in an empty queue. */
  lemma ArriveAlone(w: Win, p: Packet)
    requires w.pending == map[] && p.payload != [] && p.num == Started(w, p).base
    ensures var b := Started(w, p);
            Turn(w, Data(p)) ==
            (b.(current := p.num, padding := p.padding, base := p.num + 1, inputPos := p.pos + |p.payload|,
                resend := if w.resend > 0 then w.resend - 1 else 0, log := w.log + [Delivery(p.num, p)]), Deliver(p))
  {
    hide Drain, Skip, Process;
    var a := Arrive(w, p);
    assert a.pending == map[p.num := p] && a.base == p.num;
    assert |a.pending| == 1;
    ProcessFew(a, p.num);
    if a.padding {
      SkipTo(a, p.num);
    }
    assert Flush(a) == a;
    DrainHead(a);
    assert a.pending - {p.num} == map[];
    assert Flush(Pop(a)) == Pop(a);
  }

  /** The first packet of a link. */
  lemma FirstPacket(epoch: nat, p: Packet)
    requires p.payload != [] && p.num == 0
    ensures Turn(Fresh(epoch), Data(p)) ==
            (Win(map[], 1, 0, true, p.padding, 0, p.pos + |p.payload|, 0, 0, [Delivery(0, p)], 0, 0, 0, [], epoch),
             Deliver(p))
  {
    hide Turn;
    ArriveAlone(Fresh(epoch), p);
    assert [] + [Delivery(0, p)] == [Delivery(0, p)];
  }

  lemma Step1()
    ensures Turn(Fresh(0), Data(P0)) == (W1(), Deliver(P0))
  {
    hide Turn, Fresh;
    FirstPacket(0, P0);
  }

  lemma Step2()
    ensures Turn(W1(), Data(P2)) == (W2(), Again)
  {
    hide Drain, Skip, Process, Scan;
    var a := Arrive(W1(), P2);
    assert a == W1().(current := 2, pending := map[2 := P2]);
    assert |a.pending| == 1;
    ProcessFew(a, 2);
    DrainGap(a);
    ScanDone(a.pending, 1, 2, 21);
    assert Resend(a) == W2();
  }

  lemma Step3()
    ensures Turn(W2(), Missing(1, 3, 0)) == (W3(), Again)
  {
    hide Drain, Skip, Process, Scan, Rekey;
    var d := Missing(1, 3, 0);
    RekeyOne(1, 3, 2, 258, P2);
    var j := Jump(W2(), d);
    assert j == W2().(base := 3, pending := map[258 := P2], missed := 3, fillers := 1);
    var a := Arrive(j, Filler(d));
    assert a == j.(current := 3, pending := map[258 := P2, 3 := Filler(d)]);
    assert |a.pending| == 2;
    ProcessFew(a, 3);
    DrainHead(a);
    assert a.pending - {3} == map[258 := P2];
    assert Flush(Pop(a)) == W3();
    DrainGap(W3());
  }

  lemma Step4()
    ensures Turn(W3(), Data(P4)) == (W4(), Deliver(P4))
  {
    hide Drain, Skip, Process;
    var a := Arrive(W3(), P4);
    assert a == W3().(current := 4, padding := true, pending := map[258 := P2, 4 := P4]);
    assert |a.pending| == 2;
    Step4Out(a);
    assert Process(a) == (W4(), Some(P4));
  }

  lemma Step4Out(a: Win)
    requires a == W3().(current := 4, padding := true, pending := map[258 := P2, 4 := P4]) && |a.pending| == 2
    ensures Process(a) == (W4(), Some(P4))
  {
    hide Drain, Skip, Process;
    ProcessFew(a, 4);
    SkipTo(a, 4);
    DrainHead(a);
    assert a.pending - {4} == map[258 := P2];
    SkipTo(Pop(a), 258);
    assert Flush(Pop(a)) == W4();
  }

  lemma Step5()
    ensures Process(W4()) == (W5(), Some(P2))
  {
    hide Drain, Skip, Process;
    assert |W4().pending| == 1;
    ProcessFew(W4(), 258);
    SkipTo(W4(), 258);
    DrainHead(W4());
    assert W4().pending - {258} == map[];
  }

  lemma ReadTurn(w: Win, d: Datagram, rest: seq<Datagram>)
    requires Idle(w)
    ensures var (w', o) := Turn(w, d);
            Read(w, [d] + rest) ==
            match o
            case Deliver(p) => (w', Some(p), rest)
            case NothingNow => (w', None, rest)
            case Again => Read(w', rest)
  {
    hide Turn, Drain;
    Resting(w);
    assert ([d] + rest)[1..] == rest;
  }

  lemma Resting(w: Win)
    requires Idle(w)
    ensures Process(w) == (w, None)
  {}

  lemma RunCall(w: Win, call: seq<Datagram>, rest: seq<seq<Datagram>>)
    ensures Run(w, [call] + rest) == Run(Read(w, call).0, rest)
  {
    assert ([call] + rest)[1..] == rest;
  }

  const C1: seq<Datagram> := [Data(P0)]
  const C2: seq<Datagram> := [Data(P2), Missing(1, 3, 0)]
  const C3: seq<Datagram> := [Data(P4)]

  const STALE_CALLS: seq<seq<Datagram>> := [C1, C2, C3, []]

  /** The first two calls. */
  lemma FirstCalls()
    ensures Read(Fresh(0), C1).0 == W1() && Read(W1(), C2).0 == W3()
  {
    hide Read, Turn;
    var none: seq<Datagram> := [];
    Step1();
    ReadTurn(Fresh(0), Data(P0), none);
    assert [Data(P0)] + none == C1;
    Step2();
    ReadTurn(W1(), Data(P2), [Missing(1, 3, 0)]);
    assert [Data(P2)] + [Missing(1, 3, 0)] == C2;
    Step3();
    assert |W2().pending| == 1;
    ReadTurn(W2(), Missing(1, 3, 0), none);
    assert [Missing(1, 3, 0)] + none == [Missing(1, 3, 0)];
    ReadNothing(W3());
  }

  /** Packet 2 is queued when the sender gives up 1 to 3, and is 254 ahead of the next number expected then: the release
      stops at 4. */
  lemma StaleAhead()
    ensures Run(Fresh(0), [C1, C2]) == W3() && 258 in W3().pending && W3().base == 4
    ensures Narrow(W2()) && !JumpClear(W2(), Missing(1, 3, 0)) && !Narrow(W3())
  {
    hide Read, Run, Turn, Process;
    var noCalls: seq<seq<Datagram>> := [];
    FirstCalls();
    RunCall(Fresh(0), C1, [C2]);
    RunCall(W1(), C2, noCalls);
    RunNothing(W3());
    assert [C1] + [C2] == [C1, C2] && [C2] + noCalls == [C2];
    assert Jump(W2(), Missing(1, 3, 0)).base == 3;
    EndAt(W2().pending, 4, 257);
    assert 2 in W2().pending;
  }

  lemma EndAt(m: map<int, Packet>, u: int, top: int)
    requires u !in m
    ensures ReleaseEnd(m, u, top) == u
  {}

  lemma LastCalls()
    ensures Read(W3(), C3).0 == W4() && Read(W4(), []).0 == W5()
  {
    hide Read, Turn, Process;
    var none: seq<Datagram> := [];
    Step4();
    assert |W3().pending| == 1;
    ReadTurn(W3(), Data(P4), none);
    assert [Data(P4)] + none == C3;
    Step5();
    ReadNothing(W4());
  }

  /** Packet 4 is then handed on before packet 2, and the next number expected goes back to 3. */
  lemma StalePacket()
    ensures var w := Run(Fresh(0), STALE_CALLS);
            && w.log == [Delivery(0, P0), Delivery(4, P4), Delivery(258, P2)] && !SenderOrder(w.log)
            && w.base % SEQ_RANGE == 3
    ensures !PayloadKept(W2(), Missing(1, 3, 0))
  {
    hide Read, Run, Turn, Process;
    var none: seq<Datagram> := [];
    var noCalls: seq<seq<Datagram>> := [];
    FirstCalls();
    LastCalls();
    RunCall(Fresh(0), C1, [C2, C3, none]);
    RunCall(W1(), C2, [C3, none]);
    RunCall(W3(), C3, [none]);
    RunCall(W4(), none, noCalls);
    RunNothing(W5());
    assert STALE_CALLS == [C1] + [C2, C3, none];
    assert [C2, C3, none] == [C2] + [C3, none] && [C3, none] == [C3] + [none] && [none] == [none] + noCalls;
    var log := LOG2;
    assert log[1].packet.num == 4 && log[2].packet.num == 2;
    assert Jump(W2(), Missing(1, 3, 0)).base == 3 && 2 in W2().pending;
  }

  lemma ReadNothing(w: Win)
    ensures Read(w, []).0 == Process(w).0
    ensures Idle(w) ==> Read(w, []) == (w, None, [])
  {
    if Idle(w) {
      Resting(w);
    }
  }

  lemma RunNothing(w: Win)
    ensures Run(w, []) == w
  {}
}
