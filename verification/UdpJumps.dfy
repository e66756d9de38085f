/** Why a UDP MISSING must not pass over a queued packet with a payload: its slot then stands for a number 256 higher,
    and the packet can come out after younger ones. */
module UdpJumps {
  import opened Options
  import opened UdpWindow
  import opened UdpOrder
  import opened UdpRuns

  lemma {:induction false} RunRun(w: Win, a: seq<seq<Datagram>>, b: seq<seq<Datagram>>)
    ensures Run(w, a + b) == Run(Run(w, a), b)
    ensures FairRun(w, a, TrueNumbering) && FairRun(Run(w, a), b, TrueNumbering) ==> FairRun(w, a + b, TrueNumbering)
    decreases |a|
  {
    if a == [] {
      assert a + b == b;
    } else {
      assert (a + b)[1..] == a[1..] + b;
      RunRun(Read(w, a[0]).0, a[1..], b);
    }
  }

  /** A release without skipping does not get past an empty slot. */
  lemma {:induction false} DrainStops(w: Win, gap: int)
    requires Ahead(w, SEQ_RANGE - 1) && !w.padding && w.base <= gap && gap !in w.pending
    ensures Drain(w).0.base <= gap
    decreases |w.pending|
  {
    if w.base in w.pending {
      PopEffect(w);
      if w.pending[w.base].payload == [] {
        DrainStops(Pop(w), gap);
      }
    }
  }

  lemma ProcessStops(w: Win, gap: int)
    requires Ahead(w, SEQ_RANGE - 1) && !w.padding && w.base <= gap && gap !in w.pending
    requires |w.pending| <= MAX_QUEUED || w.base in w.pending
    ensures Process(w).0.base <= gap
  {
    hide Drain;
    if w.pending != map[] {
      DrainStops(Shrink(w), gap);
    }
  }

  /** Before the empty slot at `gap`, with packet `v` queued beyond it. */
  ghost predicate Beyond(w: Win, gap: int, v: int, p: Packet) {
    && Inv(w) && !w.padding && |w.pending| <= MAX_QUEUED
    && w.base <= gap < v && gap !in w.pending && v in w.pending && w.pending[v] == p
  }

  /** Calls that find nothing new to read hand on what is ready. */
  lemma {:induction false} Settle(w: Win, gap: int, v: int, p: Packet) returns (calls: seq<seq<Datagram>>)
    requires Beyond(w, gap, v, p)
    ensures FairRun(w, calls, TrueNumbering)
    ensures var w' := Run(w, calls);
            Beyond(w', gap, v, p) && w'.base !in w'.pending && w.base <= w'.base
    decreases |w.pending|
  {
    if w.base !in w.pending {
      calls := [];
    } else {
      SettleStep(w, gap, v, p);
      var rest := Settle(Read(w, []).0, gap, v, p);
      calls := [[]] + rest;
      assert calls[1..] == rest;
    }
  }

  lemma SettleStep(w: Win, gap: int, v: int, p: Packet)
    requires Beyond(w, gap, v, p) && w.base in w.pending
    ensures var w' := Read(w, []).0;
            Beyond(w', gap, v, p) && w.base <= w'.base && |w'.pending| < |w.pending|
  {
    hide Process;
    ProcessKeeps(w, w.base);
    ProcessEffect(w);
    ProcessStops(w, gap);
    RestSmaller(w.pending, Process(w).0.base);
  }

  /** A padding packet with the next expected number. */
  function Newcomer(w: Win): Packet {
    Packet(w.base, 0, [0], true)
  }

  /** The next expected packet arrives and is handed on at once. */
  lemma Deliver(w: Win, gap: int, v: int, p: Packet)
    requires Beyond(w, gap, v, p) && w.base !in w.pending
    ensures FairRun(w, [[Data(Newcomer(w))]], TrueNumbering)
    ensures var w' := Run(w, [[Data(Newcomer(w))]]);
            && Inv(w') && w'.padding && v in w'.pending && w'.pending[v] == p
            && w'.log == w.log + [Delivery(w.base, Newcomer(w))]
  {
    hide Process, Arrive, InWindow, Read, First;
    var q := Newcomer(w);
    NewcomerArrives(w);
    var a := Arrive(w, q);
    ReleaseHead(a, q);
    ProcessEffect(a);
    assert Process(a).0.log[|w.log|].number == w.base;
    assert v in a.pending && Process(a).0.base <= v;
    ReadOne(w, q);
    ReadKeeps(w, [Data(q)]);
  }

  lemma NewcomerArrives(w: Win)
    requires w.started
    ensures InWindow(w, Newcomer(w))
    ensures Arrive(w, Newcomer(w)) ==
        w.(current := w.base, padding := true, pending := w.pending[w.base := Newcomer(w)])
  {}

  /** One packet is read, queued, and handed on. */
  lemma ReadOne(w: Win, q: Packet)
    requires w.base !in w.pending && |w.pending| <= MAX_QUEUED && !w.padding
    requires InWindow(w, q) && Process(Arrive(w, q)).1 == Some(q) && PayloadKept(w, Data(q)) && Near(w, Data(q))
    ensures FairRun(w, [[Data(q)]], TrueNumbering) && Run(w, [[Data(q)]]) == Process(Arrive(w, q)).0
    ensures Read(w, [Data(q)]).0 == Process(Arrive(w, q)).0
  {
    var inbox: seq<Datagram> := [Data(q)];
    assert Process(w) == (w, None);
    hide Process, Arrive;
    assert Turn(w, inbox[0]).0 == Process(Arrive(w, q)).0 && Turn(w, inbox[0]).1 == UdpWindow.Deliver(q);
    assert |[inbox][1..]| == 0;
  }

  lemma ReleaseHead(a: Win, q: Packet)
    requires a.base in a.pending && a.pending[a.base] == q && q.payload != []
    ensures Process(a).1 == Some(q) && Process(a).0.log == a.log + [Delivery(a.base, q)]
  {
    assert First(a.pending, a.base, a.base + SEQ_RANGE) == a.base;
  }

  /** After padding every queued packet comes out. */
  lemma {:induction false} FlushOut(w: Win, v: int) returns (calls: seq<seq<Datagram>>)
    requires Inv(w) && w.padding && v in w.pending && w.pending[v].payload != []
    ensures FairRun(w, calls, TrueNumbering)
    ensures var log := Run(w, calls).log;
            |w.log| < |log| && log[..|w.log|] == w.log && log[|log| - 1] == Delivery(v, w.pending[v])
    decreases |w.pending|
  {
    hide Inv, Process, Read;
    var w' := Read(w, []).0;
    FlushStep(w, v);
    if w'.log[|w.log|].number == v {
      calls := [[]];
      assert calls[1..] == [];
    } else {
      var rest := FlushOut(w', v);
      calls := [[]] + rest;
      assert calls[1..] == rest;
      var log := Run(w', rest).log;
      assert log[..|w.log|] == log[..|w'.log|][..|w.log|];
    }
  }

  lemma FlushStep(w: Win, v: int)
    requires Inv(w) && w.padding && v in w.pending && w.pending[v].payload != []
    ensures var w' := Read(w, []).0;
            && Inv(w') && w'.padding && |w'.log| == |w.log| + 1 && w'.log[..|w.log|] == w.log
            && (w'.log[|w.log|] == Delivery(v, w.pending[v])
                || (&& w'.log[|w.log|].number != v && v in w'.pending && w'.pending[v] == w.pending[v]
                    && |w'.pending| < |w.pending|))
  {
    hide Process;
    ProcessKeeps(w, w.base);
    ProcessEffect(w);
    var (w', r) := Process(w);
    RestSmaller(w.pending, w'.base);
    assert v < w'.base || v in w'.pending;
    if r.None? {
      assert false;
    }
    var last := w'.log[|w.log|];
    assert last.number in w.pending && w.pending[last.number] == last.packet;
    if last.number != v {
      assert v in w'.pending;
    }
  }

  lemma RekeyMoved(m: map<int, Packet>, base: int, b: int, u: int)
    requires base !in m && u in m && base < u < b < base + SEQ_RANGE
    ensures var r := Rekey(m, base, b);
            && u + SEQ_RANGE in r && r[u + SEQ_RANGE] == m[u] && base + SEQ_RANGE !in r
  {
    UnwrapNear(base, u);
    assert Unwrap(base, u + SEQ_RANGE) == u && Unwrap(base, base + SEQ_RANGE) == base;
  }

  /** A packet passed over is left in the queue, beyond an empty slot. */
  lemma JumpLeaves(w: Win, d: Datagram, u: int)
    requires Inv(w) && Idle(w) && Accepted(w, d) && u in w.pending && u < Jump(w, d).base
    ensures var w' := Turn(w, d).0;
            Beyond(w', w.base + SEQ_RANGE, u + SEQ_RANGE, w.pending[u]) && u < w'.base
  {
    hide Process, Scan, Rekey, Arrive, InWindow;
    var j, gap := Jump(w, d), w.base + SEQ_RANGE;
    var a := Arrive(j, Filler(d));
    JumpArrives(w, d);
    RekeyMoved(w.pending, w.base, j.base, u);
    RekeySize(w.pending, w.base, j.base);
    JumpAhead(w, d);
    ProcessEffect(a);
    ProcessStops(a, gap);
    RestSmaller(a.pending, Process(a).0.base);
    TurnKeeps(w, d);
  }

  /** A UDP MISSING is harmless to the sender's order in every run that follows, as long as the sender keeps its promise
      there, exactly if it passes over no queued packet with a payload. */
  lemma JumpDecides(w: Win, d: Datagram)
    requires Inv(w) && Idle(w) && TrueNumbers(w) && Accepted(w, d)
    ensures PayloadKept(w, d) <==>
            forall calls :: FairRun(Turn(w, d).0, calls, TrueNumbering) ==> SenderOrder(Run(Turn(w, d).0, calls).log)
  {
    if PayloadKept(w, d) {
      TurnKeeps(w, d);
      TurnTrue(w, d);
      forall calls | FairRun(Turn(w, d).0, calls, TrueNumbering)
        ensures SenderOrder(Run(Turn(w, d).0, calls).log)
      {
        RunTrue(Turn(w, d).0, calls);
      }
    } else {
      var u :| u in w.pending && w.pending[u].payload != [] && u < Jump(w, d).base;
      var calls := OutOfOrder(w, d, u);
    }
  }

  /** A run in which packet `u`, passed over, comes out after a younger one. */
  lemma OutOfOrder(w: Win, d: Datagram, u: int) returns (calls: seq<seq<Datagram>>)
    requires Inv(w) && Idle(w) && TrueNumbers(w) && Accepted(w, d)
    requires u in w.pending && w.pending[u].payload != [] && u < Jump(w, d).base
    ensures FairRun(Turn(w, d).0, calls, TrueNumbering) && !SenderOrder(Run(Turn(w, d).0, calls).log)
  {
    hide Turn, Inv, Run, FairRun;
    var w1, gap, v, p := Turn(w, d).0, w.base + SEQ_RANGE, u + SEQ_RANGE, w.pending[u];
    JumpLeaves(w, d, u);
    var a := Settle(w1, gap, v, p);
    var w2 := Run(w1, a);
    var b := [[Data(Newcomer(w2))]];
    Deliver(w2, gap, v, p);
    var w3 := Run(w2, b);
    var c := FlushOut(w3, v);
    calls := a + (b + c);
    RunRun(w1, a, b + c);
    RunRun(w2, b, c);
    var log := Run(w3, c).log;
    assert log[|w2.log|] == log[..|w3.log|][|w2.log|] == Delivery(w2.base, Newcomer(w2));
    assert log[|log| - 1].packet.num == u < w2.base;
  }
}
