/** What the caller is given, what an accepted UDP MISSING gives up, and from where a re-send is asked for. */
module UdpReads {
  import opened Options
  import opened UdpWindow
  import opened UdpOrder
  import opened UdpRuns
  import opened UdpExamples
  import opened UdpResets

  // ---------------------------------------------------------------- what is returned is what is logged

  /** `r` is what was handed on between `w` and `w'`, of one link epoch. */
  ghost predicate Gives(w: Win, w': Win, r: Option<Packet>) {
    if r.Some? then |w'.log| == |w.log| + 1 && w'.log[..|w.log|] == w.log && w'.log[|w.log|].packet == r.value
    else w'.log == w.log
  }

  function Handed(o: Outcome): Option<Packet> {
    if o.Deliver? then Some(o.packet) else None
  }

  lemma QueuedGives(w: Win, p: Packet)
    requires InWindow(w, p) && Ahead(Arrive(w, p), SEQ_RANGE - 1) && |Arrive(w, p).pending| <= MAX_QUEUED + 1
    ensures Gives(w, Queued(w, p).0, Handed(Queued(w, p).1))
  {
    hide Process, Resend;
    ProcessEffect(Arrive(w, p));
    var (w', r) := Process(Arrive(w, p));
    ResendGives(w');
    assert r.Some? || r.None?;
  }

  lemma ResendGives(w: Win)
    ensures Resend(w).log == w.log
  {}

  lemma TurnGives(w: Win, d: Datagram)
    requires Inv(w) && Idle(w) && !Outside(w, d)
    ensures Gives(w, Turn(w, d).0, Handed(Turn(w, d).1))
  {
    hide Queued, Rekey, Unwrap;
    match d
    case Data(p) => QueuedGives(w, p);
    case Missing(_, _, _) =>
      if Accepted(w, d) {
        JumpArrives(w, d);
        RekeySize(w.pending, w.base, Jump(w, d).base);
        JumpAhead(w, d);
        QueuedGives(Jump(w, d), Filler(d));
      }
    case _ =>
  }

  /** A call returns the packet that it logs, reads on only while it has none, and leaves the rest of the datagrams;
      only a reset, which returns nothing, clears the log. */
  lemma {:induction false} ReadGives(w: Win, inbox: seq<Datagram>)
    requires Inv(w)
    ensures var (w', r, rest) := Read(w, inbox);
            && |rest| <= |inbox| && rest == inbox[|inbox| - |rest|..]
            && (if w'.epoch == w.epoch then Gives(w, w', r) else w'.epoch == w.epoch + 1 && w'.log == [] && r.None?)
            && (Process(w).1.Some? ==> rest == inbox)
    decreases |inbox|
  {
    hide Process, Turn;
    ProcessKeeps(w, w.base);
    ProcessEffect(w);
    var (w1, r) := Process(w);
    if r.None? && inbox != [] {
      var d := inbox[0];
      TurnKeeps(w1, d);
      ResetDecides(w1, d);
      if !Outside(w1, d) {
        TurnGives(w1, d);
      }
      if Turn(w1, d).1.Again? {
        ReadGives(Turn(w1, d).0, inbox[1..]);
      }
    }
  }

  /** An in-band control message, or a packet that the check drops, ends the call and changes nothing. */
  lemma ControlEnds(w: Win, d: Datagram, rest: seq<Datagram>)
    requires Idle(w) && (d.Control? || d.Invalid?)
    ensures Read(w, [d] + rest) == (w, None, rest)
  {
    ReadTurn(w, d, rest);
  }

  // ---------------------------------------------------------------- giving up a range

  /** A UDP MISSING whose first number is the next expected one gives up its whole range, from there on, and the next
      expected number is afterwards beyond it; any other is ignored. */
  lemma MissingDecides(w: Win, d: Datagram)
    requires Inv(w) && Idle(w) && d.Missing? && w.started
    ensures var (w', o) := Turn(w, d);
            var n := (d.seq2 + 1 - d.seq1) % SEQ_RANGE;
            if d.seq1 == w.base % SEQ_RANGE then
              && w.base + n <= w'.base && w.missed + n <= w'.missed && w'.fillers == w.fillers + 1
              && (|w.pending| < MAX_QUEUED ==> w'.missed == w.missed + n)
            else w' == w && o == NothingNow
  {
    hide Process, Rekey, Arrive, InWindow, Unwrap, Turn, MissingCount, Filler;
    if Accepted(w, d) {
      MissingTaken(w, d);
      MissingQueued(w, d);
      assert (d.seq2 + 1 - d.seq1) % SEQ_RANGE == MissingCount(d) by { CountIs(d); }
    } else {
      NotTaken(w, d);
    }
  }

  lemma CountIs(d: Datagram)
    requires d.Missing?
    ensures MissingCount(d) == (d.seq2 + 1 - d.seq1) % SEQ_RANGE
  {}

  lemma NotTaken(w: Win, d: Datagram)
    requires d.Missing? && !Accepted(w, d)
    ensures Turn(w, d) == (w, NothingNow)
  {}

  lemma MissingTaken(w: Win, d: Datagram)
    requires Inv(w) && Idle(w) && w.started && Accepted(w, d)
    ensures var w' := Process(Arrive(Jump(w, d), Filler(d))).0;
            && w.base + MissingCount(d) <= w'.base && w.missed + MissingCount(d) <= w'.missed
            && w'.fillers == w.fillers + 1
            && (|w.pending| < MAX_QUEUED ==> w'.missed == w.missed + MissingCount(d))
  {
    hide Process, Rekey, Arrive, InWindow, Unwrap, MissingCount, Released;
    JumpArrives(w, d);
    RekeySize(w.pending, w.base, Jump(w, d).base);
    JumpAhead(w, d);
    var a := Arrive(Jump(w, d), Filler(d));
    ProcessEffect(a);
    ReleasedMore(a, Process(a).0, Process(a).1);
  }

  lemma ReleasedMore(w: Win, w': Win, r: Option<Packet>)
    requires Released(w, w', r)
    ensures w.base <= w'.base && w.missed <= w'.missed
  {}

  lemma MissingQueued(w: Win, d: Datagram)
    requires Accepted(w, d)
    ensures var t, w' := Turn(w, d).0, Process(Arrive(Jump(w, d), Filler(d))).0;
            t.base == w'.base && t.missed == w'.missed && t.fillers == w'.fillers
  {
    hide Process, Rekey, Arrive, InWindow, MissingCount, Filler, Scan;
    JumpArrives(w, d);
  }

  // ---------------------------------------------------------------- where a re-send starts

  /** The input position is the end of the last packet taken from the queue. */
  ghost predicate InputFollows(w: Win, w': Win) {
    if forall u :: u in w.pending ==> w'.base <= u then w'.inputPos == w.inputPos
    else exists u :: u in w.pending && u < w'.base && w'.inputPos == w.pending[u].pos + |w.pending[u].payload|
                     && forall v :: v in w.pending && v < w'.base ==> v <= u
  }

  lemma {:induction false} DrainInput(w: Win)
    requires Ahead(w, SEQ_RANGE - 1)
    ensures InputFollows(w, Drain(w).0)
    decreases |w.pending|
  {
    if w.base in w.pending {
      PopEffect(w);
      var f := Flush(Pop(w));
      assert f.inputPos == w.pending[w.base].pos + |w.pending[w.base].payload|;
      if w.pending[w.base].payload == [] {
        DrainInput(f);
        DrainEffect(f);
        InputOn(w, f, Drain(f).0);
      }
    }
  }

  lemma InputOn(w: Win, f: Win, w': Win)
    requires w.base in w.pending && w.base < f.base <= w'.base && f.pending == Rest(w.pending, f.base)
    requires forall u :: u in w.pending && u != w.base ==> f.base <= u
    requires f.inputPos == w.pending[w.base].pos + |w.pending[w.base].payload| && InputFollows(f, w')
    ensures InputFollows(w, w')
  {
    assert forall u :: u in f.pending <==> u in w.pending && u != w.base;
  }

  /** After a release that is so, and a skip for too many packets lets a new re-send be asked for at once. */
  lemma ProcessInput(w: Win)
    requires Ahead(w, SEQ_RANGE - 1)
    ensures var w' := Process(w).0;
            && InputFollows(w, w')
            && (if |w.pending| > MAX_QUEUED then w'.skips == w.skips + 1 && w'.resend == 0 else w'.skips == w.skips)
  {
    hide Drain, First;
    if w.pending != map[] {
      var s := Shrink(w);
      SkipEffect(w);
      SkipEffect(s);
      var f := Flush(s);
      DrainInput(f);
      DrainEffect(f);
      DrainResend(f);
      SkipInput(w, f, Drain(f).0);
    }
  }

  lemma SkipInput(w: Win, f: Win, w': Win)
    requires f.pending == w.pending && f.inputPos == w.inputPos && InputFollows(f, w')
    ensures InputFollows(w, w')
  {}

  lemma {:induction false} DrainResend(w: Win)
    ensures Drain(w).0.resend <= w.resend
    decreases |w.pending|
  {
    if w.base in w.pending {
      Smaller(w.pending, w.base);
      if w.pending[w.base].payload == [] {
        DrainResend(Flush(Pop(w)));
      }
    }
  }
}
