/** When the link starts over, and that it then goes on with whatever comes next. */
module UdpResets {
  import opened Options
  import opened UdpWindow
  import opened UdpOrder
  import opened UdpRuns
  import opened UdpExamples

  /** A packet that is more than 128 ahead of the next expected number, modulo 256. */
  predicate Outside(w: Win, d: Datagram) {
    d.Data? && w.started && (d.packet.num - w.base) % SEQ_RANGE > HALF_RANGE
  }

  /** What is kept as long as the link is not reset. */
  ghost predicate Continues(w: Win, w': Win) {
    w'.epoch == w.epoch && (w.started ==> w'.started && w'.start == w.start) && w.log <= w'.log
  }

  lemma QueuedContinues(w: Win, p: Packet)
    requires InWindow(w, p) && Ahead(Arrive(w, p), SEQ_RANGE - 1) && |Arrive(w, p).pending| <= MAX_QUEUED + 1
    ensures Continues(w, Queued(w, p).0)
  {
    hide Process, Scan;
    ProcessEffect(Arrive(w, p));
    var w' := Process(Arrive(w, p)).0;
    assert w.log == w'.log[..|w.log|];
  }

  /** A datagram resets the link exactly if it is a packet outside the window: then nothing is queued and nothing is
      known of the sender's numbers. Otherwise packets are only ever added to what was handed on. */
  lemma ResetDecides(w: Win, d: Datagram)
    requires Inv(w) && Idle(w)
    ensures var (w', o) := Turn(w, d);
            if Outside(w, d) then
              && o == NothingNow && w'.epoch == w.epoch + 1
              && w'.pending == map[] && !w'.started && !w'.padding && w'.resend == 0 && w'.log == [] && w'.inputPos == 0
            else Continues(w, w')
  {
    hide Queued, Rekey, Unwrap;
    match d
    case Data(p) =>
      if InWindow(w, p) {
        QueuedContinues(w, p);
      } else {
        assert Queued(w, p) == (Fresh(w.epoch + 1), NothingNow) by { OutsideQueued(w, p); }
      }
    case Missing(_, _, _) =>
      if Accepted(w, d) {
        JumpArrives(w, d);
        RekeySize(w.pending, w.base, Jump(w, d).base);
        JumpAhead(w, d);
        QueuedContinues(Jump(w, d), Filler(d));
      }
    case _ =>
  }

  lemma OutsideQueued(w: Win, p: Packet)
    requires !InWindow(w, p)
    ensures Queued(w, p) == (Fresh(w.epoch + 1), NothingNow)
  {}

  /** After a reset the next packet with a payload is handed on at once, whatever its number, and starts the
      numbering. */
  lemma Restart(w: Win, p: Packet, q: Packet)
    requires Inv(w) && Idle(w) && Outside(w, Data(p)) && q.payload != []
    ensures var (w', o) := Turn(Turn(w, Data(p)).0, Data(q));
            && o == Deliver(q) && w'.log == [Delivery(q.num, q)] && w'.base == q.num + 1 && w'.pending == map[]
  {
    hide Turn;
    ResetDecides(w, Data(p));
    ArriveAlone(Turn(w, Data(p)).0, q);
  }

  /** The same over calls: one gives nothing, the next one gives the packet, each without reading further. */
  lemma RestartCalls(w: Win, p: Packet, q: Packet, rest: seq<Datagram>, more: seq<Datagram>)
    requires Inv(w) && Idle(w) && Outside(w, Data(p)) && q.payload != []
    ensures var w' := Read(w, [Data(p)] + rest).0;
            && Read(w, [Data(p)] + rest).1 == None && Read(w, [Data(p)] + rest).2 == rest
            && Read(w', [Data(q)] + more).1 == Some(q) && Read(w', [Data(q)] + more).2 == more
  {
    hide Turn, Read;
    ResetDecides(w, Data(p));
    Restart(w, p, q);
    ReadTurn(w, Data(p), rest);
    ReadTurn(Turn(w, Data(p)).0, Data(q), more);
  }
}
