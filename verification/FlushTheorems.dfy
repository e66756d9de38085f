/** The flush protocol's guarantees, for every interleaving of its threads. */
module FlushTheorems {
  import opened FlushProtocol
  import opened FlushSafety

  /** No block at or after a clear point reaches the demuxer before the control channel has published that point, if
      the marker for it was queued; and every engine flush for that point comes before all of them. */
  lemma NoEarlyBlock(streamPos: nat, lastClear: nat, actions: seq<Action>)
    requires lastClear <= streamPos
    ensures var s := Run(Connected(streamPos, lastClear), actions);
            !s.rewound ==>
              && (forall i, c :: 0 <= i < |s.passed| && c in s.marked && c <= s.passed[i].block.pos ==>
                    c <= s.passed[i].discard)
              && (forall f, i :: 0 <= f < |s.flushes| && 0 <= i < s.flushes[f].before
                                 && s.flushes[f].index in s.marked ==>
                    i < |s.passed| && s.passed[i].block.pos < s.flushes[f].index)
  {
    StartGood(streamPos, lastClear);
    RunKeeps(Connected(streamPos, lastClear), actions);
  }

  /** If the marker finds no room in the data channel, a block after the Clear can overtake it. */
  lemma LostMarkerOvertaken()
    ensures var s := Run(Connected(0, 0),
                         [Play(10, true), ReadStep, Preprocess, Clear(false), Play(5, true), ReadStep, Preprocess]);
            && !s.rewound && Discard(10) in s.control && |s.passed| == 2
            && s.passed[1] == Passed(Block(10, 5, false), 0, 0)
  {
    var s1 := Apply(Apply(Apply(Connected(0, 0), Play(10, true)), ReadStep), Preprocess);
    assert s1 == Connected(0, 0).(streamPos := 10, curpos := 10, streamStart := false, readTo := 10,
                                  passed := [Passed(Block(0, 10, false), 0, 0)]);
    var s2 := Apply(Apply(s1, Clear(false)), Play(5, true));
    assert s2 == s1.(streamPos := 15, lastClear := 10, control := [Discard(10)], data := [Data(Block(10, 5, false))]);
    assert Run(s2, [ReadStep, Preprocess]) == Apply(Apply(s2, ReadStep), Preprocess);
    assert Run(s1, [Clear(false), Play(5, true), ReadStep, Preprocess]) == Run(s2, [ReadStep, Preprocess]);
  }

  /** What the demuxer is given later, and what was published before. */
  ghost predicate Later(s: State, s': State) {
    && (s.rewound ==> s'.rewound)
    && |s.passed| <= |s'.passed| && s'.passed[..|s.passed|] == s.passed
    && (!s'.rewound ==>
          && s.discardIndex <= s'.discardIndex
          && forall i :: |s.passed| <= i < |s'.passed| ==>
               s.discardIndex <= s'.passed[i].block.pos || s'.passed[i].block.pos <= s'.passed[i].guard)
  }

  lemma StepLater(s: State, a: Action)
    requires Good(s)
    ensures Later(s, Apply(s, a))
  {}

  /** Once a point is published, no block before it gets through any more, unless it is not beyond the guard position
      (as a header block, at position 0, never is). Without STREAMPOS the published point never goes back. */
  lemma {:induction false} NothingStale(s: State, actions: seq<Action>)
    requires Good(s)
    ensures Later(s, Run(s, actions))
    decreases |actions|
  {
    if actions != [] {
      var t := Apply(s, actions[0]);
      StepLater(s, actions[0]);
      StepKeeps(s, actions[0]);
      NothingStale(t, actions[1..]);
      var u := Run(t, actions[1..]);
      assert u.passed[..|s.passed|] == u.passed[..|t.passed|][..|s.passed|];
      assert forall i :: |s.passed| <= i < |t.passed| ==> u.passed[i] == u.passed[..|t.passed|][i];
    }
  }

  /** The published point only ever goes back when a STREAMPOS is handled, also across the unlocked engine flush. */
  lemma OnlyStreamPosRewinds(s: State, a: Action)
    requires Good(s) && Apply(s, a).discardIndex < s.discardIndex
    ensures a == ControlStep
    ensures if s.handler.Flushing? then s.handler.msg.StreamPos? else s.control != [] && s.control[0].StreamPos?
  {}

  /** The client throws away nothing that was played after the last Clear. */
  lemma NoFreshLoss(streamPos: nat, lastClear: nat, actions: seq<Action>)
    requires lastClear <= streamPos
    ensures var s := Run(Connected(streamPos, lastClear), actions);
            !s.rewound && s.held.Some? && PreprocessBlock(s).passed == s.passed ==> s.held.value.pos < s.lastClear
  {
    StartGood(streamPos, lastClear);
    RunKeeps(Connected(streamPos, lastClear), actions);
  }

  /** What becomes of a block: it is thrown away exactly if it lies before the published point and beyond the guard
      position. The position is then its start, else its end. */
  lemma BlockDecides(s: State)
    requires s.held.Some?
    ensures var t, b := PreprocessBlock(s), s.held.value;
            && t.held.None?
            && (t.passed == s.passed <==> s.guard < b.pos < s.discardIndex)
            && (t.passed != s.passed ==> t.passed == s.passed + [Passed(b, s.discardIndex, s.guard)] && !t.streamStart)
            && t.curpos == b.pos + if t.passed == s.passed then 0 else b.len
  {
    assert |PreprocessBlock(s).passed| >= |s.passed|;
  }

  ghost predicate HeadersFirst(s: State) {
    && (forall m :: m in s.data && m.Data? && m.block.header ==> m.block.pos == 0)
    && (s.held.Some? && s.held.value.header ==> s.held.value.pos == 0)
  }

  lemma StepHeaders(s: State, a: Action)
    requires HeadersFirst(s)
    ensures HeadersFirst(Apply(s, a))
  {
    var s' := Apply(s, a);
    assert forall m :: m in s'.data ==> m in s.data || (m.Data? && m.block.header ==> m.block.pos == 0);
  }

  lemma {:induction false} HeadersKeep(s: State, actions: seq<Action>)
    requires HeadersFirst(s)
    ensures HeadersFirst(Run(s, actions))
    decreases |actions|
  {
    if actions != [] {
      StepHeaders(s, actions[0]);
      HeadersKeep(Apply(s, actions[0]), actions[1..]);
    }
  }

  /** Header blocks, at position 0, are never thrown away: in every run, STREAMPOS or not, the demuxer gets each of them
      that is read. */
  lemma HeadersPass(streamPos: nat, lastClear: nat, actions: seq<Action>)
    ensures var s := Run(Connected(streamPos, lastClear), actions);
            s.held.Some? && s.held.value.header ==>
              && s.held.value.pos == 0 && |PreprocessBlock(s).passed| == |s.passed| + 1
              && PreprocessBlock(s).passed[|s.passed|].block == s.held.value
  {
    HeadersKeep(Connected(streamPos, lastClear), actions);
  }

  function Played(actions: seq<Action>): nat
    decreases |actions|
  {
    if actions == [] then 0 else (if actions[0].Play? then actions[0].len else 0) + Played(actions[1..])
  }

  /** The stream position counts every byte played, whether it found room or not, and nothing else. */
  lemma {:induction false} PositionCounts(s: State, actions: seq<Action>)
    ensures Run(s, actions).streamPos == s.streamPos + Played(actions)
    decreases |actions|
  {
    if actions != [] {
      PositionCounts(Apply(s, actions[0]), actions[1..]);
    }
  }

  // ---------------------------------------------------------------- no deadlock

  function ControlMeasure(s: State): nat {
    2 * |s.control| + if s.handler.Flushing? then 1 else 0
  }

  /** The control thread on its own, until it has nothing more to do. */
  function ControlAlone(s: State): State
    decreases ControlMeasure(s)
  {
    if s.control == [] && s.handler.Ready? then s else ControlAlone(Control(s))
  }

  lemma {:induction false} ControlAloneKeeps(s: State)
    requires Good(s)
    ensures var s' := ControlAlone(s);
            Good(s') && s'.control == [] && s'.handler.Ready? && s'.rewound == s.rewound && s'.discardDs == s.discardDs
    decreases ControlMeasure(s)
  {
    if s.control != [] || !s.handler.Ready? {
      ControlKeeps(s);
      ControlAloneKeeps(Control(s));
    }
  }

  /** A demuxer thread that waits for the control channel is never waiting in vain. */
  lemma WaitEnds(streamPos: nat, lastClear: nat, actions: seq<Action>)
    requires lastClear <= streamPos
    ensures var s := Run(Connected(streamPos, lastClear), actions);
            !s.rewound ==> !Blocked(ControlAlone(s))
  {
    StartGood(streamPos, lastClear);
    RunKeeps(Connected(streamPos, lastClear), actions);
    ControlAloneKeeps(Run(Connected(streamPos, lastClear), actions));
  }

  // ---------------------------------------------------------------- order

  ghost predicate DataOrder(data: seq<DataMsg>, from: nat, top: nat)
    decreases |data|
  {
    if data == [] then from <= top
    else
      match data[0]
      case Marker(_) => DataOrder(data[1..], from, top)
      case Data(b) => if b.header then DataOrder(data[1..], from, top)
                      else from <= b.pos && DataOrder(data[1..], b.pos + b.len, top)
  }

  ghost predicate InOrder(s: State) {
    && DataOrder(s.data, s.readTo, s.streamPos)
    && (s.held.Some? && !s.held.value.header ==> s.held.value.pos + s.held.value.len == s.readTo)
    && (forall i :: 0 <= i < |s.passed| && !s.passed[i].block.header ==>
          s.passed[i].block.pos + s.passed[i].block.len <=
            if s.held.Some? && !s.held.value.header then s.held.value.pos else s.readTo)
    && (forall i, j :: 0 <= i < j < |s.passed| && !s.passed[i].block.header && !s.passed[j].block.header ==>
          s.passed[i].block.pos + s.passed[i].block.len <= s.passed[j].block.pos)
  }

  lemma {:induction false} OrderAppend(data: seq<DataMsg>, from: nat, top: nat, m: DataMsg, top': nat)
    requires DataOrder(data, from, top) && top <= top'
    requires m.Data? && !m.block.header ==> top <= m.block.pos && m.block.pos + m.block.len <= top'
    ensures DataOrder(data + [m], from, top') && DataOrder(data, from, top')
    decreases |data|
  {
    if data == [] {
      assert (data + [m])[1..] == [];
    } else {
      assert (data + [m])[1..] == data[1..] + [m];
      OrderAppend(data[1..],
                  if data[0].Data? && !data[0].block.header then data[0].block.pos + data[0].block.len else from,
                  top, m, top');
    }
  }

  lemma {:induction false} OrderFromEarlier(data: seq<DataMsg>, from: nat, from': nat, top: nat)
    requires DataOrder(data, from, top) && from' <= from
    ensures DataOrder(data, from', top)
    decreases |data|
  {
    if data != [] && (data[0].Marker? || data[0].block.header) {
      OrderFromEarlier(data[1..], from, from', top);
    }
  }

  lemma {:induction false} OrderRemove(data: seq<DataMsg>, from: nat, top: nat, at: nat)
    requires DataOrder(data, from, top) && at < |data|
    ensures DataOrder(data[..at] + data[at + 1..], from, top)
    decreases |data|
  {
    var rest := data[..at] + data[at + 1..];
    var next := if data[0].Data? && !data[0].block.header then data[0].block.pos + data[0].block.len else from;
    if at == 0 {
      assert rest == data[1..];
      OrderFromEarlier(rest, next, from, top);
    } else {
      assert rest[1..] == data[1..][..at - 1] + data[1..][at..];
      OrderRemove(data[1..], next, top, at - 1);
    }
  }

  lemma PreprocessOrder(s: State)
    requires InOrder(s)
    ensures InOrder(PreprocessBlock(s))
  {}

  lemma ReadOrder(s: State)
    requires InOrder(s)
    ensures InOrder(ReadData(s))
  {}

  lemma SendOrder(s: State, s': State, m: DataMsg)
    requires InOrder(s) && s.streamPos <= s'.streamPos
    requires m.Data? && !m.block.header ==>
               s.streamPos <= m.block.pos && m.block.pos + m.block.len <= s'.streamPos
    requires s'.data == s.data || s'.data == s.data + [m]
    requires s'.held == s.held && s'.passed == s.passed && s'.readTo == s.readTo
    ensures InOrder(s')
  {
    OrderAppend(s.data, s.readTo, s.streamPos, m, s'.streamPos);
  }

  lemma ControlOrder(s: State)
    requires InOrder(s)
    ensures InOrder(Control(s))
  {}

  lemma DropOrder(s: State, at: nat)
    requires InOrder(s)
    ensures InOrder(DropData(s, at))
  {
    if at < |s.data| {
      OrderRemove(s.data, s.readTo, s.streamPos, at);
    }
  }

  lemma StepOrder(s: State, a: Action)
    requires InOrder(s)
    ensures InOrder(Apply(s, a))
  {
    match a
    case Play(len, _) => SendOrder(s, Apply(s, a), Data(Block(s.streamPos, len, false)));
    case SendHeader(len) => SendOrder(s, Apply(s, a), Data(Block(0, len, true)));
    case Clear(_) => SendOrder(s, Apply(s, a), Marker(s.streamPos));
    case DropBlock(at) => DropOrder(s, at);
    case ControlStep => ControlOrder(s);
    case ReadStep => ReadOrder(s);
    case Preprocess => PreprocessOrder(s);
    case _ =>
  }

  lemma {:induction false} OrderKeeps(s: State, actions: seq<Action>)
    requires InOrder(s)
    ensures InOrder(Run(s, actions))
    decreases |actions|
  {
    if actions != [] {
      StepOrder(s, actions[0]);
      OrderKeeps(Apply(s, actions[0]), actions[1..]);
    }
  }

  /** Blocks reach the demuxer in the order they were played, none twice and none overlapping, whatever was dropped. */
  lemma PlayedOrder(streamPos: nat, lastClear: nat, actions: seq<Action>)
    ensures var passed := Run(Connected(streamPos, lastClear), actions).passed;
            forall i, j :: 0 <= i < j < |passed| && !passed[i].block.header && !passed[j].block.header ==>
              passed[i].block.pos + passed[i].block.len <= passed[j].block.pos
  {
    OrderKeeps(Connected(streamPos, lastClear), actions);
  }
}
