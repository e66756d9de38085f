/** Why the marker in the data channel is needed: without it the Clear can always be overtaken. */
module FlushMarkers {
  import opened Options
  import opened FlushProtocol
  import opened FlushSafety

  /** Nothing at or after `point` was given to the demuxer before the point was published. */
  ghost predicate NoneEarly(s: State, point: nat) {
    forall i :: 0 <= i < |s.passed| && point <= s.passed[i].block.pos ==> point <= s.passed[i].discard
  }

  lemma {:induction false} RunRun(s: State, a: seq<Action>, b: seq<Action>)
    ensures Run(s, a + b) == Run(Run(s, a), b)
    decreases |a|
  {
    if a == [] {
      assert a + b == b;
    } else {
      assert (a + b)[1..] == a[1..] + b;
      RunRun(Apply(s, a[0]), a[1..], b);
    }
  }

  lemma {:induction false} MarkedStay(s: State, actions: seq<Action>)
    ensures s.marked <= Run(s, actions).marked
    decreases |actions|
  {
    if actions != [] {
      MarkedStay(Apply(s, actions[0]), actions[1..]);
    }
  }

  /** What only the demuxer thread and the server change is the same. */
  predicate ControlOnly(s: State, t: State) {
    t == s.(control := t.control, handler := t.handler, discardIndex := t.discardIndex, guard := t.guard,
            curpos := t.curpos, streamStart := t.streamStart, flushes := t.flushes, flushed := t.flushed)
  }

  lemma ControlTop(s: State, top: nat)
    requires Good(s) && !s.rewound && (s.handler.Flushing? || |s.control| > 1)
    requires s.discardIndex <= top && (s.handler.Flushing? ==> s.handler.msg.index <= top)
    requires forall i :: 0 <= i < |s.control| - 1 && s.control[i].Discard? ==> s.control[i].index <= top
    ensures var t := Control(s);
            && (s.handler.Flushing? ==> t.handler.Ready?) && t.discardIndex <= top
            && (t.handler.Flushing? ==> t.handler.msg.index <= top)
            && t.control == (if s.handler.Flushing? then s.control else s.control[1..]) && ControlOnly(s, t)
  {
    if s.handler.Ready? {
      assert s.control[0] in s.control;
    }
  }

  /** The control thread handles everything before the last message. */
  lemma {:induction false} ControlUpTo(s: State, m: ControlMsg, top: nat) returns (actions: seq<Action>)
    requires Good(s) && !s.rewound && s.control != [] && s.control[|s.control| - 1] == m
    requires s.discardIndex <= top && (s.handler.Flushing? ==> s.handler.msg.index <= top)
    requires forall i :: 0 <= i < |s.control| - 1 && s.control[i].Discard? ==> s.control[i].index <= top
    ensures var s' := Run(s, actions);
            && Good(s') && s'.discardIndex <= top && s'.control == [m] && s'.handler.Ready? && ControlOnly(s, s')
    decreases 2 * |s.control| + if s.handler.Flushing? then 1 else 0
  {
    hide Good, Control;
    if s.handler.Ready? && |s.control| == 1 {
      actions := [];
    } else {
      ControlKeeps(s);
      ControlTop(s, top);
      var rest := ControlUpTo(Control(s), m, top);
      actions := [ControlStep] + rest;
    }
  }

  /** With nothing to wait for, the demuxer thread reads everything there is. */
  lemma {:induction false} ReadUp(s: State) returns (actions: seq<Action>)
    requires Good(s) && !s.rewound && (forall c :: c in s.marked ==> c <= s.discardIndex)
    ensures var s' := Run(s, actions);
            && Good(s') && s'.data == [] && s'.held.None? && !Blocked(s')
            && |s'.passed| >= |s.passed|
            && s' == s.(data := [], held := None, discardDs := s'.discardDs, curpos := s'.curpos,
                streamStart := s'.streamStart,
                        passed := s'.passed, readTo := s'.readTo)
    decreases |s.data|, if s.held.Some? then 1 else 0
  {
    if s.data == [] && s.held.None? {
      actions := [];
    } else {
      var a := if s.held.Some? then Preprocess else ReadStep;
      StepKeeps(s, a);
      var rest := ReadUp(Apply(s, a));
      actions := [a] + rest;
    }
  }

  /** A block played just after the Clear, read before the control thread gets to it. */
  lemma Overtake(s: State, point: nat)
    requires s.streamPos == point && s.discardIndex < point && s.data == [] && s.held.None? && !Blocked(s)
    ensures !NoneEarly(Run(s, [Play(1, true), ReadStep, Preprocess]), point)
    ensures Run(s, [Play(1, true), ReadStep, Preprocess]).rewound == s.rewound
  {
    var s1 := Apply(s, Play(1, true));
    var s2 := Apply(s1, ReadStep);
    var s3 := Apply(s2, Preprocess);
    assert s1.data == [Data(Block(point, 1, false))] && s2.held == Some(Block(point, 1, false));
    assert s3.passed[|s.passed|].block.pos == point && s3.passed[|s.passed|].discard < point;
    assert [Play(1, true), ReadStep, Preprocess][1..] == [ReadStep, Preprocess];
    assert [ReadStep, Preprocess][1..] == [Preprocess] && [Preprocess][1..] == [];
    assert Run(s2, [Preprocess]) == s3;
  }

  lemma Overtaken(s: State) returns (actions: seq<Action>)
    requires Good(s) && !s.rewound && s.streamPos != s.lastClear
    ensures var s' := Run(Apply(s, Clear(false)), actions);
            !s'.rewound && !NoneEarly(s', s.streamPos)
  {
    var point, s1 := s.streamPos, Apply(s, Clear(false));
    ClearKeeps(s, false);
    assert forall i :: 0 <= i < |s1.control| - 1 ==> s1.control[i] in s.control;
    var a := ControlUpTo(s1, Discard(point), s.lastClear);
    var s2 := Run(s1, a);
    var b := ReadUp(s2);
    var s3 := Run(s2, b);
    var c := [Play(1, true), ReadStep, Preprocess];
    Overtake(s3, point);
    actions := a + (b + c);
    RunRun(s1, a, b + c);
    RunRun(s2, b, c);
  }

  /** The Clear at the server's present position is respected by every run that follows exactly if its marker found room
      in the data channel. */
  lemma MarkerDecides(s: State, queued: bool)
    requires Good(s) && !s.rewound && s.streamPos != s.lastClear
    ensures queued <==>
            forall actions :: !Run(Apply(s, Clear(queued)), actions).rewound ==>
              NoneEarly(Run(Apply(s, Clear(queued)), actions), s.streamPos)
  {
    if queued {
      var s1 := Apply(s, Clear(true));
      ClearKeeps(s, true);
      forall actions | !Run(s1, actions).rewound
        ensures NoneEarly(Run(s1, actions), s.streamPos)
      {
        RunKeeps(s1, actions);
        MarkedStay(s1, actions);
      }
    } else {
      var actions := Overtaken(s);
    }
  }
}
