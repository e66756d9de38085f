/** When the engine is flushed: for every Clear that finds a picture to throw away, and before the clear point is
    published. */
module FlushEngine {
  import opened Options
  import opened FlushProtocol
  import opened FlushSafety
  import opened FlushTheorems

  // ---------------------------------------------------------------- the start of a stream

  /** The client is at the start of a stream exactly if no block was given to the demuxer since the last engine flush
      ended, or since it connected. */
  ghost predicate StartKnown(s: State) {
    s.flushed <= |s.passed| && (s.streamStart <==> s.flushed == |s.passed|)
  }

  lemma {:induction false} StartStays(s: State, actions: seq<Action>)
    requires StartKnown(s)
    ensures StartKnown(Run(s, actions))
    decreases |actions|
  {
    if actions != [] {
      StartStays(Apply(s, actions[0]), actions[1..]);
    }
  }

  /** A block was given to the demuxer since the last engine flush, and the position is not beyond `c`. */
  ghost predicate OldPicture(s: State, c: nat) {
    s.flushed < |s.passed| && s.curpos <= c
  }

  /** The control thread is about to handle a DISCARD for `c`. */
  ghost predicate Receives(s: State, c: nat) {
    s.handler.Ready? && s.control != [] && s.control[0] == Discard(c)
  }

  /** In every run, what a DISCARD does: a delayed one nothing; one that finds an old picture begins an engine flush and
      publishes nothing yet; any other one publishes its point at once, without a flush. */
  lemma DiscardDecides(streamPos: nat, lastClear: nat, actions: seq<Action>, c: nat)
    requires Receives(Run(Connected(streamPos, lastClear), actions), c)
    ensures var s := Run(Connected(streamPos, lastClear), actions);
            var t := Apply(s, ControlStep);
            if s.discardIndex < c && OldPicture(s, c) then
              && t.flushes == s.flushes + [EngineFlush(c, |s.passed|)] && t.discardIndex == s.discardIndex
              && t.handler == Flushing(Discard(c))
            else
              && t.flushes == s.flushes && t.handler.Ready?
              && t.discardIndex == if s.discardIndex < c then c else s.discardIndex
  {
    StartStays(Connected(streamPos, lastClear), actions);
  }

  // ---------------------------------------------------------------- the flush comes first

  lemma FlushesStay(s: State, a: Action)
    ensures s.flushes <= Apply(s, a).flushes
  {}

  /** While a flush for `c` goes on, nothing but the control thread's next step publishes `c`. */
  lemma {:induction false} FlushFirst(s: State, actions: seq<Action>, c: nat)
    requires Good(s) && s.handler == Flushing(Discard(c)) && s.discardIndex < c
    requires !Run(s, actions).rewound
    ensures s.flushes <= Run(s, actions).flushes
    ensures c <= Run(s, actions).discardIndex <==> ControlStep in actions
    decreases |actions|
  {
    if actions != [] {
      var a, t := actions[0], Apply(s, actions[0]);
      StepKeeps(s, a);
      NothingStale(t, actions[1..]);
      FlushesKept(t, actions[1..]);
      FlushesStay(s, a);
      if a != ControlStep {
        FlushFirst(t, actions[1..], c);
      }
    }
  }

  lemma {:induction false} FlushesKept(s: State, actions: seq<Action>)
    ensures s.flushes <= Run(s, actions).flushes
    decreases |actions|
  {
    if actions != [] {
      FlushesStay(s, actions[0]);
      FlushesKept(Apply(s, actions[0]), actions[1..]);
    }
  }

  /** In every run without STREAMPOS, a DISCARD for `c` that finds an old picture has its engine flush recorded from the
      moment it is received, and `c` is published only when the control thread goes on after that flush. */
  lemma FlushBeforePublish(streamPos: nat, lastClear: nat, before: seq<Action>, after: seq<Action>, c: nat)
    requires lastClear <= streamPos
    requires var s := Run(Connected(streamPos, lastClear), before);
             Receives(s, c) && s.discardIndex < c && OldPicture(s, c) && !Run(Apply(s, ControlStep), after).rewound
    ensures var s := Run(Connected(streamPos, lastClear), before);
            var t := Run(Apply(s, ControlStep), after);
            && |s.flushes| < |t.flushes| && t.flushes[|s.flushes|] == EngineFlush(c, |s.passed|)
            && (c <= t.discardIndex <==> ControlStep in after)
  {
    var s := Run(Connected(streamPos, lastClear), before);
    StartGood(streamPos, lastClear);
    RunKeeps(Connected(streamPos, lastClear), before);
    DiscardDecides(streamPos, lastClear, before, c);
    StepKeeps(s, ControlStep);
    FlushFirst(Apply(s, ControlStep), after, c);
    assert Apply(s, ControlStep).flushes[|s.flushes|] == EngineFlush(c, |s.passed|);
  }

  // ---------------------------------------------------------------- an ordinary Clear

  /** No block lies across a clear point. */
  ghost predicate Beside(b: Block, marked: set<nat>) {
    b.header || forall c :: c in marked && b.pos < c ==> b.pos + b.len <= c
  }

  /** The position is the end of a header block, which has no position in the stream. */
  ghost predicate AfterHeader(s: State) {
    s.passed != [] && s.passed[|s.passed| - 1].block.header && s.curpos == s.passed[|s.passed| - 1].block.len
  }

  /** Otherwise the position is not beyond any clear point that is still to be published, nor beyond the stream. */
  ghost predicate Behind(s: State) {
    && (forall m :: m in s.data && m.Data? ==> Beside(m.block, s.marked) && Sent(m.block, s.streamPos))
    && (s.held.Some? ==> Beside(s.held.value, s.marked))
    && (AfterHeader(s) ||
        (s.curpos <= s.streamPos && forall c :: c in s.marked && s.discardIndex < c ==> s.curpos <= c))
  }

  lemma PlayBehind(s: State, len: nat, queued: bool)
    requires Good(s) && Behind(s) && !s.rewound
    ensures Behind(PlayData(s, len, queued))
  {
    assert forall m :: m in PlayData(s, len, queued).data ==> m in s.data || m == Data(Block(s.streamPos, len, false));
  }

  lemma HeaderBehind(s: State, len: nat)
    requires Behind(s)
    ensures Behind(Apply(s, SendHeader(len)))
  {
    assert forall m :: m in Apply(s, SendHeader(len)).data ==> m in s.data || m == Data(Block(0, len, true));
  }

  lemma ClearBehind(s: State, queued: bool)
    requires Good(s) && Behind(s) && !s.rewound
    ensures Behind(ClearStream(s, queued))
  {
    assert forall m :: m in ClearStream(s, queued).data && m.Data? ==> m in s.data;
  }

  lemma DropBehind(s: State, at: nat)
    requires Behind(s)
    ensures Behind(DropData(s, at))
  {
    assert forall m :: m in DropData(s, at).data ==> m in s.data;
  }

  lemma ReadBehind(s: State)
    requires Behind(s)
    ensures Behind(ReadData(s))
  {
    assert forall m :: m in ReadData(s).data ==> m in s.data;
  }

  lemma PreprocessBehind(s: State)
    requires Good(s) && Behind(s) && !s.rewound
    ensures Behind(PreprocessBlock(s))
  {}

  lemma StepBehind(s: State, a: Action)
    requires Good(s) && Behind(s) && !Apply(s, a).rewound
    ensures Behind(Apply(s, a))
  {
    hide Good;
    match a
    case Play(len, queued) => PlayBehind(s, len, queued);
    case SendHeader(len) => HeaderBehind(s, len);
    case Clear(queued) => ClearBehind(s, queued);
    case DropBlock(at) => DropBehind(s, at);
    case ControlStep => ControlBehind(s);
    case ReadStep => ReadBehind(s);
    case Preprocess => PreprocessBehind(s);
    case SendGuard(_) =>
    case SendStreamPos(_) =>
  }

  lemma ControlBehind(s: State)
    requires Good(s) && Behind(s) && !s.rewound
    ensures Behind(Control(s))
  {
    if s.handler.Ready? && s.control != [] {
      assert s.control[0] in s.control;
    }
  }

  lemma {:induction false} BehindStays(s: State, actions: seq<Action>)
    requires Good(s) && Behind(s) && !Run(s, actions).rewound
    ensures Good(Run(s, actions)) && Behind(Run(s, actions))
    decreases |actions|
  {
    if actions != [] {
      var t := Apply(s, actions[0]);
      StepKeeps(s, actions[0]);
      NothingStale(t, actions[1..]);
      StepBehind(s, actions[0]);
      BehindStays(t, actions[1..]);
    }
  }

  /** So in every run without STREAMPOS, a Clear whose marker was queued and that follows a picture does begin an engine
      flush, unless the last block given was a header block longer than the clear point. */
  lemma ClearFlushes(streamPos: nat, lastClear: nat, actions: seq<Action>, c: nat)
    requires lastClear <= streamPos
    requires var s := Run(Connected(streamPos, lastClear), actions);
             !s.rewound && Receives(s, c) && c in s.marked && s.discardIndex < c && s.flushed < |s.passed|
    ensures var s := Run(Connected(streamPos, lastClear), actions);
            if AfterHeader(s) && c < s.curpos then Apply(s, ControlStep).flushes == s.flushes
            else Apply(s, ControlStep).flushes == s.flushes + [EngineFlush(c, |s.passed|)]
  {
    StartGood(streamPos, lastClear);
    BehindStays(Connected(streamPos, lastClear), actions);
    DiscardDecides(streamPos, lastClear, actions, c);
  }

  // ---------------------------------------------------------------- STREAMPOS and FLUSH

  /** The stream starts anew at `i`: no block from there on is thrown away, and nothing is guarded. */
  ghost predicate StartsAt(s: State, i: nat) {
    && s.handler.Ready? && s.discardIndex == i && s.curpos == i && s.guard == 0
    && forall b: Block :: i <= b.pos ==>
         PreprocessBlock(s.(held := Some(b))).passed == s.passed + [Passed(b, i, 0)]
  }

  /** In every run, what a STREAMPOS does: with an old picture it begins an engine flush, and the control thread's next
      step starts the stream anew; without one that happens at once. */
  lemma StreamPosDecides(streamPos: nat, lastClear: nat, actions: seq<Action>, i: nat)
    requires var s := Run(Connected(streamPos, lastClear), actions);
             s.handler.Ready? && s.control != [] && s.control[0] == StreamPos(i)
    ensures var s := Run(Connected(streamPos, lastClear), actions);
            var t := Apply(s, ControlStep);
            if OldPicture(s, i) then
              && t.flushes == s.flushes + [EngineFlush(i, |s.passed|)] && t.discardIndex == s.discardIndex
              && t.handler == Flushing(StreamPos(i)) && StartsAt(Apply(t, ControlStep), i)
            else t.flushes == s.flushes && StartsAt(t, i)
  {
    StartStays(Connected(streamPos, lastClear), actions);
  }

  /** Nothing is left that would change the guard position. */
  ghost predicate Guarded(s: State, g: nat) {
    && s.guard == g && (forall m :: m in s.control ==> m.Discard?)
    && (s.handler.Flushing? ==> s.handler.msg.Discard?)
  }

  lemma {:induction false} GuardStays(s: State, actions: seq<Action>, g: nat)
    requires Guarded(s, g) && forall a :: a in actions ==> !a.SendGuard? && !a.SendStreamPos?
    ensures Guarded(Run(s, actions), g)
    decreases |actions|
  {
    if actions != [] {
      var t := Apply(s, actions[0]);
      assert forall m :: m in t.control ==> m in s.control || m.Discard?;
      GuardStays(t, actions[1..], g);
    }
  }

  /** After the end of a FLUSH at `g`, whatever is cleared then, no block up to `g` is thrown away, until another FLUSH
      or a STREAMPOS is sent. */
  lemma GuardProtects(s: State, rest: seq<ControlMsg>, g: nat, actions: seq<Action>)
    requires s.handler.Ready? && s.control == [Guard(g)] + rest && forall m :: m in rest ==> m.Discard?
    requires forall a :: a in actions ==> !a.SendGuard? && !a.SendStreamPos?
    ensures var t := Run(Apply(s, ControlStep), actions);
            t.held.Some? && t.held.value.pos <= g ==> |PreprocessBlock(t).passed| == |t.passed| + 1
  {
    var t := Apply(s, ControlStep);
    assert t.control == rest;
    GuardStays(t, actions, g);
  }
}
