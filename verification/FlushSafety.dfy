/** What every interleaving of the flush protocol keeps. */
module FlushSafety {
  import opened FlushProtocol

  // ---------------------------------------------------------------- the data channel

  /** A block carries positions the server has handed out; a header block is at position 0. */
  ghost predicate Sent(b: Block, top: nat) {
    if b.header then b.pos == 0 else b.pos < b.pos + b.len <= top
  }

  ghost predicate Reached(marked: set<nat>, pos: nat, upTo: nat) {
    forall c :: c in marked && c <= pos ==> c <= upTo
  }

  /** The channel as the client will read it, `ds` being the marker read last: markers are clear points in order, a
      block at or after a clear point comes after a marker for it, and every clear point gets its marker. */
  ghost predicate Channel(data: seq<DataMsg>, ds: nat, marked: set<nat>, top: nat)
    decreases |data|
  {
    if data == [] then Reached(marked, top, ds)
    else
      match data[0]
      case Marker(i) => i in marked && ds <= i && Channel(data[1..], i, marked, top)
      case Data(b) => Sent(b, top) && Reached(marked, b.pos, ds) && Channel(data[1..], ds, marked, top)
  }

  ghost predicate ClearPoints(marked: set<nat>, top: nat) {
    forall c :: c in marked ==> 0 < c <= top
  }

  lemma {:induction false} AppendBlock(data: seq<DataMsg>, ds: nat, marked: set<nat>, top: nat, b: Block, top': nat)
    requires Channel(data, ds, marked, top) && ClearPoints(marked, top) && top <= top' && Sent(b, top')
    ensures Channel(data + [Data(b)], ds, marked, top')
    decreases |data|
  {
    if data != [] {
      assert (data + [Data(b)])[1..] == data[1..] + [Data(b)];
      AppendBlock(data[1..], if data[0].Marker? then data[0].index else ds, marked, top, b, top');
    }
  }

  lemma {:induction false} Advance(data: seq<DataMsg>, ds: nat, marked: set<nat>, top: nat, top': nat)
    requires Channel(data, ds, marked, top) && ClearPoints(marked, top) && top <= top'
    ensures Channel(data, ds, marked, top')
    decreases |data|
  {
    if data != [] {
      Advance(data[1..], if data[0].Marker? then data[0].index else ds, marked, top, top');
    }
  }

  lemma {:induction false} AppendMarker(data: seq<DataMsg>, ds: nat, marked: set<nat>, top: nat)
    requires Channel(data, ds, marked, top) && ClearPoints(marked, top) && ds <= top && 0 < top
    ensures Channel(data + [Marker(top)], ds, marked + {top}, top)
    decreases |data|
  {
    if data != [] {
      assert (data + [Marker(top)])[1..] == data[1..] + [Marker(top)];
      AppendMarker(data[1..], if data[0].Marker? then data[0].index else ds, marked, top);
    } else {
      assert (data + [Marker(top)])[1..] == [];
    }
  }

  lemma {:induction false} RemoveBlock(data: seq<DataMsg>, ds: nat, marked: set<nat>, top: nat, at: nat)
    requires Channel(data, ds, marked, top) && at < |data| && data[at].Data?
    ensures Channel(data[..at] + data[at + 1..], ds, marked, top)
    decreases |data|
  {
    var rest := data[..at] + data[at + 1..];
    if at == 0 {
      assert rest == data[1..];
    } else {
      assert rest[1..] == data[1..][..at - 1] + data[1..][at..];
      RemoveBlock(data[1..], if data[0].Marker? then data[0].index else ds, marked, top, at - 1);
    }
  }

  // ---------------------------------------------------------------- the invariant

  ghost predicate Positions(s: State) {
    && s.lastClear <= s.streamPos && (forall c :: c in s.marked ==> c <= s.lastClear)
    && ClearPoints(s.marked, s.streamPos)
    && (s.discardDs > 0 ==> s.discardDs in s.marked)
    && Channel(s.data, s.discardDs, s.marked, s.streamPos)
    && (s.held.Some? ==> Sent(s.held.value, s.streamPos) && Reached(s.marked, s.held.value.pos, s.discardIndex))
  }

  /** No block at or after a clear point was given to the demuxer before that point was published. */
  ghost predicate NothingEarly(s: State) {
    forall i :: 0 <= i < |s.passed| ==>
      && Sent(s.passed[i].block, s.streamPos) && s.passed[i].discard <= s.discardIndex
      && Reached(s.marked, s.passed[i].block.pos, s.passed[i].discard)
  }

  /** An engine flush for a clear point finds no block at or after that point with the demuxer. */
  ghost predicate FlushesOld(s: State) {
    forall f, i :: 0 <= f < |s.flushes| && 0 <= i < |s.passed|
                   && i < s.flushes[f].before && s.flushes[f].index in s.marked ==>
      s.passed[i].block.pos < s.flushes[f].index
  }

  /** While the engine flush for a clear point runs, unlocked, only blocks from before that point get through. */
  ghost predicate FlushingOld(s: State) {
    s.handler.Flushing? && s.handler.msg.index in s.marked ==>
      forall i :: 0 <= i < |s.passed| ==> s.passed[i].block.pos < s.handler.msg.index
  }

  /** Each clear point the data channel knows of is published, on its way in the control channel, or being handled. */
  ghost predicate Underway(s: State) {
    forall c :: c in s.marked ==>
      c <= s.discardIndex || Discard(c) in s.control || s.handler == Flushing(Discard(c))
  }

  ghost predicate Serial(s: State) {
    && (s.handler.Flushing? ==>
          !s.handler.msg.Guard? && (s.handler.msg.Discard? ==> s.discardIndex < s.handler.msg.index))
    && (forall f :: 0 <= f < |s.flushes| ==> s.flushes[f].before <= |s.passed|)
    && (!s.rewound ==>
          && s.discardIndex <= s.lastClear
          && (s.handler.Flushing? ==> s.handler.msg.Discard? && s.handler.msg.index <= s.lastClear)
          && (forall m :: m in s.control ==> !m.StreamPos?)
          && (forall m :: m in s.control && m.Discard? ==> m.index <= s.lastClear))
  }

  ghost predicate Good(s: State) {
    && Serial(s)
    && (!s.rewound ==> Positions(s) && NothingEarly(s) && FlushesOld(s) && FlushingOld(s) && Underway(s))
  }

  // ---------------------------------------------------------------- each thread keeps it

  lemma PlayKeeps(s: State, len: nat, queued: bool)
    requires Good(s)
    ensures Good(PlayData(s, len, queued))
  {
    if !s.rewound {
      Advance(s.data, s.discardDs, s.marked, s.streamPos, s.streamPos + len);
      if len > 0 {
        AppendBlock(s.data, s.discardDs, s.marked, s.streamPos, Block(s.streamPos, len, false), s.streamPos + len);
      }
    }
  }

  lemma HeaderKeeps(s: State, len: nat)
    requires Good(s)
    ensures Good(Apply(s, SendHeader(len)))
  {
    if !s.rewound {
      AppendBlock(s.data, s.discardDs, s.marked, s.streamPos, Block(0, len, true), s.streamPos);
    }
  }

  lemma ClearKeeps(s: State, queued: bool)
    requires Good(s)
    ensures Good(ClearStream(s, queued))
  {
    if !s.rewound && s.streamPos != s.lastClear {
      AppendMarker(s.data, s.discardDs, s.marked, s.streamPos);
    }
  }

  lemma PublishKeeps(s: State)
    requires Good(s) && s.handler.Flushing?
    ensures Good(Control(s))
  {}

  lemma PublishFirst(s: State)
    requires Good(s) && s.handler.Ready? && s.control != []
    requires s.control[0].Guard? || FlushSkipped(s, s.control[0].index)
    ensures Good(Control(s))
  {
    var m, t := s.control[0], s.control[1..];
    assert forall x :: x in s.control <==> x == m || x in t;
  }

  lemma BeginFlush(s: State)
    requires Good(s) && s.handler.Ready? && s.control != []
    requires !s.control[0].Guard? && !FlushSkipped(s, s.control[0].index)
    ensures Good(Control(s))
  {
    var m, t := s.control[0], s.control[1..];
    assert forall x :: x in s.control <==> x == m || x in t;
  }

  lemma ControlKeeps(s: State)
    requires Good(s)
    ensures Good(Control(s)) && Control(s).rewound == s.rewound && Control(s).discardDs == s.discardDs
  {
    if s.handler.Flushing? {
      PublishKeeps(s);
    } else if s.control != [] {
      if s.control[0].Guard? || FlushSkipped(s, s.control[0].index) {
        PublishFirst(s);
      } else {
        BeginFlush(s);
      }
    }
  }

  lemma ReadKeeps(s: State)
    requires Good(s)
    ensures Good(ReadData(s))
  {}

  lemma PreprocessKeeps(s: State)
    requires Good(s)
    ensures Good(PreprocessBlock(s))
  {}

  lemma DropKeeps(s: State, at: nat)
    requires Good(s)
    ensures Good(DropData(s, at))
  {
    if !s.rewound && at < |s.data| && s.data[at].Data? {
      RemoveBlock(s.data, s.discardDs, s.marked, s.streamPos, at);
    }
  }

  lemma StepKeeps(s: State, a: Action)
    requires Good(s)
    ensures Good(Apply(s, a))
  {
    match a
    case Play(len, queued) => PlayKeeps(s, len, queued);
    case SendHeader(len) => HeaderKeeps(s, len);
    case Clear(queued) => ClearKeeps(s, queued);
    case DropBlock(at) => DropKeeps(s, at);
    case ControlStep => ControlKeeps(s);
    case ReadStep => ReadKeeps(s);
    case Preprocess => PreprocessKeeps(s);
    case _ =>
  }

  lemma {:induction false} RunKeeps(s: State, actions: seq<Action>)
    requires Good(s)
    ensures Good(Run(s, actions))
    decreases |actions|
  {
    if actions != [] {
      StepKeeps(s, actions[0]);
      RunKeeps(Apply(s, actions[0]), actions[1..]);
    }
  }

  lemma StartGood(streamPos: nat, lastClear: nat)
    requires lastClear <= streamPos
    ensures Good(Connected(streamPos, lastClear))
  {}
}
