/** How a Clear on the server reaches the client. The same DISCARD message travels on the control channel and, as a
    marker, inside the data channel; the client lines the two up before it reads on.

    One client, stream transport (TCP or pipe). A step is one atomic action of the server, of the writer thread, of the
    client's control thread, or of its demuxer thread; steps of the threads interleave freely. */
module FlushProtocol {
  import opened Options

  /** `header` blocks are the cached PAT/PMT, sent at position 0. */
  datatype Block = Block(pos: nat, len: nat, header: bool)

  datatype DataMsg = Data(block: Block) | Marker(index: nat)

  /** `Guard` stands for the end of a FLUSH, which sets the guard position. Only the local frontend sends STREAMPOS. */
  datatype ControlMsg = Discard(index: nat) | StreamPos(index: nat) | Guard(index: nat)

  /** The control thread between two messages, or inside an engine flush with the lock released. */
  datatype Handler = Ready | Flushing(msg: ControlMsg)

  /** A block given to the demuxer, with the discard and guard positions it was tested against. */
  datatype Passed = Passed(block: Block, discard: nat, guard: nat)

  /** An engine flush for a position, and how many blocks had been given to the demuxer when it began. */
  datatype EngineFlush = EngineFlush(index: nat, before: nat)

  /** `marked`, `passed`, `flushes`, `readTo` (the end of the last data block read), `rewound` (a STREAMPOS was sent)
      and `flushed` (how many blocks the demuxer had been given when the last engine flush ended) are history. */
  datatype State = State(
    streamPos: nat,
    lastClear: nat,
    control: seq<ControlMsg>,
    data: seq<DataMsg>,
    discardIndex: nat,
    discardDs: nat,
    guard: nat,
    curpos: nat,
    streamStart: bool,
    handler: Handler,
    held: Option<Block>,
    marked: set<nat>,
    passed: seq<Passed>,
    flushes: seq<EngineFlush>,
    readTo: nat,
    rewound: bool,
    flushed: nat)

  datatype Action =
    | Play(len: nat, queued: bool)
    | SendHeader(len: nat)
    | Clear(queued: bool)
    | SendGuard(index: nat)
    | SendStreamPos(index: nat)
    | DropBlock(at: nat)
    | ControlStep
    | ReadStep
    | Preprocess

  /** A client that has just connected to a server at `streamPos`. */
  function Connected(streamPos: nat, lastClear: nat): State {
    State(streamPos, lastClear, [], [], 0, 0, 0, 0, true, Ready, None, {}, [], [], 0, false, 0)
  }

  // ---------------------------------------------------------------- server

  /** The block is lost if the writer's buffer is full; the position advances all the same. */
  function PlayData(s: State, len: nat, queued: bool): State {
    if len == 0 then s
    else s.(streamPos := s.streamPos + len,
            data := if queued then s.data + [Data(Block(s.streamPos, len, false))] else s.data)
  }

  /** `queued`: the marker found room in the writer's buffer (its result is not looked at). */
  function ClearStream(s: State, queued: bool): State {
    if s.streamPos == s.lastClear then s
    else s.(lastClear := s.streamPos,
            control := s.control + [Discard(s.streamPos)],
            data := if queued then s.data + [Marker(s.streamPos)] else s.data,
            marked := if queued then s.marked + {s.streamPos} else s.marked)
  }

  /** The writer thread drops whole data packets after a Clear, never control messages. */
  function DropData(s: State, at: nat): State {
    if at < |s.data| && s.data[at].Data? then s.(data := s.data[..at] + s.data[at + 1..]) else s
  }

  // ---------------------------------------------------------------- client, control thread

  predicate FlushSkipped(s: State, index: nat) {
    s.streamStart || s.curpos > index
  }

  /** What the handler does with the lock held again, or without having released it. */
  function Publish(s: State, m: ControlMsg): State {
    match m
    case Discard(i) => s.(discardIndex := i, handler := Ready)
    case StreamPos(i) => s.(curpos := i, discardIndex := i, guard := 0, handler := Ready)
    case Guard(i) => s.(guard := i, handler := Ready)
  }

  function Receive(s: State, m: ControlMsg): State {
    if m.Guard? || (m.StreamPos? && FlushSkipped(s, m.index)) then Publish(s, m)
    else if m.Discard? && s.discardIndex >= m.index then s
    else if FlushSkipped(s, m.index) then Publish(s, m)
    else s.(handler := Flushing(m), flushes := s.flushes + [EngineFlush(m.index, |s.passed|)])
  }

  function Control(s: State): State {
    if s.handler.Flushing? then Publish(s.(streamStart := true, flushed := |s.passed|), s.handler.msg)
    else if s.control == [] then s
    else Receive(s.(control := s.control[1..]), s.control[0])
  }

  // ---------------------------------------------------------------- client, demuxer thread

  /** Nothing is read while the data channel is ahead of the control channel. */
  predicate Blocked(s: State) {
    s.discardIndex < s.discardDs
  }

  function ReadData(s: State): State {
    if s.held.Some? || Blocked(s) || s.data == [] then s
    else
      match s.data[0]
      case Data(b) => s.(data := s.data[1..], held := Some(b), readTo := if b.header then s.readTo else b.pos + b.len)
      case Marker(i) => s.(data := s.data[1..], discardDs := i)
  }

  function PreprocessBlock(s: State): State {
    if s.held.None? then s
    else
      var b := s.held.value;
      if s.discardIndex > b.pos && s.guard < b.pos then s.(held := None, curpos := b.pos)
      else s.(held := None, curpos := b.pos + b.len, streamStart := false,
              passed := s.passed + [Passed(b, s.discardIndex, s.guard)])
  }

  function Apply(s: State, a: Action): State {
    match a
    case Play(len, queued) => PlayData(s, len, queued)
    case SendHeader(len) => s.(data := s.data + [Data(Block(0, len, true))])
    case Clear(queued) => ClearStream(s, queued)
    case SendGuard(i) => s.(control := s.control + [Guard(i)])
    case SendStreamPos(i) => s.(control := s.control + [StreamPos(i)], rewound := true)
    case DropBlock(at) => DropData(s, at)
    case ControlStep => Control(s)
    case ReadStep => ReadData(s)
    case Preprocess => PreprocessBlock(s)
  }

  function Run(s: State, actions: seq<Action>): State
    decreases |actions|
  {
    if actions == [] then s else Run(Apply(s, actions[0]), actions[1..])
  }
}
