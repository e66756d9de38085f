/** Remote calls from the server to all its clients. A call sends its token and then its command to every client; the
    first reply that carries the token completes it. Clients know only the token they were sent last.

    A step is one atomic action of a caller, of the server's reader, or of a client; there is any number of both. */
module RpcTokens {

  const TOKEN_RANGE := 0x1_0000

  /** PlayFile is the command sent to a newly configured client without a token of its own. */
  datatype Command = Token(token: nat) | Call(id: nat) | PlayFile

  /** What a reply is really about. The server does not see this. */
  datatype Origin = ToCall(id: nat) | ToConfiguration

  datatype Reply = Reply(token: nat, origin: Origin)

  /** `inbox` is on its way to the client, `outbox` on its way back. */
  datatype Client = Client(token: nat, inbox: seq<Command>, outbox: seq<Reply>)

  /** `table` holds the futures of pending calls by token, `clients` the connected clients by slot. `completed` (by
      what) and `returned` are history. */
  datatype State = State(
    next: nat,
    table: map<nat, nat>,
    clients: map<nat, Client>,
    completed: map<nat, Origin>,
    returned: set<nat>)

  datatype Action =
    | Issue(targets: set<nat>)
    | Configure(slot: nat)
    | Connect(slot: nat)
    | Disconnect(slot: nat)
    | ClientStep(slot: nat)
    | ServerStep(slot: nat)
    | Return(id: nat)

  const START := State(0, map[], map[], map[], {})

  /** The counter starts at 1 and is advanced before use. */
  function TokenOf(id: nat): nat {
    (id + 2) % TOKEN_RANGE
  }

  function Send(c: Client, commands: seq<Command>): Client {
    c.(inbox := c.inbox + commands)
  }

  /** Token, future and command, under one lock. */
  function IssueCall(s: State, targets: set<nat>): State {
    var t := TokenOf(s.next);
    s.(next := s.next + 1,
       table := s.table[t := s.next],
       clients := map i | i in s.clients ::
         if i in targets then Send(s.clients[i], [Token(t), Call(s.next)]) else s.clients[i])
  }

  /** The caller gives up or has its result: its future leaves the table, if it is still there. */
  function ReturnCall(s: State, id: nat): State {
    if id >= s.next then s
    else
      var t := TokenOf(id);
      s.(returned := s.returned + {id},
         table := if t in s.table && s.table[t] == id then s.table - {t} else s.table)
  }

  /** The client's control thread: take a token, or answer with the one it has. */
  function Execute(c: Client): Client
    requires c.inbox != []
  {
    var rest := c.(inbox := c.inbox[1..]);
    match c.inbox[0]
    case Token(t) => rest.(token := t)
    case Call(id) => rest.(outbox := c.outbox + [Reply(c.token, ToCall(id))])
    case PlayFile => rest.(outbox := c.outbox + [Reply(c.token, ToConfiguration)])
  }

  /** RESULT: the future with that token, if there is one, leaves the table and gets its value. */
  function Complete(s: State, r: Reply): State {
    if r.token in s.table then
      s.(completed := s.completed[s.table[r.token] := r.origin], table := s.table - {r.token})
    else s
  }

  function Apply(s: State, a: Action): State {
    match a
    case Issue(targets) => IssueCall(s, targets)
    case Return(id) => ReturnCall(s, id)
    case Connect(i) => if i in s.clients then s else s.(clients := s.clients[i := Client(0, [], [])])
    case Disconnect(i) => s.(clients := s.clients - {i})
    case Configure(i) =>
      if i in s.clients then s.(clients := s.clients[i := Send(s.clients[i], [PlayFile])]) else s
    case ClientStep(i) =>
      if i in s.clients && s.clients[i].inbox != [] then s.(clients := s.clients[i := Execute(s.clients[i])]) else s
    case ServerStep(i) =>
      if i in s.clients && s.clients[i].outbox != [] then
        var c := s.clients[i];
        Complete(s.(clients := s.clients[i := c.(outbox := c.outbox[1..])]), c.outbox[0])
      else s
  }

  function Run(s: State, actions: seq<Action>): State
    decreases |actions|
  {
    if actions == [] then s else Run(Apply(s, actions[0]), actions[1..])
  }

  // ---------------------------------------------------------------- what a client still has to say

  /** The replies a client with token `t` will give to `inbox`. */
  function Answers(t: nat, inbox: seq<Command>): seq<Reply>
    decreases |inbox|
  {
    if inbox == [] then []
    else
      match inbox[0]
      case Token(t') => Answers(t', inbox[1..])
      case Call(id) => [Reply(t, ToCall(id))] + Answers(t, inbox[1..])
      case PlayFile => [Reply(t, ToConfiguration)] + Answers(t, inbox[1..])
  }

  function LastToken(t: nat, inbox: seq<Command>): nat
    decreases |inbox|
  {
    if inbox == [] then t
    else LastToken(if inbox[0].Token? then inbox[0].token else t, inbox[1..])
  }

  /** Every reply the server will get from the client, in order. */
  function Stream(c: Client): seq<Reply> {
    c.outbox + Answers(c.token, c.inbox)
  }

  function Last(c: Client): nat {
    LastToken(c.token, c.inbox)
  }

  ghost predicate Mentions(stream: seq<Reply>, t: nat) {
    exists k :: 0 <= k < |stream| && stream[k].token == t
  }

  /** The first reply with a pending token is an answer to that call. */
  ghost predicate FirstRight(table: map<nat, nat>, stream: seq<Reply>)
    decreases |stream|
  {
    stream == []
    || (&& (stream[0].token in table ==> stream[0].origin == ToCall(table[stream[0].token]))
        && FirstRight(table - {stream[0].token}, stream[1..]))
  }

  /** Should the client be told to PLAYFILE now, its answer would come too late to be mistaken. */
  ghost predicate Settled(table: map<nat, nat>, c: Client) {
    FirstRight(table, Stream(c)) && (Last(c) in table ==> Mentions(Stream(c), Last(c)))
  }

  /** Every reply is about a command that was sent. */
  ghost predicate Past(stream: seq<Reply>, next: nat) {
    forall k :: 0 <= k < |stream| && stream[k].origin.ToCall? ==> stream[k].origin.id < next
  }

  ghost predicate Inv(s: State) {
    && (forall t :: t in s.table ==> s.table[t] < s.next && t == TokenOf(s.table[t]))
    && (forall t :: t in s.table ==> s.table[t] !in s.returned && s.table[t] !in s.completed)
    && (forall id :: id in s.returned ==> id < s.next)
    && (forall id :: id in s.completed ==> id < s.next && s.completed[id] == ToCall(id))
    && (forall i :: i in s.clients ==> Settled(s.table, s.clients[i]) && Past(Stream(s.clients[i]), s.next))
  }

  /** A new token is not pending, not on its way back, not still to be answered with, and not the last one sent to a
      client that is not told of it; and a client, which starts out with token 0, does not connect while token 0 is
      pending. */
  ghost predicate Unused(s: State, t: nat, targets: set<nat>) {
    t !in s.table
    && forall i :: i in s.clients ==> !Mentions(Stream(s.clients[i]), t) && (i !in targets ==> Last(s.clients[i]) != t)
  }

  ghost predicate Allowed(s: State, a: Action) {
    && (a.Issue? ==> Unused(s, TokenOf(s.next), a.targets))
    && (a.Connect? ==> 0 !in s.table)
  }

  ghost predicate AllowedRun(s: State, actions: seq<Action>)
    decreases |actions|
  {
    actions == [] || (Allowed(s, actions[0]) && AllowedRun(Apply(s, actions[0]), actions[1..]))
  }

  // ---------------------------------------------------------------- lemmas about streams

  lemma {:induction false} FewerPending(table: map<nat, nat>, t: nat, stream: seq<Reply>)
    requires FirstRight(table, stream)
    ensures FirstRight(table - {t}, stream)
    decreases |stream|
  {
    if stream != [] {
      var u := stream[0].token;
      FewerPending(table - {u}, t, stream[1..]);
      assert table - {u} - {t} == table - {t} - {u};
    }
  }

  lemma {:induction false} MorePending(table: map<nat, nat>, t: nat, id: nat, stream: seq<Reply>)
    requires FirstRight(table, stream) && !Mentions(stream, t) && t !in table
    ensures FirstRight(table[t := id], stream)
    decreases |stream|
  {
    if stream != [] {
      var u := stream[0].token;
      assert !Mentions(stream[1..], t);
      MorePending(table - {u}, t, id, stream[1..]);
      assert (table - {u})[t := id] == table[t := id] - {u};
    }
  }

  /** One more reply is harmless if its token is not pending by then, or if it is right. */
  lemma {:induction false} OneMore(table: map<nat, nat>, stream: seq<Reply>, r: Reply)
    requires FirstRight(table, stream)
    requires r.token in table ==> Mentions(stream, r.token) || r.origin == ToCall(table[r.token])
    ensures FirstRight(table, stream + [r])
    decreases |stream|
  {
    var longer := stream + [r];
    if stream == [] {
      assert longer[1..] == [];
    } else {
      var table' := table - {stream[0].token};
      if r.token in table' && Mentions(stream, r.token) {
        var k :| 0 <= k < |stream| && stream[k].token == r.token;
        assert stream[1..][k - 1].token == r.token;
      }
      OneMore(table', stream[1..], r);
      assert longer[1..] == stream[1..] + [r];
    }
  }

  lemma {:induction false} Sent(t: nat, inbox: seq<Command>, more: seq<Command>)
    ensures Answers(t, inbox + more) == Answers(t, inbox) + Answers(LastToken(t, inbox), more)
    ensures LastToken(t, inbox + more) == LastToken(LastToken(t, inbox), more)
    decreases |inbox|
  {
    if inbox == [] {
      assert inbox + more == more;
    } else {
      assert (inbox + more)[1..] == inbox[1..] + more;
      Sent(if inbox[0].Token? then inbox[0].token else t, inbox[1..], more);
    }
  }

  lemma SendStream(c: Client, more: seq<Command>)
    ensures Stream(Send(c, more)) == Stream(c) + Answers(Last(c), more)
    ensures Last(Send(c, more)) == LastToken(Last(c), more)
  {
    Sent(c.token, c.inbox, more);
  }

  /** Whatever the client does by itself is already in its stream. */
  lemma ExecuteStream(c: Client)
    requires c.inbox != []
    ensures Stream(Execute(c)) == Stream(c) && Last(Execute(c)) == Last(c)
  {}

  lemma IssuedCommands(last: nat, t: nat, id: nat)
    ensures Answers(last, [Token(t), Call(id)]) == [Reply(t, ToCall(id))] && LastToken(last, [Token(t), Call(id)]) == t
  {
    assert [Token(t), Call(id)][1..] == [Call(id)];
    OneCommand(t, Call(id));
  }

  lemma OneCommand(t: nat, c: Command)
    requires !c.Token?
    ensures Answers(t, [c]) == [Reply(t, if c.Call? then ToCall(c.id) else ToConfiguration)] && LastToken(t, [c]) == t
  {
    assert [c][1..] == [];
  }

  // ---------------------------------------------------------------- each step

  lemma PastSend(c: Client, more: seq<Command>, next: nat)
    requires Past(Stream(c), next) && Past(Answers(Last(c), more), next)
    ensures Past(Stream(Send(c, more)), next)
  {
    SendStream(c, more);
  }

  lemma SettledIssue(table: map<nat, nat>, c: Client, t: nat, id: nat, target: bool)
    requires Settled(table, c) && t !in table && !Mentions(Stream(c), t) && (!target ==> Last(c) != t)
    ensures Settled(table[t := id], if target then Send(c, [Token(t), Call(id)]) else c)
  {
    MorePending(table, t, id, Stream(c));
    if target {
      SendStream(c, [Token(t), Call(id)]);
      var r := Reply(t, ToCall(id));
      IssuedCommands(Last(c), t, id);
      OneMore(table[t := id], Stream(c), r);
      assert (Stream(c) + [r])[|Stream(c)|].token == t;
    }
  }

  lemma SettledConfigure(table: map<nat, nat>, c: Client)
    requires Settled(table, c)
    ensures Settled(table, Send(c, [PlayFile]))
  {
    SendStream(c, [PlayFile]);
    var r := Reply(Last(c), ToConfiguration);
    OneCommand(Last(c), PlayFile);
    OneMore(table, Stream(c), r);
    assert (Stream(c) + [r])[|Stream(c)|].token == Last(c);
  }

  lemma SettledFewer(table: map<nat, nat>, c: Client, t: nat)
    requires Settled(table, c)
    ensures Settled(table - {t}, c)
  {
    FewerPending(table, t, Stream(c));
  }

  /** Taking the first reply off a client's stream settles its token. */
  lemma SettledReply(table: map<nat, nat>, c: Client)
    requires Settled(table, c) && c.outbox != []
    ensures var r := c.outbox[0];
            && Settled(table - {r.token}, c.(outbox := c.outbox[1..]))
            && (r.token in table ==> r.origin == ToCall(table[r.token]))
  {
    var c' := c.(outbox := c.outbox[1..]);
    assert Stream(c)[1..] == Stream(c');
    if Last(c) in table - {c.outbox[0].token} {
      var k :| 0 <= k < |Stream(c)| && Stream(c)[k].token == Last(c);
      assert Stream(c')[k - 1].token == Last(c);
    }
  }

  lemma IssueKeepsClient(s: State, targets: set<nat>, i: nat)
    requires Inv(s) && Unused(s, TokenOf(s.next), targets) && i in s.clients
    ensures Settled(IssueCall(s, targets).table, IssueCall(s, targets).clients[i])
    ensures Past(Stream(IssueCall(s, targets).clients[i]), s.next + 1)
  {
    hide FirstRight, Answers, LastToken;
    var c, t := s.clients[i], TokenOf(s.next);
    SettledIssue(s.table, c, t, s.next, i in targets);
    IssuedCommands(Last(c), t, s.next);
    if i in targets {
      PastSend(c, [Token(t), Call(s.next)], s.next + 1);
    }
  }

  lemma IssueKeeps(s: State, targets: set<nat>)
    requires Inv(s) && Unused(s, TokenOf(s.next), targets)
    ensures Inv(IssueCall(s, targets))
  {
    hide Settled, Past, Send;
    forall i | i in s.clients
      ensures Settled(IssueCall(s, targets).table, IssueCall(s, targets).clients[i])
      ensures Past(Stream(IssueCall(s, targets).clients[i]), s.next + 1)
    {
      IssueKeepsClient(s, targets, i);
    }
  }

  lemma ReturnKeeps(s: State, id: nat)
    requires Inv(s)
    ensures Inv(ReturnCall(s, id))
  {
    forall i | i in s.clients
      ensures Settled(s.table - {TokenOf(id)}, s.clients[i])
    {
      SettledFewer(s.table, s.clients[i], TokenOf(id));
    }
  }

  lemma ServerKeeps(s: State, i: nat)
    requires Inv(s) && i in s.clients && s.clients[i].outbox != []
    ensures Inv(Apply(s, ServerStep(i)))
  {
    var t := s.clients[i].outbox[0].token;
    SettledReply(s.table, s.clients[i]);
    var c := s.clients[i];
    assert Stream(c.(outbox := c.outbox[1..])) == Stream(c)[1..];
    forall j | j in s.clients
      ensures Settled(s.table - {t}, s.clients[j])
    {
      SettledFewer(s.table, s.clients[j], t);
    }
    if t !in s.table {
      assert s.table - {t} == s.table;
    }
  }

  lemma ConfigureKeeps(s: State, i: nat)
    requires Inv(s) && i in s.clients
    ensures Inv(Apply(s, Configure(i)))
  {
    SettledConfigure(s.table, s.clients[i]);
    OneCommand(Last(s.clients[i]), PlayFile);
    PastSend(s.clients[i], [PlayFile], s.next);
  }

  lemma ClientKeeps(s: State, i: nat)
    requires Inv(s) && i in s.clients && s.clients[i].inbox != []
    ensures Inv(Apply(s, ClientStep(i)))
  {
    ExecuteStream(s.clients[i]);
  }

  lemma StepKeeps(s: State, a: Action)
    requires Inv(s) && Allowed(s, a)
    ensures Inv(Apply(s, a))
  {
    match a
    case Issue(targets) => IssueKeeps(s, targets);
    case Return(id) => ReturnKeeps(s, id);
    case Configure(i) => if i in s.clients { ConfigureKeeps(s, i); }
    case ClientStep(i) => if i in s.clients && s.clients[i].inbox != [] { ClientKeeps(s, i); }
    case ServerStep(i) => if i in s.clients && s.clients[i].outbox != [] { ServerKeeps(s, i); }
    case _ =>
  }

  /** A call is only ever completed by a reply to its own command, whatever the timeouts, late and repeated replies, and
      token-less PLAYFILE commands; and every future in the table belongs to a call that has not returned. */
  lemma {:induction false} OwnRepliesOnly(s: State, actions: seq<Action>)
    requires Inv(s) && AllowedRun(s, actions)
    ensures var s' := Run(s, actions);
            && Inv(s')
            && (forall id :: id in s'.completed ==> s'.completed[id] == ToCall(id))
            && (forall t :: t in s'.table ==> s'.table[t] < s'.next && s'.table[t] !in s'.returned)
    decreases |actions|
  {
    if actions != [] {
      StepKeeps(s, actions[0]);
      OwnRepliesOnly(Apply(s, actions[0]), actions[1..]);
    }
  }

  /** A reply still on its way when its token is used again is taken for the answer to the new call, which it is not. */
  lemma StaleReplyMisleads(s: State, i: nat, targets: set<nat>)
    requires Inv(s) && i in s.clients && s.clients[i].outbox != [] && s.clients[i].outbox[0].token == TokenOf(s.next)
    ensures !Unused(s, TokenOf(s.next), targets)
    ensures var s' := Run(s, [Issue(targets), ServerStep(i)]);
            && s.next in s'.completed && s'.completed[s.next] == s.clients[i].outbox[0].origin
            && s'.completed[s.next] != ToCall(s.next)
  {
    hide Answers, LastToken, FirstRight, Settled;
    assert Stream(s.clients[i])[0] == s.clients[i].outbox[0];
    var s1 := Apply(s, Issue(targets));
    assert s1.clients[i].outbox == s.clients[i].outbox;
    RunTwo(s, Issue(targets), ServerStep(i));
  }

  lemma RunTwo(s: State, a: Action, b: Action)
    ensures Run(s, [a, b]) == Apply(Apply(s, a), b)
  {
    assert [a, b][1..] == [b];
    assert Run(Apply(s, a), [b]) == Apply(Apply(s, a), b);
  }

  // ---------------------------------------------------------------- before the tokens wrap

  ghost predicate Below(stream: seq<Reply>, top: nat) {
    forall k :: 0 <= k < |stream| ==> stream[k].token < top
  }

  /** No token beyond the last one issued is anywhere in the system, and token 0 is not pending. */
  ghost predicate Early(s: State) {
    && 0 !in s.table && (forall t :: t in s.table ==> t < s.next + 2)
    && forall i :: i in s.clients ==> Below(Stream(s.clients[i]), s.next + 2) && Last(s.clients[i]) < s.next + 2
  }

  lemma EarlySend(c: Client, more: seq<Command>, top: nat)
    requires Below(Stream(c) + Answers(Last(c), more), top) && LastToken(Last(c), more) < top
    ensures Below(Stream(Send(c, more)), top) && Last(Send(c, more)) < top
  {
    SendStream(c, more);
  }

  lemma EarlyIssue(s: State, targets: set<nat>)
    requires Early(s) && s.next + 2 < TOKEN_RANGE
    ensures Unused(s, TokenOf(s.next), targets) && Early(IssueCall(s, targets))
  {
    var t, id := TokenOf(s.next), s.next;
    forall i | i in s.clients
      ensures var c := IssueCall(s, targets).clients[i];
              Below(Stream(c), s.next + 3) && Last(c) < s.next + 3
    {
      IssuedCommands(Last(s.clients[i]), t, id);
      EarlySend(s.clients[i], [Token(t), Call(id)], s.next + 3);
    }
  }

  lemma EarlyConfigure(s: State, i: nat)
    requires Early(s) && i in s.clients
    ensures Early(Apply(s, Configure(i)))
  {
    var c := s.clients[i];
    OneCommand(Last(c), PlayFile);
    EarlySend(c, [PlayFile], s.next + 2);
  }

  lemma EarlyServer(s: State, i: nat)
    requires Early(s) && i in s.clients && s.clients[i].outbox != []
    ensures Early(Apply(s, ServerStep(i)))
  {
    var c := s.clients[i];
    assert Stream(c.(outbox := c.outbox[1..])) == Stream(c)[1..];
  }

  lemma EarlyClient(s: State, i: nat)
    requires Early(s) && i in s.clients && s.clients[i].inbox != []
    ensures Early(Apply(s, ClientStep(i)))
  {
    ExecuteStream(s.clients[i]);
  }

  lemma EarlyKeeps(s: State, a: Action)
    requires Early(s) && (a.Issue? ==> s.next + 2 < TOKEN_RANGE)
    ensures Allowed(s, a) && Early(Apply(s, a))
  {
    match a
    case Issue(targets) => EarlyIssue(s, targets);
    case Configure(i) => if i in s.clients { EarlyConfigure(s, i); }
    case ClientStep(i) => if i in s.clients && s.clients[i].inbox != [] { EarlyClient(s, i); }
    case ServerStep(i) => if i in s.clients && s.clients[i].outbox != [] { EarlyServer(s, i); }
    case _ =>
  }

  function Issues(actions: seq<Action>): nat
    decreases |actions|
  {
    if actions == [] then 0 else (if actions[0].Issue? then 1 else 0) + Issues(actions[1..])
  }

  /** For the first 65534 calls of a server nothing needs to be assumed about tokens. */
  lemma {:induction false} NoWrapNoMixUp(s: State, actions: seq<Action>)
    requires Early(s) && s.next + Issues(actions) + 2 <= TOKEN_RANGE
    ensures AllowedRun(s, actions)
    decreases |actions|
  {
    if actions != [] {
      EarlyKeeps(s, actions[0]);
      NoWrapNoMixUp(Apply(s, actions[0]), actions[1..]);
    }
  }

  /** From server start. */
  lemma FirstCalls(actions: seq<Action>)
    requires Issues(actions) <= TOKEN_RANGE - 2
    ensures forall id :: id in Run(START, actions).completed ==> Run(START, actions).completed[id] == ToCall(id)
  {
    NoWrapNoMixUp(START, actions);
    OwnRepliesOnly(START, actions);
  }
}
