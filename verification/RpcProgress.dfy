/** That calls are answered: one client that is told of a call is enough. */
module RpcProgress {
  import opened RpcTokens

  function Work(c: Client): nat {
    2 * |c.inbox| + |c.outbox|
  }

  predicate OnlyOf(i: nat, actions: seq<Action>) {
    forall a :: a in actions ==> a == ClientStep(i) || a == ServerStep(i)
  }

  lemma TakesOne(s: State, i: nat, t: nat)
    requires Inv(s) && i in s.clients && s.clients[i].outbox != [] && t in s.table && Mentions(Stream(s.clients[i]), t)
    ensures var id, s', c := s.table[t], Apply(s, ServerStep(i)), s.clients[i];
            && Inv(s') && i in s'.clients && Work(s'.clients[i]) < Work(c)
            && (if c.outbox[0].token == t then id in s'.completed
                else t in s'.table && s'.table[t] == id && Mentions(Stream(s'.clients[i]), t))
  {
    var c := s.clients[i];
    var c' := c.(outbox := c.outbox[1..]);
    ServerKeeps(s, i);
    assert Stream(c)[1..] == Stream(c');
    if c.outbox[0].token != t {
      var k :| 0 <= k < |Stream(c)| && Stream(c)[k].token == t;
      assert Stream(c')[k - 1].token == t;
    }
  }

  lemma ClientMoves(s: State, i: nat)
    requires Inv(s) && i in s.clients && s.clients[i].inbox != []
    ensures var s', c := Apply(s, ClientStep(i)), s.clients[i];
            && Inv(s') && i in s'.clients && Work(s'.clients[i]) < Work(c)
            && s'.table == s.table && Stream(s'.clients[i]) == Stream(c)
  {
    ClientKeeps(s, i);
    ExecuteStream(s.clients[i]);
  }

  /** If a client still has an answer to give with the token of a pending call, that client and the server's reader come
      to complete the call, with its own reply. */
  lemma {:induction false} Answered(s: State, i: nat, t: nat) returns (actions: seq<Action>)
    requires Inv(s) && i in s.clients && t in s.table && Mentions(Stream(s.clients[i]), t)
    ensures var s', id := Run(s, actions), s.table[t];
            OnlyOf(i, actions) && id in s'.completed && s'.completed[id] == ToCall(id)
    decreases Work(s.clients[i])
  {
    hide Inv, Apply, Mentions, Stream;
    var c := s.clients[i];
    if c.outbox != [] {
      TakesOne(s, i, t);
      var s1 := Apply(s, ServerStep(i));
      if c.outbox[0].token == t {
        actions := [ServerStep(i)];
        assert actions[1..] == [];
        CompletedRight(s1, s.table[t]);
      } else {
        var rest := Answered(s1, i, t);
        actions := [ServerStep(i)] + rest;
        assert actions[1..] == rest;
      }
    } else {
      SomethingToRead(c, t);
      ClientMoves(s, i);
      var rest := Answered(Apply(s, ClientStep(i)), i, t);
      actions := [ClientStep(i)] + rest;
      assert actions[1..] == rest;
    }
  }

  lemma CompletedRight(s: State, id: nat)
    requires Inv(s) && id in s.completed
    ensures s.completed[id] == ToCall(id)
  {}

  lemma SomethingToRead(c: Client, t: nat)
    requires c.outbox == [] && Mentions(Stream(c), t)
    ensures c.inbox != []
  {}

  /** A call sent to a connected client, with an unused token, can always still be completed by that client alone. */
  lemma CallCompletes(s: State, targets: set<nat>, i: nat) returns (actions: seq<Action>)
    requires Inv(s) && Unused(s, TokenOf(s.next), targets) && i in targets && i in s.clients
    ensures var s' := Run(Apply(s, Issue(targets)), actions);
            OnlyOf(i, actions) && s.next in s'.completed && s'.completed[s.next] == ToCall(s.next)
  {
    hide Answers, LastToken, Settled, Past;
    var c, t := s.clients[i], TokenOf(s.next);
    IssueKeeps(s, targets);
    SendStream(c, [Token(t), Call(s.next)]);
    IssuedCommands(Last(c), t, s.next);
    assert (Stream(c) + [Reply(t, ToCall(s.next))])[|Stream(c)|].token == t;
    actions := Answered(Apply(s, Issue(targets)), i, t);
  }
}
