/** Why a token must be unused when it is given out, part by part of what that means. */
module RpcReuse {
  import opened RpcTokens

  /** Every completed call was completed by a reply to its own command. */
  ghost predicate AllRight(s: State) {
    forall id :: id in s.completed ==> s.completed[id] == ToCall(id)
  }

  lemma {:induction false} RunRun(s: State, a: seq<Action>, b: seq<Action>)
    ensures Run(s, a + b) == Run(Run(s, a), b)
    ensures AllowedRun(s, a + b) <==> AllowedRun(s, a) && AllowedRun(Run(s, a), b)
    decreases |a|
  {
    if a == [] {
      assert a + b == b;
    } else {
      assert (a + b)[1..] == a[1..] + b;
      RunRun(Apply(s, a[0]), a[1..], b);
    }
  }

  // ---------------------------------------------------------------- a wrong reply arrives

  /** The client answers everything it has been sent. */
  lemma {:induction false} AnswerAll(s: State, i: nat) returns (actions: seq<Action>)
    requires i in s.clients
    ensures AllowedRun(s, actions)
    ensures var c, s' := s.clients[i], Run(s, actions);
            i in s'.clients && s'.clients[i].outbox == Stream(c) && s'.table == s.table
    decreases |s.clients[i].inbox|
  {
    var c := s.clients[i];
    if c.inbox == [] {
      actions := [];
      assert c.outbox + [] == c.outbox;
    } else {
      ExecuteStream(c);
      var rest := AnswerAll(Apply(s, ClientStep(i)), i);
      actions := [ClientStep(i)] + rest;
      assert actions[1..] == rest;
    }
  }

  /** The first reply with token `t` is reply `k`, and it is not about call `id`. */
  ghost predicate FirstWrong(stream: seq<Reply>, t: nat, id: nat, k: nat) {
    && k < |stream| && stream[k].token == t && stream[k].origin != ToCall(id)
    && forall j :: 0 <= j < k ==> stream[j].token != t
  }

  /** The server reads replies up to the first one with token `t`, which completes the wrong call. */
  lemma {:induction false} ReadUpTo(s: State, i: nat, t: nat, id: nat, k: nat) returns (actions: seq<Action>)
    requires i in s.clients && t in s.table && s.table[t] == id && FirstWrong(s.clients[i].outbox, t, id, k)
    ensures AllowedRun(s, actions) && !AllRight(Run(s, actions))
    decreases k
  {
    var s' := Apply(s, ServerStep(i));
    if k == 0 {
      actions := [ServerStep(i)];
      assert actions[1..] == [];
      assert id in s'.completed && s'.completed[id] != ToCall(id);
    } else {
      var rest := ReadUpTo(s', i, t, id, k - 1);
      actions := [ServerStep(i)] + rest;
      assert actions[1..] == rest;
    }
  }

  lemma Misled(s: State, i: nat, t: nat, id: nat, k: nat) returns (actions: seq<Action>)
    requires i in s.clients && t in s.table && s.table[t] == id && FirstWrong(Stream(s.clients[i]), t, id, k)
    ensures AllowedRun(s, actions) && !AllRight(Run(s, actions))
  {
    var a := AnswerAll(s, i);
    var b := ReadUpTo(Run(s, a), i, t, id, k);
    actions := a + b;
    RunRun(s, a, b);
  }

  /** The same after a PLAYFILE without a token, if the client's last token is `t`. */
  lemma MisledByPlayFile(s: State, i: nat, t: nat, id: nat) returns (actions: seq<Action>)
    requires i in s.clients && t in s.table && s.table[t] == id && Last(s.clients[i]) == t
    requires !Mentions(Stream(s.clients[i]), t)
    ensures AllowedRun(s, actions) && !AllRight(Run(s, actions))
  {
    var c, s' := s.clients[i], Apply(s, Configure(i));
    SendStream(c, [PlayFile]);
    OneCommand(t, PlayFile);
    assert Stream(s'.clients[i]) == Stream(c) + [Reply(t, ToConfiguration)];
    var rest := Misled(s', i, t, id, |Stream(c)|);
    actions := [Configure(i)] + rest;
    assert actions[1..] == rest;
  }

  lemma {:induction false} FirstMention(stream: seq<Reply>, t: nat) returns (k: nat)
    requires Mentions(stream, t)
    ensures k < |stream| && stream[k].token == t && forall j :: 0 <= j < k ==> stream[j].token != t
    decreases |stream|
  {
    if stream[0].token == t {
      k := 0;
    } else {
      var m :| 0 <= m < |stream| && stream[m].token == t;
      assert stream[1..][m - 1].token == t;
      var n := FirstMention(stream[1..], t);
      k := n + 1;
      assert forall j :: 1 <= j < k ==> stream[j] == stream[1..][j - 1];
    }
  }

  // ---------------------------------------------------------------- the proviso is exact

  /** Given out although not unused: some later run is misled. */
  lemma Reused(s: State, targets: set<nat>, i: nat) returns (actions: seq<Action>)
    requires Inv(s) && i in s.clients
    requires var c, t := s.clients[i], TokenOf(s.next);
             Mentions(Stream(c), t) || (i !in targets && Last(c) == t)
    ensures var s' := Apply(s, Issue(targets));
            AllowedRun(s', actions) && !AllRight(Run(s', actions))
  {
    var c, t, id, s' := s.clients[i], TokenOf(s.next), s.next, Apply(s, Issue(targets));
    if Mentions(Stream(c), t) {
      var k := FirstMention(Stream(c), t);
      SendStream(c, [Token(t), Call(id)]);
      assert FirstWrong(Stream(s'.clients[i]), t, id, k);
      actions := Misled(s', i, t, id, k);
    } else {
      actions := MisledByPlayFile(s', i, t, id);
    }
  }

  /** A token that is not pending may be given out, with a command to `targets`, exactly if it is unused: then every
      later run, in which the same care is taken, completes every call with a reply to its own command. */
  lemma UnusedDecides(s: State, targets: set<nat>)
    requires Inv(s) && TokenOf(s.next) !in s.table
    ensures Unused(s, TokenOf(s.next), targets) <==>
            forall actions :: AllowedRun(Apply(s, Issue(targets)), actions) ==>
                AllRight(Run(Apply(s, Issue(targets)), actions))
  {
    var s' := Apply(s, Issue(targets));
    if Unused(s, TokenOf(s.next), targets) {
      IssueKeeps(s, targets);
      forall actions | AllowedRun(s', actions)
        ensures AllRight(Run(s', actions))
      {
        OwnRepliesOnly(s', actions);
      }
    } else {
      var t := TokenOf(s.next);
      var i :| i in s.clients && (Mentions(Stream(s.clients[i]), t) || (i !in targets && Last(s.clients[i]) == t));
      var actions := Reused(s, targets, i);
    }
  }

  /** A client may connect exactly if token 0 is not pending. */
  lemma ConnectDecides(s: State, i: nat)
    requires Inv(s) && i !in s.clients
    ensures 0 !in s.table <==>
            forall actions :: AllowedRun(Apply(s, Connect(i)), actions) ==> AllRight(Run(Apply(s, Connect(i)), actions))
  {
    var s' := Apply(s, Connect(i));
    if 0 !in s.table {
      StepKeeps(s, Connect(i));
      forall actions | AllowedRun(s', actions)
        ensures AllRight(Run(s', actions))
      {
        OwnRepliesOnly(s', actions);
      }
    } else {
      var actions := MisledByPlayFile(s', i, 0, s.table[0]);
    }
  }

  // ---------------------------------------------------------------- each part, from server start

  /** Every client was sent token `x` last, and has nothing to say but replies with it. */
  ghost predicate OnlyToken(s: State, x: nat) {
    forall i :: i in s.clients ==>
      Last(s.clients[i]) == x
      && forall k :: 0 <= k < |Stream(s.clients[i])| ==> Stream(s.clients[i])[k].token == x
  }

  lemma IdleCall(s: State, x: nat)
    requires Inv(s) && s.table == map[] && OnlyToken(s, x) && TokenOf(s.next) != x
    ensures var s1 := Apply(s, Issue({}));
            var s2 := Apply(s1, Return(s.next));
            && Allowed(s, Issue({})) && Allowed(s1, Return(s.next)) && Inv(s2) && OnlyToken(s2, x)
            && s2 == s.(next := s.next + 1, returned := s.returned + {s.next})
  {
    hide FirstRight, Settled, Answers, LastToken, Past;
    var s1 := Apply(s, Issue({}));
    assert Unused(s, TokenOf(s.next), {});
    IssueKeeps(s, {});
    assert s1.clients == s.clients;
    ReturnKeeps(s1, s.next);
    assert s1.table - {TokenOf(s.next)} == map[];
  }

  /** `n` calls that no client is told of. */
  lemma {:induction false} IdleCalls(s: State, n: nat, x: nat) returns (actions: seq<Action>)
    requires Inv(s) && s.table == map[] && OnlyToken(s, x)
    requires forall id :: s.next <= id < s.next + n ==> TokenOf(id) != x
    ensures AllowedRun(s, actions)
    ensures var s' := Run(s, actions);
            s' == s.(next := s.next + n, returned := s'.returned) && Inv(s')
    decreases n
  {
    hide Inv, OnlyToken, Allowed;
    if n == 0 {
      actions := [];
    } else {
      IdleCall(s, x);
      var s2 := Apply(Apply(s, Issue({})), Return(s.next));
      var rest := IdleCalls(s2, n - 1, x);
      actions := [Issue({}), Return(s.next)] + rest;
      assert actions[1..] == [Return(s.next)] + rest && actions[1..][1..] == rest;
    }
  }

  /** A client is connected and asked. */
  const ASKED := State(1, map[2 := 0], map[0 := Client(0, [Token(2), Call(0)], [])], map[], {})

  lemma Asked()
    ensures AllowedRun(START, [Connect(0), Issue({0})]) && Run(START, [Connect(0), Issue({0})]) == ASKED
  {
    var s1 := Apply(START, Connect(0));
    assert s1 == START.(clients := map[0 := Client(0, [], [])]);
    assert [] + [Token(2), Call(0)] == [Token(2), Call(0)];
    assert Apply(s1, Issue({0})) == ASKED;
    assert [Connect(0), Issue({0})][1..] == [Issue({0})] && |[Issue({0})][1..]| == 0;
  }

  lemma Replied()
    ensures var s := Run(ASKED, [ClientStep(0), ClientStep(0)]);
            AllowedRun(ASKED, [ClientStep(0), ClientStep(0)])
            && s == ASKED.(clients := map[0 := Client(2, [], [Reply(2, ToCall(0))])])
  {
    var s1 := Apply(ASKED, ClientStep(0));
    assert [Token(2), Call(0)][1..] == [Call(0)] && |[Call(0)][1..]| == 0;
    assert s1 == ASKED.(clients := map[0 := Client(2, [Call(0)], [])]);
    assert [] + [Reply(2, ToCall(0))] == [Reply(2, ToCall(0))];
    assert [ClientStep(0), ClientStep(0)][1..] == [ClientStep(0)] && |[ClientStep(0)][1..]| == 0;
  }

  lemma LastStep(s: State, a: Action)
    ensures Run(s, [a]) == Apply(s, a) && (AllowedRun(s, [a]) <==> Allowed(s, a))
  {
    assert |[a][1..]| == 0;
  }

  /** The first call: its caller gives up before the reply is read, or is answered. */
  lemma Prepared(last: Action)
    requires last == Return(0) || last == ServerStep(0)
    ensures var actions := [Connect(0), Issue({0})] + ([ClientStep(0), ClientStep(0)] + [last]);
            var s := Run(START, actions);
            && AllowedRun(START, actions) && Inv(s) && s.next == 1 && s.table == map[]
            && s.clients == map[0 := Client(2, [], if last.Return? then [Reply(2, ToCall(0))] else [])]
  {
    Asked();
    Replied();
    var a, b: seq<Action> := [Connect(0), Issue({0})], [ClientStep(0), ClientStep(0)];
    var s := Run(ASKED, b);
    LastStep(s, last);
    RunRun(ASKED, b, [last]);
    RunRun(START, a, b + [last]);
    assert map[2 := 0] - {2} == map[];
    OwnRepliesOnly(START, a + (b + [last]));
  }

  /** After 65535 more calls the token comes round again. */
  lemma ComesRound(last: Action) returns (actions: seq<Action>)
    requires last == Return(0) || last == ServerStep(0)
    ensures AllowedRun(START, actions)
    ensures var s := Run(START, actions);
            && Inv(s) && TokenOf(s.next) == 2 && s.table == map[]
            && s.clients == map[0 := Client(2, [], if last.Return? then [Reply(2, ToCall(0))] else [])]
  {
    Prepared(last);
    var first := [Connect(0), Issue({0})] + ([ClientStep(0), ClientStep(0)] + [last]);
    var s := Run(START, first);
    var rest := IdleCalls(s, TOKEN_RANGE - 1, 2);
    RunRun(START, first, rest);
    actions := first + rest;
  }

  /** From server start: only a reply still on its way has the token, and the new call gets it. */
  lemma StaleRun() returns (actions: seq<Action>, after: seq<Action>)
    ensures AllowedRun(START, actions)
    ensures var s := Run(START, actions);
            && TokenOf(s.next) !in s.table && s.clients.Keys == {0}
            && AllowedRun(Apply(s, Issue({0})), after) && !AllRight(Run(Apply(s, Issue({0})), after))
  {
    actions := ComesRound(Return(0));
    var s := Run(START, actions);
    assert Stream(s.clients[0])[0].token == TokenOf(s.next);
    after := Reused(s, {0}, 0);
  }

  /** From server start: the token is nowhere but with a client that was sent it last. A PLAYFILE without a token then
      completes a call that this client was never told of. */
  lemma LastTokenRun() returns (actions: seq<Action>, after: seq<Action>)
    ensures AllowedRun(START, actions)
    ensures var s := Run(START, actions);
            && TokenOf(s.next) !in s.table && (forall i :: i in s.clients ==> Stream(s.clients[i]) == [])
            && AllowedRun(Apply(s, Issue({})), after) && !AllRight(Run(Apply(s, Issue({})), after))
  {
    actions := ComesRound(ServerStep(0));
    var s := Run(START, actions);
    after := Reused(s, {}, 0);
  }

  /** From server start: a client connects while the call with token 0 is pending, and the PLAYFILE it is sent completes
      that call. */
  lemma ConnectRun() returns (actions: seq<Action>, after: seq<Action>)
    ensures AllowedRun(START, actions)
    ensures var s := Run(START, actions);
            && 0 in s.table && s.clients == map[]
            && AllowedRun(Apply(s, Connect(0)), after) && !AllRight(Run(Apply(s, Connect(0)), after))
  {
    var first := IdleCalls(START, TOKEN_RANGE - 2, TOKEN_RANGE);
    var s1 := Run(START, first);
    LastStep(s1, Issue({}));
    RunRun(START, first, [Issue({})]);
    actions := first + [Issue({})];
    var s := Run(START, actions);
    after := MisledByPlayFile(Apply(s, Connect(0)), 0, 0, s.table[0]);
  }
}
