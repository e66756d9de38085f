/** Where the descriptors in the table of connections go: each is held once, and none is lost when a connection moves to
    another client. */
module Descriptors {
  import opened ConnectionState

  datatype Role = ControlRole | DataRole | OsdRole

  function Held(t: Slot, r: Role): int {
    match r
    case ControlRole => t.control
    case DataRole => t.data
    case OsdRole => t.osd
  }

  /** No descriptor is held twice. */
  ghost predicate Distinct(s: seq<Slot>) {
    forall i, j, q, r :: 0 <= i < |s| && 0 <= j < |s| && Held(s[i], q) >= 0 && Held(s[i], q) == Held(s[j], r) ==>
      i == j && q == r
  }

  ghost predicate Holds(s: seq<Slot>, fd: int) {
    exists i, r :: 0 <= i < |s| && Held(s[i], r) == fd
  }

  /** A data connection has a writer or is UDP, not both, and neither is there without one; an OSD connection is known
      to be one. */
  ghost predicate Tidy(s: seq<Slot>) {
    && Distinct(s)
    && forall i :: 0 <= i < |s| ==>
         && (s[i].data >= 0 <==> s[i].writer || s[i].udp) && !(s[i].writer && s[i].udp)
         && (s[i].osd >= 0 ==> s[i].osdConn)
  }

  /** Closing connections of a slot gives up just their descriptors. */
  ghost predicate GivenUp(s: seq<Slot>, s': seq<Slot>, gone: set<int>) {
    forall fd {:trigger Holds(s', fd)} :: fd >= 0 ==> (Holds(s', fd) <==> Holds(s, fd) && fd !in gone)
  }

  /** What `t` gives up of what `u` held. */
  predicate Dropped(u: Slot, t: Slot, fd: int) {
    (u.control == fd && t.control < 0) || (u.data == fd && t.data < 0) || (u.osd == fd && t.osd < 0)
  }

  predicate Keeps(u: Slot, t: Slot, r: Role) {
    Held(t, r) == Held(u, r) || Held(t, r) < 0
  }

  lemma Drop(s: seq<Slot>, i: nat, t: Slot)
    requires Distinct(s) && i < |s|
    requires Keeps(s[i], t, ControlRole) && Keeps(s[i], t, DataRole) && Keeps(s[i], t, OsdRole)
    ensures Distinct(s[i := t])
    ensures forall fd {:trigger Holds(s[i := t], fd)} :: fd >= 0 ==>
              (Holds(s[i := t], fd) <==> Holds(s, fd) && !Dropped(s[i], t, fd))
  {
    var s' := s[i := t];
    forall r
      ensures Keeps(s[i], t, r)
    {
      AnyRole(s[i], t, r);
    }
    assert forall j, r :: 0 <= j < |s| && Held(s'[j], r) >= 0 ==> Held(s'[j], r) == Held(s[j], r);
    assert Distinct(s');
    forall fd | fd >= 0
      ensures Holds(s', fd) <==> Holds(s, fd) && !Dropped(s[i], t, fd)
    {
      DropOne(s, i, t, fd);
    }
  }

  lemma AnyRole(u: Slot, t: Slot, r: Role)
    requires Keeps(u, t, ControlRole) && Keeps(u, t, DataRole) && Keeps(u, t, OsdRole)
    ensures Keeps(u, t, r)
  {
    match r
    case ControlRole =>
    case DataRole =>
    case OsdRole =>
  }

  lemma DropOne(s: seq<Slot>, i: nat, t: Slot, fd: int)
    requires Distinct(s) && i < |s| && fd >= 0 && forall r :: Keeps(s[i], t, r)
    ensures Holds(s[i := t], fd) <==> Holds(s, fd) && !Dropped(s[i], t, fd)
  {
    var s' := s[i := t];
    assert s[i].control == Held(s[i], ControlRole) && t.control == Held(t, ControlRole);
    assert s[i].data == Held(s[i], DataRole) && t.data == Held(t, DataRole);
    assert s[i].osd == Held(s[i], OsdRole) && t.osd == Held(t, OsdRole);
    if j, r :| 0 <= j < |s| && Held(s'[j], r) == fd {
      assert Keeps(s[i], t, r);
      assert Held(s[j], r) == fd;
    }
    if j, r :| 0 <= j < |s| && Held(s[j], r) == fd && !Dropped(s[i], t, fd) {
      assert Keeps(s[i], t, r);
      assert Held(s'[j], r) == fd;
    }
  }

  lemma Add(s: seq<Slot>, i: nat, t: Slot, q: Role)
    requires Distinct(s) && i < |s| && Held(s[i], q) < 0 && Held(t, q) >= 0 && !Holds(s, Held(t, q))
    requires forall r :: r != q ==> Held(t, r) == Held(s[i], r)
    ensures Distinct(s[i := t])
    ensures forall fd {:trigger Holds(s[i := t], fd)} :: fd >= 0 ==>
              (Holds(s[i := t], fd) <==> Holds(s, fd) || fd == Held(t, q))
  {
    var s' := s[i := t];
    assert forall j, r :: 0 <= j < |s| && (j != i || r != q) ==> Held(s'[j], r) == Held(s[j], r);
    forall fd | fd >= 0
      ensures Holds(s', fd) <==> Holds(s, fd) || fd == Held(t, q)
    {
      if Holds(s', fd) {
        var j, r :| 0 <= j < |s| && Held(s'[j], r) == fd;
      }
      if Holds(s, fd) {
        var j, r :| 0 <= j < |s| && Held(s[j], r) == fd;
        assert Held(s'[j], r) == fd;
      }
      assert Held(s'[i], q) == Held(t, q);
    }
  }

  lemma HoldsAll(s: seq<Slot>, i: nat)
    requires i < |s|
    ensures Holds(s, s[i].control) && Holds(s, s[i].data) && Holds(s, s[i].osd)
  {
    assert Held(s[i], ControlRole) == s[i].control && Held(s[i], DataRole) == s[i].data;
    assert Held(s[i], OsdRole) == s[i].osd;
  }

  /** The three descriptors of a slot, and those of different slots, differ. */
  lemma Differ(s: seq<Slot>, i: nat, j: nat)
    requires Distinct(s) && i < |s| && j < |s| && s[i].control >= 0
    ensures s[i].control != s[j].data && s[i].control != s[j].osd && (i != j ==> s[i].control != s[j].control)
  {
    assert Held(s[i], ControlRole) == s[i].control && Held(s[j], ControlRole) == s[j].control;
    assert Held(s[j], DataRole) == s[j].data && Held(s[j], OsdRole) == s[j].osd;
  }

  lemma CloseTidy(s: seq<Slot>, cli: nat)
    requires Tidy(s) && cli < |s|
    ensures var s' := s[cli := AllClosed(s[cli])];
            Tidy(s') && GivenUp(s, s', {s[cli].control, s[cli].data, s[cli].osd})
    ensures var s' := s[cli := DataClosed(s[cli]).(osd := -1)];
            Tidy(s') && GivenUp(s, s', {s[cli].data, s[cli].osd})
    ensures var s' := s[cli := DataClosed(s[cli])];
            Tidy(s') && GivenUp(s, s', {s[cli].data})
  {
    hide Distinct, Holds;
    Drop(s, cli, AllClosed(s[cli]));
    Drop(s, cli, DataClosed(s[cli]).(osd := -1));
    Drop(s, cli, DataClosed(s[cli]));
  }

  /** A change that leaves descriptors, writer and UDP alone. */
  lemma SameTidy(s: seq<Slot>, cli: nat, t: Slot)
    requires Tidy(s) && cli < |s|
    requires t == s[cli].(multicast := t.multicast, configured := t.configured)
    ensures Tidy(s[cli := t])
  {
    hide Distinct, Holds;
    Drop(s, cli, t);
  }

  /** A new pipe or UDP socket as data connection. */
  lemma NewTidy(s: seq<Slot>, cli: nat, fd: int)
    requires Tidy(s) && cli < |s| && fd >= 0 && !Holds(s, fd)
    ensures Tidy(s[cli := DataClosed(s[cli]).(osd := -1, data := fd, writer := true)])
    ensures Tidy(s[cli := DataClosed(s[cli]).(udp := true, data := fd)])
  {
    hide Distinct, Holds;
    CloseTidy(s, cli);
    var t, u := DataClosed(s[cli]).(osd := -1), DataClosed(s[cli]);
    Add(s[cli := t], cli, t.(data := fd, writer := true), DataRole);
    Add(s[cli := u], cli, u.(udp := true, data := fd), DataRole);
    assert s[cli := t][cli := t.(data := fd, writer := true)] == s[cli := t.(data := fd, writer := true)];
    assert s[cli := u][cli := u.(udp := true, data := fd)] == s[cli := u.(udp := true, data := fd)];
  }

  /** A new control connection. */
  lemma ConnectTidy(s: seq<Slot>, cli: nat, fd: int)
    requires Tidy(s) && cli < |s| && fd >= 0 && !Holds(s, fd) && s[cli].control < 0
    ensures Tidy(s[cli := DataClosed(s[cli]).(control := fd)])
  {
    hide Distinct, Holds;
    CloseTidy(s, cli);
    var t := DataClosed(s[cli]);
    Add(s[cli := t], cli, t.(control := fd), ControlRole);
    assert s[cli := t][cli := t.(control := fd)] == s[cli := t.(control := fd)];
  }

  /** A descriptor that is not in the table is not registered with the scheduler. */
  lemma NewHandle(s: seq<Slot>, handles: set<int>, fd: int)
    requires HandlesAgree(s, handles) && !Holds(s, fd)
    ensures fd !in handles
  {
    if fd in handles {
      var i :| 0 <= i < |s| && s[i].udp && s[i].data == fd;
      HoldsAll(s, i);
    }
  }

  /** The control connection of `cli` is afterwards the data connection of `id`; what is given up is what `cli` had
      besides and the data connection that `id` had. */
  lemma DataMovedTidy(s: seq<Slot>, cli: nat, id: nat)
    requires Tidy(s) && cli < |s| && id < |s| && s[cli].control >= 0
    ensures var s' := DataMoved(s, cli, id);
            && Tidy(s') && s'[id].data == s[cli].control && s'[id].writer && s'[cli].control < 0
            && (cli != id ==> s'[id].control == s[id].control && s'[id].osd == s[id].osd)
            && (forall k :: 0 <= k < |s| && k != cli && k != id ==> s'[k] == s[k])
            && GivenUp(s, s', {s[cli].data, s[cli].osd, s[id].data})
  {
    hide Distinct, Holds;
    var fd := s[cli].control;
    HoldsAll(s, cli);
    Differ(s, cli, cli);
    Differ(s, cli, id);
    Drop(s, cli, DataClosed(s[cli]).(osd := -1));
    var s1 := s[cli := DataClosed(s[cli]).(osd := -1)];
    Drop(s1, id, DataClosed(s1[id]));
    var s2 := s1[id := DataClosed(s1[id])];
    Drop(s2, cli, s2[cli].(control := -1));
    var s3 := s2[cli := s2[cli].(control := -1)];
    Add(s3, id, s3[id].(data := fd, writer := true), DataRole);
  }

  /** Likewise for an OSD connection. */
  lemma OsdMovedTidy(s: seq<Slot>, cli: nat, id: nat)
    requires Tidy(s) && cli < |s| && id < |s| && s[cli].control >= 0
    ensures var s' := OsdMoved(s, cli, id);
            && Tidy(s') && s'[id].osd == s[cli].control && s'[cli].control < 0
            && (cli != id ==> s'[id] == s[id].(osd := s'[id].osd, osdConn := true))
            && (forall k :: 0 <= k < |s| && k != cli && k != id ==> s'[k] == s[k])
            && GivenUp(s, s', {s[cli].data, s[cli].osd, s[id].osd})
  {
    hide Distinct, Holds;
    var fd := s[cli].control;
    HoldsAll(s, cli);
    Differ(s, cli, cli);
    Differ(s, cli, id);
    var t := DataClosed(s[cli]).(osd := -1, control := -1);
    Drop(s, cli, t);
    var s1 := s[cli := t];
    Drop(s1, id, s1[id].(osd := -1));
    var s2 := s1[id := s1[id].(osd := -1)];
    Add(s2, id, s2[id].(osd := fd, osdConn := true), OsdRole);
    assert s2[id := s2[id].(osd := fd, osdConn := true)] == OsdMoved(s, cli, id);
  }
}
