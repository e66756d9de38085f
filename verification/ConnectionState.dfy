/** The server's table of client connections, and what must agree with it: the multicast bit mask, the RTP sender, the
    handles registered with the UDP scheduler, and the count of claims on the primary device. */
module ConnectionState {
  import opened MaskBits

  const MAX_UDP_HANDLES := 16

  /** A descriptor is -1 when closed. */
  datatype Slot = Slot(control: int, data: int, osd: int, udp: bool, multicast: bool, configured: bool,
                       writer: bool, osdConn: bool)

  const EMPTY_SLOT := Slot(-1, -1, -1, false, false, false, false, false)

  // ---------------------------------------------------------------- closing and moving connections

  /** A slot without a data connection of any kind. */
  function DataClosed(t: Slot): (u: Slot)
    ensures u.data < 0 && !u.writer && !u.udp && !u.multicast && !u.configured
    ensures u.control == t.control && u.osd == t.osd && u.osdConn == t.osdConn
  {
    t.(data := -1, writer := false, udp := false, multicast := false, configured := false)
  }

  function AllClosed(t: Slot): (u: Slot)
    ensures u.control < 0 && u.data < 0 && u.osd < 0
    ensures !u.writer && !u.udp && !u.multicast && !u.configured && !u.osdConn
  {
    DataClosed(t).(osd := -1, osdConn := false, control := if t.control >= 0 then -1 else t.control)
  }

  /** A slot whose data connection is closed may get another descriptor and writer without anything else changing. */
  predicate SameTransport(t: Slot, u: Slot) {
    u.multicast == t.multicast && u.udp == t.udp && (t.udp ==> u.data == t.data)
  }

  /** Client `cli`'s connection becomes the data connection of client `id`, which loses the one it had. */
  function DataMoved(s: seq<Slot>, cli: nat, id: nat): (r: seq<Slot>)
    requires cli < |s| && id < |s|
    ensures |r| == |s|
  {
    var s1 := s[cli := DataClosed(s[cli]).(osd := -1)];
    var s2 := s1[id := DataClosed(s1[id])];
    var s3 := s2[cli := s2[cli].(control := -1)];
    s3[id := s3[id].(data := s[cli].control, writer := true)]
  }

  /** Client `cli`'s connection becomes the OSD connection of client `id`. */
  function OsdMoved(s: seq<Slot>, cli: nat, id: nat): (r: seq<Slot>)
    requires cli < |s| && id < |s|
    ensures |r| == |s|
  {
    var s1 := s[cli := DataClosed(s[cli]).(osd := -1, control := -1)];
    s1[id := s1[id].(osd := s[cli].control, osdConn := true)]
  }

  // ---------------------------------------------------------------- agreement

  function IsOpen(t: Slot): nat {
    if t.control >= 0 then 1 else 0
  }

  /** How many slots hold an open control connection. */
  function OpenCount(s: seq<Slot>): nat {
    if s == [] then 0 else OpenCount(s[..|s| - 1]) + IsOpen(s[|s| - 1])
  }

  /** The mask is exactly the slots that use multicast. */
  ghost predicate MaskAgrees(s: seq<Slot>, mask: bv32)
    requires |s| == MAXCLIENTS
  {
    Small(mask) && forall i :: 0 <= i < MAXCLIENTS ==> (Bit(mask, i) <==> s[i].multicast)
  }

  /** The registered handles are exactly the data descriptors of the UDP slots, all different. */
  ghost predicate HandlesAgree(s: seq<Slot>, handles: set<int>) {
    && (forall i :: 0 <= i < |s| && s[i].udp ==> s[i].data >= 0 && s[i].data in handles)
    && (forall h :: h in handles ==> exists i :: 0 <= i < |s| && s[i].udp && s[i].data == h)
    && (forall i, j :: 0 <= i < j < |s| && s[i].udp && s[j].udp ==> s[i].data != s[j].data)
  }

  /** RTP is sent exactly while some slot uses multicast, or always. */
  ghost predicate RtpAgrees(mask: bv32, rtp: bool, alwaysOn: bool) {
    rtp <==> mask != 0 || alwaysOn
  }

  /** Clearing a bit, and stopping RTP if that was the last one. */
  lemma RtpClear(mask: bv32, x: bv32, rtp: bool, alwaysOn: bool)
    requires RtpAgrees(mask, rtp, alwaysOn)
    ensures RtpAgrees(mask & x, if mask & x == 0 && !alwaysOn then false else rtp, alwaysOn)
  {
    AndOfZero(x);
  }

  lemma AndOfZero(x: bv32)
    ensures 0 & x == 0
  {}

  lemma MaskZero(s: seq<Slot>, mask: bv32)
    requires |s| == MAXCLIENTS && MaskAgrees(s, mask)
    ensures mask == 0 <==> forall i :: 0 <= i < MAXCLIENTS ==> !s[i].multicast
  {
    if forall i :: 0 <= i < MAXCLIENTS ==> !s[i].multicast {
      NoBits(mask);
    } else {
      var i :| 0 <= i < MAXCLIENTS && s[i].multicast;
      assert Bit(mask, i);
      ZeroHasNoBit(i);
    }
  }

  lemma ZeroHasNoBit(i: nat)
    requires i < 32
    ensures !Bit(0, i)
  {}

  lemma MaskSet(s: seq<Slot>, mask: bv32, i: nat, t: Slot)
    requires |s| == MAXCLIENTS && MaskAgrees(s, mask) && i < MAXCLIENTS && t.multicast
    ensures MaskAgrees(s[i := t], mask | One(i)) && mask | One(i) != 0
  {
    OneSmall(i);
    OrSmall(mask, One(i));
    var s', mask' := s[i := t], mask | One(i);
    forall j | 0 <= j < MAXCLIENTS
      ensures Bit(mask', j) <==> s'[j].multicast
    {
      if i == j {
        SetThis(mask, i);
      } else {
        SetOther(mask, i, j);
      }
    }
    MaskZero(s[i := t], mask | One(i));
  }

  lemma MaskClear(s: seq<Slot>, mask: bv32, i: nat, t: Slot)
    requires |s| == MAXCLIENTS && MaskAgrees(s, mask) && i < MAXCLIENTS && !t.multicast
    ensures MaskAgrees(s[i := t], mask & !One(i))
  {
    AndSmall(mask, !One(i));
    var s', mask' := s[i := t], mask & !One(i);
    forall j | 0 <= j < MAXCLIENTS
      ensures Bit(mask', j) <==> s'[j].multicast
    {
      if i == j {
        ClearThis(mask, i);
      } else {
        ClearOther(mask, i, j);
      }
    }
  }

  lemma MaskSame(s: seq<Slot>, mask: bv32, i: nat, t: Slot)
    requires |s| == MAXCLIENTS && MaskAgrees(s, mask) && i < MAXCLIENTS && t.multicast == s[i].multicast
    ensures MaskAgrees(s[i := t], mask)
  {}

  lemma HandlesRemove(s: seq<Slot>, handles: set<int>, i: nat, t: Slot)
    requires HandlesAgree(s, handles) && i < |s| && !t.udp
    ensures HandlesAgree(s[i := t], if s[i].udp && s[i].data >= 0 then handles - {s[i].data} else handles)
  {
    var s', handles' := s[i := t], if s[i].udp && s[i].data >= 0 then handles - {s[i].data} else handles;
    forall h | h in handles'
      ensures exists k :: 0 <= k < |s'| && s'[k].udp && s'[k].data == h
    {
      var k :| 0 <= k < |s| && s[k].udp && s[k].data == h;
      assert s'[k] == s[k];
    }
  }

  lemma HandlesAdd(s: seq<Slot>, handles: set<int>, i: nat, t: Slot)
    requires HandlesAgree(s, handles) && i < |s| && !s[i].udp && t.udp && t.data >= 0 && t.data !in handles
    ensures HandlesAgree(s[i := t], handles + {t.data})
  {
    var s', handles' := s[i := t], handles + {t.data};
    forall h | h in handles'
      ensures exists k :: 0 <= k < |s'| && s'[k].udp && s'[k].data == h
    {
      if h == t.data {
        assert s'[i].data == h;
      } else {
        var k :| 0 <= k < |s| && s[k].udp && s[k].data == h;
        assert s'[k] == s[k];
      }
    }
  }

  lemma HandlesSame(s: seq<Slot>, handles: set<int>, i: nat, t: Slot)
    requires HandlesAgree(s, handles) && i < |s| && t.udp == s[i].udp && (t.udp ==> t.data == s[i].data)
    ensures HandlesAgree(s[i := t], handles)
  {
    var s' := s[i := t];
    forall h | h in handles
      ensures exists k :: 0 <= k < |s'| && s'[k].udp && s'[k].data == h
    {
      var k :| 0 <= k < |s| && s[k].udp && s[k].data == h;
      assert s'[k].data == h;
    }
  }

  lemma {:induction false} OpenChange(s: seq<Slot>, i: nat, t: Slot)
    requires i < |s|
    ensures OpenCount(s[i := t]) == OpenCount(s) - IsOpen(s[i]) + IsOpen(t)
  {
    var n, s' := |s| - 1, s[i := t];
    if i == n {
      assert s'[..n] == s[..n];
    } else {
      assert s'[..n] == s[..n][i := t];
      OpenChange(s[..n], i, t);
    }
  }

  /** The scheduler's handle list never fills up: there is room for every UDP slot and the multicast socket. */
  lemma HandlesFit(s: seq<Slot>, handles: set<int>)
    requires |s| == MAXCLIENTS && HandlesAgree(s, handles)
    ensures |handles| + 1 < MAX_UDP_HANDLES
  {
    HandlesCount(s, handles);
  }

  lemma {:induction false} HandlesCount(s: seq<Slot>, handles: set<int>)
    requires HandlesAgree(s, handles)
    ensures |handles| <= |s|
  {
    if s != [] {
      var n := |s| - 1;
      var s', handles' := s[..n], if s[n].udp then handles - {s[n].data} else handles;
      forall h | h in handles'
        ensures exists k :: 0 <= k < |s'| && s'[k].udp && s'[k].data == h
      {
        var k :| 0 <= k < |s| && s[k].udp && s[k].data == h;
        assert s'[k] == s[k];
      }
      HandlesCount(s', handles');
    } else {
      assert forall h :: h in handles <==> h in {};
      assert handles == {};
    }
  }
}
