/** The server's handlers that open, change and close client connections. Each keeps the table, the multicast mask, the
    RTP sender, the scheduler's handles and the primary-device count in agreement. */
module Connections {
  import opened MaskBits
  import opened ConnectionState
  import opened Descriptors

  datatype Config = Config(useTcp: bool, usePipe: bool, useUdp: bool, useRtp: bool, alwaysOn: bool)

  class Server {
    const config: Config
    const slots: array<Slot>
    var mask: bv32
    var handles: set<int>
    var rtp: bool

    /** ForcePrimaryDevice(true) calls minus ForcePrimaryDevice(false) calls. */
    var primary: int

    /** Media-file streamers that took a control connection with them. */
    ghost var detached: nat

    ghost predicate Agree()
      reads this, slots
    {
      && slots.Length == MAXCLIENTS
      && (config.alwaysOn ==> config.useRtp)
      && MaskAgrees(slots[..], mask)
      && HandlesAgree(slots[..], handles)
      && RtpAgrees(mask, rtp, config.alwaysOn)
    }

    /** One claim on the primary device for each open control connection, and one for each media-file streamer ever
        started; no descriptor is held twice. */
    ghost predicate Valid()
      reads this, slots
    {
      Agree() && Tidy(slots[..]) && primary == OpenCount(slots[..]) + detached
    }

    /** The server after it has started to listen. */
    constructor (config: Config)
      requires config.alwaysOn ==> config.useRtp
      ensures Valid() && this.config == config && fresh(slots)
      ensures forall i :: 0 <= i < MAXCLIENTS ==> slots[i] == EMPTY_SLOT
    {
      this.config := config;
      slots := new Slot[MAXCLIENTS](_ => EMPTY_SLOT);
      mask, handles, rtp, primary, detached := 0, {}, config.useRtp && config.alwaysOn, 0, 0;
      new;
      forall i | 0 <= i < MAXCLIENTS
        ensures !Bit(mask, i)
      {
        ZeroHasNoBit(i);
      }
      NoneOpen(slots[..]);
    }

    /** Change a slot's descriptors, but neither its UDP nor its multicast state. */
    method Update(cli: nat, t: Slot)
      requires Agree() && cli < MAXCLIENTS && SameTransport(slots[cli], t)
      modifies slots
      ensures Agree() && slots[..] == old(slots[..])[cli := t]
      ensures OpenCount(slots[..]) == old(OpenCount(slots[..])) - IsOpen(old(slots[cli])) + IsOpen(t)
    {
      MaskSame(slots[..], mask, cli, t);
      HandlesSame(slots[..], handles, cli, t);
      OpenChange(slots[..], cli, t);
      slots[cli] := t;
    }

    /** Clear a client's bit, and stop RTP if that was the last one. */
    method LeaveMulticast(cli: nat, ghost s: seq<Slot>, ghost t: Slot)
      requires |s| == MAXCLIENTS && cli < MAXCLIENTS && !t.multicast
      requires MaskAgrees(s, mask) && RtpAgrees(mask, rtp, config.alwaysOn)
      modifies `mask, `rtp
      ensures MaskAgrees(s[cli := t], mask) && RtpAgrees(mask, rtp, config.alwaysOn)
    {
      MaskClear(s, mask, cli, t);
      RtpClear(mask, !One(cli), rtp, config.alwaysOn);
      mask := mask & !One(cli);
      rtp := rtp && !(mask == 0 && !config.alwaysOn);
    }

    /** Start RTP if no client used it, and set a client's bit. */
    method JoinMulticast(cli: nat, ghost s: seq<Slot>, ghost t: Slot)
      requires |s| == MAXCLIENTS && cli < MAXCLIENTS && t.multicast
      requires MaskAgrees(s, mask) && RtpAgrees(mask, rtp, config.alwaysOn)
      modifies `mask, `rtp
      ensures MaskAgrees(s[cli := t], mask) && RtpAgrees(mask, rtp, config.alwaysOn) && rtp
    {
      MaskSet(s, mask, cli, t);
      rtp := rtp || (mask == 0 && !config.alwaysOn);
      mask := mask | One(cli);
    }

    /** Close a client's data connection of whatever kind. */
    method CloseDataConnection(cli: nat)
      requires Agree() && cli < MAXCLIENTS
      modifies slots, `mask, `handles, `rtp
      ensures Agree() && slots[..] == old(slots[..])[cli := DataClosed(old(slots[cli]))]
      ensures OpenCount(slots[..]) == old(OpenCount(slots[..])) && handles <= old(handles)
    {
      var t := DataClosed(slots[cli]);
      HandlesRemove(slots[..], handles, cli, t);
      OpenChange(slots[..], cli, t);
      if slots[cli].udp && slots[cli].data >= 0 {
        handles := handles - {slots[cli].data};
      }
      LeaveMulticast(cli, slots[..], t);
      slots[cli] := t;
    }

    method CloseOsdConnection(cli: nat)
      requires Agree() && cli < MAXCLIENTS
      modifies slots
      ensures Agree() && slots[..] == old(slots[..])[cli := old(slots[cli]).(osd := -1)]
      ensures OpenCount(slots[..]) == old(OpenCount(slots[..]))
    {
      Update(cli, slots[cli].(osd := -1));
    }

    method CloseStreams(cli: nat)
      requires Agree() && cli < MAXCLIENTS
      modifies slots, `mask, `handles, `rtp
      ensures Agree() && slots[..] == old(slots[..])[cli := DataClosed(old(slots[cli])).(osd := -1)]
      ensures OpenCount(slots[..]) == old(OpenCount(slots[..])) && handles <= old(handles)
    {
      hide MaskAgrees, HandlesAgree, OpenCount;
      CloseDataConnection(cli);
      CloseOsdConnection(cli);
    }

    /** Close everything a client has; an open control connection gives back its claim on the primary device. */
    method CloseConnection(cli: nat)
      requires Agree() && cli < MAXCLIENTS
      modifies slots, `mask, `handles, `rtp, `primary
      ensures Agree() && slots[..] == old(slots[..])[cli := AllClosed(old(slots[cli]))]
      ensures OpenCount(slots[..]) == old(OpenCount(slots[..])) - IsOpen(old(slots[cli]))
      ensures primary == old(primary) - IsOpen(old(slots[cli])) && handles <= old(handles)
    {
      hide MaskAgrees, HandlesAgree, OpenCount;
      CloseStreams(cli);
      if slots[cli].control >= 0 {
        primary := primary - 1;
      }
      Update(cli, AllClosed(slots[cli]));
    }

    /** A new connection takes the first slot without one. `accepted` is false if there is no slot or no permission; if
        the device cannot become primary the slot stays taken. */
    method ClientConnected(fd: int, allowed: bool, maxClients: nat) returns (cli: nat, accepted: bool)
      requires Valid() && fd >= 0 && !Holds(slots[..], fd)
      modifies this, slots
      ensures Valid() && cli <= MAXCLIENTS && detached == old(detached)
      ensures forall i :: 0 <= i < cli ==> old(slots[i].control) >= 0
      ensures accepted <==> allowed && cli < MAXCLIENTS && cli < maxClients
      ensures !accepted ==> slots[..] == old(slots[..]) && primary == old(primary)
      ensures accepted ==>
                && old(slots[cli].control) < 0 && primary == old(primary) + 1
                && slots[..] == old(slots[..])[cli := DataClosed(old(slots[cli])).(control := fd)]
    {
      hide MaskAgrees, HandlesAgree, OpenCount, Tidy, Holds;
      cli := 0;
      while cli < MAXCLIENTS && slots[cli].control >= 0
        invariant cli <= MAXCLIENTS && forall i :: 0 <= i < cli ==> slots[i].control >= 0
      {
        cli := cli + 1;
      }
      ghost var s := slots[..];
      accepted := allowed && cli < maxClients && cli < MAXCLIENTS;
      if accepted {
        ConnectTidy(slots[..], cli, fd);
        CloseDataConnection(cli);
        Update(cli, slots[cli].(control := fd));
        assert slots[..] == s[cli := DataClosed(s[cli]).(control := fd)];
        primary := primary + 1;
      }
    }

    /** `fd` is the pipe's descriptor, negative if it could not be opened. */
    method HandlePipe(cli: nat, fd: int)
      requires Valid() && cli < MAXCLIENTS && slots[cli].control >= 0
      requires fd >= 0 ==> !Holds(slots[..], fd)
      modifies this, slots
      ensures Valid() && primary == old(primary) && detached == old(detached)
      ensures var t := DataClosed(old(slots[cli])).(osd := -1);
              slots[..] == old(slots[..])[cli :=
                if config.usePipe && fd >= 0 then t.(data := fd, writer := true) else t]
    {
      hide MaskAgrees, HandlesAgree, OpenCount, Tidy, Holds;
      ghost var s := slots[..];
      CloseTidy(s, cli);
      if fd >= 0 {
        NewTidy(s, cli, fd);
      }
      CloseStreams(cli);
      if config.usePipe && fd >= 0 {
        Update(cli, slots[cli].(data := fd, writer := true));
        assert slots[..] == s[cli := DataClosed(s[cli]).(osd := -1, data := fd, writer := true)];
      }
    }

    method HandleRtp(cli: nat)
      requires Valid() && cli < MAXCLIENTS && slots[cli].control >= 0
      modifies this, slots
      ensures Valid() && primary == old(primary) && detached == old(detached)
      ensures slots[..] == old(slots[..])[cli := DataClosed(old(slots[cli])).(multicast := config.useRtp)]
      ensures config.useRtp ==> rtp
    {
      hide MaskAgrees, HandlesAgree, OpenCount, Tidy;
      CloseTidy(slots[..], cli);
      CloseDataConnection(cli);
      if config.useRtp {
        RtspPlay(cli);
      }
    }

    /** The client joins the multicast group, keeping what else it has. */
    method RtspPlay(cli: nat)
      requires Valid() && cli < MAXCLIENTS && slots[cli].control >= 0
      modifies slots, `mask, `rtp
      ensures Valid() && rtp && slots[..] == old(slots[..])[cli := old(slots[cli]).(multicast := true)]
    {
      var t := slots[cli].(multicast := true);
      SameTidy(slots[..], cli, t);
      JoinMulticast(cli, slots[..], t);
      HandlesSame(slots[..], handles, cli, t);
      OpenChange(slots[..], cli, t);
      slots[cli] := t;
    }

    /** `fd` is the new socket, negative if there is none; the system gives no descriptor twice. */
    method HandleUdp(cli: nat, fd: int)
      requires Valid() && cli < MAXCLIENTS && slots[cli].control >= 0
      requires fd >= 0 ==> !Holds(slots[..], fd)
      modifies this, slots
      ensures Valid() && primary == old(primary) && detached == old(detached)
      ensures var t := DataClosed(old(slots[cli]));
              slots[..] == old(slots[..])[cli := if config.useUdp && fd >= 0 then t.(udp := true, data := fd) else t]
    {
      hide MaskAgrees, HandlesAgree, OpenCount, Tidy, Holds;
      ghost var s := slots[..];
      CloseTidy(s, cli);
      if fd >= 0 {
        NewTidy(s, cli, fd);
        NewHandle(s, handles, fd);
      }
      CloseDataConnection(cli);
      if config.useUdp && fd >= 0 {
        var t := slots[cli].(udp := true, data := fd);
        HandlesAdd(slots[..], handles, cli, t);
        MaskSame(slots[..], mask, cli, t);
        OpenChange(slots[..], cli, t);
        slots[cli] := t;
        handles := handles + {fd};
        assert slots[..] == s[cli := DataClosed(s[cli]).(udp := true, data := fd)];
      }
    }

    predicate KnownClient(id: int)
      reads slots
    {
      0 <= id < slots.Length && slots[id].control >= 0
    }

    /** Take the descriptor of a control connection; the slot is no longer open. */
    method TakeControl(cli: nat) returns (fd: int)
      requires Agree() && cli < MAXCLIENTS && slots[cli].control >= 0
      modifies slots
      ensures Agree() && fd == old(slots[cli].control)
          && slots[..] == old(slots[..])[cli := old(slots[cli]).(control := -1)]
      ensures OpenCount(slots[..]) == old(OpenCount(slots[..])) - 1
    {
      fd := slots[cli].control;
      Update(cli, slots[cli].(control := -1));
    }

    /** The connection of `cli` becomes the data connection of client `id`. */
    method HandleData(cli: nat, id: int)
      requires Valid() && cli < MAXCLIENTS && slots[cli].control >= 0
      modifies this, slots
      ensures Valid() && primary == old(primary) - 1 && detached == old(detached)
      ensures slots[..] == if config.useTcp && old(KnownClient(id)) then DataMoved(old(slots[..]), cli, id)
                           else old(slots[..])[cli := AllClosed(old(slots[cli]))]
    {
      hide MaskAgrees, HandlesAgree, OpenCount, Tidy;
      ghost var s := slots[..];
      CloseTidy(s, cli);
      if KnownClient(id) {
        DataMovedTidy(s, cli, id);
      }
      CloseStreams(cli);
      if !config.useTcp || !KnownClient(id) {
        CloseConnection(cli);
        assert slots[..] == s[cli := AllClosed(s[cli])];
        return;
      }
      CloseDataConnection(id);
      var fd := TakeControl(cli);
      Update(id, slots[id].(data := fd, writer := true));
      assert slots[..] == DataMoved(s, cli, id);
      primary := primary - 1;
    }

    /** The connection of `cli` becomes the OSD connection of client `id`. */
    method HandleOsd(cli: nat, id: int)
      requires Valid() && cli < MAXCLIENTS && slots[cli].control >= 0
      modifies this, slots
      ensures Valid() && primary == old(primary) - 1 && detached == old(detached)
      ensures slots[..] == if old(KnownClient(id)) then OsdMoved(old(slots[..]), cli, id)
                           else old(slots[..])[cli := AllClosed(old(slots[cli]))]
    {
      hide MaskAgrees, HandlesAgree, OpenCount, Tidy;
      ghost var s := slots[..];
      CloseTidy(s, cli);
      if KnownClient(id) {
        OsdMovedTidy(s, cli, id);
      }
      CloseStreams(cli);
      if !KnownClient(id) {
        CloseConnection(cli);
        assert slots[..] == s[cli := AllClosed(s[cli])];
        return;
      }
      CloseOsdConnection(id);
      var fd := TakeControl(cli);
      Update(id, slots[id].(osd := fd, osdConn := true));
      assert slots[..] == OsdMoved(s, cli, id);
      primary := primary - 1;
    }

    method HandleConfig(cli: nat)
      requires Valid() && cli < MAXCLIENTS && slots[cli].control >= 0
      modifies slots
      ensures Valid() && slots[..] == old(slots[..])[cli := old(slots[cli]).(configured := true)]
    {
      SameTidy(slots[..], cli, slots[cli].(configured := true));
      Update(cli, slots[cli].(configured := true));
    }

    /** A media-file streamer takes the connection over; the slot is closed without giving back its claim on the primary
        device. */
    method DetachForMediaFile(cli: nat)
      requires Valid() && cli < MAXCLIENTS && slots[cli].control >= 0
      modifies this, slots
      ensures Valid() && detached == old(detached) + 1 && primary == old(primary)
      ensures slots[..] == old(slots[..])[cli := AllClosed(old(slots[cli]))]
    {
      hide MaskAgrees, HandlesAgree, OpenCount, Tidy;
      ghost var s := slots[..];
      CloseTidy(s, cli);
      var _ := TakeControl(cli);
      detached := detached + 1;
      CloseConnection(cli);
      assert slots[..] == s[cli := AllClosed(s[cli])];
    }
  }

  lemma {:induction false} NoneOpen(s: seq<Slot>)
    requires forall i :: 0 <= i < |s| ==> s[i].control < 0
    ensures OpenCount(s) == 0
  {
    if s != [] {
      NoneOpen(s[..|s| - 1]);
    }
  }
}
