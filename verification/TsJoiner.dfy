/** The buffer that joins transport stream packets into larger blocks, and the credits that front ends grant. */
module TsJoiner {
  import opened Bytes

  const TS_SIZE := 188
  const BUFFER_SIZE := 4096
  const DEFAULT_POLL_SIZE := 16

  /** What the surroundings say while one block is offered: the player's state, how many blocks the local front end and
      the server have room for, and how much of the block the local front end would take. The server takes all it is
      given. */
  datatype Answers = Answers(playingFile: bool, paused: bool, poller: bool, localRoom: int, serverRoom: int,
                             localTakes: nat)

  function Min(a: int, b: int): int {
    if a < b then a else b
  }

  function NotNegative(n: int): nat {
    if n < 0 then 0 else n
  }

  class Device {
    const local: bool
    const server: bool
    const buffer: array<byte>
    var fill: nat
    var freeBufs: int

    /** The bytes of all packets that were accepted and not cleared, and the bytes that were passed on. */
    ghost var accepted: seq<byte>
    ghost var sent: seq<byte>

    /** Whether a front end ever took a part of a block. */
    ghost var partial: bool

    /** Whether every packet since the last clear had the size of a transport stream packet. */
    ghost var uniform: bool

    /** Blocks the front ends made room for, blocks passed on, and blocks passed on without asking for room. */
    ghost var granted: nat
    ghost var passed: nat
    ghost var unasked: nat

    /** What was accepted is what was passed on and what is buffered, in order, exactly if no block was ever taken in
        part. No more blocks are passed on than there was room for, those passed on without asking aside. */
    ghost predicate Valid()
      reads this, buffer
    {
      && buffer.Length == BUFFER_SIZE && fill <= BUFFER_SIZE
      && fill <= |accepted| && |accepted| <= |sent| + fill
      && (partial <==> |accepted| < |sent| + fill)
      && (!partial ==> accepted == sent + buffer[..fill])
      && (uniform ==> fill % TS_SIZE == 0 && fill <= 11 * TS_SIZE)
      && passed + (if freeBufs > 0 then freeBufs else 0) <= granted + unasked
    }

    constructor (local: bool, server: bool)
      ensures Valid() && fresh(buffer) && fill == 0 && accepted == [] && uniform
      ensures this.local == local && this.server == server
    {
      this.local, this.server := local, server;
      buffer := new byte[BUFFER_SIZE];
      fill, freeBufs, accepted, sent, partial, uniform, granted, passed, unasked := 0, 0, [], [], false, true, 0, 0, 0;
    }

    /** The front ends are asked for room. */
    predicate Asks(a: Answers, credits: int) {
      credits < 1 && !a.playingFile && !a.paused && (local || server)
    }

    /** The most that all front ends have room for, and no more than 16. */
    predicate MostRoom(a: Answers, n: int) {
      && 0 <= n <= 16 && (local ==> n <= NotNegative(a.localRoom)) && (server ==> n <= NotNegative(a.serverRoom))
      && (n == 16 || (local && n >= a.localRoom) || (server && n >= a.serverRoom))
    }

    /** Whether a block may be passed on. Room is asked for only when there is none left. */
    method Poll(a: Answers) returns (ready: bool)
      requires Valid()
      modifies `freeBufs, `granted
      ensures Valid() && granted >= old(granted)
      ensures if Asks(a, old(freeBufs)) then granted == old(granted) + freeBufs && MostRoom(a, freeBufs)
              else freeBufs == old(freeBufs) && granted == old(granted)
      ensures ready <==> a.playingFile || (if a.paused then a.poller else freeBufs >= 1 || (!local && !server))
    {
      if a.playingFile {
        return true;
      }
      if a.paused {
        return a.poller;
      }
      if !local && !server {
        return true;
      }
      if freeBufs < 1 {
        var result := DEFAULT_POLL_SIZE;
        if local {
          result := Min(result, a.localRoom);
        }
        if server {
          result := Min(result, a.serverRoom);
        }
        freeBufs := if result > 0 then result else 0;
        granted := granted + freeBufs;
      }
      ready := freeBufs > 0;
    }

    /** Offer the buffered block to the front ends. The result says how much of it the local front end took, and the
        server is given just that. */
    method PlayAny(a: Answers) returns (n: nat)
      requires Valid() && 0 < fill
      modifies `freeBufs, `granted, `passed, `unasked, `sent
      ensures n == if passed == old(passed) then 0 else if local then Min(a.localTakes, fill) else fill
      ensures var credits := if Asks(a, old(freeBufs)) then granted - old(granted) else old(freeBufs);
              && freeBufs == credits - (passed - old(passed))
              && passed == old(passed) +
                   if credits >= 1 || a.playingFile || (if a.paused then a.poller else !local && !server) then 1 else 0
      ensures sent == old(sent) + buffer[..n]
      ensures n < fill ==> freeBufs < 1 || (local && a.localTakes < fill)
      ensures passed + (if freeBufs > 0 then freeBufs else 0) <= granted + unasked
      ensures unasked == old(unasked) + if passed > old(passed) && freeBufs < 0 then 1 else 0
    {
      if freeBufs < 1 {
        var ready := Poll(a);
        if !ready {
          assert sent == old(sent) + buffer[..0];
          return 0;
        }
      }
      unasked := unasked + if freeBufs < 1 then 1 else 0;
      passed := passed + 1;
      freeBufs := freeBufs - 1;
      n := if local then Min(a.localTakes, fill) else fill;
      sent := sent + buffer[..n];
    }

    /** Pass the buffered block on, and empty the buffer if all of it was taken. */
    method TsBufferFlush(a: Answers) returns (n: nat)
      requires Valid()
      modifies this
      ensures Valid() && accepted == old(accepted) && (uniform <==> old(uniform))
      ensures n == 0 ==> fill == old(fill) && (fill == 0 || freeBufs < 1 || (local && a.localTakes < fill))
      ensures n > 0 ==> n == old(fill) && fill == 0
      ensures partial <==> old(partial) || old(|sent|) < |sent| < old(|sent|) + old(fill)
    {
      if fill > 0 {
        n := PlayAny(a);
        if n == fill {
          assert buffer[..n] == buffer[..n] + buffer[..0];
          fill := 0;
          return;
        }
        partial := partial || n > 0;
      }
      return 0;
    }

    /** Add a packet. It is refused only when the buffer is full and cannot be passed on. Nothing is passed on before
        the buffer is nearly full, and then it stays so only if there is no room or the block is not taken whole. */
    method PlayTsAny(packet: seq<byte>, a: Answers, b: Answers) returns (n: nat)
      requires Valid() && 0 < |packet| <= 2048
      modifies this, buffer
      ensures Valid() && (uniform <==> old(uniform) && (n == 0 || |packet| == TS_SIZE))
      ensures n == 0 || n == |packet|
      ensures n == 0 ==> old(fill) >= 2048 && fill == old(fill) && buffer[..] == old(buffer[..])
      ensures accepted == old(accepted) + if n == 0 then [] else packet
      ensures n > 0 && fill >= 2048 - TS_SIZE - 1 ==> freeBufs < 1 || (local && b.localTakes < fill)
      ensures old(fill) + |packet| < 2048 - TS_SIZE - 1 ==> sent == old(sent) && passed == old(passed)
    {
      if fill >= 2048 {
        var flushed := TsBufferFlush(a);
        if flushed == 0 {
          return 0;
        }
      }
      Append(packet);
      if fill >= 2048 - TS_SIZE - 1 {
        var _ := TsBufferFlush(b);
      }
      n := |packet|;
    }

    method Append(packet: seq<byte>)
      requires Valid() && fill < 2048 && 0 < |packet| <= 2048
      modifies `fill, `accepted, `uniform, buffer
      ensures Valid() && (uniform <==> old(uniform) && |packet| == TS_SIZE)
      ensures accepted == old(accepted) + packet && fill == old(fill) + |packet|
    {
      ghost var before := buffer[..fill];
      forall i | 0 <= i < |packet| {
        buffer[fill + i] := packet[i];
      }
      fill := fill + |packet|;
      accepted := accepted + packet;
      uniform := uniform && |packet| == TS_SIZE;
      assert buffer[..fill] == before + packet;
    }

    method TsBufferClear()
      requires Valid()
      modifies this
      ensures Valid() && fill == 0 && sent == old(sent) && accepted == old(accepted)[..|old(accepted)| - old(fill)]
    {
      accepted := accepted[..|accepted| - fill];
      fill := 0;
    }
  }
}
