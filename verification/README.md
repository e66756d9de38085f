# xineliboutput: transport and buffers, verified

xineliboutput streams live television from a VDR server to xine clients. This project models the parts where the
stream can go wrong, in Dafny 4.11, and proves what each part is for. `dafny verify dfyconfig.toml` checks everything.

| part | files | form |
|---|---|---|
| UDP/RTP receive queue | `UdpWindow`, `UdpOrder`, `UdpRuns`, `UdpJumps`, `UdpResets`, `UdpReads` (the queue over unbounded packet numbers and its theorems), `UdpExamples`, `UdpLate` (runs that go wrong), `UdpLink` (the 256 slots) | class with an array, proved equal to the functions of `UdpWindow` |
| flush protocol (DISCARD on two channels) | `FlushProtocol`, `FlushSafety`, `FlushTheorems`, `FlushMarkers`, `FlushEngine` | transition system, one action per atomic step of each thread |
| remote calls and their tokens | `RpcTokens`, `RpcReuse`, `RpcProgress` | transition system |
| TCP/pipe frames | `Bytes`, `TcpFrames` (format), `TcpReader` (the resumable reader) | class with an array |
| control stream | `ControlFrames` (format), `ControlReader` (line and raw reads) | class with an array |
| PES converters | `PesFormat`, `PesConvert` | methods on byte arrays |
| table of connections | `MaskBits`, `ConnectionState`, `Descriptors`, `Connections` | class with an array |
| on-screen displays | `OsdHandles`, `OsdStack` | classes |
| TS joining buffer | `TsJoiner` | class with an array |
| track lists | `TrackMap` (format), `TrackRoundTrip`, `TrackPrinter`, `TrackReader` (the in-place scan) | methods on character arrays |

The method of `UdpLink`, `TcpReader`, `ControlReader`, `PesConvert` and `TrackReader` is the same: the imperative code is
proved equal to a function over plain values, and the theorems are about that function.

## What is proved

* **UDP/RTP.** In every run between link resets, whatever arrives, every number is delivered, dropped as empty or
  counted as missed, at most 65 packets are queued, every loop ends, and before the socket is read the head slot is
  empty, at most 64 packets are queued, and none after padding. Packets are handed on in strictly increasing order of
  the sender's numbers if they arrive from 127 behind to 128 ahead of the next expected number and no UDP MISSING
  passes over a queued packet with a payload. Both conditions are exact: the modulo-256 window test is right exactly
  for such arrivals, and a UDP MISSING leaves every later run in order exactly if it passes over no such packet (a run
  of four datagrams that goes wrong is given). It keeps every queued packet at most 128 ahead exactly if those it
  passes over lie at least 128 before the point where the release that follows stops. A re-send request covers the gap
  exactly when the packet that caused it is less than 19 numbers behind it and no passed-over packet lies between
  (runs in which the request ends before it starts are given). The link is reset exactly by a packet outside the
  window, and the next packet with a payload is then handed on at once, whatever its number.
* **Flush.** For every interleaving: a Clear is respected by everything that follows it exactly when its marker found
  room in the data channel (`Xine_Control_Sync` does not look at the writer's answer, frontend_svr.c:705). After that
  no older block gets through, only STREAMPOS lowers the published point although the lock is released in between,
  nothing played after the last Clear is thrown away and no header block ever, blocks keep their order, and the
  demuxer never waits in vain. A DISCARD that finds an old picture has its engine flush before its point is published,
  and a marked Clear does find one if a block was given since the last flush (unless the last one was a header block
  longer than the clear point).
* **Tokens.** A call is only ever completed by a reply to its own command, for any number of clients, timeouts, late
  and repeated replies, provided a token is unused when it is given out and no client connects while token 0 is
  pending. For a token that is not itself pending the first part is exact, and so is the second; each can fail on its
  own in a run from server start. That a pending token must not be given out again is assumed without being exact. One
  client that is told of a call is enough to complete it. The first 65534 calls need no proviso.
* **TCP and control stream.** What is read does not depend on how the bytes were cut up, and the end of a stream is
  always reported. Every field of an OSD command, its palette and its bitmap are read as they were written. Header
  fields are swapped once, no write leaves the buffer, and no binary byte is ever taken for a text line.
* **Converters.** MPEG-1 PES to MPEG-2 PES keeps both time stamps and the payload (ISO/IEC 11172-1, section 2.4.3.3;
  ISO/IEC 13818-1, sections 2.4.3.6 and 2.4.3.7); its length field is right exactly if time stamps and payload, with 3
  bytes more, are at most 65535 bytes. For any other bytes the result says what was found in them, and the code stays
  inside the packet exactly if the stuffing ends there and a second time stamp is not cut off. The elementary-stream
  packer loses nothing.
* **Connections.** After every handler the multicast mask, the RTP sender, the scheduler's handles and the count of
  claims on the primary device agree with the table, and no descriptor is held twice; when a connection moves to
  another client, just what it replaces is given up.
* **On-screen displays.** The handle bitmap is at all times the disjoint union of the live lists and of handle 0 once
  it has leaked; a failed allocation restores it; it leaks exactly when zero areas are set while handle 0 is free. The
  stack stays sorted, and visibility follows the mixer setting.
* **TS buffer.** What was accepted is what was passed on followed by what is buffered, exactly if no front end ever
  took a part of a block.
* **Track lists.** A printed list is read back exactly if no language contains a blank (and, for audio, if the list is
  not empty: an empty one is read as track 0), and "auto" is read as the automatic track if that is listed. The scan
  of a subtitle list never ends exactly if it trips over what one of the languages says after its first blank, each
  language looked at alone; without digits, stars and colons that is anything but blanks. The message buffer is
  overrun exactly if the text, which stops behind the first entry that passes character 991, is longer than 1021; this
  needs a language of more than 25 characters, and happens with 32 of 127.

## Model

| member | source | states |
|---|---|---|
| UdpWindow.Unwrap | xine_input_vdr.c:431-434 | a sequence byte stands for exactly one number within the 256 from the window's base on |
| UdpWindow.First | xine_input_vdr.c:4441-4444 | where a skip over missing slots stops: the next queued number, with none queued before it |
| UdpWindow.JumpResidue | xine_input_vdr.c:4399-4403 | the jump over unbounded numbers lands on the sequence byte the code stores |
| UdpOrder.SkipEffect | xine_input_vdr.c:4441-4444 | a skip loop ends on an occupied slot, passes no queued packet, and counts what it passed |
| UdpOrder.DrainEffect | xine_input_vdr.c:4464-4489 | handing on the head: first non-empty packet, only empty ones dropped on the way, the rest of the queue untouched, each number accounted for |
| UdpOrder.ProcessEffect | xine_input_vdr.c:4425-4493 | the same for all of udp_process_queue; numbers are skipped only when more than 64 packets are queued or padding was seen |
| UdpOrder.RekeySize | xine_input_vdr.c:4399-4403 | when the index jumps over occupied slots no packet is lost or doubled; each stands for the number its slot has from there |
| UdpRuns.ProcessKeeps | xine_input_vdr.c:4425-4493 | one release keeps order, accounting and bounds, and returns nothing only with an empty head slot and at most 64 queued |
| UdpRuns.TurnKeeps | xine_input_vdr.c:4561-4627 | any datagram keeps the invariant; the loop goes round again only when nothing can be handed on |
| UdpRuns.ReadKeeps | xine_input_vdr.c:4532-4645 | one whole call keeps the invariant, whatever it reads |
| UdpRuns.RunKeeps | xine_input_vdr.c:4532-4645 | over every run of calls, whatever arrives: strict order of the numbers packets are filed under, every number accounted for, at most 65 queued; idle state before each read, none queued after padding |
| UdpRuns.RunNarrow | xine_input_vdr.c:4587-4590 | over every run in which each UDP MISSING is clear, every packet is at most 128 ahead |
| UdpRuns.NarrowDecides | xine_input_vdr.c:4397-4404 | after an accepted UDP MISSING every queued packet is at most 128 ahead if and only if it is clear: each packet passed over is at least 128 numbers before the first number after the range that is not queued, or before the one after the first queued packet there with a payload, whichever comes first |
| UdpExamples.StaleAhead | xine_input_vdr.c:4397-4404 | three datagrams from link start, the last of them a UDP MISSING that is not clear, after which a packet is queued 254 ahead |
| UdpRuns.WindowTest | xine_input_vdr.c:4587-4590 | the modulo-256 test accepts exactly the packets that are not behind, and queues them under their own number, if and only if a packet is 127 behind to 128 ahead |
| UdpRuns.RunTrue | xine_input_vdr.c:4532-4645 | over every run with such arrivals, in which no UDP MISSING passes over a queued packet with a payload, each queued or delivered packet has the sender's number it is filed under |
| UdpRuns.InSenderOrder | xine_input_vdr.c:4532-4645 | in every such run from link start, packets are returned in strictly increasing order of the sender's numbers |
| UdpJumps.JumpDecides | xine_input_vdr.c:4397-4404 | every run after an accepted UDP MISSING, in which the sender keeps its promises, is in the sender's order if and only if no queued packet with a payload was passed over |
| UdpJumps.OutOfOrder | xine_input_vdr.c:4397-4404 | otherwise there is such a run in which that packet comes out after a younger one |
| UdpExamples.StalePacket | xine_input_vdr.c:4397-4404 | four datagrams from link start after which packet 2 is handed on after packet 4, and the next expected number goes back to 3 |
| UdpResets.ResetDecides | xine_input_vdr.c:4587-4604 | a datagram resets the link if and only if it is a packet more than 128 ahead modulo 256; then nothing is queued and nothing known of the sender's numbers; any other datagram keeps what was handed on, and may add to it |
| UdpResets.Restart | xine_input_vdr.c:4578-4604 | after a reset the next packet with a payload is handed on at once, whatever its number, and starts the numbering |
| UdpResets.RestartCalls | xine_input_vdr.c:4532-4645 | the same over calls: the first gives nothing, the next one the packet, and neither reads on |
| UdpReads.ReadGives | xine_input_vdr.c:4532-4645 | over one call with any inbox: what is returned is what is logged as handed on, datagrams are read only while there is nothing to return, and the rest is left |
| UdpReads.ControlEnds | xine_input_vdr.c:4561-4567 | an in-band control message, or a packet that the check drops, ends the call and changes nothing |
| UdpReads.MissingDecides | xine_input_vdr.c:4397-4404 | a UDP MISSING gives up exactly its range if its first number is the next expected one, and is ignored otherwise |
| UdpReads.ProcessInput | xine_input_vdr.c:4437-4480 | the input position is the end of the last packet taken from the queue; after a skip for too many packets a new re-send may be asked for at once |
| UdpRuns.RequestExact | xine_input_vdr.c:4495-4521 | a request starts at the first missing number, covers every gap below the packet just accepted, and has length 1 to 128, if and only if that packet is not 19 or more behind and no packet passed over lies between |
| UdpLate.LateRequest | xine_input_vdr.c:4506-4516 | runs from link start whose request ends before it starts and waits for more than 128 packets: 0 and 2 to n-1, then n+1, then 1, for n from 21 on |
| UdpRuns.AcceptedRecently | xine_input_vdr.c:4464-4489 | once the queue has stopped at a gap, the packet just accepted is still queued and at most 128 ahead, or at most 65 behind |
| UdpRuns.TurnRequest | xine_input_vdr.c:4623-4627 | every request of every run fits the datagram that caused it, whatever that is |
| UdpRuns.ReadCalm | xine_input_vdr.c:4499-4501 | in one call, no second request before as many packets as requested have left the queue, unless the window was skipped or the link reset |
| UdpRuns.RunCalm | xine_input_vdr.c:4477-4501 | the same over every run |
| UdpLinks.OccupiedCount | xine_input_vdr.c:4606-4621 | the counter of queued packets is the number of occupied slots |
| UdpLinks.PutSlot | xine_input_vdr.c:4619-4619 | storing at index modulo 256 is storing under the unbounded number |
| UdpLinks.ClearSlot | xine_input_vdr.c:4473-4475 | emptying the head slot and advancing the index is removing the head number |
| UdpLinks.Rebase | xine_input_vdr.c:4441-4444 | moving the index over empty slots does not change what the slots mean |
| UdpLinks.RekeySlots | xine_input_vdr.c:4399-4403 | the same slots, seen from another index, hold the same packets under the numbers that go with it |
| UdpLinks.UdpLink.constructor | xine_input_vdr.c:436-443 | a new link: all slots empty, nothing received |
| UdpLinks.UdpLink.Reset | xine_input_vdr.c:4598-4602 | every slot is freed and the link starts over |
| UdpLinks.UdpLink.Walk | xine_input_vdr.c:4441-4444 | the in-place skip loop ends, on the next occupied slot, and counts the slots passed |
| UdpLinks.UdpLink.SkipMissing | xine_input_vdr.c:4441-4444 | the skip loop computes the skip over unbounded numbers |
| UdpLinks.UdpLink.TakeHead | xine_input_vdr.c:4465-4478 | the head packet is taken and the counters follow |
| UdpLinks.UdpLink.ShrinkWindow | xine_input_vdr.c:4437-4448 | more than 64 queued packets: missing ones are given up |
| UdpLinks.UdpLink.ProcessQueue | xine_input_vdr.c:4425-4493 | udp_process_queue on the slots equals its meaning over unbounded numbers |
| UdpLinks.UdpLink.ScanGap | xine_input_vdr.c:4508-4509 | the bounded scan for the end of a gap |
| UdpLinks.UdpLink.ProcessResend | xine_input_vdr.c:4495-4521 | udp_process_resend, and the request it sends |
| UdpLinks.UdpLink.StartWith | xine_input_vdr.c:4578-4585 | the first packet starts the numbering; the distance used by the window test |
| UdpLinks.UdpLink.Insert | xine_input_vdr.c:4606-4621 | a packet goes into its slot and replaces a duplicate |
| UdpLinks.UdpLink.Enqueue | xine_input_vdr.c:4587-4621 | inside the window queued, outside it the link is reset |
| UdpLinks.UdpLink.JumpOver | xine_input_vdr.c:4397-4404 | any accepted UDP MISSING moves the index to the last number of the range |
| UdpLinks.UdpLink.ReadBlock | xine_input_vdr.c:4532-4645 | the whole read loop on the slots ends, equals its meaning over unbounded numbers, and keeps the invariant, for every inbox |
| FlushSafety.AppendBlock | frontend_svr.c:478-518 | playing a block keeps the data channel in step with the clear points |
| FlushSafety.AppendMarker | frontend_svr.c:699-707 | so does queueing a marker |
| FlushSafety.RemoveBlock | tools/backgroundwriter.c:182-203 | so does the writer dropping whole data packets, never markers |
| FlushSafety.ClearKeeps | frontend.c:378-405 | Clear on the server keeps the protocol's invariant, with or without its marker |
| FlushSafety.ControlKeeps | xine_input_vdr.c:3229-3253 | so does each step of the control thread, the unlocked engine flush included |
| FlushSafety.StepKeeps | xine_input_vdr.c:2096-2103 | so does every action of every thread |
| FlushSafety.RunKeeps | xine_input_vdr.c:3229-3251 | and so every interleaving |
| FlushTheorems.NoEarlyBlock | xine_input_vdr.c:4082-4086 | no block at or after a marked Clear point reaches the demuxer before the control channel published it; every engine flush for that point comes before all of them |
| FlushEngine.DiscardDecides | xine_input_vdr.c:2066-2104 | over every run, what a DISCARD does: a delayed one nothing; it begins an engine flush, and publishes nothing yet, if and only if a block was given to the demuxer since the last flush ended and the position is not beyond its point; else it publishes at once |
| FlushEngine.FlushBeforePublish | xine_input_vdr.c:3229-3242 | over every run without STREAMPOS, that flush is on record from then on, and the point is published if and only if the control thread has gone on after it |
| FlushEngine.ClearFlushes | xine_input_vdr.c:2066-2084 | over every run without STREAMPOS, a Clear whose marker was queued does begin a flush if a block was given since the last one, unless the last block was a header block longer than the clear point |
| FlushEngine.StreamPosDecides | xine_input_vdr.c:3244-3251 | over every run, a STREAMPOS starts the stream anew, after an engine flush if and only if there is an old picture; no block from its position on is then thrown away |
| FlushEngine.GuardProtects | xine_input_vdr.c:4824-4829 | after the end of a FLUSH no block up to its position is thrown away, whatever is cleared, until another FLUSH or a STREAMPOS |
| FlushTheorems.LostMarkerOvertaken | frontend_svr.c:704-705 | a concrete run in which a block overtakes a Clear whose marker was not queued |
| FlushMarkers.MarkerDecides | frontend_svr.c:699-707 | in any reachable state, the next Clear is respected by every later run if and only if its marker was queued |
| FlushMarkers.Overtaken | frontend_svr.c:704-705 | without the marker there is always a run in which a later block is played too early |
| FlushMarkers.ControlUpTo | xine_input_vdr.c:3229-3242 | the control thread alone handles everything sent before a message |
| FlushMarkers.ReadUp | xine_input_vdr.c:4082-4086 | with every marked point published, the demuxer reads all there is |
| FlushTheorems.NothingStale | xine_input_vdr.c:4824-4829 | once a point is published no earlier block beyond the guard position passes; without STREAMPOS the point never goes back |
| FlushTheorems.OnlyStreamPosRewinds | xine_input_vdr.c:3229-3253 | only handling STREAMPOS lowers the published point, delayed and repeated DISCARD messages included |
| FlushTheorems.NoFreshLoss | xine_input_vdr.c:4824-4829 | a discarded block was played before the last Clear |
| FlushTheorems.PositionCounts | frontend.c:434-443 | the stream position counts every byte played, whether it found room or not |
| FlushTheorems.BlockDecides | xine_input_vdr.c:4818-4832 | a block is thrown away if and only if it lies before the published point and beyond the guard position; where the position is afterwards |
| FlushTheorems.HeadersPass | xine_input_vdr.c:4824-4829 | over every run, with STREAMPOS or not, a header block that is read is at position 0 and is given to the demuxer |
| FlushTheorems.WaitEnds | xine_input_vdr.c:3980-4031 | whenever the demuxer waits for the control channel, handling what is sent already ends the wait |
| FlushTheorems.PlayedOrder | frontend.c:434-443 | blocks are played in order and none twice, whatever was dropped |
| RpcTokens.OneMore | frontend_svr.c:1797-1805 | one more reply in a client's stream is harmless if its token is settled by then or it is right |
| RpcTokens.SettledConfigure | frontend_svr.c:1327-1330 | the PLAYFILE without a token, sent at configuration, cannot be mistaken |
| RpcTokens.SettledReply | frontend_svr.c:1797-1805 | taking a reply completes the call it answers, and settles its token |
| RpcTokens.ReturnKeeps | frontend_svr.c:800-812 | a caller that gives up or returns leaves no entry behind |
| RpcTokens.StepKeeps | frontend_svr.c:752-812 | every step of server and clients keeps the table right |
| RpcTokens.OwnRepliesOnly | frontend_svr.c:763-812 | over every run a call is only completed by a reply to its own command, and every table entry belongs to a call that has not returned |
| RpcTokens.StaleReplyMisleads | frontend_svr.c:1797-1805 | a reply still on its way when its token is given out again completes the new call, and is not an answer to it |
| RpcReuse.UnusedDecides | frontend_svr.c:752-787 | a token that is not pending may be given out if and only if it is in no client's queue or on its way back, and was not the last one of a client that is not told of it: then and only then every careful later run completes calls rightly |
| RpcReuse.ConnectDecides | frontend_svr.c:1323-1330 | a client may connect if and only if token 0 is not pending |
| RpcReuse.StaleRun | frontend_svr.c:756-756 | a run from server start in which only a reply still on its way has the token, and the new call gets it |
| RpcReuse.LastTokenRun | frontend_svr.c:1327-1330 | a run from server start in which only an idle client has the token, and its answer to PLAYFILE completes a call it was not told of |
| RpcReuse.ConnectRun | frontend_svr.c:1327-1330 | a run from server start in which a new client's answer to PLAYFILE completes the call with token 0 |
| RpcProgress.Answered | frontend_svr.c:1797-1805 | a client that still has an answer to give with the token of a pending call, and the server's reader, come to complete it, with its own reply |
| RpcProgress.CallCompletes | frontend_svr.c:763-812 | so a call sent to a connected client can always still be completed by that client alone |
| RpcTokens.NoWrapNoMixUp | frontend_svr.c:756-756 | until the 16-bit token wraps, the proviso always holds |
| RpcTokens.FirstCalls | frontend_svr.c:752-761 | so the first 65534 calls of a server are answered rightly |
| Bytes.ToNetFromNet | tools/backgroundwriter.c:260-261 | a number written in network order is read back |
| Bytes.SwapReads | xine_input_vdr.c:4143-4144 | swapping a network-order field gives the host-order number |
| TcpFrames.ParseOn | xine_input_vdr.c:4075-4183 | parsing can stop after any byte and resume from the unfinished frame |
| TcpFrames.ParseBroken | xine_input_vdr.c:4148-4153 | nothing is read beyond a frame that does not fit |
| TcpFrames.AnyChunks | xine_input_vdr.c:4075-4183 | the frames do not depend on how the stream was cut up |
| TcpFrames.ParseEncoded | tools/backgroundwriter.c:256-264 | what the server frames, the client unframes |
| TcpFrames.FrameDecides | xine_input_vdr.c:4141-4154 | a sent frame is taken if and only if it and one more header are shorter than the buffer; otherwise the stream is given up |
| TcpFrames.LengthOverflows | xine_input_vdr.c:4146-4157 | from 0x7ffffff3 on a length is taken for none: the frame ends with its header |
| TcpReaders.TcpReader.Store | xine_input_vdr.c:4124-4139 | received bytes are appended inside the buffer |
| TcpReaders.TcpReader.DecodeHeader | xine_input_vdr.c:4142-4144 | the header's two numbers are swapped in place, nothing else |
| TcpReaders.TcpReader.TakeHeader | xine_input_vdr.c:4141-4154 | a complete header is decoded, and refused if its frame does not fit |
| TcpReaders.TcpReader.Finish | xine_input_vdr.c:4157-4176 | a complete frame is a block, or an in-band control message by its position and first byte |
| TcpReaders.TcpReader.Round | xine_input_vdr.c:4091-4177 | one round of the loop, for every outcome of select and recv: which ones end the call, with what, and that the end of the stream is reported whatever is left |
| TcpReaders.TcpReader.ReadBlock | xine_input_vdr.c:4075-4183 | over any calls, timeouts and chunks: frames handed on, then the buffer, are the parse of the bytes received; the header is decoded exactly once; progress in every productive round; a call ends with the first round that pauses or ends the stream, and says which |
| ControlFrames.LineIs | xine_input_vdr.c:1078-1147 | any line that fits the buffer is read up to its end, without carriage returns and NULs; of a longer one, as much as fits |
| ControlFrames.EmptySkipped | xine_input_vdr.c:3630-3636 | empty lines are skipped |
| ControlFrames.LineBack | xine_input_vdr.c:1078-1147 | a sent line is read back, and nothing after it |
| ControlFrames.HeaderBack | tools/osd_command.h:160-195 | rd_osdcmd finds each of the 20 fields where the server's structure has it |
| ControlFrames.FieldsOfSize | tools/osd_command.h:160-195 | the same for a header of any size from 60 on: what it lacks is 0, what it has beyond is skipped |
| ControlFrames.OsdSized | xine_input_vdr.c:2745-2790 | such a command is read with the palette and bitmap its own fields announce |
| ControlFrames.OsdRefused | xine_input_vdr.c:2760-2776 | a smaller one is refused as soon as it is complete |
| ControlFrames.ColorsBack | tools/osd_command.h:54-68 | a palette is 4 bytes a colour, and is read back |
| ControlFrames.OsdBack | xine_input_vdr.c:2745-2823 | an OSD command with all its fields, its palette of as many colours and its bitmap of as many bytes as it says are read back |
| ControlFrames.MessageBack | xine_input_vdr.c:3625-3643 | either kind of message is read back, followed by anything |
| ControlFrames.AllBack | frontend_svr.c:272-318 | any list of commands and OSD updates is read as the same list |
| ControlReaders.ControlReader.ReadLineInto | xine_input_vdr.c:1078-1147 | readline into the buffer, byte by byte, NUL-terminated; a byte is taken in each round that has one, and why it stopped |
| ControlReaders.ControlReader.ReadSocket | xine_input_vdr.c:1155-1198 | exactly the bytes asked for, in whatever pieces; nothing is read on after an error, an interruption or the end of the stream |
| ControlReaders.ControlReader.ReadOsdCommand | xine_input_vdr.c:2745-2823 | an OSD command is read, or its size byte is bad |
| ControlReaders.ControlReader.Next | xine_input_vdr.c:3625-3643 | the next line that is not empty, with what follows it |
| ControlReaders.ControlReader.ReadMessages | xine_input_vdr.c:3625-3659 | for every timing, the messages read are the first ones sent, as many as wanted unless the connection ends |
| PesFormat.StampSurvives | tools/pes.c:21-30 | a 33-bit time stamp survives the masking of prefix and marker bits |
| PesFormat.Layout2 | frontend.c:481-512 | where the fields of a converted packet lie |
| PesFormat.LengthField | frontend.c:514-516 | 16 bits say a length if and only if it is at most 65535 |
| PesFormat.ConversionKeeps | frontend.c:451-530 | a converted packet has the same stream, PTS, DTS and payload, for any stuffing and buffer size field; its length field is right if and only if time stamps and payload of the packet, with 3 bytes more, are at most 65535 bytes |
| PesFormat.LengthLost | frontend.c:514-516 | the longest packet without time stamps is converted with a length field of 1 |
| PesConvert.ConvertedKeeps | frontend.c:451-530 | for any recognised bytes, the packet built is MPEG-2 with the time stamps found at the place where they are looked for, and all that follows as payload; its length field is right if and only if 16 bits can say it |
| PesConvert.Layout1 | frontend.c:467-474 | where stuffing and buffer size field end in an MPEG-1 packet |
| PesConvert.RecognisesMpeg1 | frontend.c:453-456 | every well-formed packet of more than 7 bytes is recognised |
| PesConvert.ConvertsWellFormed | frontend.c:451-530 | for every such packet the code stays inside it and builds the MPEG-2 packet with its fields |
| PesConvert.OthersIgnored | frontend.c:453-456 | MPEG-2 packets, and bytes that are not one whole packet, are left alone |
| PesConvert.ReadsOn | frontend.c:467-504 | packets for which it does not: nothing but stuffing, or cut off within the second time stamp |
| PesConvert.SkipFill | frontend.c:467-474 | for any bytes: the skip loop ends inside the packet if and only if there is a byte below 0x80, and then where the time stamps are looked for |
| PesConvert.WriteHeader | frontend.c:481-512 | the new header, byte by byte, inside the buffer |
| PesConvert.Build | frontend.c:457-518 | the buffer of len + 64 bytes holds exactly the packet to be built |
| PesConvert.PlayMpeg1Pes | frontend.c:451-530 | for any bytes: when the code stays inside the packet, and what is then played and returned: unrecognised, shorter than 5 bytes after stuffing (dropped), without payload (0), or converted |
| PesConvert.FirstAndLast | frontend.c:537-546 | the packet that goes first says time stamp 0 and carries nothing; the last one carries the codec's end code |
| PesConvert.EsPacketGood | frontend.c:558-561 | a chunk's length field is its payload plus 3 |
| PesConvert.Pack | frontend.c:555-561 | header and data put together in the frame buffer |
| PesConvert.PlayMpeg2Es | frontend.c:534-582 | the payloads are the elementary stream, in chunks of 2036 bytes but the last; after a refusal nothing more is sent; start and end packets |
| ConnectionState.MaskZero | frontend_svr.c:239-240 | the mask is zero exactly if no slot uses multicast |
| ConnectionState.MaskSet | frontend_svr.c:1234-1235 | setting a client's bit keeps mask and slots in agreement |
| ConnectionState.MaskClear | frontend_svr.c:232-237 | so does clearing it |
| ConnectionState.HandlesRemove | frontend_svr.c:221-222 | removing a closed UDP descriptor keeps the scheduler's handles right |
| ConnectionState.HandlesAdd | frontend_svr.c:1264-1266 | so does adding a new one |
| ConnectionState.OpenChange | frontend_svr.c:261-269 | how one slot changes the number of open control connections |
| ConnectionState.HandlesFit | tools/udp_pes_scheduler.h:21-21 | ten clients and the multicast socket fit the scheduler's sixteen handles |
| Descriptors.CloseTidy | frontend_svr.c:205-270 | closing a client gives up its descriptors and no other, and none is held twice |
| Descriptors.ConnectTidy | frontend_svr.c:1863-1936 | so with a new control connection |
| Descriptors.NewTidy | frontend_svr.c:1022-1091 | so with a new pipe or UDP socket |
| Descriptors.DataMovedTidy | frontend_svr.c:1176-1215 | a control connection becomes another client's data connection: what is given up is the data connection it replaces and what else its own client had |
| Descriptors.OsdMovedTidy | frontend_svr.c:1141-1174 | likewise for an OSD connection |
| Connections.Server.constructor | config.h:24-24 | an empty table agrees with everything |
| Connections.Server.CloseDataConnection | frontend_svr.c:219-244 | the slot afterwards; mask, RTP and handles follow |
| Connections.Server.CloseOsdConnection | frontend_svr.c:246-252 | only the OSD descriptor is closed |
| Connections.Server.CloseConnection | frontend_svr.c:254-270 | the slot afterwards; one claim on the primary device is given back if and only if the slot was open |
| Connections.Server.ClientConnected | frontend_svr.c:1863-1936 | the first free slot is taken, or the client refused; everything stays in agreement, also when the device is not primary |
| Connections.Server.HandlePipe | frontend_svr.c:1022-1091 | the slot after a PIPE request, granted or not |
| Connections.Server.HandleRtp | frontend_svr.c:1217-1242 | after an RTP request; RTP is being sent if it was granted |
| Connections.Server.RtspPlay | frontend_svr.c:1689-1697 | after an RTSP PLAY |
| Connections.Server.HandleUdp | frontend_svr.c:1244-1273 | after a UDP request, granted or not |
| Connections.Server.HandleData | frontend_svr.c:1176-1215 | the connection moves to another client's data connection, or is closed |
| Connections.Server.HandleOsd | frontend_svr.c:1141-1174 | the connection moves to another client's OSD connection, or is closed |
| Connections.Server.HandleConfig | frontend_svr.c:1306-1308 | the client is marked as configured |
| Connections.Server.DetachForMediaFile | frontend_svr.c:1521-1525 | a media-file streamer takes the connection, and the claim on the primary device is never given back |
| OsdHandles.PickIsLowest | osd.c:157-165 | the handles given out are free, rising, and without a free one left out below them |
| OsdHandles.PickCount | osd.c:157-165 | as many as asked for, if so many are free |
| OsdHandles.EnoughHandles | osd.c:452-463 | enough free handles in CanHandleAreas mean that the next SetAreas gets them |
| OsdHandles.GiveBack | osd.c:177-188 | freeing one display's handles keeps the bitmap the disjoint union of the rest |
| OsdHandles.Give | osd.c:157-165 | so does giving out free ones |
| OsdHandles.Leak | osd.c:157-165 | handle 0 marked for nobody stays marked, and nobody's |
| OsdStack.Provider.FreeWindowHandles | osd.c:177-188 | exactly the display's handles become free |
| OsdStack.Provider.TakeFree | osd.c:157-165 | the search loop over the bitmap |
| OsdStack.Provider.EndList | osd.c:166-171 | the list is ended and padded inside its array |
| OsdStack.Provider.AllocWindowHandles | osd.c:149-174 | the display gets the lowest free handles instead of its own; 0 is returned when there are too few, or none were asked for |
| OsdStack.Provider.SetAreas | osd.c:384-420 | succeeds if and only if the base class agrees, at least one area is wanted and so many handles are free; otherwise the bitmap is restored, except that zero areas mark handle 0; it succeeds whenever CanHandleAreas has just found room |
| OsdStack.Provider.CanHandleAreas | osd.c:422-466 | the exact condition under which areas are accepted, in the order of its tests |
| OsdStack.LayeredInsert | osd.c:649-659 | a sorted insert before the first display that is not lower keeps the stack sorted |
| OsdStack.Provider.CreateOsd | osd.c:641-687 | where the new display goes; with the mixer off exactly the topmost is visible, else all |
| OsdStack.Provider.ShowStack | osd.c:664-685 | the loop from the bottom up that hides or shows |
| OsdStack.Provider.Destroy | osd.c:369-382 | the display leaves the stack, its handles become free, and the topmost of the others is shown |
| TsJoiner.Device.Poll | device.c:1345-1378 | room is asked for only when there is none left, from all front ends, and is the most they all have, up to 16; when a block may be passed on |
| TsJoiner.Device.PlayAny | device.c:965-1023 | what is passed on and returned; a credit is used up |
| TsJoiner.Device.TsBufferFlush | device.c:1074-1089 | the buffer is emptied exactly when all of it was taken |
| TsJoiner.Device.PlayTsAny | device.c:1097-1120 | accepted bytes are bytes sent then bytes buffered, exactly if no block was ever taken in part; the fill is a multiple of 188 of at most 2068; a packet is refused only when the buffer is full and cannot be passed on |
| TsJoiner.Device.TsBufferClear | device.c:1091-1095 | only buffered bytes are lost |
| TrackMap.AtoiOfShow | frontend.c:139-140 | a printed number is read back by atoi |
| TrackRoundTrip.ScanEntries | frontend.c:123-151 | the printed entries are read back if and only if no language contains a blank |
| TrackRoundTrip.ScanKeeps | frontend.c:123-151 | tracks once read stay |
| TrackRoundTrip.ScanChosen | xine_input_vdr.c:3740-3748 | the entry for no track or the automatic one |
| TrackRoundTrip.SpuRoundTrip | xine_input_vdr.c:3732-3764 | a subtitle list is read back, with its current track and the automatic one resolved, if and only if no language contains a blank |
| TrackRoundTrip.SpuCurrent | frontend.c:116-157 | the current track read back: the automatic one if "auto" is chosen and it is listed, the chosen one if that is listed, "none" as "none", else "auto" |
| TrackRoundTrip.AudioRoundTrip | xine_input_vdr.c:3708-3730 | an audio list is read back if and only if it is not empty and no language contains a blank |
| TrackRoundTrip.TailHangs | frontend.c:126-149 | from the middle of any language, followed by any list: the scan never ends if and only if it trips over that rest or over a later language |
| TrackRoundTrip.ScanHangs | frontend.c:126-149 | printed entries stop the scan for ever if and only if it trips over one of the languages: over what is neither a star nor a digit where, after the language's first blank, it looks for an entry |
| TrackRoundTrip.SpuEnds | frontend.c:123-149 | so the reading of any printed subtitle list ends if and only if no language is of that kind |
| TrackRoundTrip.TripsAt | frontend.c:126-149 | a first blank followed, after more blanks, by anything but a star or a digit is of that kind |
| TrackRoundTrip.WordyTrips | frontend.c:126-149 | a language without digits, stars and colons is of that kind if and only if it has a blank followed later by anything else |
| TrackPrinter.TrimEffect | xine_input_vdr.c:3692-3697 | exactly the blanks and line ends at the front are taken off |
| TrackPrinter.ListedWhich | xine_input_vdr.c:3715-3724 | listed are the tracks whose language is told and those below the stream's count, in rising order; one without a language has its number |
| TrackPrinter.Format | xine_input_vdr.c:3717-3722 | one snprintf: text is cut at the limit, its whole length is counted |
| TrackPrinter.PrintEntries | xine_input_vdr.c:3715-3724 | for every list: the loop stops where the first entry reaches the limit; the count it ends with, and what is in the buffer then |
| TrackPrinter.EndMessage | xine_input_vdr.c:3725-3730 | the line end lies inside the buffer if and only if the text leaves room for it; what is sent, cut or not |
| TrackPrinter.ShortFits | xine_input_vdr.c:3715-3729 | with languages of at most 25 characters it always does |
| TrackPrinter.LongOverruns | xine_input_vdr.c:3715-3729 | with 32 languages of 127 characters and no current track the audio text is 1060 characters long, and the line end would lie 36 bytes outside the buffer |
| TrackPrinter.PrintSpuTracks | xine_input_vdr.c:3732-3764 | the subtitle message for every list: inside the buffer if and only if the text leaves room for the line end, and what is sent then; the whole list if it fits |
| TrackPrinter.PrintAudioTracks | xine_input_vdr.c:3708-3730 | the audio message likewise |
| TrackReader.TakeWord | frontend.c:142-144 | a language is cut out of the text in place |
| TrackReader.SpuStep | frontend.c:124-149 | one turn of the subtitle scan; a turn that moves nothing will never move |
| TrackReader.ReadSpuList | frontend.c:116-149 | the in-place scan computes the list, or is found never to end |
| TrackReader.ReadAudioList | frontend.c:159-178 | the in-place audio scan ends for every text, and computes the list |

## Left out

- UdpRuns.RunTrue: assumes that arrivals are 127 behind to 128 ahead of the next expected number, and that no UDP MISSING passes over a queued packet with a payload; `WindowTest` and `JumpDecides` say why.
- UdpRuns.RunNarrow: assumes that every UDP MISSING is clear; `NarrowDecides` shows this to be exact, `StaleAhead` that it can fail.
- UdpLinks.UdpLink.ReadBlock: does not model waiting for the flush protocol before a read, nor how in-band control messages other than UDP MISSING are numbered by the scheduler; the 16-bit `missed_frames` statistic is unbounded.
- FlushTheorems.NoEarlyBlock: for stream transports with one client. The two threads and channels are a transition system on values, because they run concurrently; the timeout of one wait is a step in which nothing happens, idle padding and the block buffer behind the reader are not modelled.
- The comment on `wait_stream_sync` says 1 for synchronised, the code returns 0 (xine_input_vdr.c:3974-3978, 4011-4014); the model follows the code, for which only the comparison before the next read matters.
- RpcTokens.OwnRepliesOnly: assumes a token is unused when it is given out and not 0 and pending when a client connects; `RpcReuse` shows both to be exact, the first for tokens that are not pending; concurrent callers make it a transition system on values; the table holds one future for each token.
- RpcTokens.SettledReply: every reply completes its call; a GRAB reply whose picture is not read in time completes nothing and closes the connection, and one of a bad size completes its call with an empty picture (frontend_svr.c:1367-1400), which is not modelled.
- TcpReaders.TcpReader.ReadBlock: one buffer of fixed size is used again for every frame; an interrupting action counts as an aborted select; for the thirteen largest length values the sum in the size check overflows a C `int`, where the model takes the mathematical sum.
- ControlReaders.ControlReader.ReadOsdCommand: stops before the bitmap is decompressed and the command executed; control-channel timeouts of the handshake are not modelled.
- PesConvert.PlayMpeg1Pes: what happens when bytes behind the packet are looked at is not defined, and not modelled.
- PesConvert.PlayMpeg2Es: polling between chunks, and what Play does with them.
- Descriptors.NewTidy: assumes that the system gives no descriptor that is still open in the table.
- Connections.Server.constructor: assumes that RTP is enabled when it is configured as always on.
- Connections.Server.HandleConfig: which OSD formats a client has announced, and which client is the master.
- Connections.Server.ClientConnected: closing the descriptor of a refused client; the slot of a client refused for not being primary stays taken, as in the code.
- Connections.Server.HandleOsd: releasing the server's lock while the display is refreshed.
- OsdStack.Provider.SetAreas: the handle bitmap is the set of its one bits (all below 50, so within 64 bits), and the handle list is a sequence once it is built; window commands sent to the client.
- OsdStack.Provider.Destroy: displays detached when the provider itself is shut down.
- TsJoiner.Device.PlayTsAny: packets of other sizes are accepted up to 2048 bytes, as the code only logs them; trick-play and still-picture changes to PES data.
- TrackPrinter.EndMessage: what happens when the line end would lie outside the buffer is not defined, and not modelled.
- TrackRoundTrip.SpuRoundTrip: for languages without a carriage return, which would end the control line, as are `SpuEnds` and `AudioRoundTrip`; the mapping of language codes.
- The bodies of the UDP scheduler, the sockets, select and poll, the pipe set-up, avahi and discovery.
- The xine engine: clock recovery, decoders, post plugins, frame grabbing.
- HTTP and RTSP dialogue, SDP, playback of files, images and DVDs, menus, set-up, remote keys, equaliser and configuration.
