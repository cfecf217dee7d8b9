# Verified model of a user-space TCP stack

The stack moves a byte stream between two endpoints over channels that lose packets. This project models its
reliable-transfer core and proves what that core promises over every run.

* **Send window** (`SendWindows`, `SendWindow.dfy`): the queue of unacknowledged packets with `uint32` wrap-around,
  cumulative acknowledgements, duplicate-acknowledgement counting and the flag that invalidates round-trip times.
  `RetransmitPolicy` adds laws over whole sequences of calls.
* **Receive window** (`RecvWindows`, `RecvWindow.dfy`): the doubly linked list of out-of-order packets on the heap,
  its splice and its cut. `ReceiveLaws` says what one call does to any window; `Reassembly` what any sequence of
  arrivals does.
* **Controller** (`Endpoints`, `TcpController.dfy`): handshake, packetizing, acknowledgements and advertised windows,
  the receive buffer and its overflow queue, FIN and end of stream, the retransmission timer, the state variable.
* **Channel** (`PacketQueue.dfy`, `BaseChannel.dfy`, `Pipeline`): the queues a packet passes and the lossy hop.
* **Two parties** (`Network`, `Link.dfy`): two controllers and two lossy FIFO channels as a transition system whose steps are
  whole handlers, the socket calls, the timers, loss and delivery, with the first SYN delivered twice as the host
  does.

Each object of the source is a Dafny class whose methods update its fields in place and are proved equal to a
function on values; the laws are proved about those functions. A failed sanity check, a fatal log line and the loop
that would spin on a SYN all appear as an outcome called abort. `Theorems.AbortsExactly` shows that in every run just
one call gets there, a read after the end of the stream was consumed.

The two-party proof rests on one inductive invariant (`Invariants`). It keeps, for each direction, the sender's *log*
of every packet it ever registered. The send window is the tail of the log, the receiver has accepted a prefix of it,
and everything in flight or buffered comes from it. Files: `SenderLemmas`, `FlightLemmas` and `ReceiverLemmas` are
about the parts of the invariant; `PairSteps`, `SendSteps`, `DeliverSteps`, `HandshakeSteps`, `HandshakeLemmas` and
`HandshakeFrames` about single handlers; `Preservation`, `Delivery` and `Safety` assemble every step of every run;
`Theorems`, `SenderEdges`, `FinStates`, `LastAcks`, `Progress`, `Draining`, `Liveness`, `EarlyClose` and `Limits` draw
the conclusions. `Packetizing` treats a round of the send buffer listener from any window, `BufferLaws` the socket
buffers, `HandlerLaws` whole exchanges packet by packet, and `KarnRuns` the flag over runs. `Link` joins two controller
objects and shows that every step of the transition system is a call on them.

Some properties one might expect are false of the code, and the model gives the exact condition for each:

* `Theorems.AbortsExactly`: a second read after the end of the stream is logged as fatal and ends the process;
* `EarlyClose.ClosesShortExactly`: a side in LAST_ACK may be shut down before its peer's data has come, because a FIN
  moves the state even when it overtakes the data (`LastAcks.FinMovesStateAnyway`);
* `Liveness.DeliverableExactly`: a receive buffer that is a multiple of 65536 bytes advertises a zero window for ever,
  because the window field has 16 bits;
* `SendWindows.AckWrapRefinement`: an acknowledgement that wraps is ignored after the capacity was cut below it (in a
  run no capacity falls below what is unacknowledged before the FIN is registered, by `Theorems.FlowControl`);
* `ReceiveLaws.OldIgnoredExactly`: an old packet from before a wrap is taken for a new one;
* `Limits.ClosingAckExact`: CLOSING ends on any acknowledgement, not only on that of the FIN;
* `FinStates.FinRecordedExactly`: a FIN that comes in SYN_RCVD is acknowledged and ends the stream, but the state does
  not move to CLOSE_WAIT, as section 3.10.7.4 of RFC 9293 asks;
* `Theorems.EofMeansEverythingRead`: a read of zero bytes returns zero without an end of stream.

Each has a concrete witness: `Limits.SecondReadAborts`, `ClosedWithoutTheData`, `FullBufferOffersNothing`,
`TimeWaitWithoutDelivery`, `FinUnrecorded` and `ZeroReadIsNoEnd`, `SendWindows.ShrunkWindowIgnoresWrappedAck` and
`ReceiveLaws.StaleAfterWrapAborts`. `ConcreteRuns`, `ClosingRun`, `EarlyFinRun` and `ShortRun` write the longer runs out
step by step.

## Model

| member | source | states |
|---|---|---|
| `Theorems.EndToEndStream` | src/TcpController.cc:360-376 | In every reachable state, bytes read plus bytes in the receive buffer are a prefix of what the peer wrote, of the length fixed by the receive base: nothing lost, doubled or reordered |
| `Theorems.EofMeansEverythingRead` | src/TcpController.cc:767-800 | A read that returns zero comes after everything the peer ever wrote was read, if and only if it asked for at least one byte or the buffer was empty |
| `Theorems.ConsumedMeansComplete` | src/TcpController.cc:787-790 | In every reachable state whose end of stream was consumed, what was read equals what was written |
| `Theorems.FlowControl` | src/TcpController.cc:631-635 | From the acknowledgement of its SYN to its FIN a sender never has more unacknowledged than its window takes, nor a window that ends beyond what its peer advertises (before the SYN is acknowledged a configured window may); the advertised window is what is left of the buffer size modulo 65536; the overflow queue is empty in every reachable state |
| `Theorems.RightEdgeNeverMovesLeft` | src/TcpController.cc:1014-1032 | Along every step the receive base and the right edge that an acknowledgement carries, number plus 16-bit window, never go back for a receiver, and end of stream is never unrecorded |
| `Theorems.EdgesInFlight` | src/TcpController.cc:1014-1032 | Of two acknowledgements in flight the later one never carries a smaller right edge, none exceeds what the receiver advertises now, and none takes back any of the window the sender has |
| `SenderEdges.SenderEdgeNeverMovesLeft` | src/TcpController.cc:631-635 | From the acknowledgement of its SYN to its FIN, no step of any run but the one that registers the FIN moves a sender's send base plus capacity to the left |
| `Theorems.RunsOnlyAdvance` | src/TcpController.cc:331-351 | Over runs of any length the receive base, the right edge carried by acknowledgements and the place in the life cycle never go back |
| `Theorems.AbortsExactly` | src/TcpController.cc:767-770 | In every reachable state an enabled step fails a sanity check, logs a fatal line or spins if and only if it is a read after the end of the stream was consumed |
| `Limits.SecondReadAborts` | src/TcpController.cc:767-770 | A concrete run in which the second read after the end of a stream ends the process |
| `Theorems.NoDuplicateAboveBase` | src/RecvWindow.cc:33-51 | In every reachable state no two packets in the channel share a sequence number above the receive base, no packet in the channel shares one with the receive list, the list has none twice, and each packet is the one registered under its number |
| `Theorems.AcksNeverStale` | src/SendWindow.cc:74-104 | Every acknowledgement in flight lies between the send base and the next number to send, on a packet boundary; the wrap-around branch is never taken by mistake and no check fails |
| `Theorems.LifecycleIsMonotone` | src/TcpController.cc:650-684 | Every state change is an edge of the state diagram of section 3.3.2 of RFC 9293 and climbs it; nothing, not even a repeated SYN, leads back |
| `Theorems.RepeatedSynHarmless` | src/TcpController.cc:385-400 | Every further SYN finds the server's receive base one above it, passes the check and changes nothing in the window |
| `Theorems.RepeatedSynAckHarmless` | src/TcpController.cc:470-474 | Every SYN-ACK still in flight to a connected client overwrites its receive base with the value it already has |
| `Theorems.CloseMeansDelivered` | src/TcpController.cc:659-673 | FIN_WAIT_2, or CLOSED after LAST_ACK, implies the peer has accepted every byte and recorded the end of the stream |
| `Theorems.TimerCoversWindow` | src/TcpController.cc:621-626 | At every step boundary the retransmission timer runs if and only if something is unacknowledged (section 5 of RFC 6298) |
| `Limits.ClosingAckExact` | src/TcpController.cc:674-684 | Leaving CLOSING means the FIN was acknowledged, hence delivered, if and only if the acknowledgement number is the next one to send |
| `Limits.TimeWaitWithoutDelivery` | src/TcpController.cc:674-684 | A concrete run that reaches TIME_WAIT while the peer has not seen the end of the stream |
| `FinStates.FinRecordedExactly` | src/TcpController.cc:482-504 | Over any step of any run, the state goes on showing that the peer's FIN has arrived, buffered or streamed, if and only if the step is not the delivery of a FIN in SYN_RCVD |
| `FinStates.ClientRecordsFin` | src/TcpController.cc:477-515 | On the client's side an end of stream that arrived shows in the state in every reachable state |
| `FinStates.ReceiveAndAckFin` | src/TcpController.cc:506-514 | A FIN has arrived after a delivery exactly if it had before, or the packet is a FIN not below the receive base, in whatever order it came |
| `Limits.FinUnrecorded` | src/TcpController.cc:482-504 | A concrete run that leaves the server in ESTABLISHED with the stream ended, the client in FIN_WAIT_2, and nothing in flight or left to send again |
| `Limits.SendFinExact` | src/TcpController.cc:258-310 | The window always takes the FIN, at the next number and with the capacity raised by exactly what it needs; ESTABLISHED becomes FIN_WAIT_1, CLOSE_WAIT becomes LAST_ACK and the FIN is sent; in any other state it stays in the window unsent |
| `Progress.RoundAdvances` | src/TcpController.cc:965-971 | From any reachable running state with both sides up, unacknowledged packets and drained channels, in the handshake or after it and whether or not the server exists, one loss-free round is a run that strictly advances the send base and shrinks the window |
| `Progress.RoundsEmptyWindow` | src/TcpController.cc:606-635 | From any such state at most as many loss-free rounds as there are unacknowledged packets empty the window |
| `Progress.HandshakeRound` | src/TcpController.cc:378-475 | One loss-free round takes a client from SYN_SENT to ESTABLISHED, also when its SYN was lost before the server was created, and a server from SYN_RCVD to ESTABLISHED whether or not the client had seen its SYN-ACK |
| `Draining.DeliveryDrops` | src/TcpController.cc:331-351 | Every possible delivery makes a measure of windows and channels smaller, fast retransmissions included and whatever the duplicate threshold is, so deliveries come to an end |
| `Draining.DeliveriesEnd` | src/TcpController.cc:331-351 | Every run of deliveries from a reachable state is bounded by a number fixed by that state, and cannot go on exactly when the channels are drained |
| `Liveness.ProbeOpensExactly` | src/TcpController.cc:932-943 | With drained channels and a zero window the prober's round opens the window if and only if the peer's free space is not a multiple of 65536, that is, if less is buffered than it ever offers |
| `Liveness.DeliverableExactly` | src/TcpController.cc:829-930 | From every reachable running state with the client connected, a loss-free run of timers, creation, deliveries, listener rounds, probes and reads makes what is read equal to what was written, if and only if the reader's buffer is not a multiple of 65536 bytes or nothing was written; for a reader that is shut down, if and only if it has read all already; a reader in LAST_ACK with its stream open is the subject of the next rows |
| `EarlyClose.ClosesShortExactly` | src/TcpController.cc:667-673 | For every reachable running state with a side in LAST_ACK: some run shuts it down with bytes of its peer missing if and only if the stream it receives has not ended |
| `LastAcks.FinMovesStateAnyway` | src/TcpController.cc:482-509 | A FIN moves the state whether or not it comes in order, and ends the stream if and only if it comes in order |
| `LastAcks.StatesAreGenuine` | src/TcpController.cc:477-515 | In every reachable state, on both sides, a state behind a FIN means that the peer's FIN has arrived, and LAST_ACK that the own FIN is unacknowledged |
| `Liveness.ShutReadsNothing` | src/TcpController.cc:777-779 | A side that is shut down stays so and reads nothing more, over any run |
| `Limits.ClosedWithoutTheData` | src/TcpController.cc:667-673 | A concrete run: the server is shut down, the client's byte was never received, and no loss-free run has it read |
| `Limits.FullBufferOffersNothing` | src/TcpHeader.h:15 | A concrete state with a buffer of 65536 bytes: a byte is written and no loss-free run has it read |
| `Limits.ZeroReadIsNoEnd` | src/TcpController.cc:792-799 | A concrete state in which a read of zero bytes returns zero with the stream open and its bytes unread |
| `Safety.StepAdvances` | src/TcpController.cc:331-351 | Every enabled step but a read past the end keeps the global invariant, never takes back what was accepted, and only extends logs and histories |
| `Safety.RunKeepsInv` | src/TcpController.cc:331-351 | The invariant holds after every run, also after one that a late read has ended |
| `Safety.InitInv` | src/TcpController.cc:88-95 | The invariant holds for every initial configuration with 32-bit windows |
| `Packetizing.RoundConserves` | src/TcpController.cc:888-921 | From any valid window, wrapping or not, a round sends exactly the first min(free space, buffered) = n bytes, in order, in (n + 9) / 10 packets: ten bytes each, the last one with the rest, numbered on from the window; none is refused, so no byte is dropped; an empty window starts the timer, a zero window the prober, and nothing else changes |
| `SendSteps.EmitConserves` | src/TcpController.cc:893-921 | The packets emitted for `n` bytes concatenate to the first `n` bytes, which leave the buffer, and are appended to the window |
| `SendWindows.AckWrapRefinement` | src/SendWindow.cc:76-104 | For every valid window modulo 2^32 and every acknowledgement of a prefix, the code does what an unbounded-integer window does, if and only if the acknowledgement is recognised; otherwise it changes nothing |
| `SendWindows.AckReturnsExactly` | src/SendWindow.cc:57-129 | For every valid window, wrapping or not: the call returns exactly on a duplicate, on a packet boundary inside the window, on a number between the wrapped right edge and the base (which it ignores), and on zero for an empty window; every other number trips a check |
| `SendWindows.AckPrefixKeepsValid` | src/SendWindow.cc:86-104 | After an acknowledgement the size is the sum of what is left and the packets follow one another from the new base |
| `SendWindows.SendPacketKeepsValid` | src/SendWindow.cc:22-55 | A packet is taken if and only if it carries the next number and fits; the check never fails, the window stays contiguous, and only its packets and its size change, by this packet |
| `SendWindows.ShrunkWindowIgnoresWrappedAck` | src/SendWindow.cc:76-77 | A concrete window near 2^32 that drops the acknowledgement of everything it holds |
| `RetransmitPolicy.KarnRule` | src/SendWindow.cc:89-115 | Over any sequence of calls a round-trip time is reported only when no packet in the window had been sent twice (section 3 of RFC 6298) |
| `RetransmitPolicy.KarnAlways` | src/SendWindow.cc:131-138 | The flag is set whenever a packet still in the window was retransmitted, after any sequence of calls |
| `KarnRuns.KarnOverRuns` | src/TcpController.cc:965-971 | In every run of the two parties: once a step sends a packet that is already in the window (timer, repeated SYN, duplicates), the flag is set and no acknowledgement measures a round-trip time, however the run goes on, as long as that packet is unacknowledged |
| `KarnRuns.GoneForGood` | src/SendWindow.cc:79-97 | Over any run a packet of the log that has left the send window never comes back |
| `RetransmitPolicy.FiresExactly` | src/SendWindow.cc:116-125 | Counting from zero to three, the r-th fast retransmit comes with duplicate number T1 + ... + Tr, where T1 = 3 and T(i+1) = Ti + Ti / 2, neither earlier nor later: with duplicates 3, 7, 13 and so on |
| `RetransmitPolicy.DupsExact` | src/SendWindow.cc:116-128 | After n duplicates the window is the old one but for its two counters, which say how far it is to the next retransmit |
| `RetransmitPolicy.CountsFromZeroToThree` | src/SendWindow.cc:105-107 | A new window, and every window whose base an acknowledgement has moved, counts from zero to three; the result says exactly whether the base moved and whether it was repeated |
| `HandlerLaws.DuplicatesResend` | src/TcpController.cc:610-614 | Any row of acknowledgements that repeat the base of a non-empty window has the oldest packet sent again with numbers 3, 7, 13 and so on, sends nothing else and takes nothing from the window |
| `HandlerLaws.ThirdDuplicateResends` | src/TcpController.cc:610-614 | The first two duplicates send nothing, the third exactly the oldest packet |
| `RetransmitPolicy.FastRetransmitIsLogarithmic` | src/SendWindow.cc:116-125 | `n` duplicates without progress trigger `r` retransmits only if 2^r (n + 4) >= 4 * 3^r + r * 2^r |
| `SendWindowClass.SendWindow.SendPacket` | src/SendWindow.cc:22-55 | The object changes as the value function says: aborts, refusals and the whole new state |
| `SendWindowClass.SendWindow.PopAcked` | src/SendWindow.cc:79-104 | The in-place pop loop leaves the queue, the size modulo 2^32, the expected number and the stopwatch of the functional loop |
| `SendWindowClass.SendWindow.NewAckedPacket` | src/SendWindow.cc:57-129 | The object's whole new state and result equal the value function's, and it aborts exactly when that does |
| `LinkClass.Link.constructor` | src/TcpController.cc:88-95 | Two new objects form the initial state of the transition system |
| `LinkClass.Link.DeliverToClient` | src/TcpController.cc:319-351 | Handing a packet to the client object is the delivery step of the transition system; from a state that a run can reach it fails no check and leads to another such state |
| `LinkClass.Link.DeliverToServer` | src/TcpController.cc:319-351 | The same for the server object, once it exists |
| `LinkClass.Link.ClientSteps` | src/TcpController.cc:147-183 | Connecting, listener rounds, closing, timers and moving overflowed packets on the client object are the steps of the transition system, with the same guarantee |
| `LinkClass.Link.ServerSteps` | src/TcpController.cc:965-979 | The same for the server object |
| `LinkClass.Link.CreateServer` | src/Host.cc:550-567 | A new server object with the SYN's number as receive base, and the SYN handed over twice, is the creation step |
| `LinkClass.Link.ClientReads` | src/TcpController.cc:767-800 | A read is the read step, fails exactly past the end, and returns the bytes the history gains |
| `LinkClass.Link.ServerReads` | src/TcpController.cc:767-800 | The same for the server object |
| `LinkClass.Link.ClientWrites` | src/TcpController.cc:802-827 | A write is the write step and accepts the bytes the history gains |
| `LinkClass.Link.ServerWrites` | src/TcpController.cc:802-827 | The same for the server object |
| `LinkClass.Link.LoseFromClient` | src/BaseChannel.cc:58-65 | Losing a packet of the client's channel is the loss step |
| `LinkClass.Link.LoseFromServer` | src/BaseChannel.cc:58-65 | The same for the server's channel |
| `SendWindowClass.SendWindow.GetBasePacketToReSend` | src/SendWindow.cc:131-138 | Hands out the oldest packet, if any, and sets the flag exactly then |
| `SendWindowClass.LoopPops` | src/SendWindow.cc:79-97 | Popping packet by packet with `uint32` subtraction is removing a counted prefix and subtracting its sum modulo 2^32 |
| `RecvWindowClass.RecvWindow.FindPlace` | src/RecvWindow.cc:32-43 | The walk stops at the node after which the packet belongs; all nodes passed end at or below it, or the overlap check failed there |
| `RecvWindowClass.RecvWindow.InsertAfter` | src/RecvWindow.cc:44-53 | Splicing keeps a list with consistent `next` and `prev` and adds the node at its place |
| `RecvWindowClass.RecvWindow.FindRunEnd` | src/RecvWindow.cc:60-70 | The second walk ends at the last node of the contiguous run |
| `RecvWindowClass.RecvWindow.CutRun` | src/RecvWindow.cc:71-77 | The cut leaves two separate well-formed lists, the run and the rest behind the head |
| `RecvWindowClass.RecvWindow.ReceivePacket` | src/RecvWindow.cc:18-84 | The heap list stays well-formed, the result equals the value function's, aborts coincide, and the returned chain is a list of its own, disjoint from the window |
| `RecvWindowClass.LinkedDistinct` | src/RecvWindow.h:17-21 | A list with consistent links and null ends has no node twice: it is acyclic |
| `ReceiveLaws.ReceiveExact` | src/RecvWindow.cc:18-84 | For every sorted non-overlapping window and packet: the checks pass if and only if the packet is old or apart from all buffered ones; then the window stays sorted, non-overlapping and above its base, the chain fills the space from old to new base and is maximal, and no packet is lost or doubled |
| `ReceiveLaws.OldIgnoredExactly` | src/RecvWindow.cc:20-24 | An old packet is recognised if and only if no multiple of 2^32 lies between it and the base |
| `ReceiveLaws.StaleAfterWrapAborts` | src/RecvWindow.cc:20-51 | Otherwise it is buffered as new, and a second copy trips the overlap check |
| `Reassembly.FeedExact` | src/RecvWindow.cc:18-84 | Feeding any sequence of packets of a log aborts if and only if one comes again while still buffered; otherwise base, buffer and delivered packets are those of the set that came |
| `Reassembly.ArrivalOrderIndependence` | src/RecvWindow.cc:18-84 | Any two orders of the same packets, with acknowledged duplicates in between, end in the same window and deliver the same payload |
| `Reassembly.AllArrivedAllDelivered` | src/RecvWindow.cc:57-78 | When all packets of a log came, all were delivered in order and nothing is buffered |
| `TcpControllerClass.TcpController.StreamDataToReceiveBuffer` | src/TcpController.cc:689-730 | Walking the heap chain streams the packets as the value function does: buffer, overflow queue, end of stream |
| `TcpControllerClass.TcpController.PushOverflowedPacketsToSocketBuffer` | src/TcpController.cc:746-764 | The in-place loop moves exactly the front packets that fit |
| `TcpControllerClass.TcpController.HandleDataPacket` | src/TcpController.cc:360-376 | New state and acknowledgement sent, with the free space after streaming, equal the value function's |
| `TcpControllerClass.TcpController.HandleSYN` | src/TcpController.cc:378-436 | First and repeated SYN: whole new state and packets sent |
| `TcpControllerClass.TcpController.HandleACKSYN` | src/TcpController.cc:438-475 | In any state: whole new state, receive base overwritten, acknowledgement sent |
| `TcpControllerClass.TcpController.HandleFIN` | src/TcpController.cc:477-515 | State change first, then delivery and acknowledgement |
| `TcpControllerClass.TcpController.HandleACK` | src/TcpController.cc:606-687 | Window, timer, prober, fast retransmit and state change as one handler |
| `TcpControllerClass.TcpController.HandleReceivedPacket` | src/TcpController.cc:331-351 | Dispatch of one packet to its handler |
| `TcpControllerClass.TcpController.SendBufferListener` | src/TcpController.cc:864-921 | One round past its waits |
| `TcpControllerClass.TcpController.Emit` | src/TcpController.cc:888-921 | The loop of full packets and the rest packet is the functional packetizer, whose packets `Packetizing.RoundConserves` states one by one |
| `TcpControllerClass.TcpController.SendFIN` | src/TcpController.cc:258-310 | Capacity raised, FIN registered, sent only from two states |
| `TcpControllerClass.TcpController.TryConnect` | src/TcpController.cc:147-183 | SYN registered, state and timer, or refusal; the call reports success if and only if a CLOSED side has moved to SYN_SENT |
| `TcpControllerClass.TcpController.TimeoutReTransmitter` | src/TcpController.cc:965-979 | Only the base packet is copied |
| `TcpControllerClass.TcpController.ProbeWindowSize` | src/TcpController.cc:932-943 | An empty packet at the next number, only at zero capacity |
| `TcpControllerClass.TcpController.ReadData` | src/TcpController.cc:767-800 | The bytes handed out and the bytes left are the old buffer; a count is the number of bytes handed out, which is what was asked for or all there was; -1 is returned exactly after shutdown or on an open stream with nothing buffered |
| `TcpControllerClass.TcpController.WriteData` | src/TcpController.cc:802-827 | -1 exactly after shutdown or in the five states behind an own FIN; otherwise the front of the data goes behind what is buffered, all of it or as much as fills the buffer |
| `BufferLaws.ReadExact` | src/TcpController.cc:767-800 | The same of the value function, with the fatal read and the consumed end of stream: any read but one past the end splits the buffer in two, and changes nothing else |
| `BufferLaws.WriteExact` | src/TcpController.cc:802-827 | The same of the value function; a write never goes beyond the capacity and changes nothing but the send buffer |
| `BufferLaws.PushOverflowExact` | src/TcpController.cc:746-764 | Of the packets that wait for room exactly the longest front part that fits moves up, in order and without losing a byte |
| `BufferLaws.StreamDataExact` | src/TcpController.cc:689-730 | Waiting packets come first; then each received packet in front of the first SYN or FIN goes to the buffer if it has a payload that fits behind what went before, else it waits, both in order; a SYN hangs, a FIN ends the stream and hides the rest |
| `HandlerLaws.ThreeWayHandshake` | src/TcpController.cc:147-475 | Two new endpoints of any sizes: the three packets and the four endpoints of the handshake field by field, and a second SYN answered by the same SYN-ACK |
| `HandlerLaws.FourWayClose` | src/TcpController.cc:258-310 | From any two idle endpoints, one closing after the other: the packets and every state from FIN_WAIT_1 to TIME_WAIT and from CLOSE_WAIT to CLOSED |
| `HandlerLaws.SimultaneousClose` | src/TcpController.cc:477-515 | From any two idle endpoints, both closing at once: the packets and both ways through CLOSING to TIME_WAIT |
| `HandlerLaws.ArrivalAnswered` | src/TcpController.cc:360-376 | Every data packet, FIN and probe, in any state, is answered by one acknowledgement of the new receive base with the room left after streaming, modulo 65536; only a FIN moves the state, and the sending half is untouched |
| `HandlerLaws.AckHandled` | src/TcpController.cc:616-684 | Every accepted acknowledgement, in any state: window, timer, prober, shutdown and the table of state changes; the receiving half is untouched |
| `HandlerLaws.SynAckHandled` | src/TcpController.cc:438-475 | Every accepted SYN-ACK, in any state, is acknowledged and sets the receive base; only in SYN_SENT does it connect and take the advertised window |
| `HandlerLaws.ConnectsExactly` | src/TcpController.cc:147-183 | An endpoint connects if and only if it is CLOSED with an empty window, and then sends a SYN at the send base that offers its free room; otherwise nothing changes |
| `HandlerLaws.TimersSend` | src/TcpController.cc:932-971 | What the two timers send, and that the prober changes nothing |
| `PacketQueueClass.PacketQueue.PushAll` | src/PacketQueue.cc:41-53 | The batch goes to the end of the queue in order and the caller's queue is empty |
| `PacketQueueClass.PacketQueue.DeQueue` | src/PacketQueue.cc:55-79 | The front packet is taken, nothing from an empty or stopped queue; the reader count is restored |
| `PacketQueueClass.PacketQueue.DeQueueAllTo` | src/PacketQueue.cc:81-106 | The two queues are swapped, unless empty or stopped |
| `BaseChannelClass.BaseChannel.Send` | src/BaseChannel.cc:44-78 | The channel gains as many packets as dice keep, each kept packet at the place given by the number of dice before it that keep theirs, and the caller's queue is empty |
| `BaseChannelClass.BaseChannel.WaitingForPackets` | src/BaseChannel.cc:84-97 | Everything in the channel is delivered in one batch |
| `Pipeline.PipelineKeepsOrder` | src/Host.cc:577-591 | Over any run of any number of batch queues with lossy hops, what was taken and what is in flight is a subsequence of what was pushed |
| `Pipeline.MoveIsDrops` | src/BaseChannel.cc:44-78 | Moving a batch on, with loss, is a run of `Drop` steps of the two-party system on the concatenated queues |
| `Pipeline.AllSurvive` | src/PacketQueue.cc:41-53 | A hop without loss passes the batch on unchanged |
| `Pipeline.SurvivorsExact` | src/BaseChannel.cc:49-75 | By position: a kept packet comes after as many packets as are kept before it, and there are no others |
| `Pipeline.LosslessPipeline` | src/Host.cc:577-591 | In any run without loss, of any number of batch queues, what was taken and what is in flight is exactly what was pushed, in order |

## Left out

- Congestion control and smoothing of round-trip times (src/TcpController.cc:537-604): switched off in the code; a round-trip time is modelled as whose stopwatch is reported, not as a duration.
- RST, abortive close, the SYN, FIN and close timers, the delayed end of TIME_WAIT and deletion of the connection: a run simply may end. Deliveries after shutdown stay possible in the model, which only adds runs.
- Interleavings inside a handler: every handler is one step. `SendFIN` and `HandleACK` each hold two locks one after the other in the code; the model does not capture another handler running in between.
- Condition variables and the liveness of blocking waits, `PacketQueue::Stop`: a method starts when its wait is over.
- Host and process tables, ports, demultiplexing of unknown connections: only the creation of a connection by its first SYN, which the host delivers twice (src/Host.cc:498, src/Host.cc:554-567), is a step.
- `SendFIN` before the connection is established: the socket layer is taken to call it once, in ESTABLISHED or CLOSE_WAIT; `Limits.SendFinExact` says what happens otherwise.
- SendWindowClass.SendWindow.NewAckedPacket: an acknowledgement of zero on an empty window pops nothing, and the code then returns a duration it never initialised (src/SendWindow.cc:75, src/SendWindow.cc:114-115); the model reports none. No run gets there.
- Liveness.DeliverableExactly: says nothing of a reader in LAST_ACK with its stream open, where the outcome depends on what is in flight ahead of the last acknowledgement; `EarlyClose.ClosesShortExactly` says that some run closes it short.
- Sequence numbers that wrap in the two-party system: a write is possible only while the stream stays below 2^32, because the receiver compares numbers with plain `<`. The send window alone is proved with wrap-around.
- Theorems.CloseMeansDelivered: does not cover TIME_WAIT, because the property is false for it; see `Limits.ClosingAckExact`.
- RetransmitPolicy.FiresExactly: stops at 2^31 duplicates, beyond which the threshold could leave `uint32`, where the code's conversion from floating point is undefined; the threshold, one file-scope variable in the code (src/SendWindow.cc:9), belongs to a single window here, so another connection's acknowledgements do not reset it.
- RetransmitPolicy.FastRetransmitIsLogarithmic: the same.
- HandlerLaws.DuplicatesResend: the same.
- KarnRuns.KarnOverRuns: the host's second copy of the first SYN is a delivery, not a retransmission.
- Sharing of packets between the send window and the pipeline: packets are values, so copies are free.
- The unused capacity field of the receive window, packet corruption (never read by a receiver), IP addresses and ports, logging.
- Ring buffers, timers and random numbers are abstract: byte sequences with a capacity, flags, and free choice.
