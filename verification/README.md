# A model of the TCP/IP stack and what is proved of it

This project models the protocol core of a small user-space TCP/IP stack
written in C: the TCP segment-arrival machine with its retransmission queue,
send and receive buffers and close sequence (tcp.c), IP fragmentation and
reassembly (ip.c) over a packed coverage mask (util.c), the Internet checksum
(util.c, used by ip.c and tcp.c), the ARP table with its saved packets (arp.c),
and the linked queue behind `accept` (util.c, tcp.c).

Everything in tcp.c, arp.c and the reassembly part of ip.c runs under a mutex,
so each critical section is one atomic step. A wait on a condition variable
ends a step. The clock, the random initial sequence number and the order in
which threads and packets come are inputs of the steps.

## How it is organised

Each operation that changes state is a method of a class, proved equal to a
function from old state to new state. The theorems are about those functions.

| file | what it holds |
|---|---|
| `Words.dfy`, `Wrappers.dfy`, `Sequences.dfy` | 8, 16 and 32-bit unsigned integers with wrap-around; `Option`; a sequence without one element |
| `TcpModel.dfy` | the control block as a value and every critical section of tcp.c as a function |
| `TcpTxQueue.dfy` | the retransmission queue as a linked list spliced in place |
| `TcpControlBlock.dfy` | the control block with that queue and its receive buffer, updated in place, each method tied to a function of `TcpModel` |
| `TcpHost.dfy`, `TcpLocal.dfy` | one endpoint with its history, and the invariant every event keeps whatever the network sends |
| `TcpConnection.dfy`, `TcpTheorems.dfy` | two endpoints over a network that loses, duplicates and reorders, its invariant, and the guarantees that follow |
| `TcpEndpointRuns.dfy`, `TcpFirstSent.dfy`, `TcpWindows.dfy`, `TcpAccounting.dfy` | guarantees of one endpoint over every run |
| `TcpArrivals.dfy`, `TcpCalls.dfy`, `TcpRetransmit.dfy` | what every event must do to an endpoint: each field and each segment sent, in terms of the block before |
| `TcpFinOvertakes.dfy`, `TcpOverrun.dfy` | a run in which a FIN overtakes text, and one that reaches a copy past the receive buffer |
| `TcpDemux.dfy` | which control block a segment goes to |
| `TcpWire.dfy` | segments as bytes, from sender to receiver |
| `Checksum.dfy` | the checksum, against RFC 1071 and RFC 793 |
| `WordBits.dfy`, `Mask.dfy` | bits of a 32-bit word, the packed mask against a set of positions |
| `IpPacket.dfy`, `IpFragments.dfy` | packets as bytes, the fragmentation loop |
| `IpReassembly.dfy`, `IpReassembler.dfy` | reassembly as a function of the table, as it is meant and as it is written, and in place on the linked list of contexts |
| `IpRoundTrip.dfy`, `IpAlignment.dfy`, `IpSlots.dfy`, `IpWire.dfy` | whole runs of the receiver, the last from bytes to payload |
| `IpPatrol.dfy` | runs in which the patrol frees a context that is still in the list |
| `Arp.dfy`, `ArpAnswers.dfy`, `ArpCache.dfy` | the ARP table as a state machine with history, what its operations must answer, and in place |
| `LinkedQueue.dfy`, `Backlog.dfy`, `BacklogPhases.dfy`, `SocketTable.dfy` | the linked queue, who is in which backlog, how that follows the control blocks, and the table of control blocks with linked backlogs in place |

Main results:

- stream safety between two endpoints in every run (`TcpTheorems.StreamSafety`);
- the order of sequence numbers across the two ends, what acknowledgments in
  flight can say, and what a freed queue entry implies about the peer;
- tiling and coverage of the retransmission queue, and the order in which
  segments are first transmitted (`TcpFirstSent.FirstSentInOrder`);
- what every event must do: the effect of a segment in every state, what a pass
  of the timer sends, when a connection opens and when it ends;
- exact receive accounting, window updates and shutdown states over every run;
- the fragmentation round trip in any order, with duplicates, among fragments of
  other datagrams (`IpRoundTrip.RoundTrip`), with the exact condition on the
  MTU (`IpAlignment.DeliverableIff`) and from bytes to bytes
  (`IpWire.BytesToPayload`);
- the mask against sets, the checksum against its definition, fill and verify;
  exactly which packets and segments are taken, and that corrupted ones are not;
- conservation of the packets ARP saves, over every interleaving, and that an
  address that was heard is what a lookup gets;
- the order in which `accept` hands out connections.

Hypotheses and departures of the code, all stated in the contracts:

- Sequence comparisons are plain unsigned comparisons and README.md:79 of the
  source lists wrap-around of sequence numbers as unsupported. Runs of a
  connection therefore keep the whole stream below 2^32 (`TcpHost.StreamOk`).
  The arithmetic itself wraps explicitly.
- In-order text longer than the receive window is copied past the buffer
  (tcp.c:438-441, 644-647), which leaves the behaviour of the program undefined.
  Such an arrival is not a step of the model (`TcpModel.Overruns`), so
  `TcpTheorems.StreamSafety` and the other theorems over runs say nothing of what
  follows it. `TcpOverrun.OverrunReachable` is a run of two endpoints of the stack
  that gets there, `TcpOverrun.OverrunsIff` the exact condition in every state.
- A block that is used again keeps `txq.snt` and `timeout` of its last connection
  (tcp.c:251-275). Runs start from any value of both.
- The ack field of a SYN is read without looking at the ACK bit (tcp.c:382).
  Runs of one endpoint with an arbitrary peer ask that a SYN without ACK carries
  an ack field that does not exceed `snd.nxt`; `TcpEndpointRuns.SynFieldIff`
  shows that this is exactly what is needed. Segments of the stack itself
  carry 0.
- `ack + 1 == snd.nxt` is taken as "our FIN is acknowledged" (tcp.c:571, 579).
  The model does the same; `TcpEndpointRuns.FinWait2Iff` states what follows.
- A FIN sets `rcv.nxt` to `seq + 1` whatever came before it (tcp.c:675).
  `TcpFinOvertakes.FinOvertakesText` is a run that loses text this way,
  `TcpTheorems.FinCompletesIff` the exact condition at one arrival,
  `TcpTheorems.FinMeansAll` what holds over a run in which FINs arrive in turn.
- `txq.snt` is modelled as the code maintains it and nothing relies on it.
- The checksum's pseudo header counts the low half of `self` twice
  (tcp.c:216). Both ends agree; `Checksum.Rfc793Iff` says when RFC 793 does.
- `ip_fragment_patrol` takes an expired context off the list, frees the context
  behind it and goes on at that one (ip.c:163-171). `IpReassembly.PatrolLoop` is the
  loop as it is written, without a result once freed memory is read.
  `IpReassembly.PatrolLoopIff` says when it does what is meant: exactly when no
  expired context has a context behind it. The theorems over runs of the receiver
  are about the code as it is written (`IpRoundTrip.Written`) and ask for that at
  every patrol; `IpRoundTrip.WrittenIff` shows that the code has a result for those
  runs alone. `IpPatrol.TwoOrphans` and `IpPatrol.NeighbourExpires` are runs without.
- Every call patrols because the time of the last patrol is never recorded
  (ip.c:184, 190). The counter of contexts is not reduced by it (ip.c:190-192), which
  `IpSlots.SlotsLeak`, `IpSlots.Exhausted` and `IpSlots.SlotsRunOut` follow to
  the end.
- `maskclr` multiplies its argument by four and is called with a byte count
  (ip.c:118), so that every allocation clears 8192 words of a mask of 2048 and writes
  24576 bytes past it. The theorems about reassembly are about the call that is
  meant, which clears the mask of the context.
- arp.c releases its lock between update and insert (arp.c:294-300). The two
  halves are two steps; `Arp.DuplicateEntries`, `Arp.InsertUniqueIff` and
  `Arp.RunUnique` say what that costs.
- A lookup that waits reads its entry again without comparing the address
  (arp.c:337-349). `Arp.WaiterMisled` is a run with a wrong answer,
  `Arp.WaiterAnswered` the condition under which the answer is right.
- A child that ends while it is queued stays in the backlog (tcp.c:267-275). Its
  block can be accepted twice (`Backlog.AcceptedTwice`) and can be in use when its
  listener is closed, so `tcp_close` calls itself on it; `Backlog.Shut` and
  `Backlog.Drain` follow the nested calls.

## Model

| member | source | states |
|---|---|---|
| `TcpTheorems.StreamSafety` | tcp.c:279-1031 | in every state of every run of two endpoints over a network that loses, duplicates and reorders, the bytes received and still buffered on each side are a prefix of the bytes accepted by `tcp_api_send` on the other |
| `TcpTheorems.FlippedRun` | tcp.c:279-1481 | a run seen from the other end is a run, with its FINs still in turn, so each result about one end holds of the other |
| `TcpTheorems.CrossOrder` | tcp.c:543-550 | once both ends are synchronized, `iss <= snd.una <= peer rcv.nxt <= snd.nxt` in both directions in every run |
| `TcpTheorems.AcksInFlight` | tcp.c:642-676 | every acknowledgment in flight falls on a segment boundary of the other side's stream and is at most the acknowledging side's `rcv.nxt` |
| `TcpTheorems.QueueTiles` | tcp.c:226-249 | in every run of one endpoint queued segments, SYN and FIN counting one, are consecutive and end at `snd.nxt`, whatever the peer sends |
| `TcpTheorems.TimerCovers` | tcp.c:941-1020 | after a timer pass in any run of two endpoints the queue tiles exactly `[snd.una, snd.nxt)` |
| `TcpTheorems.WalkFilters` | tcp.c:941-1020 | a timer pass keeps exactly the segments at or above `snd.una`, in order |
| `TcpTheorems.FreedWasReached` | tcp.c:997-1016 | in every run an entry below `snd.una` lies wholly below the peer's `rcv.nxt` |
| `TcpTheorems.FinMeansAll` | tcp.c:672-711 | in every state of every run in which each FIN is taken at `rcv.nxt`, an end that has taken the FIN has received the whole stream of the other |
| `TcpTheorems.FreedWasReceived` | tcp.c:997-1016 | in every such run the text of an entry below `snd.una` is in the peer's received prefix |
| `TcpTheorems.FinCompletesIff` | tcp.c:672-711 | when a FIN is taken, the whole stream has been received if and only if the FIN was at `rcv.nxt` |
| `TcpFinOvertakes.FinOvertakesText` | tcp.c:674-676 | a reachable state with everything acknowledged, the queue empty, the FIN taken and the text lost |
| `TcpOverrun.OverrunReachable` | tcp.c:642-648 | a reachable state of two endpoints, with an MTU of 1500 and a reader that does not read, in which a segment in flight would be copied past the end of `window` |
| `TcpOverrun.OverrunsIff` | tcp.c:438-441 | in every state an endpoint can be in, the copy runs past the end if and only if the state takes text and acceptable text at `rcv.nxt` that gets past the other checks is longer than the window |
| `TcpConnection.StepKeepsInv` | tcp.c:279-1481 | every event of either endpoint keeps the two-endpoint invariant |
| `TcpConnection.RunInv` | tcp.c:279-1481 | every state of every run satisfies it |
| `TcpLocal.StepKeepsLocal` | tcp.c:279-1481 | every critical section keeps the invariant of one endpoint, whatever segment arrives |
| `TcpLocal.ChecksEffect` | tcp.c:435-603 | the checks of a synchronized state close the block or change only the send side of it, never moving `snd.una` back or past `snd.nxt` |
| `TcpLocal.ReceiveEffect` | tcp.c:636-711 | text and FIN change only the receive side, and buffered bytes plus offered window stay the same |
| `TcpArrivals.InWindowIff` | tcp.c:435-455 | a segment is acceptable if and only if its sequence number is in the receive window, as numbers, or it is empty at `rcv.nxt` and the window is 0 |
| `TcpArrivals.ResetIff` | tcp.c:465-518 | in a synchronized state the block is reset, and all of the connection forgotten, if and only if the segment is in the window and carries RST or SYN |
| `TcpArrivals.ArrivalMoves` | tcp.c:520-711 | otherwise every field afterwards: `snd.una`, window and its pair, buffer, `rcv.nxt`, `rcv.wnd`, the state by the edges of RFC 793 section 3.2, and the deadline |
| `TcpArrivals.ArrivalReplies` | tcp.c:457-711 | exactly what is sent in answer, in order |
| `TcpArrivals.MovesAreAcknowledged` | tcp.c:642-677 | whenever `rcv.nxt` moves, the last segment sent acknowledges exactly up to it and offers the window that is left |
| `TcpArrivals.ArrivalActs` | tcp.c:435-711 | all of this at every arrival of every run |
| `TcpCalls.TransmitIff` | tcp.c:752-804 | `tcp_tx` queues the segment, and sends, stamps and counts it if and only if nothing in the queue is unsent and it is a SYN or `snt` plus its length is within `snd.wnd` |
| `TcpCalls.SendTransmits` | tcp.c:1431-1464 | in every run `tcp_api_send` takes the least of what there is, what fits a datagram and what the buffer has left, and that segment goes out at once under that condition |
| `TcpCalls.CallIsSends` | tcp.c:1393-1471 | the loop of `tcp_api_send` is a sequence of such sends: the same block and the same segments out |
| `TcpCalls.ClosedArrival` | tcp.c:287-300 | CLOSED answers everything but an RST with an RST |
| `TcpCalls.ListenArrival` | tcp.c:302-345 | LISTEN opens for a SYN without ACK and RST, with every field and reply, and is closed by anything else |
| `TcpCalls.SynSentArrival` | tcp.c:347-416 | SYN_SENT: what a bad acknowledgment, a reset, a SYN with and without our SYN acknowledged, and anything else do |
| `TcpCalls.ConnectRule` | tcp.c:1190-1207 | the SYN, the block and the deadline of an active open |
| `TcpCalls.CloseActs` | tcp.c:1055-1122 | in every run, what a close does by state: nothing, a reset of the block, or a FIN behind all that is queued |
| `TcpCalls.RecvActs` | tcp.c:1339-1355 | in every run `tcp_api_recv` hands out as many of the oldest bytes as were asked for, or all there are |
| `TcpCalls.EndsIff` | tcp.c:279-1122 | in every run an endpoint becomes CLOSED if and only if it must heed a reset, is past its deadline, or is closed before it is synchronized; and a closed one opens only by `tcp_api_connect` |
| `TcpCalls.EstablishesIff` | tcp.c:389-536 | in every run it becomes ESTABLISHED if and only if an acceptable segment without a FIN to take acknowledges its SYN |
| `TcpRetransmit.WalkIs` | tcp.c:941-1020 | a pass sends, in order, exactly the entries at or above `snd.una` with less than a window of such data in front that were never sent or more than three seconds ago, each with the ack rewritten; it restamps those, drops exactly the entries below `snd.una` and counts their bytes |
| `TcpRetransmit.TickSends` | tcp.c:909-1020 | the same at every pass of every run, with nothing else changed |
| `TcpRetransmit.OldestIsResent` | tcp.c:968-989 | in every run each pass with an open window sends the oldest unacknowledged segment unless it was sent in the last three seconds |
| `TcpEndpointRuns.SendBufferBound` | tcp.c:1438-1456 | in every run `snd.nxt - snd.una` is at most 10240, or 10241 with a FIN, so the 16-bit room is the true room |
| `TcpEndpointRuns.SynFieldIff` | tcp.c:380-387 | a SYN without ACK keeps `snd.una <= snd.nxt` if and only if its ack field is at most `snd.nxt` |
| `TcpEndpointRuns.SendSplits` | tcp.c:1433-1471 | a critical section of `tcp_api_send` queues data segments whose texts concatenate to what it counts as sent, each at most MTU minus 80, and stops early only when the send buffer is full |
| `TcpEndpointRuns.CallSplits` | tcp.c:1393-1476 | over all critical sections of one call, whatever happens while it waits, the texts it queues concatenate to what it counts as sent, so to the whole buffer when it returns the length |
| `TcpEndpointRuns.ShutdownFrozen` | tcp.c:1084-1118 | after our FIN is queued `snd.nxt` is frozen and the block stays in the closing states until CLOSED |
| `TcpEndpointRuns.ShutdownStates` | tcp.c:569-582 | over every run LAST_ACK is never reached, FIN_WAIT2 and TIME_WAIT have everything before our FIN acknowledged, and an unacknowledged FIN is the last queue entry |
| `TcpEndpointRuns.FinWait2Iff` | tcp.c:569-573 | FIN_WAIT1 is left for FIN_WAIT2 if and only if the acknowledgment is for everything before the FIN, stale or not; one for the FIN itself leaves FIN_WAIT1 |
| `TcpEndpointRuns.TailDecides` | tcp.c:757-776 | in every run unsent entries are a suffix of the queue, so testing the tail alone decides whether any is unsent |
| `TcpFirstSent.FirstSentInOrder` | tcp.c:757-804 | in every run first transmissions follow the order of the stream, SYN, text as it was cut, FIN; a unit not transmitted yet waits behind all that were, unless the peer acknowledged it unsent |
| `TcpEndpointRuns.WalkWithinWindow` | tcp.c:943-947 | each segment a pass sends has less than a window of retained data before it |
| `TcpWindows.WindowTestIff` | tcp.c:554-560 | with `wl2 <= snd.una` an in-range ACK updates the window exactly when its sequence number is at least `wl1` |
| `TcpWindows.WindowIsLatestMaximal` | tcp.c:543-560 | in every run `snd.wnd` is the window of the latest accepted segment with the largest (seq, ack), and `wl2 <= snd.una` |
| `TcpWindows.WindowPairGrows` | tcp.c:554-560 | from any state of any run to any later one, (`wl1`, `wl2`) does not decrease lexicographically unless the connection has closed |
| `TcpWindows.ArrivalAccounted` | tcp.c:642-676 | an arrival keeps `rcv.nxt = irs + 1 + delivered + (65535 - rcv.wnd)`, plus one after a FIN, if and only if any FIN it lets through is in order |
| `TcpWindows.TakeAccounted` | tcp.c:1339-1355 | `tcp_api_recv` keeps the same count, and delivered bytes followed by buffered bytes do not change |
| `TcpWindows.RightEdgeIff` | tcp.c:642-676 | `rcv.nxt + rcv.wnd` moves left exactly when one segment brings more than one byte of text and a FIN |
| `TcpAccounting.RunCounted` | tcp.c:323-325 | in every state of every run with FINs in order, `rcv.nxt` is the count of consumed sequence numbers |
| `TcpAccounting.RightEdgeNeverLeft` | tcp.c:1339-1353 | over any stretch of such a run the right edge of the receive window never moves left |
| `TcpTxQueue.TurnStep` | tcp.c:941-1020 | one turn of the loop leaves what the recursive walk comes to unchanged: entries kept, segments sent, bytes freed |
| `TcpTxQueue.TxQueue.Add` | tcp.c:226-249 | appends an unsent entry and keeps head, tail and links a well-formed list |
| `TcpTxQueue.TxQueue.HasUnsent` | tcp.c:757 | the tail test |
| `TcpTxQueue.TxQueue.ClearAll` | tcp.c:251-260 | empties the queue |
| `TcpTxQueue.TxQueue.Remove` | tcp.c:997-1016 | splices one entry out at the head, in the middle or at the tail, leaving the rest in order |
| `TcpTxQueue.TxQueue.Walk` | tcp.c:934-1020 | the in-place pass over the list computes `TimerWalk` of its contents |
| `TcpControlBlock.ControlBlock.Queue` | tcp.c:722-811 | `tcp_tx` of a segment that is kept: appended to the linked queue, sent and stamped unless an earlier entry is unsent or the window is full |
| `TcpControlBlock.ControlBlock.SegmentArrives` | tcp.c:279-715 | in place, computes `Arrive` of the old block, with the same segments sent |
| `TcpControlBlock.ControlBlock.HandleListen` | tcp.c:302-345 | LISTEN: RST, ACK, SYN and anything else |
| `TcpControlBlock.ControlBlock.HandleSynSent` | tcp.c:347-416 | SYN_SENT: ACK range, RST, SYN with and without our SYN acknowledged |
| `TcpControlBlock.ControlBlock.HandleSynchronized` | tcp.c:435-603 | sequence check, RST, SYN and ACK of the synchronized states |
| `TcpControlBlock.ControlBlock.HandleText` | tcp.c:636-670 | in-order text is copied behind the buffered bytes of `window` |
| `TcpControlBlock.ControlBlock.HandleFin` | tcp.c:672-711 | the FIN step and its state change |
| `TcpControlBlock.ControlBlock.TimerPass` | tcp.c:909-1020 | user time-out, or the loop over the linked queue, which comes to `TimerWalk` of its contents |
| `TcpControlBlock.ControlBlock.ConnectCall` | tcp.c:1139-1217 | the SYN of an active open |
| `TcpControlBlock.ControlBlock.CloseCall` | tcp.c:1055-1122 | `tcp_close` in every state |
| `TcpControlBlock.ControlBlock.RecvCall` | tcp.c:1305-1372 | returns the oldest buffered bytes and slides the rest to the front of `window`, or waits, or fails |
| `TcpControlBlock.ControlBlock.SendCall` | tcp.c:1374-1481 | the loop over segments up to a full buffer, then a wait |
| `TcpWire.SegmentRoundTrip` | tcp.c:738-783 | what `tcp_tx` builds checks to 0 at the peer and is read back as the same segment, for every segment and address pair |
| `TcpWire.RewriteRoundTrip` | tcp.c:953-957 | after the timer rewrites the ack it is read back as the same segment with the new ack |
| `TcpWire.SegmentDelivered` | tcp.c:1438-1460 | a segment of the size `tcp_api_send` makes goes out as one datagram without fragment fields, is accepted, and arrives as sent |
| `TcpWire.DecodeIff` | tcp.c:819-832 | whatever bytes come, a segment is taken if and only if it is for this host, is long enough and adds up with its addresses, a bad data offset apart |
| `TcpWire.GotReads` | tcp.c:280-284 | what is taken has the fields that stand in the bytes, options skipped |
| `TcpWire.BitsOf` | tcp.c:738-748 | the six flags are exactly the six low bits of their byte |
| `TcpWire.CorruptedIsDiscarded` | tcp.c:828-832 | a segment that adds up is discarded once one word anywhere in it is changed by anything but a multiple of 65535 |
| `TcpWire.OddCorruptedIsDiscarded` | tcp.c:828-832 | and once the last byte of an odd one is changed |
| `Checksum.Cksum16` | util.c:89-103 | the loop with its wrapping accumulator returns the complement of the one's-complement value of the wrapped sum |
| `Checksum.TwoFolds` | util.c:100-101 | two folds reduce every 32-bit accumulator to its one's-complement value |
| `Checksum.NoOverflow` | util.c:92-99 | no 16-bit size overflows the accumulator from an initial value up to 2^31 |
| `Checksum.DeferredCarries` | util.c:89-103 | the value equals the sum with the carry added back at each step, as RFC 1071 defines it |
| `Checksum.VerifyIff` | util.c:89-103 | a message checks to 0 if and only if its field is the checksum modulo 65535 |
| `Checksum.FillVerifies` | ip.c:428-431 | a message whose cleared field is filled with its checksum checks to 0 |
| `Checksum.ChangeIff` | util.c:89-103 | a message that checks to 0 and has one word changed still does if and only if the change is a multiple of 65535 and not all of it is 0 |
| `Checksum.HostOrderIff` | util.c:95-103 | hosts of either byte order leave the same bytes if and only if the length is even or the odd byte is 0 |
| `Checksum.TcpChecksum` | tcp.c:209-220 | the method computes the checksum over pseudo header and segment without overflow |
| `Checksum.TcpFillVerifies` | tcp.c:779-783 | a completed segment checks to 0 at the other end for every address pair |
| `Checksum.RewritesVerify` | tcp.c:954-957 | it still does after any number of rewrites of the ack, which touch no other field |
| `Checksum.Rfc793Iff` | tcp.c:213-218 | the checksum is the one of section 3.1 of RFC 793 if and only if the low halves of the addresses agree modulo 65535 |
| `WordBits.RunBit` | util.c:164-165 | the shifted run of ones has exactly its own bits |
| `WordBits.MissesNone` | util.c:182-183 | the and-xor test is zero if and only if no bit of the run is missing |
| `Mask.MaskSet` | util.c:158-174 | adds exactly the positions `[offset, offset + len)` |
| `Mask.MaskChk` | util.c:176-199 | true if and only if every position of `[offset, offset + len)` is in the mask |
| `Mask.MaskClr` | util.c:201-203 | leaves no position |
| `IpPacket.PacketRoundTrip` | ip.c:411-442 | every packet built is accepted and unpacked as sent, with any padding, or dropped if it is for another host |
| `IpPacket.ReceiveIff` | ip.c:316-354 | whatever bytes come, a packet is taken if and only if it is of version 4, all there, with a header whose words add up to 65535, a TTL left and an address of ours, one that ends inside its header apart |
| `IpPacket.TakenReads` | ip.c:361-373 | what is taken has the fields that stand in the header and the payload behind it, padding left off |
| `IpPacket.CorruptedIsDropped` | ip.c:333-336 | a built packet is dropped once one word of its header, the first byte apart, is changed by anything but a multiple of 65535 |
| `IpFragments.IpTx` | ip.c:477-485 | the loop sends the packets of `Fragments`, none larger than the MTU |
| `IpFragments.FragmentsByIndex` | ip.c:477-485 | fragment `k` is the one that begins at `k` units, and exists if and only if that is inside the payload |
| `IpFragments.OneDatagramIff` | ip.c:477-480 | one packet without fragment fields goes out if and only if the payload is not empty and fits |
| `IpReassembly.OffsetDecodes` | ip.c:212-216 | the receiver reads back the flag, and the position rounded down to eight |
| `IpReassembly.SameContextIff` | ip.c:143-153 | fragments share a context if and only if source, destination, identifier and protocol all agree |
| `IpReassembly.AbsorbIs` | ip.c:212-219 | what a fragment makes of a context, position by position; the latest fragment without the flag for more says the length |
| `IpReassembly.DeliversIff` | ip.c:222-237 | a fragment delivers its datagram if and only if the length is known and every position below it has been brought, and then those bytes |
| `IpReassembly.FullDrops` | ip.c:194-210 | a fragment without a context is dropped if and only if eight slots are counted, and takes a slot otherwise |
| `IpReassembly.PatrolLoopIff` | ip.c:155-177 | the loop as written does what is meant if and only if no expired context has a context behind it, and reads a freed context otherwise |
| `IpReassembly.PatrolLookup` | ip.c:155-177 | under that condition the loop as written forgets an expired context and finds every other; otherwise it has no result |
| `IpReassembly.ProcessKeepsInv` | ip.c:179-238 | the step as written has a result under the same condition alone, and then keys stay pairwise distinct, at most eight contexts, none of them complete |
| `IpReassembly.StepIsolated` | ip.c:194-237 | a step as written, where no expired context has a context behind it, is a step of the datagram that the four header fields name alone and no step for any other |
| `IpReassembler.Context.constructor` | ip.c:104-121 | a context with zero data, no position covered and no length |
| `IpReassembler.Context.Absorb` | ip.c:212-219 | copies the payload, marks its range, sets the length on the last fragment |
| `IpReassembler.Context.IsComplete` | ip.c:222-231 | the length is known and every position below it covered |
| `IpReassembler.ContextList.Expel` | ip.c:164-169 | in place, unlinks the expired context at the head or behind another and frees the one behind it |
| `IpReassembler.Reassembler.PatrolContexts` | ip.c:155-177 | in place on the linked list, the loop as written: its result, or that it comes to a context it has freed |
| `IpReassembler.Reassembler.Search` | ip.c:143-153 | the first context with the key |
| `IpReassembler.ContextList.Detach` | ip.c:125-141 | finds a context by identity, unlinks it, clears its link and leaves the others |
| `IpReassembler.Reassembler.ProcessFragment` | ip.c:179-238 | in place, computes the step as written, or reports that it reads freed memory |
| `IpRoundTrip.WrittenIff` | ip.c:155-238 | a run of the code has a result if and only if no patrol of it finds an expired context in front of another, and then it is the run with the patrols that are meant |
| `IpRoundTrip.Isolation` | ip.c:179-238 | over any run of the code, while slots last, its context does not expire and no expired context is in front of another, a datagram's context and outputs are those its own fragments alone would give |
| `IpRoundTrip.CompleteIff` | ip.c:222-231 | a context is complete if and only if it holds every fragment, and then holds the payload |
| `IpRoundTrip.RoundTripAlone` | ip.c:212-238 | fragments in any order with duplicates: each arrival delivers the exact payload if it completes the set received since the last delivery, nothing otherwise |
| `IpRoundTrip.RoundTrip` | ip.c:363-373 | the same among arbitrary fragments of other datagrams, under the conditions of `Isolation`, for every payload up to 65535 bytes and every unit that is a multiple of eight |
| `IpAlignment.DeliverableIff` | ip.c:477-480 | some run of fragments gives the payload back if and only if it fits one packet or MTU minus 20 is a multiple of eight |
| `IpPatrol.TwoOrphans` | ip.c:163-171 | one early fragment of each of two datagrams, within thirty seconds, and any fragment after the second has expired: the code reads freed memory |
| `IpPatrol.NeighbourExpires` | ip.c:163-171 | a datagram whose fragments come twenty seconds apart, and that would be delivered alone, ends in a read of freed memory because one fragment of another came in between |
| `IpSlots.FewAndBrief` | ip.c:194-210 | from an empty table, a run of at most eight datagrams within thirty seconds disturbs none |
| `IpSlots.BriefRoundTrip` | ip.c:179-238 | the round trip of every such run, with no further condition |
| `IpSlots.SlotsLeak` | ip.c:189-210 | in every run of the code that has a result the counter exceeds the number of contexts by the number that ever expired |
| `IpSlots.Exhausted` | ip.c:194-200 | in such a run, after eight contexts have expired the code goes on and no fragment is ever delivered again |
| `IpSlots.LostAtMost` | ip.c:189-210 | in such a run from an empty table a patrol removes at most one context, and all of them at most eight |
| `IpSlots.SlotsRunOut` | ip.c:194-200 | nine lone first fragments 100 seconds apart use up every slot, whatever arrives later |
| `IpWire.BytesToPayload` | ip.c:307-373 | from packet bytes as built by the sender to the delivered payload: among frames of at most eight datagrams within thirty seconds each packet delivers the exact payload if it completes the set, nothing otherwise |
| `Arp.StepKeeps` | arp.c:131-379 | every critical section keeps the table's invariant |
| `Arp.Conservation` | arp.c:131-173 | over every interleaving each saved packet is in exactly one place, held, sent once or lost once; a sent one went unchanged to the sender of a message for its address, on its interface's device |
| `Arp.EntryShape` | arp.c:162-173 | free entries hold no packet and no address, and an entry with a packet is not resolved |
| `ArpAnswers.ResolveAnswers` | arp.c:327-379 | a lookup, for every table: the address of the first entry for it, a wait if that has none yet, a question and an entry with the packet saved if there is no entry and room, an error otherwise |
| `ArpAnswers.WakeAnswers` | arp.c:337-349 | the end of a wait: an error, with the entry cleared if it was too long, or what the entry holds |
| `ArpAnswers.MessageMerges` | arp.c:131-160 | a message gives the first entry the patrol leaves for its sender the address and the time, and sends its packet there; without one it is left to the insertion |
| `ArpAnswers.InsertFills` | arp.c:103-116 | an insertion fills the first free entry, or nothing |
| `ArpAnswers.PatrolLeaves` | arp.c:241-293 | what a message's patrol leaves of every entry, and when it is due |
| `ArpAnswers.HeardIsFound` | arp.c:285-350 | over every run: once a message from an address was merged or inserted, a lookup finds that address at once for 300 seconds, unless another message or a wait that was too long took it away |
| `Arp.FoundWasHeard` | arp.c:327-350 | an answer without a wait is an address heard from the one asked for |
| `Arp.WokenAnswer` | arp.c:337-349 | an answer after a wait was heard from the address asked for if the entry is still for it and resolved, and only then if no hardware address was heard from two protocol addresses |
| `Arp.StillFor` | arp.c:162-173 | an entry in use at every point since some event is still for the same address |
| `Arp.WaiterAnswered` | arp.c:327-349 | a lookup that waits on an entry in use until it wakes gets an address heard from the one asked for, or none yet |
| `Arp.WaiterMisled` | arp.c:337-349 | a run in which a waiting lookup is answered with no address |
| `Arp.InsertUniqueIff` | arp.c:103-116 | an insertion keeps one entry per address if and only if the address is not in the table at that point, or nothing is free |
| `Arp.RunUnique` | arp.c:285-304 | every run whose insertions meet that guard keeps one entry per address |
| `Arp.DuplicateEntries` | arp.c:294-304 | two interleaved messages from one address leave two entries |
| `Arp.PatrolEmpties` | arp.c:241-252 | the patrol empties exactly the entries that are too old |
| `Arp.MessageFlushes` | arp.c:131-160 | with one entry per address, a message leaves no packet for its sender behind |
| `ArpCache.Cache.FreeEntry` | arp.c:89-101 | the first free entry |
| `ArpCache.Cache.SelectEntry` | arp.c:118-129 | the first used entry for the address |
| `ArpCache.Cache.InsertEntry` | arp.c:103-116 | fills the first free entry, or fails |
| `ArpCache.Cache.UpdateEntry` | arp.c:131-160 | resolves the entry and sends its packet on the device of its interface |
| `ArpCache.Cache.PatrolEntries` | arp.c:241-252 | in place, the patrol |
| `ArpCache.Cache.Receive` | arp.c:285-295 | the first critical section of `arp_rx` |
| `ArpCache.Cache.ReceiveInsert` | arp.c:297-304 | the second |
| `ArpCache.Cache.ResolveCall` | arp.c:313-379 | `arp_resolve` to its wait or return |
| `ArpCache.Cache.WakeCall` | arp.c:337-349 | `arp_resolve` after its wait |
| `LinkedQueue.Queue.Push` | util.c:49-70 | appends to the sequence the list stands for |
| `LinkedQueue.Queue.Pop` | util.c:72-87 | takes its first element, or fails on an empty queue |
| `Backlog.StepKeeps` | tcp.c:1037-1303 | every step, including a FIN in SYN_RCVD, a segment that a listener takes itself and the close of a listener with used blocks in its backlog, keeps the invariant of control blocks and backlogs |
| `Backlog.Shut` | tcp.c:1055-1122 | the nested calls of `tcp_close` end: one that changes anything leaves fewer blocks in use |
| `Backlog.ShutKeeps` | tcp.c:1055-1122 | `tcp_close` with all the calls it makes on itself keeps that invariant |
| `Backlog.ShutActs` | tcp.c:1055-1122 | `tcp_close` gives the block up and moves it on, brings none into use, and for a listener empties the backlog and gives up all that was in it |
| `Backlog.AcceptActs` | tcp.c:1289-1302 | `tcp_api_accept` takes the oldest block off the backlog, brings it into use and does nothing else |
| `Backlog.EstablishActs` | tcp.c:526-536 | the step to ESTABLISHED puts the block at the end of its parent's backlog |
| `BacklogPhases.PhaseFollows` | tcp.c:279-1122 | in every run each event of a control block is at most two events of the backlog machine |
| `Backlog.AcceptOrder` | tcp.c:1289-1302 | in every run what has left a backlog followed by what is in it is what was established for that listener, in order, and no connection leaves it twice |
| `Backlog.AcceptsOpenIff` | tcp.c:526-531 | the block `tcp_api_accept` returns is the connection that was established, still open, if and only if that connection has not been closed since |
| `Backlog.AcceptedTwice` | tcp.c:1299-1302 | a run in which a child reset while queued leads to one block being accepted twice |
| `TcpDemux.Demux` | tcp.c:835-853 | the loop finds the connection of a segment wherever it stands in the table, otherwise the first free block and the first listener |
| `TcpDemux.RouteUnique` | tcp.c:835-865 | that answer is determined by the table |
| `TcpDemux.Claim` | tcp.c:866-880 | sets up the free block as child of the listener, or without a port |
| `TcpDemux.ChildIsRouted` | tcp.c:866-880 | later segments of the same connection go to the child, whatever state it has moved to, until it is free again |
| `TcpDemux.OthersKeepRoute` | tcp.c:835-880 | setting it up redirects no other connection, be it in the interface, the source address or either port that it differs |
| `SocketTable.Sockets.OpenCall` | tcp.c:1037-1053 | takes the first free block, or fails when there is none |
| `SocketTable.Sockets.ListenCall` | tcp.c:1257-1271 | starts listening on a used, closed block with a port, or fails |
| `SocketTable.Sockets.SynArrives` | tcp.c:855-880 | a SYN for a listener takes the first free block as its child |
| `SocketTable.Sockets.EstablishBlock` | tcp.c:526-536 | in place, the step to ESTABLISHED and the push on the linked backlog of the parent |
| `SocketTable.Sockets.AcceptCall` | tcp.c:1273-1303 | fails on what is no listener, takes the head of the backlog if there is one, otherwise waits |
| `SocketTable.Sockets.DrainBacklog` | tcp.c:1075-1077 | the loop pops every block off the backlog, oldest first, and closes it, calling `tcp_close` on itself for those in use |
| `SocketTable.Sockets.CloseCall` | tcp.c:1055-1122 | `tcp_close` as far as blocks and backlogs go, with its result: -1 for an unused block and in the closing states |

## Left out

- `tcp_api_bind` and the choice of a source port in `tcp_api_connect` (tcp.c:1164-1187, 1219-1255): a port takes no part in the protocol state or in what is sent. `TcpDemux` takes the ports as they are.
- Failure of `malloc`, `gettimeofday` and `ip_tx`, and a device without an IPv4 interface: every allocation and transmission succeeds, every device has its interface.
- Liveness: nothing is said about eventual delivery; the code promises none while `snd.wnd` is 0 (tcp.c:947).
- URG, security and precedence, routing and forwarding: stubs in the source.
- raw.c, raw/, ethernet.c, net.c, apps/, test/, address parsing and printing: device plumbing, drivers and output.
- ARP message validation and the ARP reply itself (arp.c:261-283, 305-308): no effect on the table.
- The generator of datagram identifiers (ip.c:444-455): the identifier is an argument.
- Segments whose data offset is larger than the segment, and packets whose total length is smaller than the header: `TcpWire.Decode` and `IpPacket.Receive` give them a verdict of their own and nothing follows from it.
- TcpCalls.SynSentArrival: asks that a SYN without ACK has an ack field of at most `snd.nxt`, as runs do; `TcpEndpointRuns.SynFieldIff` says why.
- TcpTheorems.StreamSafety: a run ends before an arrival that copies past the receive buffer, since nothing is defined after it; `TcpOverrun.OverrunsIff` says which arrivals those are.
- TcpConnection.RunInv: the same.
- TcpControlBlock.ControlBlock.SegmentArrives: excludes such an arrival.
- TcpControlBlock.ControlBlock.HandleText: excludes such an arrival.
- TcpControlBlock.ControlBlock.ConnectCall: does not model the choice of a source port and the look-up of an interface, nor their failure.
- TcpControlBlock.ControlBlock.SendCall: excludes an MTU of at most 80, for which the size of a segment wraps around or is 0 and the loop never ends (tcp.c:1433).
- TcpEndpointRuns.SendSplits: excludes the same MTUs.
- TcpEndpointRuns.CallSplits: excludes the same MTUs.
- TcpControlBlock.ControlBlock.CloseCall: does not model the backlog of a listener; that is `SocketTable.Sockets.CloseCall`.
- SocketTable.Sockets.SynArrives: the listener is given; finding it is `TcpDemux.Demux`.
- IpReassembler.Context.constructor: clears the mask and nothing behind it, where the call at ip.c:118 writes past it.
- IpReassembler.Context.Absorb: a fragment that is empty or reaches beyond the buffer is excluded, as the shift and the copy are undefined for it.
- IpReassembler.Reassembler.ProcessFragment: excludes the same fragments.
