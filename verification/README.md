# A model of the TCP/IP stack, with proofs

This project models a user-space TCP/IP stack in Dafny and proves what it keeps over whole runs. Two parts
carry most of the weight.

**TCP** (`pkg/applications/tcp`). Two sockets run over a network that loses, repeats and reorders packets. A
step is one packet handled, one section of the writer goroutine, one retransmission, or one call of VWrite,
VRead or VShutdown. Sending a segment, listing it as in flight and counting its length are three separate
steps, so a packet may be handled between any two of them. `TcpSteps` holds the steps as functions,
`TcpSocket` the same steps as methods of an object with the socket's fields. The theorems are about every run
from a fresh pair of sockets, `Start`, and have two premises. `Short`: neither application hands over 2^32 - 2
bytes or more. `HandshakePackets`, part of `Start`: no ack left over from another connection between the same ports
acknowledges a byte; `MeetingSafeIff` says exactly when handshakes leave the network so. Raw sequence numbers may
wrap.

**RIP and forwarding** (`pkg/applications/rip`, `pkg/network`). Any number of nodes on any static topology
with distinct addresses and symmetric links exchange responses that may be lost, repeated, reordered and
triggered. A response of more than 64 entries ends the program that receives it; this is a step of the model,
and it can happen exactly when some node has more than 64 addresses within 15 hops. The tables then drive
hop-by-hop forwarding with a TTL and a checksum test.

Around these stand the priority queue of early arrivals, the handshake, the checksum, the RIP wire format, the
port allocator and the retransmission timer.

## Findings

Some expected properties are false of the code. Each comes with a run or an input that shows it and with the exact
condition under which the property holds.

- Stream integrity holds exactly when no drain of the early-arrival queue meets a segment that fits the read
  ring only in part. The code writes the part and does not advance, so those bytes arrive twice
  (`StreamIntegrityIff`, `SpillHappens`).
- Half-close does not work. Once a side's FIN is acknowledged it gets no further data of its peer, exactly when
  all data then in the network carries a raw ack below the largest received (`HalfCloseIsDeafIff`). Without a
  wrap of raw numbers that is always so (`UnwrappedIsStale`, `HalfCloseDropsNews`); with one, an old segment may
  pass (`WrappedHalfCloseHears`).
- A FIN that is acked need not be recorded: over every run it is, exactly when some copy of it in sequence finds the
  side outside FIN_WAIT_1 (`FinRecordedIff`, `RecordedIff`). So after a simultaneous close both sides stand in
  FIN_WAIT_2 (`SimultaneousClose`), send neither data nor FIN any more, and each gets out exactly if the network
  delivers it a second copy of the FIN (`LeavesFinWait2Iff`, `BothStuckIff`). An acked FIN always means that the peer took it and
  has left ESTABLISHED (`TeardownSafety`).
- `inFlightPacketSize` is the number of bytes in flight except while a listed segment is not yet counted and
  after the FIN has left the list (`CounterExactIff`); both cases take it below zero (`LateCountWraps`,
  `FinWrapsCounter`).
- An ack for bytes never sent is taken, so the reply of an earlier connection attempt can empty the in-flight list.
  After the client's program is started anew, which hands out the same ports again, this makes the server discard a
  byte (`StaleReplyDiscards`). No run does so exactly when every reply acks at most the SYN of this server, or is the
  raw number 0 (`MeetingSafeIff`).
- A server can be ESTABLISHED by a segment of an earlier connection, with no client that agrees with it. This never
  happens exactly when the initial numbers of either side are equal or farther apart than streams advance
  (`AgreementIff`).
- VAccept returns a connection that is not established exactly when the packet it took lacks the ACK flag; a
  repeated SYN is enough (`AcceptEstablishedIff`, `RepeatedSynOpens`).
- The next hop rejects a freshly checksummed IP header exactly when its checksum is zero; a plain SYN from 10.0.0.1 to
  its neighbor 10.0.150.208 is such a packet (`FreshHeaderAcceptedIff`, `ZeroChecksumDrops`).
- RIP answers every response with triggered updates, even empty ones. They die out exactly when the network has no
  cycle (`UpdatesDieOutIff`).
- A response of more than 64 entries is malformed, and its receiver exits. A node with a larger table brings its
  neighbors down (`ResponseTakenIff`, `LargeTableEndsNeighbor`). Some run ends a program exactly when some node has
  more than 64 addresses within 15 hops (`ExitReachableIff`).
- "After k rounds exactly the addresses within k hops" fails because triggered updates run ahead: the first round can
  already bring in any address within 15 hops (`EntriesRunAhead`, `RowIsSuch`). For 1 <= k < 15 it holds exactly when no address is
  k + 1 hops from any node (`AlwaysExactlyIff`). Of periodic updates alone it always holds (`LockstepConverges`).

## Model

| member | source | states |
|---|---|---|
| `Heap.UpOrders` | pkg/applications/tcp/heap.go:23-28 | sifting up restores heap order when only the sifted entry may be too small |
| `Heap.DownOrders` | pkg/applications/tcp/heap.go:30-38 | sifting down restores heap order when only the sifted entry may be too large |
| `Heap.PushOrders` | pkg/applications/tcp/heap.go:23-28 | push keeps the heap order and adds exactly the new entry |
| `Heap.PopOrders` | pkg/applications/tcp/heap.go:30-38 | what pop leaves is in heap order |
| `Heap.PopPermutes` | pkg/applications/tcp/heap.go:30-38 | pop removes exactly the root: the multiset of the rest plus the root is the old multiset |
| `Heap.RootIsLeast` | pkg/applications/tcp/heap.go:12-15 | in heap order the root has the least priority of all entries |
| `Heap.FixOrders` | pkg/applications/tcp/heap.go:41-45 | changing one entry and fixing it restores heap order |
| `Heap.DrainedMultiset` | pkg/applications/tcp/heap.go:30-38 | draining the queue gives back every entry exactly once |
| `Heap.DrainedSorted` | pkg/applications/tcp/heap.go:12-38 | draining the queue gives non-decreasing priorities |
| `PriorityQueues.PriorityQueue.Swap` | pkg/applications/tcp/heap.go:17-21 | the two items change places and every item's Index is its position again |
| `PriorityQueues.PriorityQueue.HeapPush` | pkg/applications/tcp/heap.go:23-28 | the slice is the pushed heap, the item joins, every Index is right |
| `PriorityQueues.PriorityQueue.Pop` | pkg/applications/tcp/heap.go:30-38 | the last item leaves with Index -1, the others stay in place |
| `PriorityQueues.PriorityQueue.HeapPop` | pkg/applications/tcp/heap.go:12-38 | the root leaves with Index -1, the rest is the popped heap, every Index is right |
| `PriorityQueues.PriorityQueue.SiftDown` | pkg/applications/tcp/heap.go:12-21 | the in-place loop computes the sifted prefix, leaves the rest alone and tells whether it moved anything |
| `PriorityQueues.PriorityQueue.Update` | pkg/applications/tcp/heap.go:41-45 | the item at its own Index takes the new value and priority and the heap is fixed there |
| `PriorityQueues.OperationsKeepOrder` | pkg/applications/tcp/heap.go:12-45 | push, pop and update each turn a heap into a heap, and nothing left after a pop is smaller than what was popped |
| `TcpTypes.RelOfRaw` | pkg/applications/tcp/socket.go:169-169 | relative to raw sequence number and back is the identity below 2^32 |
| `TcpTypes.RawOrderAgreesIff` | pkg/applications/tcp/socket.go:175-188 | comparing acks as raw numbers agrees with stream order exactly when both lie on the same side of the wrap |
| `TcpReassembly.DrainRefines` | pkg/applications/tcp/socket.go:245-265 | draining the heap does what delivering the run from a plain map of pending segments does |
| `TcpReassembly.ReassemblyRefinement` | pkg/applications/tcp/socket.go:242-284 | heap plus never-cleared seen-set behave like the map of pending segments, for every segment cut from the stream |
| `TcpReassembly.ReceiveDataOk` | pkg/applications/tcp/socket.go:240-284 | a data segment keeps the receiver invariant (all queued numbers come from the stream and exceed nextExpectedByte) and over-writes exactly the spill computed beforehand |
| `TcpReassembly.ReceiveFinOk` | pkg/applications/tcp/socket.go:299-341 | a FIN keeps the receiver invariant, moves nothing and is taken only at the stream's end |
| `TcpReassembly.DeliverRunSpill` | pkg/applications/tcp/socket.go:127-147 | the ring grows by the bytes passed plus exactly what a half-written segment left behind |
| `TcpReassembly.DrainSize` | pkg/applications/tcp/socket.go:248-249 | earlyArrivalPacketSize stays the sum of queued lengths modulo 2^32 |
| `TcpQueue.QueueFits` | pkg/applications/tcp/socket.go:273-284 | pending segments are disjoint pieces of the stream, so their lengths sum to no more than what is left of it |
| `TcpQueue.QueueExact` | pkg/applications/tcp/socket.go:242-284 | in every reachable state the queue is a heap of distinct numbers beyond nextExpectedByte, so the check at line 266 never fires, and earlyArrivalPacketSize is exactly the bytes queued |
| `TcpQueue.QueuedOnce` | pkg/applications/tcp/socket.go:273-284 | over every run each number enters the queue at most once, and an entry appears only by such a step |
| `TcpSending.WriteOk` | pkg/applications/tcp/write.go:33-50 | bytes added to the write ring keep the sender invariant and change nothing that was sent |
| `TcpSending.SendSegmentOk` | pkg/applications/tcp/socket.go:482-503 | cutting a segment from the burst extends the stream at its end by that segment and keeps the sender invariant |
| `TcpSending.SendProbeOk` | pkg/applications/tcp/socket.go:423-444 | a probe extends the stream at its end by one byte |
| `TcpSending.PushOk` | pkg/applications/tcp/socket.go:504-514 | listing a sent segment keeps the list contiguous |
| `TcpSending.SendFinOk` | pkg/applications/tcp/socket.go:360-407 | the FIN ends a stream that consists of all bytes handed over |
| `TcpSending.AckLoopRemovesCoveredPrefix` | pkg/applications/tcp/socket.go:193-226 | the ack loop removes exactly the longest covered prefix, unless it closes the socket |
| `TcpSending.AckLoopSize` | pkg/applications/tcp/socket.go:218-219 | inFlightPacketSize drops by exactly the size of what was removed, modulo 2^32 |
| `TcpSending.AckLoopCuts` | pkg/applications/tcp/socket.go:196-226 | the list keeps its shape and its head never moves beyond the ack |
| `TcpSending.AckLoopMoves` | pkg/applications/tcp/socket.go:204-217 | the state changes only when the FIN itself is covered |
| `TcpSending.ReceiveAckOk` | pkg/applications/tcp/socket.go:171-233 | an ack keeps the sender invariant and what was sent |
| `TcpSystem.FlowsStep` | pkg/applications/tcp/socket.go:154-545 | every step of either side keeps the joint invariant of both directions: sender, receiver, every packet and every ack in the network |
| `TcpIntegrity.ReachableFlows` | pkg/applications/tcp/socket.go:154-545 | the joint invariant holds in every reachable state |
| `TcpIntegrity.ExcessStep` | pkg/applications/tcp/socket.go:245-265 | each step adds exactly its spill, known before the step, to the bytes received too many |
| `TcpIntegrity.StreamIntegrityIff` | pkg/applications/tcp/socket.go:127-284 | over every run the bytes read plus the read ring are the first nextExpectedByte - 1 bytes the peer handed over, if and only if no step spilled |
| `TcpSpillRun.SpillHappens` | pkg/applications/tcp/socket.go:245-263 | a run from a fresh connection that spills: 65535 bytes received where 65534 are acknowledged |
| `TcpIntegrity.NoEarlyDiscard` | pkg/applications/tcp/socket.go:188-226 | in every reachable state what left the in-flight list is in the peer's received stream, and the FIN left only after the peer took it in sequence, behind everything before it |
| `TcpIntegrity.SenderConservation` | pkg/applications/tcp/socket.go:417-516 | in every reachable state the bytes handed over are removed, in flight, sent but not yet listed, burst and write ring, in this order; listed segments are non-empty, at most 1024 bytes and contiguous |
| `TcpTeardown.OrderlyStep` | pkg/applications/tcp/socket.go:205-407 | every step keeps state, list and peer in agreement and moves each state along one edge of the code's graph or not at all |
| `TcpTeardown.TeardownSafety` | pkg/applications/tcp/socket.go:205-407 | in every reachable state at most one FIN packet was ever made, and one can be made only in ESTABLISHED or CLOSE_WAIT; an acked FIN means the peer took it in sequence behind every byte, has left ESTABLISHED, and no data is in flight; a recorded FIN came after all of the peer's data |
| `TcpTeardown.FinMeansAll` | pkg/applications/tcp/socket.go:316-328 | without spill, a side that took the FIN has every byte handed over, except those left in the write ring for ever |
| `TcpRuns.SimultaneousClose` | pkg/applications/tcp/socket.go:316-328 | a run after which both sides took each other's FIN and had their own acked, and both stand in FIN_WAIT_2 with nothing in flight |
| `TcpSimultaneous.FinRecordedIff` | pkg/applications/tcp/socket.go:299-328 | in every reachable state a FIN in sequence is acked, and recorded if and only if it does not find the side in FIN_WAIT_1 |
| `TcpSimultaneous.RecordedIff` | pkg/applications/tcp/socket.go:302-328 | over every run, a FIN taken in sequence is recorded at the end if and only if some copy in sequence found the side outside FIN_WAIT_1 |
| `TcpSimultaneous.LeavesFinWait2Iff` | pkg/applications/tcp/socket.go:316-328 | from every reachable state in FIN_WAIT_2 with the FIN taken, a continuation leads to TIME_WAIT if it delivers an intact FIN again and stays in FIN_WAIT_2 otherwise |
| `TcpSimultaneous.BothStuckIff` | pkg/applications/tcp/socket.go:316-407 | whenever both sides are in FIN_WAIT_2, both FINs were taken, no continuation sends a FIN or data again, and each side stays there if and only if no copy of the FIN is delivered to it |
| `TcpHalfClose.HalfCloseIsDeafIff` | pkg/applications/tcp/socket.go:175-217 | for every run that puts a side into FIN_WAIT_2: no continuation hands it data if and only if all data then in the network has a raw ack below the largest received |
| `TcpHalfClose.HalfCloseIsDeaf` | pkg/applications/tcp/socket.go:175-217 | under that condition no continuation adds a byte to what the side received |
| `TcpHalfClose.UnwrappedIsStale` | pkg/applications/tcp/socket.go:175-177 | the condition holds whenever the side's raw sequence numbers have not wrapped |
| `TcpRuns.HalfCloseDropsNews` | pkg/applications/tcp/socket.go:175-177 | a run after which a FIN_WAIT_2 side with an open, empty read side drops the very next byte, without an ack |
| `TcpRuns.WrappedHalfCloseHears` | pkg/applications/tcp/socket.go:175-188 | a run with wrapped raw numbers after which a FIN_WAIT_2 side takes an old segment |
| `TcpFlight.FlightBound` | pkg/applications/tcp/socket.go:417-516 | at most 131070 data bytes are ever in flight |
| `TcpFlight.CounterExactIff` | pkg/applications/tcp/socket.go:193-226 | in every reachable state inFlightPacketSize is the number of data bytes in the list exactly unless a listed segment is not yet counted or the FIN has left the list, and lies above it exactly when then the list is empty |
| `TcpFlight.WriterSeesTrueFlight` | pkg/applications/tcp/socket.go:417-475 | when the writer looks, the counter is the true size; a burst starts only below the window and is never empty |
| `TcpFlight.ProbeBlocks` | pkg/applications/tcp/socket.go:445-456 | from any reachable state that waits after a probe and along any continuation, nothing new is sent up to a point at which the bytes in flight are fewer than the window, or the continuation ends still waiting |
| `TcpLaws.Ignored` | pkg/applications/tcp/socket.go:158-177 | a closed socket, a bad checksum, other flags and an ack below the largest received: nothing changes and nothing is sent |
| `TcpLaws.DataAnswered` | pkg/applications/tcp/socket.go:240-298 | an intact data segment goes unanswered exactly when it is the next one and the ring has no room for all of it; any other draws one bare ack with the next byte expected, the room left and the next number to send |
| `TcpLaws.DataPlaced` | pkg/applications/tcp/socket.go:240-284 | the next segment goes into the ring if it fits whole, one from further on into the queue once, any other nowhere |
| `TcpLaws.NewAckLaw` | pkg/applications/tcp/socket.go:188-226 | a new ack is recorded with its window; exactly the items that end at or before it leave from the front, and the counter loses their sizes; the FIN of a LAST_ACK side closes the socket instead |
| `TcpLaws.SameAckLaw` | pkg/applications/tcp/socket.go:178-187 | a repeated ack leaves the list alone and may only widen the window |
| `TcpLaws.AckWakes` | pkg/applications/tcp/socket.go:178-238 | an ack wakes a writer that waits after a probe exactly when the counter is now below the window, and touches nothing else of the sending half |
| `TcpLaws.FinLaw` | pkg/applications/tcp/socket.go:299-341 | a FIN in sequence is acked with one more than the data and moves ESTABLISHED and FIN_WAIT_2 only; one from further on is queued once, an older one does nothing |
| `TcpBursts.WriterChoice` | pkg/applications/tcp/socket.go:353-457 | in every reachable state a ready writer sends a FIN on an empty ring after a shutdown, starts a burst while fewer bytes are in flight than the window, and probes otherwise; an open socket retransmits while anything is in flight |
| `TcpBursts.SentPackets` | pkg/applications/tcp/socket.go:360-514 | what a segment, a probe and a FIN carry, take from the ring and add to the bytes sent |
| `TcpBursts.BurstTakes` | pkg/applications/tcp/socket.go:463-474 | a burst takes the front of the ring: as many bytes as the window, or the whole ring |
| `TcpBursts.BurstWithinWindow` | pkg/applications/tcp/socket.go:417-516 | over every run, between a look at the window that starts a burst and the next look no more bytes are sent than that window and than the ring held, and exactly the smaller number once the writer is ready again |
| `TcpBursts.BurstIsRun` | pkg/applications/tcp/socket.go:457-516 | the uninterrupted loop of SendBurst is the run that starts the burst and then sends, lists and counts in turn |
| `TcpBursts.RoundsList` | pkg/applications/tcp/socket.go:482-516 | the loop lists the burst's bytes in order, cut into segments of at most 1024, behind what was in flight |
| `TcpBursts.RetransmitsFirstMissing` | pkg/applications/tcp/socket.go:525-541 | in every reachable state a retransmission sends the packet with the first byte, or the FIN, that is not yet acknowledged, and changes nothing |
| `TcpBursts.CallLaw` | pkg/applications/tcp/write.go:33-50 | a write goes behind the ring, a read takes from the front, a shutdown withdraws what it names; none sends a packet |
| `TcpRuns.LateCountWraps` | pkg/applications/tcp/socket.go:504-514 | a run in which the ack of a segment arrives between listing and counting it and takes the counter to 2^32 - 1 |
| `TcpRuns.FinWrapsCounter` | pkg/applications/tcp/socket.go:389-397 | a run in which the ack of the FIN takes the counter to 2^32 - 1 |
| `TcpSockets.TcpSocket.constructor` | pkg/applications/tcp/socket.go:71-119 | MakeTcpSocket gives the socket both handshakes start from |
| `TcpSockets.TcpSocket.WriteIntoReadBuffer` | pkg/applications/tcp/socket.go:127-147 | writes all or what fits, and advances only in the first case |
| `TcpSockets.TcpSocket.DrainQueue` | pkg/applications/tcp/socket.go:245-265 | the loop computes the drain step |
| `TcpSockets.TcpSocket.Enqueue` | pkg/applications/tcp/socket.go:274-283 | queues a number once per connection |
| `TcpSockets.TcpSocket.RemoveAcked` | pkg/applications/tcp/socket.go:195-226 | the loop computes the ack step on list, counter and state |
| `TcpSockets.TcpSocket.ProcessAck` | pkg/applications/tcp/socket.go:171-233 | old, repeated and new acks have the effect of the ack step |
| `TcpSockets.TcpSocket.ProcessFin` | pkg/applications/tcp/socket.go:299-341 | a FIN has the effect of the FIN step and draws the right reply |
| `TcpSockets.TcpSocket.HandlePacket` | pkg/applications/tcp/socket.go:154-343 | the method's new state and packets sent are those of the step the theorems use; a data segment is answered exactly as `DataAnswered` says |
| `TcpSockets.TcpSocket.SendFin` | pkg/applications/tcp/socket.go:360-407 | the method's new state and packet are those of the FIN step |
| `TcpSockets.TcpSocket.Probe` | pkg/applications/tcp/socket.go:417-456 | the method's new state and packet are those of the probe steps |
| `TcpSockets.TcpSocket.SendOneSegment` | pkg/applications/tcp/socket.go:482-515 | one turn of the loop is the three steps send, list and count |
| `TcpSockets.TcpSocket.SendBurst` | pkg/applications/tcp/socket.go:457-516 | the new state is that of the run in `BurstIsRun`; the segments listed are non-empty, at most 1024 bytes, and concatenate to exactly the bytes taken, which are min(window, buffered) |
| `TcpSockets.TcpSocket.VWrite` | pkg/applications/tcp/write.go:12-59 | all bytes go through the ring in order across any number of waits, until all are handed over or the call waits on a full ring; a shut down writer is an error |
| `TcpSockets.TcpSocket.VRead` | pkg/applications/tcp/read.go:12-49 | takes a prefix of what is there or of what arrives while it waits; end of stream exactly in CLOSE_WAIT on an empty ring; in other states an empty ring makes it spin |
| `TcpSockets.TcpSocket.VShutdown` | pkg/applications/tcp/shutdown.go:5-49 | clears a direction once; repeats and unknown kinds are errors that change nothing |
| `TcpSockets.TcpSocket.TakeSynAck` | pkg/applications/tcp/connect.go:72-122 | VConnect's new state and reply are those of the handshake model |
| `TcpSockets.TcpSocket.AnswerSyn` | pkg/applications/tcp/listener.go:82-116 | VAccept's waiting socket and SYN-ACK are those of the handshake model |
| `TcpSockets.TcpSocket.TakeLastAck` | pkg/applications/tcp/listener.go:118-141 | VAccept's outcome is that of the handshake model |
| `Handshake.InvStep` | pkg/applications/tcp/connect.go:72-122 | every event keeps the evidence that ties packets and sockets to the attempts they came from |
| `Handshake.ConnectLaw` | pkg/applications/tcp/connect.go:71-122 | VConnect connects exactly on an intact SYN-ACK of its own SYN, with these fields and this third packet |
| `Handshake.AcceptLaw` | pkg/applications/tcp/listener.go:81-141 | VAccept's SYN-ACK, and exactly which packet then deletes, establishes or merely returns the socket |
| `Handshake.HandshakeAgreement` | pkg/applications/tcp/listener.go:81-141 | with any number of attempts and incarnations, an ESTABLISHED server and some connected client recorded each other's initial numbers, and both have sent nothing and expect byte 1 |
| `Handshake.SpacedAtZero` | pkg/applications/tcp/listener.go:81-141 | the spacing premise of that agreement says nothing while no connection has sent data |
| `Handshake.ConnectAgreement` | pkg/applications/tcp/connect.go:72-122 | a connect that returned was answered by a server incarnation that recorded it |
| `HandshakeSpacing.AgreementIff` | pkg/applications/tcp/listener.go:122-141 | for any sets of initial numbers, every ESTABLISHED server agrees with a client in every history if and only if the numbers of either side are equal or farther apart than streams advance |
| `HandshakeNetwork.MeetingSafeIff` | pkg/applications/tcp/socket.go:175-226 | after any handshakes between these ports, no run of two sockets that met discards a byte its peer has not received if and only if the reply of every connect that returned acks at most this server's SYN or is the raw number 0; exactly then the pair is a start state of the data phase |
| `HandshakeNetwork.OneClientIsSafe` | pkg/applications/tcp/connect.go:87-118 | with a single connect attempt the pair is always a start state |
| `HandshakeNetwork.StaleReplyDiscards` | pkg/applications/tcp/socket.go:188-226 | a history with a restart of the client's program and a run after it in which an earlier attempt's reply makes the server discard a byte its client never received |
| `Handshake.AcceptEstablishedIff` | pkg/applications/tcp/listener.go:118-148 | what VAccept returns is ESTABLISHED exactly when the packet it took has the ACK flag |
| `Handshake.RepeatedSynOpens` | pkg/applications/tcp/listener.go:118-148 | a run in which a repeated SYN makes VAccept return while the client still waits |
| `Ports.TcpState.AllocatePort` | pkg/applications/tcp/common.go:19-31 | ends whenever some port is free and returns the first free port going round |
| `Ports.TcpState.VListen` | pkg/applications/tcp/listener.go:27-33 | claims a port exactly once |
| `Ports.AllocationsDistinctIff` | pkg/applications/tcp/common.go:19-31 | with a fixed listening set, consecutive allocations are pairwise distinct exactly while there are no more than 65536 - listening of them; the next repeats the first |
| `Timer.RetransmissionTimer.UpdateRTO` | pkg/applications/tcp/socket.go:596-599 | the smoothed time is 85% of the old and 15% of the sample, the timeout 165% of that between 50us and 200us, both rounded down |
| `Timer.SmoothLaw` | pkg/applications/tcp/socket.go:597-597 | twenty smoothed times are 17 old ones and 3 samples, up to the rounding |
| `Timer.TimeoutLaw` | pkg/applications/tcp/socket.go:598-598 | the timeout is 165% of the smoothed time, rounded down, exactly from 30304ns to 121212ns; below it is 50us, above 200us |
| `Timer.TimerBounds` | pkg/applications/tcp/socket.go:596-599 | after any samples the timeout is in 50us to 200us and the smoothed time between the least and greatest of 5ms and all samples |
| `Timer.TowardsSample` | pkg/applications/tcp/socket.go:596-599 | one sample moves the smoothed time strictly toward it without passing it, except in the last 6ns, where truncation holds it |
| `Timer.SettlesUnderSteadySamples` | pkg/applications/tcp/socket.go:596-599 | under steady samples c the smoothed time settles in [c - 6, c] for good |
| `RipTable.FwdTable.constructor` | pkg/network/network.go:39-47 | the initial table has exactly the own addresses, at cost 0 |
| `RipTable.FwdTable.HandleResponse` | pkg/applications/rip/rip.go:201-237 | an address named once gets the route through the sender, one dearer than announced, exactly if it had no route, a dearer one, or one through that sender, be the news good or bad; other routes stay; the update names each changed address once at its new cost; every route of the sender heard again is renewed |
| `RipTable.ResponseHeeded` | pkg/applications/rip/rip.go:202-237 | of every response, repeated entries included: a route through the sender costs one more than its last word, no route is dearer than that, and addresses it tells nothing of keep theirs |
| `RipTable.EntryFollowed` | pkg/applications/rip/rip.go:202-237 | what becomes of an address that a response names once, in all cases |
| `RipTable.UpdateAnnounces` | pkg/applications/rip/rip.go:200-231 | the triggered update lists exactly the addresses whose route changed, each once, with the new cost and the mask received |
| `RipTable.FwdTable.BuildResponse` | pkg/applications/rip/rip.go:140-157 | the response lists every entry once, with cost 16 for routes through the neighbor and the table's cost for all others |
| `RipTable.FwdTable.Expire` | pkg/applications/rip/rip.go:294-305 | exactly the entries older than 12 seconds and those of cost 16 or more are removed |
| `RipNetwork.SoundStep` | pkg/applications/rip/rip.go:202-260 | every send, reception, loss, duplication, expiry and exit keeps all tables and messages sound |
| `RipNetwork.RipSoundness` | pkg/applications/rip/rip.go:202-306 | in every run every entry costs at least the hop distance and less than 16, through a neighbor on the way |
| `RipNetwork.AdvertsSound` | pkg/applications/rip/rip.go:143-260 | in every run every finite cost on the wire is at least the sender's hop distance |
| `RipNetwork.PoisonedReverse` | pkg/applications/rip/rip.go:143-157 | no finite cost is ever sent to the next hop of the route it is about |
| `RipHeard.OrderlyRun` | pkg/applications/rip/rip.go:140-260 | in every run no message on the wire names an address twice |
| `RipHeard.ReceptionLaw` | pkg/applications/rip/rip.go:202-260 | in every run any response that arrives changes the receiver's table as `HandleResponse` says and no other table, and the update it triggers goes to every other neighbor |
| `RipHeard.RoutesCostAsLastHeard` | pkg/applications/rip/rip.go:202-237 | in every reachable state a route through a neighbor costs exactly one more than the last finite cost received from that neighbor |
| `RipNetwork.UpdatesNeverDieOut` | pkg/applications/rip/rip.go:239-260 | each reception puts at least as many messages on the wire as the node has other interfaces |
| `RipNetwork.StormGrows` | pkg/applications/rip/rip.go:239-260 | over a run the wire grows by at least n - 2 messages per reception, less those lost, when every node has n interfaces |
| `RipStorm.UpdatesDieOutIff` | pkg/applications/rip/rip.go:239-260 | receptions end by themselves, whatever is on the wire, if and only if the network has no closed walk that never turns back |
| `RipStorm.RankedIffNoCycle` | pkg/applications/rip/rip.go:250-253 | interfaces can be ranked along the relation "a message over a triggers one over b" exactly when there is no such cycle |
| `RipStorm.ReceptionsBounded` | pkg/applications/rip/rip.go:239-260 | with a rank, receptions and losses without new sends never exceed the total number of receptions the messages on the wire can lead to |
| `RipStorm.Circles` | pkg/applications/rip/rip.go:239-260 | from a message on a cycle there is a loss-free run of receptions of any length with a message still on the cycle |
| `RipLimits.ExitReachableIff` | pkg/applications/rip/rip.go:115-184 | some run from the start ends a program if and only if some node has more than 64 addresses within 15 hops |
| `RipLimits.NarrowNeverExits` | pkg/applications/rip/rip.go:92-137 | without such a node every message of every run is well-formed |
| `RipLimits.LargeTableEndsNeighbor` | pkg/applications/rip/rip.go:140-184 | a table of more than 64 entries ends the neighbor's program with the next update |
| `RipLimits.RoundsPossibleIff` | pkg/applications/rip/rip.go:309-329 | any number of rounds can take place from the start if and only if no node has more than 64 addresses within 15 hops |
| `RipConvergence.RipConverges` | pkg/applications/rip/rip.go:140-237 | after n rounds a node has an exact route, one hop nearer, to every address within min(n, 15) hops, despite poisoned reverse, loss, repetition and reordering; after 15 rounds it has no others |
| `RipConvergence.StableAfterRounds` | pkg/applications/rip/rip.go:202-237 | after 15 rounds no further update changes any cost or next hop |
| `RipLockstep.LockstepAdvances` | pkg/applications/rip/rip.go:202-237 | one synchronous round of periodic updates alone takes tables of exactly k hops to exactly k + 1 |
| `RipLockstep.LockstepConverges` | pkg/applications/rip/rip.go:202-237 | after n synchronous rounds of periodic updates alone every node has entries for exactly the addresses within min(n, 15) hops, at exactly the distance |
| `RipAhead.AlwaysExactlyIff` | pkg/applications/rip/rip.go:202-260 | for 1 <= k < 15, all runs of k rounds with triggered updates leave exact entries for exactly the addresses within k hops if and only if no address is k + 1 hops from any node |
| `RipAhead.EntriesRunAhead` | pkg/applications/rip/rip.go:239-260 | any address j > k hops away, j <= 15, is in the table after some k rounds: triggered updates carry it along a shortest path in the first |
| `RipAhead.RowIsSuch` | nets/ABC.net:1-5 | three nodes in a row are such a network for k = 1 |
| `Checksum.TcpChecksumIsOneSum` | pkg/applications/tcp/common.go:103-125 | the three chained sums are one sum over pseudo-header, header and payload |
| `Checksum.TcpDetectsIff` | pkg/applications/tcp/common.go:127-137 | a changed segment is accepted exactly when its word sum is congruent modulo 65535 and vanishes with the old one |
| `Checksum.ByteWeight` | pkg/applications/tcp/common.go:103-125 | a byte weighs 256 in an even place and 1 in an odd one |
| `Checksum.ZerosSumToZero` | pkg/applications/tcp/common.go:103-125 | zeros sum to nothing, so with `ByteWeight` the sum of every buffer is determined |
| `Checksum.OneByteIsDetected` | pkg/applications/tcp/common.go:127-137 | a change of one byte of header or payload is always detected |
| `Checksum.FreshHeaderAcceptedIff` | pkg/network/network.go:256-266 | a fresh header checksum passes the next node's test exactly when it is not zero |
| `Forwarding.RelaysNearer` | pkg/network/network.go:187-229 | a node with right routes relays to a link one hop nearer with the TTL one less |
| `Forwarding.SendsNearer` | pkg/network/network.go:86-127 | the first hop goes over a link one hop nearer, from the sender's own address on that link, with TTL 16 and the protocol and length given |
| `Forwarding.SendCases` | pkg/network/network.go:86-127 | with any table: own address, direct neighbor, table route, no route and missing interface, each with its header |
| `Forwarding.TravelEnds` | pkg/network/network.go:138-229 | with any tables, loops included: the packet passes from neighbor to neighbor unchanged but for one TTL unit a hop, over no more nodes than its TTL, and ends in one of five ways |
| `Forwarding.StraightIsLoopFree` | pkg/network/network.go:187-229 | a path that comes nearer with each hop has no loop |
| `Forwarding.RoutingImpliesDelivery` | pkg/network/network.go:86-229 | with converged tables a packet to an address k <= 15 hops away leaves from the sender's own address on the link and is delivered, unchanged but for a TTL of 17 - k, over a loop-free path of k hops exactly when no header on the way has checksum zero; otherwise a checksum test drops it |
| `Forwarding.RipBuildsConvergedTables` | pkg/applications/rip/rip.go:202-237 | 15 rounds of RIP build such tables |
| `Forwarding.RipDelivers` | pkg/network/network.go:86-229 | the delivery theorem for the tables RIP builds from its start |
| `ForwardingDrop.ZeroChecksumDrops` | pkg/network/network.go:86-185 | with tables built by 15 rounds, a SYN from 10.0.0.1 to the neighbor 10.0.150.208 has checksum zero and is dropped there |
| `RipCodec.Marshal` | pkg/applications/rip/rip.go:59-90 | the loop writes the packet's encoding, in which each field stands big-endian at its fixed place: cost, address and mask of entry i from byte 4 + 12i on |
| `RipCodec.EncodeLaidOut` | pkg/applications/rip/rip.go:59-90 | the same layout, of the encoding, byte by byte |
| `RipCodec.WellFormedIff` | pkg/applications/rip/rip.go:92-129 | a packet is well-formed exactly when its bytes pass the tests on command, count, length and costs |
| `RipCodec.EncodeInjective` | pkg/applications/rip/rip.go:59-90 | no two packets have the same bytes |
| `RipCodec.Unmarshal` | pkg/applications/rip/rip.go:92-137 | what is accepted is well-formed, encodes to the bytes read and has its fields where the layout says; what is rejected is no encoding of a well-formed packet |
| `RipCodec.RoundTrip` | pkg/applications/rip/rip.go:59-137 | marshal then unmarshal gives the packet back exactly when it is well-formed, and an error otherwise |
| `RipCodec.ResponseTakenIff` | pkg/applications/rip/rip.go:115-164 | a response built from a reachable table is accepted exactly when the table has at most 64 entries |

## Left out

- TcpSockets.TcpSocket.SendBurst: runs its rounds with no one in between, which is one run of the state machine (`BurstIsRun`); the machine of `TcpSystem` also interleaves the rounds with everything else.
- Handshake.HandshakeAgreement: assumes that initial numbers are equal or farther apart than any connection's streams advance; `AgreementIff` proves this premise exact, and for handshake packets alone it says nothing (`SpacedAtZero`).
- HandshakeNetwork.MeetingSafeIff: speaks of the moment both sockets are ready, with earlier connections between the same ports that sent no data.
- RipLockstep.LockstepConverges: leaves out triggered updates; `RipConverges` and `AlwaysExactlyIff` are the theorems that include them.
- RipLockstep.LockstepAdvances: leaves out triggered updates too.
- RipConvergence.RipConverges: every round delivers a response over each link, which for tables of more than 64 entries cannot happen; `RoundsPossibleIff` says exactly where rounds can go on.
- RipAhead.AlwaysExactlyIff: for networks in which rounds can go on, as `RoundsPossibleIff` describes them.
- The early-arrival queue inside `TcpSocket` is a sequence driven by the functions of `Heap`, to which `PriorityQueue` is proved equal; the item objects and their aliasing are only in `PriorityQueue`.
- Forwarding and the RIP networks are modelled on values, since their subject is many nodes at once; `FwdTable` is the object of one node.
- Liveness of TCP: retransmissions carry a frozen ack number and old acks drop the whole packet, so progress of two-way traffic is not claimed.
- Mutexes, condition variables, channels and goroutine scheduling appear only as the choice of atomic steps. The two reads of the peer's window in HandleWrites are taken together.
- Wall-clock time: expiry, retransmission and handshake timeouts may fire at any moment. Round-trip samples and the Retransmitted and isZwp marks are not in the socket state; the timer is modelled alone, over the reals with truncation and without rounding of floating-point numbers.
- The socket map beyond its rule of one socket per pair of addresses and ports, which guards connects and accepts in the handshake model; the 60 second wait before deletion; VClose, which is VShutdown in both directions.
- Interfaces going up and down (SetInterfaceStateSafe): the distance theorems are for static topologies.
- Convergence with expiry: the rounds exclude it, because entries refreshed every 5 seconds do not reach 12 seconds of age. The soundness theorems allow any expiry.
- Go's ring buffer, netstack's header encoding and the ipv4 package: the ring is a bounded byte sequence that may write a part, and the checksum follows RFC 1071.
- Failed sends, and fatal exits other than that of the RIP handler: a packet sent is a packet handed to a network that may lose it.
- Where the TTL expires the source returns without releasing its read lock; locks are not modelled.
- The comment in RIPInit speaks of expiry about every 2 seconds; the code uses 1 second, and the model follows the code in leaving the period open.
- UDP transport, the command line, printers, fixtures and tools.
