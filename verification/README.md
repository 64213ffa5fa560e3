# VivaVoce, verified

VivaVoce is a small internet telephone. This project models six of its parts in Dafny and proves what
they promise, over every input, every run and every interleaving:

- **The IMA ADPCM codec** (`Kodek`, `KodekTheorems`) and the **packet codec** around it (`AdpcmCodec`,
  `CodecTheorems`). Encoder and decoder stay in lock step through nibble packing; the quantizer never
  needs the clamp it lacks on a signal that leaves it one unit of slack; it tracks and settles; packets
  decode independently although all calls share one scratch buffer.
- **The SIP user agent** (`UserAgent`, `CallRuns`, `CallLaws`, `Consent`, `ConsentLimits`): the call state
  machine, what every event does to a call and to both its ends, its invariants over every run, the life
  of the Call-ID host string, how timeouts drain it, and what two agents agree on over a network that
  loses, repeats and reorders.
- **Queues and memo pools** (`SyncQueue`, `QueueMonitor`, `Memos`, `ResourceManager`, `MemoFlow`,
  `MemoRoutes`): the queue as a monitor, the ownership of every memo across all threads, and the way of
  every capture to the network and of every received packet to the loudspeaker.
- **RTCP reports** (`Rtcp`, `RtcpWire`) and **RTP accounting** (`RtpManager`, `PacketCounters`).
- **The SDP writer and reader** (`Text`, `Sdp`, `SdpHandler`, `SdpLines`, `SdpTheorems`).
- **G.711 mu-law** (`Ulaw`).

Where the source changes an object in place, a class does so here, and each method is tied to a
specification function; the theorems are about those functions. `MachineInts` writes out every
fixed-width conversion. Floats of the codec are exact multiples of one quarter and are modelled as
integer counts of quarters. `src/kodek.h:12` does not parenthesise the argument of `roundOff`; the
model follows what the macro expands to.

Several things one would expect of this code are false. Each is stated with the condition under which
it holds, in most cases exactly: a block of odd length does not decode to what its encoder predicted
(`LockStep`, `CodesReadBack`); full-scale signals wrap (`FullScaleWraps`, `ClampNotNeededExactly`); after
a busy reply an ACK, BYE or 603 goes out under another call's number, and once another packet has come in
since, its host is read from a freed one (`WhoseCallId`, `AckBearsItsNumber`), which can connect a callee
whose caller never acknowledged (`SecondCallBreaksConsent`, `ConsentAmongCalls`), and a hang-up can leave
the other end in the call (`HangUpEndsBoth`); `enQ` can strand a waiter (`EnQLosesWakeUps`); a drain can
give memos of the SIP pool to the audio pool (`DrainMixesPools`); given an empty capture, which the audio
reader never posts, the packet codec would send a sample of an earlier packet (`ScratchShowsThrough`); more than 31 receiver reports are cut (`ReportRoundTrip`); loss accounting
breaks when the packet count wraps, or was not cleared before a call (`WrappedCountHidesGap`,
`AccountingAfterInit`); the mu-law zero trap breaks the error bound and the order (`ErrorBound`,
`OrderPreserved`); the SDP reader refuses some of what the writer prints (`RoundTrip`).

`dafny verify dfyconfig.toml` checks everything.

## Model

| member | source | states |
|---|---|---|
| Kodek.Quantized | src/kodek.c:60-75 | the magnitude code is the number of quarter steps that fit in the difference, at most seven; a magnitude whose negation wrapped gets seven |
| Kodek.AdpcmState.Quantize | src/kodek.c:60-75 | the search loop finds exactly that code and its multiplier, in quarters |
| Kodek.AdpcmState.EncodeSample | src/kodek.c:86-112 | one pass quantizes the sixteen-bit difference, advances predictor and index as specified and returns sign and magnitude |
| Kodek.AdpcmState.DecodeSample | src/kodek.c:154-176 | one pass advances predictor and index by the decoder's step for that code |
| Kodek.AdpcmState.Encode | src/kodek.c:77-129 | a block leaves exactly the packed codes, the left-over code of an odd block in the first byte and not counted, nothing else touched, and the predictor after all samples |
| Kodek.AdpcmState.Decode | src/kodek.c:131-179 | every counted byte gives two samples, high half first, each the prediction of the decoder's run; nothing else is touched |
| Kodek.AdpcmState.Set | src/kodek.c:47-51 | the predictor restarts at the given sample and index |
| KodekTheorems.PredictorsAgree | src/kodek.c:86-179 | fed the encoder's codes, the decoder's predictor is the encoder's at every sample |
| KodekTheorems.UnpackPack | src/kodek.c:114-152 | packing two codes in a signed byte is undone by shift and mask: sign extension never reaches a code |
| KodekTheorems.CodesReadBack | src/kodek.c:114-152 | the codes a decoder reads from a block of any length: all of them when even; when odd, the last code and a zero stand where the first two were |
| KodekTheorems.LockStep | src/kodek.c:77-179 | decoding the encoder's bytes from the same start plays the encoder's own predictions exactly when the block is even, and then ends in the same previous and index |
| KodekTheorems.StepStays | src/kodek.c:89-107 | one sample inside a safe range keeps the predictor inside it and overflows no sixteen-bit conversion |
| KodekTheorems.IndexFollowsDifference | src/kodek.c:60-107 | the encoder's index goes down one when the sample is within a step of the prediction, and up 2, 4, 6 or 8 with each further quarter step, kept in 0..88 |
| KodekTheorems.IndexFollowsCode | src/kodek.c:164-176 | the decoder's index moves by the magnitude it reads alone |
| KodekTheorems.StepsGrowByATenth | src/kodek.c:8-18 | every step but the last is eleven tenths of the one before to within eight tenths, from 7 to 32767 |
| KodekTheorems.CodeDescribes | src/kodek.c:86-112 | every code of a block gives the sign and the quarter steps of its sample's distance from the prediction before it |
| KodekTheorems.ByteHoldsTwoCodes | src/kodek.c:114-122 | byte k of an even block holds sample 2k's code in its high half and the next in its low half |
| KodekTheorems.NoClampNeeded | src/kodek.c:86-107 | with all samples in lo..hi, one unit of slack and a span of at most 32767, the predictor stays in lo..hi+1 for the whole run and no difference or prediction overflows |
| KodekTheorems.DecoderStaysInRange | src/kodek.c:143-176 | the decoder of such a stream plays nothing outside lo..hi+1 |
| KodekTheorems.ClampNotNeededExactly | src/kodek.c:86-107 | no run on samples in lo..hi from a start in lo..hi+1 overflows exactly when the range leaves one unit above and is at most 32767 wide, or is the top two values |
| KodekTheorems.FullScaleWraps | src/kodek.c:86-107 | in a packet that starts at 32760 the largest sample makes the prediction wrap to the smallest |
| KodekTheorems.TrackingStep | src/kodek.c:60-107 | within two steps of the sample the error is under a quarter step and a unit; further away it shrinks and the index rises by eight, or to 88 |
| KodekTheorems.Tracking | src/kodek.c:60-107 | the same bound at every sample of a run inside a safe range |
| KodekTheorems.HoldIsEncodeAt | src/kodek.c:86-107 | holding a constant input is the encoder's run on that constant block |
| KodekTheorems.HeldStep | src/kodek.c:89-107 | on a held input a step out of slope overload stays out, and the index then falls by one a sample down to zero |
| KodekTheorems.OverloadClimbs | src/kodek.c:101-107 | while overloaded the index climbs by eight a sample or is 88 |
| KodekTheorems.AfterOverload | src/kodek.c:89-107 | once out of overload: never again in it, the index bound falls by one a sample, the error stays below a quarter step and a unit |
| KodekTheorems.Settling | src/kodek.c:60-107 | from any start without a wrapping difference a constant below 32767 leaves overload for good within 11 samples; from the hundredth on the index is zero and the error at most two |
| AdpcmCodec.Codec.Expand | src/AdpcmCodec.cpp:21-25 | the capture is expanded into the scratch buffer sample by sample; an empty one leaves the first sample as it was |
| AdpcmCodec.Codec.Compress | src/AdpcmCodec.cpp:54-58 | the memo's bytes become the mu-law codes of the scratch buffer's samples |
| AdpcmCodec.Codec.EncodeRest | src/AdpcmCodec.cpp:29-35 | the samples after the first become ADPCM bytes after the four header bytes, and the memo's length counts both |
| AdpcmCodec.Codec.Encode | src/AdpcmCodec.cpp:21-40 | the memo becomes first sample, index zero, reserved zero and the codes of the rest, in place |
| AdpcmCodec.Codec.Decode | src/AdpcmCodec.cpp:42-61 | the memo becomes the first sample and the decoded rest in mu-law, in place |
| AdpcmCodec.Codec.Handle | src/AdpcmCodec.cpp:63-110 | captures become payloads for the send queue, payloads become audio for the play queue, a RESPOND goes to the pool, and any other memo is lost unchanged |
| CodecTheorems.PacketRoundTrip | src/AdpcmCodec.cpp:21-61 | an odd capture comes back at its own length as its first sample and the encoder's predictions; an even one loses a sample; the payload is always readable |
| CodecTheorems.PayloadLayout | src/AdpcmCodec.cpp:27-38 | the payload's first two bytes are the first sample, low byte first, then index zero, zero, and the codes of the rest from that sample on |
| CodecTheorems.PlayedFromLayout | src/AdpcmCodec.cpp:42-52 | whoever wrote a payload, it is played from those bytes |
| CodecTheorems.InverseTables | src/AdpcmCodec.cpp:21-61 | where the two tables are inverse at index s / 8, compressing undoes expanding and a packet's first byte survives encoding and decoding |
| CodecTheorems.ApplicationPacketSizes | src/AdpcmCodec.cpp:21-61 | 161 samples make 84 bytes and 161 samples again |
| CodecTheorems.ScratchShowsThrough | src/AdpcmCodec.cpp:22-29 | the payload is independent of what the scratch buffer held exactly when the capture is not empty |
| CodecTheorems.PacketIndependence | src/AdpcmCodec.cpp:21-61 | in any interleaving of encodes and decodes through one scratch buffer, each memo holds what its own operations alone would have left |
| CodecTheorems.OthersDoNotMatter | src/AdpcmCodec.cpp:63-110 | two runs that agree on one memo's content and operations agree on its result, whatever else is lost, reordered or added |
| UserAgent.Thread.SendInvite | src/UserAgent.cpp:427-477 | a fresh Call-ID with the local host is prepared and printed in an INVITE to the send queue; SENT_INV with the retry action |
| UserAgent.Thread.SendBye | src/UserAgent.cpp:479-509 | a BYE with the number and host last prepared, the host read through the prepared pointer; SENT_BYE with its retry action |
| UserAgent.Thread.SendOk | src/UserAgent.cpp:511-544 | the call's number and host pointer are prepared, read and printed in a 200 |
| UserAgent.Thread.SendAck | src/UserAgent.cpp:546-570 | an ACK with the number and host last prepared, the host read through the prepared pointer; IN_CALL, connected, no action |
| UserAgent.Thread.SendDecline | src/UserAgent.cpp:572-598 | a 603 with the number and host last prepared, the host read through the prepared pointer; REJECTED |
| UserAgent.Thread.SendBusy | src/UserAgent.cpp:600-628 | the received number and a pointer to the host inside the received packet replace the prepared ones, and are printed in a 486 |
| UserAgent.Thread.SendRinging | src/UserAgent.cpp:630-677 | the call's number and host pointer are prepared, read and printed in a 180; RCVD_INV, ringing |
| UserAgent.Thread.Cleanup | src/UserAgent.cpp:796-822 | the host copy is freed, flags and counters cleared, and the queues drained |
| UserAgent.Thread.DoDefaultAction | src/UserAgent.cpp:734-794 | what a timeout does for each pending action and repeat count |
| UserAgent.Thread.Receive | src/UserAgent.cpp:145-316 | what a parsed packet does in each state: the branch taken, the new state, and every memo released or sent |
| UserAgent.Thread.Turn | src/UserAgent.cpp:81-351 | one turn of the loop for each command, packet, parse error and timeout; a packet, parsed or not, frees the buffer of the one before |
| CallRuns.StepKeeps | src/UserAgent.cpp:81-351 | every event keeps the call-state invariant and the safety of both host pointers |
| CallRuns.RunKeeps | src/UserAgent.cpp:81-351 | so does every run |
| CallRuns.CallStateInvariant | src/UserAgent.cpp:81-351 | from the start, in every run: connected exactly in IN_CALL, ringing only in SENT_INV or RCVD_INV and always in RCVD_INV, the repeat count in 0..5, and each state with only its own timeout actions |
| CallRuns.HostNeverUsedAfterFree | src/UserAgent.cpp:796-822 | in every run neither callIdHost nor the prepared packet's pointer is read or freed while null or after cleanup freed its copy |
| CallRuns.PointerDanglesWhenIdle | src/UserAgent.cpp:796-822 | although both do dangle: after a declined incoming call they point to a freed copy |
| CallRuns.SinceBusyIsRight | src/UserAgent.cpp:600-628 | the packets on the wire tell whether the prepared host lies in a received packet, and how many packets have come in since |
| CallRuns.WhoseCallId | src/UserAgent.cpp:600-628 | in every run an ACK, BYE or 603 bears its own call's number and host exactly when no 486 followed the last INVITE, 200 or 180; a freed packet is read exactly when one was and another packet has come in since, and by nothing else |
| CallRuns.AckBearsItsNumber | src/UserAgent.cpp:197-252 | the ACK of a call bears the number of its INVITE exactly when no packet with another number came in between |
| CallRuns.MemosAreDisposedOnce | src/UserAgent.cpp:76-354 | whatever the event, each memo taken is released, sent or dropped exactly once before the next is taken, and only a parse error drops |
| CallRuns.TimeoutLowersRank | src/UserAgent.cpp:734-794 | outside IN_CALL a timeout lowers the rank of action and repeat count by one and never enters IN_CALL, even where ACCEPTED falls back to RCVD_INV |
| CallRuns.Draining | src/UserAgent.cpp:734-822 | under timeouts alone every reachable state other than IN_CALL is idle after exactly its rank, at most seven, and stays idle |
| CallRuns.CallsDoNotTimeOut | src/UserAgent.cpp:734-794 | a call in progress is unchanged by any number of timeouts |
| CallRuns.FaultsAreSeen | src/UserAgent.cpp:796-822 | what the safety of the host pointers rules out: a read through null or into a freed copy, and freeing a copy twice; a read of a freed packet is counted |
| CallLaws.InCallEnds | src/UserAgent.cpp:302-316 | a call in progress ends by the user's BYE command or by a BYE that bears its number, and by nothing else |
| CallLaws.ByeIsAnswered | src/UserAgent.cpp:302-313 | that BYE is answered by exactly one 200 with the call's number and host; the agent is disconnected at once and idle after one timeout |
| CallLaws.HangUpSendsBye | src/UserAgent.cpp:479-509 | hanging up disconnects and sends one BYE under the prepared number and host |
| CallLaws.HangUpEndsBoth | src/UserAgent.cpp:479-544 | a hang-up whose BYE and 200 are delivered leaves both agents disconnected exactly when the BYE bears the number of the other's call; otherwise the other stays in the call |
| CallLaws.ByeIsConfirmed | src/UserAgent.cpp:254-266 | of all packets only a 200 completes the disconnection, whatever its number |
| CallLaws.InviteIsAnswered | src/UserAgent.cpp:197-252 | a response to the own INVITE: 180 rings, 486 and 603 end the attempt, 200 with audio connects and sends one ACK, any other is ignored |
| CallLaws.InviteIsNotAnswered | src/UserAgent.cpp:197-252 | under the own number a request, or a response of another host, is ignored |
| CallLaws.InviteRings | src/UserAgent.cpp:163-195 | an idle agent rings for an INVITE with audio and sends one 180 under its Call-ID; it ignores everything else |
| CallLaws.UserAnswers | src/UserAgent.cpp:124-142 | accepting sends one 200, rejecting one 603, and each only while ringing |
| CallLaws.AckArrives | src/UserAgent.cpp:268-300 | an accepted call is entered exactly on an ACK with its number and host; a rejected one never |
| CallLaws.OtherCallsAreBusy | src/UserAgent.cpp:322-330 | in every state of a call a packet of another call is answered by one 486 under that packet's Call-ID, and only the prepared Call-ID changes |
| CallLaws.OnlyOtherCallsAreBusy | src/UserAgent.cpp:322-333 | a 486 is sent on no other occasion |
| CallLaws.Dialling | src/UserAgent.cpp:85-111 | dialling sends one INVITE with the new number and the local host exactly when the agent is disconnected and a host is given |
| CallLaws.CallConnectsBoth | src/UserAgent.cpp:427-570 | from any two disconnected agents, an INVITE, 200 and ACK that are delivered and a user who accepts leave both in the call under the dialled number |
| CallLaws.OtherEvents | src/UserAgent.cpp:338-346 | a command not meant for the agent is released, an unparsable packet dropped, and hanging up unconnected does nothing |
| CallLaws.RingIsRepeated | src/UserAgent.cpp:777-789 | unanswered, the 180 is sent again on every timeout until five repeats are counted; then the agent gives up and is idle two timeouts later |
| CallLaws.ByeIsRepeated | src/UserAgent.cpp:741-753 | so is an unanswered BYE |
| CallLaws.DrainMeansIdle | src/UserAgent.cpp:796-822 | the queues are drained only by an agent that is idle, unconnected, without numbers and with its host copy freed |
| Consent.SentByStep | src/UserAgent.cpp:162-316 | which event and state each INVITE, 200 and ACK on the wire comes from, and under which number |
| Consent.EntersCall | src/UserAgent.cpp:162-316 | IN_CALL is entered only by a 200 for the own call in SENT_INV, with an ACK sent, or by an ACK for it in ACCEPTED |
| Consent.Movement | src/UserAgent.cpp:81-351 | how state, Call-ID and prepared number may change together in one step |
| Consent.CallerStepConsents | src/UserAgent.cpp:81-351 | the caller's steps, unless one enters another call with this call's number prepared, keep the consent invariant of the two agents and the network |
| Consent.CalleeStepConsents | src/UserAgent.cpp:81-351 | so do the callee's |
| Consent.ConsentAmongCalls | src/UserAgent.cpp:197-252 | among any number of calls of both agents, on a network that loses, duplicates and reorders: unless the caller enters another call with this call's number prepared, a connected caller means the callee's user accepted, a connected callee means besides that the caller entered the call and sent an ACK |
| Consent.MisnumberedAckIsSent | src/UserAgent.cpp:546-570 | conversely, from any state, entering another call that way puts an ACK of this call on the wire and acknowledges nothing |
| Consent.UnacknowledgedAckConnects | src/UserAgent.cpp:268-284 | a callee that has accepted this call may receive that ACK, and is then connected unacknowledged exactly when its host is that of the callee's call |
| Consent.ConsentUndisturbed | src/UserAgent.cpp:197-252 | so consent holds in every run where no packet of this call finds the caller waiting for another |
| Consent.ConsentHolds | src/UserAgent.cpp:124-143 | and in every run where the caller dials only this call |
| ConsentLimits.SecondCallBreaksConsent | src/UserAgent.cpp:600-628 | with a late packet of the first call while the caller waits for a second, for any hosts and any content of freed memory: the callee ends connected to a call its caller never acknowledged exactly when the freed packet still reads as the caller's host |
| SyncQueue.Queue.EnQ | src/SyncQueue.cpp:24-34 | the item goes last |
| SyncQueue.Queue.DeQ | src/SyncQueue.cpp:36-54 | the first item is taken and returned, or NULL when there is none |
| SyncQueue.Queue.SignalData | src/SyncQueue.cpp:108-124 | the item goes last, and the condition variable is signalled exactly when someone waits |
| SyncQueue.Queue.EnterWait | src/SyncQueue.cpp:81-103 | the waiter takes the first item, or counts itself and blocks |
| SyncQueue.Queue.LeaveWait | src/SyncQueue.cpp:81-103 | on waking it uncounts itself; a timed wait returns with or without an item, an untimed one waits again on an empty queue |
| QueueMonitor.QueueHistory | src/SyncQueue.cpp:24-124 | in any interleaving everything inserted is everything removed followed by the contents, in order |
| QueueMonitor.WaitingIsCounted | src/SyncQueue.cpp:70-106 | waiting is always the number of threads inside a wait |
| QueueMonitor.NoLostWakeUp | src/SyncQueue.cpp:70-133 | from the start and without enQ, with spurious wakes, time-outs, stealing and signal: while a thread is blocked the queue is no longer than the threads woken and yet to run, so a blocked thread beside a non-empty queue means one is about to run |
| QueueMonitor.EveryRunIsAttended | src/SyncQueue.cpp:24-133 | in every run of all operations, while a thread is blocked the queued items exceed the woken threads by no more than the calls of enQ |
| QueueMonitor.EnQLosesWakeUps | src/SyncQueue.cpp:24-34 | that bound is reached by every number of calls: a waiter stays blocked beside that many items, nobody woken |
| QueueMonitor.WhoReturns | src/SyncQueue.cpp:81-103 | who waits, who waits again on waking, who returns, and with which item; no other thread is touched |
| ResourceManager.Pool.Init | src/ResourceManager.cpp:16-33 | initCount fresh memos of the pool's size, with ids from zero in order, are queued and counted |
| ResourceManager.Pool.AllocMemo | src/ResourceManager.cpp:73-85 | the front memo, or a new one of the pool's size whose id is the total before it, counted |
| ResourceManager.Pool.ReleaseMemo | src/ResourceManager.cpp:92-96 | a memo goes to the back of the pool, NULL nowhere |
| ResourceManager.Pool.Surplus | src/ResourceManager.cpp:47-68 | a twentieth of a pool that holds more than twice its initial count, nothing of any other; never fewer are left than the pool started with |
| ResourceManager.Pool.Downsize | src/ResourceManager.cpp:47-68 | exactly that surplus is deleted from the front and taken off the total |
| ResourceManager.EmptyQueue | src/Common.cpp:195-204 | the whole queue moves to the back of the pool in order, and its length is returned |
| MemoFlow.MoveKeeps | src/UdpRW.cpp:192-252 | handing a memo on changes how often no memo occurs |
| MemoFlow.StepConserves | src/UdpRW.cpp:324-417 | every step of every thread keeps each live memo in exactly one place and the totals summing to the live memos |
| MemoFlow.StepSorts | src/UserAgent.cpp:814-818 | every step keeps each place to the sizes and codes it may hold, though cleanup drains the send queue into the audio pool |
| MemoFlow.StepHands | src/UserAgent.cpp:81-351 | the agent always holds the memo its next effect needs, so no step is undefined |
| MemoFlow.RunIsSound | src/ResourceManager.cpp:16-96 | all of this in every run |
| MemoFlow.StartIsSound | src/VivaVoce.cpp:71-72 | and when the pools have been filled |
| MemoFlow.MemoConservation | src/ResourceManager.cpp:16-96 | in every interleaving each live memo is in exactly one pool, queue, hand or the dropped set, both totals sum to their number, no audio memo is in the SIP pool and none is lost to a switch without a case |
| MemoFlow.OnePlaceEach | src/ResourceManager.cpp:73-96 | no memo occurs at two places or two positions |
| MemoRoutes.StepFollows | src/AdpcmCodec.cpp:68-101 | one step of any thread adds to the line of captures, or of received packets, only at its beginning and takes only from its end, or drains one |
| MemoRoutes.AudioArrives | src/AdpcmCodec.cpp:68-101 | in every interleaving each capture posted has been sent, is on its way as Enc in codecQ or the codec's hand or as Send in sendQ or the writer's, or was drained; so each received packet as Dec, then Play in playQ or the audio writer's hand; undrained, they are finished in the order they came |
| MemoRoutes.WriterFinishes | src/UdpRW.cpp:324-417 | a sent SIP message goes back to the SIP pool, all else the writer takes to the audio pool |
| MemoRoutes.PoolsStayApart | src/UserAgent.cpp:814-816 | in every run in which no drain gives away a memo of the SIP size, the audio pool holds only its own size |
| MemoRoutes.DrainMixesPools | src/UserAgent.cpp:814-816 | the first such drain puts one there |
| MemoRoutes.AgentFinishes | src/UserAgent.cpp:76-354 | from every sound state the agent can end the event in progress by its own steps alone, at most one for each effect and drained memo left |
| MemoRoutes.CommandsAreHeard | src/VivaVoce.cpp:105-216 | from every sound state a command the console lets through (dial when neither ringing nor connected, accept and reject when ringing, hang up when connected) can be given a memo and be put last on the agent's queue |
| MemoRoutes.AgentCanTake | src/UserAgent.cpp:76-161 | whatever lies first there the agent can take, a datagram as any packet or as one that does not parse |
| Rtcp.RTCPPacket.Reset | src/RTP.cpp:41-49 | no report, no type, the fixed header's length |
| Rtcp.RTCPPacket.SetSReport | src/RTP.cpp:60-67 | the report is pending, the type is SR and the length grows by its size |
| Rtcp.RTCPPacket.GetSReport | src/RTP.cpp:69-76 | the pending report, which is then no longer pending |
| Rtcp.RTCPPacket.AddRReport | src/RTP.cpp:78-89 | the report goes last, the type becomes RR unless it is SR, the length grows |
| Rtcp.RTCPPacket.ClearRReports | src/RTP.cpp:91-100 | all receiver reports go, and their bytes come off the length |
| Rtcp.RTCPPacket.NextRReport | src/RTP.cpp:106-116 | the report added last is taken and returned |
| Rtcp.RTCPPacket.TakeRReports | src/RTP.cpp:106-116 | calling nextRReport until the packet is empty hands out all reports, last added first |
| Rtcp.RTPPacketFormatter.WriteBytes | src/RTP.cpp:191-231 | the message starts with the packet's bytes, their number is returned, and the packet is reset |
| Rtcp.RTPPacketFormatter.ParseBytes | src/RTP.cpp:233-273 | the packet holds what the bytes say, with the bytes consumed; a type that is no report gives -1 |
| Rtcp.RReportsSurvive | src/RTP.cpp:217-271 | receiver reports are written last first and read back in that order, field by field |
| Rtcp.ReportRoundTrip | src/RTP.cpp:191-273 | the bytes written are as many as getLength says, and for any number of reports parsing gives type, SSRC, sender report and the last (count mod 32) reports reversed; without any report it is refused |
| Rtcp.ThirtyOneReports | src/RTP.cpp:195-195 | all receiver reports arrive exactly when there are at most 31 |
| Rtcp.ReadersOrder | src/RTP.cpp:106-116 | up to 31, what nextRReport hands the receiver is the reports in the order the sender added them |
| RtcpWire.HeaderLayout | src/RTP.cpp:193-201 | the written header: version 2 and the report count in the first byte, type 200 or 201, one less than the number of bytes modulo 65536 in bytes 2 and 3, the SSRC |
| RtcpWire.SReportLayout | src/RTP.cpp:206-214 | the sender report follows, its five words in network order |
| RtcpWire.RReportLayout | src/RTP.cpp:217-228 | every receiver report follows at its own place, the last added first, each field in its bytes |
| RtcpWire.ParsedLayout | src/RTP.cpp:233-273 | whoever wrote them, the parser takes version, padding, count, SSRC and every report field from those same bytes |
| RtcpWire.OtherTypesRefused | src/RTP.cpp:256-258 | any type but 200 and 201 is refused |
| RtpManager.RTPState.Reset | src/RTPManager.cpp:44-80 | receiving starts from zero; of the sender, bytes and timestamp stay |
| RtpManager.RTPState.Init | src/RTPManager.cpp:110-143 | sequence numbers and timestamp restart, but not the counts |
| RtpManager.RTPState.HandleRTPRecv | src/RTPManager.cpp:213-230 | one packet's gap goes to the loss count as an unsigned difference unless it is the first counted |
| RtpManager.RTPState.HandleRTPSend | src/RTPManager.cpp:165-191 | the packet carries the present number and timestamp, and all four counters advance |
| RtpManager.LossBalance | src/RTPManager.cpp:213-230 | from any state and for any arrivals, lost + received - next expected changes, as a counter, only by the gaps met while the packet count is zero |
| RtpManager.LossAccounting | src/RTPManager.cpp:213-230 | after a reset lost + received is next expected less the first number exactly when the uncounted gaps come to that number, as they always do for up to 2^32 packets |
| RtpManager.WrappedCountHidesGap | src/RTPManager.cpp:213-230 | with one packet more it holds exactly when that packet is the expected one |
| RtpManager.LossIsExpectedMinusReceived | src/RTPManager.cpp:213-230 | after a reset, for any fewer than 2^32 arrivals, received is their number, and lost is the packets expected from the first to the last number less those received exactly when that is not negative |
| RtpManager.LossOfDistinctArrivals | src/RTPManager.cpp:213-230 | so it is when every number arrives at most once, between the first and the last |
| RtpManager.AccountingAfterInit | src/RTPManager.cpp:110-143 | for a call begun by init alone the balance holds exactly when nothing had been received before or the first number is zero |
| RtpManager.SenderKeepsCount | src/RTPManager.cpp:182-189 | after n packets the extended sequence number, packet count, bytes and timestamp have advanced by n, n, 84n and 161n through every wrap |
| RtpManager.LatestIsRemembered | src/RTPManager.cpp:222-223 | after any arrivals the last number is remembered and the one after it expected |
| PacketCounters.CountersMatchPackets | src/RTPManager.cpp:182-189 | the bytes and samples counted are those of the payloads the codec makes of application captures, through every wrap |
| Text.FirstToken | src/SDP.cpp:827-829 | a delimiter-free token in front of a delimiter or the end is the next strtok_r token |
| Text.TokensOfWords | src/SDP.cpp:547-571 | words printed with spaces between split back into the words that are not empty |
| Text.AtoiOfInt | src/SDP.cpp:971-980 | a number printed with %d is what atoi reads |
| Text.AtoiOfIntAnd | src/SDP.cpp:290-317 | a letter behind the digits does not change the number read |
| Text.AtoiSkips | src/SDP.cpp:533-536 | white space and a plus sign in front are passed over |
| Sdp.Stored | src/SDP.cpp:889-925 | a stored m line or any line among the media leaves a medium to point to, a stored t line a time |
| Sdp.ReadField | src/SDP.cpp:836-931 | an accepted line leaves mediaDesc and timeDesc pointing to descriptions that exist |
| Sdp.IndexOf | src/SDP.h:19-20 | the first occurrence, negative when there is none |
| Sdp.LastIndexOf | src/SDP.h:19-20 | the last occurrence, negative when there is none |
| SdpHandler.SDPPacket.Reset | src/SDP.cpp:458-530 | lists, connection, its count and the version are cleared; every other string stays |
| SdpHandler.SDPPacket.SetOwner | src/SDP.cpp:547-571 | as many of the owner's six words as there are are stored, the first missing one as NULL, the others left alone |
| SdpHandler.SDPPacket.SetConnection | src/SDP.cpp:580-590 | a connection with three words is stored and counted, another clears it uncounted |
| SdpHandler.SDPPacket.SetField | src/SDP.cpp:691-736 | exactly the field of that key changes; a NULL value is stored, or read through where the field is taken apart |
| SdpHandler.SDPPacket.Store | src/SDP.cpp:889-925 | the line goes to a new or the last time, a new or the last medium, or the session |
| SdpHandler.ReadPacket | src/SDP.cpp:790-938 | the reading loop returns zero and the packet, or the error code, that reading the text line by line gives |
| SdpHandler.PrintNumbers | src/SDP.cpp:1018-1023 | the list after the given words, a lone zero for an empty one |
| SdpHandler.PrintAttributes | src/SDP.cpp:1001-1005 | each attribute that fits, and for one that does not the buffer's previous text |
| SdpHandler.PrintTimes | src/SDP.cpp:1007-1026 | a t and an r line for each time, in order |
| SdpHandler.PrintMedia | src/SDP.cpp:1028-1073 | the lines of each medium, in order |
| SdpHandler.WritePacket | src/SDP.cpp:953-1075 | the whole text of a packet, line by line, or -8 when a mandatory string is missing |
| SdpLines.ReadPrintedLine | src/SDP.cpp:827-843 | a printed line is the next one read, split into its own key and value |
| SdpLines.TrailerRejected | src/SDP.cpp:946-949 | a TTL or address count printed after the line end makes the next key too long: -1 |
| SdpLines.OwnerSurvives | src/SDP.cpp:547-571 | the printed owner is read back whole |
| SdpLines.ConnectionSurvives | src/SDP.cpp:22-50 | the printed connection line is read back, with no TTL |
| SdpLines.TimeSurvives | src/SDP.cpp:319-373 | a printed time is read back with its times in the NTP fields and its offset count in front of the offsets |
| SdpLines.MediaLineSurvives | src/SDP.cpp:98-144 | media, port, port count and transport are read back, and of the formats the first |
| SdpLines.StandardConnectionIsRead | src/SDP.cpp:22-50 | a connection with its TTL and address count inside the address word is read with both, whatever they are and whichever is left out |
| SdpLines.TimesInUnits | src/SDP.cpp:290-317 | start and stop times in days, hours, minutes and seconds are read in seconds |
| SdpLines.ShortOwner | src/SDP.cpp:547-571 | what an owner line of one to five words sets, clears and keeps |
| SdpLines.ShortMediaLine | src/SDP.cpp:98-144 | what a media line of one to three words sets |
| SdpTheorems.ReadAttributes | src/SDP.cpp:1001-1005 | any number of printed session attributes are accepted and stored as printed |
| SdpTheorems.ReadTimes | src/SDP.cpp:893-914 | any number of printed times are accepted after the bandwidth and stored in order |
| SdpTheorems.ReadMedia | src/SDP.cpp:915-931 | any number of printed media end the text accepted and in order, or a TTL among them is refused |
| SdpTheorems.RoundTrip | src/SDP.cpp:790-1075 | the reader's answer to the text of every printable packet, into a new packet or a reset one: -1 for a TTL, -4 for times behind a key, time zone or attribute, -7 without a session connection, otherwise the packet with the stated changes to its lists, an optional field that was not printed keeping its old value |
| SdpTheorems.UnchangedWhen | src/SDP.cpp:790-1075 | accepted exactly when the session has a connection, nothing has a TTL and no key, time zone or attribute stands before a time; unchanged exactly when besides there are no times, one format a medium, attributes under 100 characters, media keys just when the session has one, and no old optional field that is not printed |
| SdpTheorems.StandardTextIsRead | src/SDP.cpp:790-938 | a whole session text with the TTL and address count in the address word is accepted and read with both, and otherwise answered like the writer's own |
| SdpTheorems.NameComesFirst | src/SDP.cpp:876-887 | before the name any later field is refused with -5 |
| SdpTheorems.UnnamedTextRefused | src/SDP.cpp:876-887 | so no text that leaves out the name, or begins with a later field, is accepted |
| SdpTheorems.RepeatFollowsTime | src/SDP.cpp:902-909 | a repeat line that follows no time line is refused with -6 |
| SdpTheorems.OnlyMediaFollowMedia | src/SDP.cpp:845-862 | among the media a session's field is refused with -3, an unknown one with -2 |
| SdpTheorems.MediaFieldsInOrder | src/SDP.cpp:854-861 | a medium's field that comes too late is refused with -3 |
| SdpTheorems.UnknownFieldRefused | src/SDP.cpp:864-873 | before the media an unknown field is refused with -4 |
| SdpTheorems.BareTimeLine | src/SDP.cpp:893-914 | a time without a repeat line has all other numbers zero |
| SdpTheorems.BareMediaLine | src/SDP.cpp:915-923 | a medium of one word has nothing else |
| SdpTheorems.ResetClears | src/SDP.cpp:458-530 | resetting makes any packet fit to be read into, changes none of the session's other strings, and leaves a new packet as it is |
| SdpTheorems.WrittenUnlessMissing | src/SDP.cpp:953-969 | nothing is written and the answer is -8 exactly when the name or one of the owner's four strings is missing |
| Ulaw.Linear2Ulaw | src/ulaw.c:72-99 | every sample becomes its code, the rest of the buffer stays |
| Ulaw.Ulaw2Linear | src/ulaw.c:118-138 | every code becomes its sample, the rest of the buffer stays |
| Ulaw.ErrorBound | src/ulaw.c:72-138 | 32 times the error is at most the magnitude plus 132 exactly for the samples above the trapped ones, clipped ones included |
| Ulaw.OrderPreserved | src/ulaw.c:72-138 | encoding keeps the order of two samples exactly unless the lower is trapped and the other lies in the one interval the trap overtakes |
| Ulaw.Reencode | src/ulaw.c:72-138 | re-encoding a decoded byte is the identity but for 0x7F, which gives 0xFF, and 0x00, which gives 0x02 |
| Ulaw.CodeLayout | src/ulaw.c:80-96 | above the trapped samples the complemented byte is the sign, the segment of the biased and clipped magnitude, and the four bits below its highest |

## Left out

- Windows branches, `Thread`, `MyEvent`, sockets, `select`, audio devices, the console's parsing and all logging: operating-system calls without an invariant of their own; what they deliver is a parameter or a nondeterministic step.
- SIP text (src/SIP.cpp): packets reach the user agent parsed. From, To, tags, addresses, ports and `waitMSec` carry no call state; random Call-IDs are parameters. Of the pointers into a received packet only the Call-ID host is followed: From, To and CSeq text are read from freed packets on more occasions. A message without a Call-ID line, which inherits the previous one's, is not modelled. What a read of freed memory finds is an arbitrary function of its occasion.
- The connected flag is also cleared by the RTP writer on a socket error (src/UdpRW.cpp:402), outside the user agent's own steps.
- Threads are steps of one system. A pool or queue operation is one step, as its mutex makes it; in `MemoFlow` downsizing may happen at any time and draining may stop at any time, which allows more runs than the source. `AgentReady` stands in `Possible` only to define the next step, and `StepHands` proves it in every run. Shutdown and the audio test thread are not modelled.
- RTP (not RTCP) header parsing, jitter, round-trip and NTP arithmetic, statistics files. `recvSeqWrap` never advances, since `recvSeqNext` is one past a sixteen-bit number; the branch is dead and not modelled.
- `unsigned long` has 32 bits in RTP and RTCP structures, as the comments of src/RTP.h say; bit fields fill a byte from its low end, and the payload's first sample lies low byte first.
- Converting a float beyond sixteen bits to short is undefined in C and wraps here; `NoClampNeeded` says when it does not occur.
- The `u2s` and `s2u` tables are arbitrary functions; `exp_lut` is written by runs of equal entries. src/ulaw.h declares `ulaw2linear` with short samples; the definition, with int samples, is what is modelled.
- Lengths the source does not check are preconditions: room in the output buffers, a readable payload (four header bytes, an index in the step table, no more samples than the scratch buffer holds), a message as long as its header says.
- The codec variants in comments of src/kodek.c, and every `toString`.
- SDP time descriptions, media descriptions and connections are values inside the packet object rather than objects of their own, so aliasing of descriptions between packets is not captured; buffer lengths and memory are not modelled, and numbers are unbounded.
- Sdp.IndexOf: does not model the pointer arithmetic on NULL when the key is no field; negative is what the callers test for.
- Sdp.LastIndexOf: the same.
- SdpHandler.SDPPacket.SetField: calls a connection or owner line without a value undefined; in the source `strtok(NULL, ...)` resumes whatever string was scanned before.
- SdpHandler.SDPPacket.Store: the same for a time or repeat line without a value.
- SdpHandler.SDPPacket.Reset: keeps the strings of the optional fields as values; in the source they point into the input that `reset` frees, so only that the fields are not cleared is modelled.
- SDP strings that contain a delimiter, or are empty, are outside `Printable`: the reader's functions are defined on them, the round trip is not stated for them. An attribute too long for the writer's buffer before any other has filled it prints uninitialised memory; `buffer` stands for that text.
- SdpTheorems.UnchangedWhen: does not count a packet with times as coming back, because the reader stores them in other fields than the writer prints; `TimeSurvives` says what comes back.
