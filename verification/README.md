# RiftNet protocol model

A Dafny model of the reliable-UDP engine and the tick-synchronisation code of RiftNet, with proofs about whole
runs of it. `dafny verify dfyconfig.toml` checks everything.

## What is modelled

- **Reliability layer** (`Protocol`, `ReceiveWindow`, `AckProtocol`, `RttBounds`, `Retransmission`, over `Bits`):
  sixteen-bit wrapping sequences, the 32-bit receive bitfield, selective acknowledgements, the round-trip estimator
  and the retransmission pass. The class `ReliableConnectionState` is changed in place, and each of its methods is
  proved equal to a function on values. The window is then proved to refine unbounded packet numbers, and two
  endpoints are composed over a network that loses, duplicates and reorders.
- **Connection and manager** (`Connection`, `Manager`, `Packet`, `Pipeline`, `RoundTrip`, `Handshake`,
  `HandshakeLoss`, `Offer`, `Conservation`, `Emissions`, `Refinement`, `AntiReplay`): the bounded send queue, frames,
  nonces, routing, and the change of key that waits for the flush. `Emissions` says over runs what leaves a connection
  and when, without looking at what it stores. `Refinement` connects the two halves: two whole connections that
  exchange bytes refine the endpoints of `AckProtocol`.
- **Thread pool** (`ThreadPool`): every interleaving of lock, check, pop, wait, run, panic, stop, join, pause, clear.
- **Server loop** (`World`, `Server`, `ServerTrace`, `ServerLoop` for the whole turn from wire packets to flush,
  `ServerRun` for all turns, `ServerPeers` and `InputPath` for who is connected and what becomes of an input) and
  **predicting client** (`Client`, `ClientTiming`, `TickControl`): jitter buffer,
  hold-last inputs, the fold over sessions, rollback and replay, the measured round trip, and both tick-rate
  controllers.
- **Buffers** (`History`, `Interpolation`, over `Bitwise`): the masked ring and the sorted snapshot buffer.

`u16` sequences wrap explicitly, the two bitfields are `bv32` and `bv64`, milliseconds since an arbitrary origin stand
for instants, and `real` stands for `f32`. The packet pipeline is a pair of functions, `Cipher`, about which only two
laws are ever assumed, always as a precondition: what was sealed opens again under the same key and nonce
(`Inverts`), and under no other (`Sealed`). `Pipeline.SecureIsSealed` derives both for a compressor followed by an
authenticated cipher, from what those two promise on their own, and `Pipeline.LabelledIsSealed` shows that the laws can
be met. The state hash is a function parameter of which nothing is assumed.

## What the code does against what it says

- The receiver records `highest - d` in bit `d` (crates/protocol/src/protocol.rs:124-141); the sender reads `ack - d`
  from bit `d - 1` (crates/protocol/src/protocol.rs:97-103). So an acknowledgement of `a` always clears `a - 1`,
  received or not. `AckProtocol.ClearedExactly` states what is cleared and `AckProtocol.AsWrittenIsUnsafe` is a run in
  which a lost packet is cleared. A header surely clears received packets only if and only if no outstanding packet is
  suspect in it, which the sender can read off (`AckProtocol.SurelySafeExactly`); a run in which none ever is, is safe
  (`AckProtocol.CleanRunIsSafe`, and `Refinement.CleanLinkIsSafe` for whole connections). A decoder reading bit `d` is
  safe in every run (`AckProtocol.AlignedIsSafe`).
- The handshake is the server's first reliable packet, so it can be cleared by the same mistake while the client
  still has the bootstrap key: `HandshakeLoss.HandshakeMayBeLost` is such a run and
  `HandshakeLoss.HandshakeLostExactly` says exactly when it happens. The server then never emits the handshake again,
  so that the client gets the key only from a copy already on its way (`HandshakeLoss.GivenUpForGood`).
- A handshake is recognised by its first byte and its length alone (crates/connection/src/manager.rs:78-82), so a
  reliable send of the application may be taken for one, and then replaces the peer's key: exactly those that begin
  with the byte 1 and have 33 bytes or more (`Handshake.HandshakeShapedExactly`, `Handshake.DisguisedSendRekeys`).
- The first packet of an unknown peer may itself be taken for a handshake, since the branch of lines 78-86 of
  crates/connection/src/manager.rs does not ask which side it is on. The server's own key then leaves sealed under the
  key of that packet: `Offer.StrangerIsOffered`.
- At crates/protocol/src/protocol.rs:134-137 a packet exactly 32 behind the greatest makes the code shift a `u32` by
  32. The model follows a release build, where the amount is taken modulo 32 and the packet is called a duplicate; a
  debug build stops there. `ReceiveWindow.ShiftOverflowsExactly` gives the one number that reaches the shift.
- The retransmission pass lengthens the timeout while it compares with it
  (crates/protocol/src/protocol.rs:152-165), so an overdue packet may be passed over. All overdue packets are resent
  if and only if each is also at least as old as the timeout backed off once for every overdue packet before it:
  `Retransmission.AllOverdueResentExactly`. Of packets sent together a prefix is resent:
  `Retransmission.BurstResendsPrefix`.
- `handle_packet` ignores the answer of `process_incoming_header` (crates/connection/src/manager.rs:64). "At most
  once" is therefore proved of that answer, and `RoundTrip.DuplicatesReachTheApplication` shows that it fails of the
  application; `AntiReplayWindow` is defined and stored but nothing calls it.
- The header of a reliable packet is processed before the packet is opened (crates/connection/src/manager.rs:63-75),
  so a packet that cannot be opened, because the key has changed on one side only, is acknowledged all the same:
  `RoundTrip.SendArrivesExactly`.
- DESIGN.md says that a rollback resets to the snapshot and replays inputs. The record of the snapshot's own tick is not
  replaced (bin/client.rs:142-153), so the same snapshot rolls back again (`Client.SameSnapshotRollsBackAgain`), and
  to another world unless the first replay found a moving input for each of its ticks
  (`Client.SecondRollbackAgreesExactly`). The replay reads missing records as no input, and agrees with the server exactly when every replayed input has the effect
  of the one the server applied: `Client.RollbackAgreesExactly`.
- After a rollback the client sends the inputs of ticks again and overwrites their dispatch times
  (bin/client.rs:165-171), so an answer to the first sending is measured from the last one. The measured round trip
  is the time since the first sending if and only if the input was sent once
  (`ClientTiming.MeasuresFirstSendingExactly`); `ClientTiming.ResentTickMeasuresLess` is a run in which 17 ms are
  measured 33 ms after it.
- A job pushed after the workers have gone is accepted and never run: `ThreadPool.LeftInQueueExactly` says which jobs
  those are, `ThreadPool.LeftForGood` that nothing but clearing removes them. Since `stop` borrows the pool mutably,
  they are the jobs pushed after it was called: `ThreadPool.ExclusiveStopExactly`.

## Model

| member | source | states |
|---|---|---|
| Protocol.ReliableConnectionState.ProcessIncomingHeader | crates/protocol/src/protocol.rs:85-145 | the whole new state, field by field, is that of `Incoming`, and the answer is whether the window finds the sequence new |
| Protocol.ReliableConnectionState.RetainUnacked | crates/protocol/src/protocol.rs:92-116 | the outstanding list keeps exactly the unacknowledged packets in order, and the samples are those of acknowledged packets never resent |
| Protocol.ReliableConnectionState.ApplyRttSample | crates/protocol/src/protocol.rs:62-81 | one step of the estimator, leaving the timeout in its bounds |
| Protocol.ReliableConnectionState.UpdateReceiveWindow | crates/protocol/src/protocol.rs:124-144 | the new window and the answer, with the shift by 32 taken as a release build takes it |
| Protocol.ReliableConnectionState.ProcessRetransmissions | crates/protocol/src/protocol.rs:148-168 | one pass with the timeout changed inside the loop: which packets are resent, in order, and the new times, retries, counter and timeout |
| Protocol.ReliableConnectionState.IsTimedOut | crates/protocol/src/protocol.rs:170-172 | late exactly when more than the timeout has passed since the last packet |
| Protocol.BackoffStep | crates/protocol/src/protocol.rs:163 | multiplying by 1.5 and capping step by step is capping the power once, and never shortens the timeout |
| ReceiveWindow.MoreRecentExactly | crates/protocol/src/protocol.rs:57-60 | the comparison of section 3.2 of RFC 1982 on all of u16: antisymmetric, and silent only on equal sequences and those 2^15 apart |
| ReceiveWindow.MoreRecentIsGreater | crates/protocol/src/protocol.rs:57-60 | within half the range the order of wrapped sequences is the order of the numbers, over any number of wraps |
| ReceiveWindow.ArrivalRefines | crates/protocol/src/protocol.rs:123-144 | one arrival: the window answers and changes as the set of accepted unbounded numbers does |
| ReceiveWindow.ShiftOverflowsExactly | crates/protocol/src/protocol.rs:133-140 | the shift by 32 is reached by exactly the number 32 behind the greatest, and there answers "duplicate" and changes nothing |
| ReceiveWindow.RepeatIsDuplicate | crates/protocol/src/protocol.rs:123-144 | in any state at all a sequence that has just arrived is a duplicate and changes nothing |
| ReceiveWindow.RunRefines | crates/protocol/src/protocol.rs:123-144 | after every run `highest` is the greatest number modulo 2^16 and bit `d` says exactly whether `max - d` was accepted |
| ReceiveWindow.NewAtMostOnce | crates/protocol/src/protocol.rs:83-84 | over a whole run "new" is answered exactly once for an accepted number and never for another |
| ReceiveWindow.MaximumArrived | crates/protocol/src/protocol.rs:123-144 | nothing that arrived and is at most 31 behind the greatest arrival is missing from the accepted numbers |
| AckProtocol.ClearedExactly | crates/protocol/src/protocol.rs:92-104 | a header built from the peer's window clears `s` exactly when `s` is the acknowledged number, or is 1 to 32 behind it and `s + 1` was received |
| AckProtocol.AlignedClearedExactly | crates/protocol/src/protocol.rs:97-103 | with bit `d` read for `ack - d` exactly the received numbers within 31 are cleared |
| AckProtocol.PredecessorAlwaysCleared | crates/protocol/src/protocol.rs:97-103 | the number below the acknowledged one is cleared whether or not it arrived |
| AckProtocol.MisclearedExactly | crates/protocol/src/protocol.rs:97-103 | an unreceived packet is cleared exactly at a visible gap of the header; 32 behind, any packet is cleared exactly on the last bit |
| AckProtocol.HeaderCannotTell | crates/protocol/src/protocol.rs:97-103 | the same header is built whether or not the packet 32 behind was received |
| AckProtocol.SafeExactlyWithoutGaps | crates/protocol/src/protocol.rs:92-116 | for any outstanding packets: "cleared implies received" holds for a header if and only if it shows no gap at any of them and the one 32 behind, when it is cleared on the last bit, was received |
| AckProtocol.SurelySafeExactly | crates/protocol/src/protocol.rs:92-116 | for any outstanding packets: the header vouches for all it clears, whatever was received, if and only if none is suspect in it |
| AckProtocol.CleanRunIsSafe | crates/protocol/src/protocol.rs:92-116 | in every run of the code as written without a suspect packet, what was cleared was accepted |
| AckProtocol.CleanDeliveryExactly | crates/protocol/src/protocol.rs:92-116 | in every run a delivery has no suspect packet if and only if its header vouches for all it clears |
| AckProtocol.CleanRunExactly | crates/protocol/src/protocol.rs:92-116 | the runs without suspect packets are exactly those in which every header vouches for all it clears |
| AckProtocol.AlignedKeepsUntilDelivered | crates/protocol/src/protocol.rs:92-116 | with the aligned decoder every packet stays outstanding until it has been delivered |
| AckProtocol.RunKeepsOk | crates/protocol/src/protocol.rs:85-145 | what every step of two endpoints over a lossy network keeps, for either decoder |
| AckProtocol.AlignedIsSafe | crates/protocol/src/protocol.rs:92-116 | in every run with the aligned decoder a cleared packet was accepted by the peer |
| AckProtocol.AsWrittenIsOffByOne | crates/protocol/src/protocol.rs:92-116 | in every run of the code as written a cleared packet or its successor was accepted by the peer |
| AckProtocol.AcceptedWasSent | crates/protocol/src/protocol.rs:123-144 | a peer never accepts a number that was not sent |
| AckProtocol.AsWrittenIsUnsafe | crates/protocol/src/protocol.rs:97-103 | the witness: a run of five events in which a lost packet is cleared |
| RttBounds.EstimatorStaysWithinSamples | crates/protocol/src/protocol.rs:62-81 | with all samples in [lo, hi] the mean stays in [lo, hi], the variance in [0, max(hi/2, hi-lo)] and the timeout in [30, 500] |
| RttBounds.TimeoutIsMeanPlusFourDeviations | crates/protocol/src/protocol.rs:69-80 | the timeout as a function of the samples alone: weighted mean plus four weighted deviations within the bounds, else the nearer bound |
| RttBounds.ConstantSampleShrinksError | crates/protocol/src/protocol.rs:74-76 | a constant sample shrinks the error of the mean by exactly (7/8)^n |
| RttBounds.SteadyFromTheStart | crates/protocol/src/protocol.rs:69-76 | a round trip that is constant from the start is estimated without error and the deviation decays by exactly (3/4)^n |
| RttBounds.EstimatorIsWeightedAverage | crates/protocol/src/protocol.rs:69-77 | section 2 of RFC 6298 as closed sums: the mean weighs the samples by powers of 7/8, the variance their deviations from the earlier means by powers of 3/4 |
| RttBounds.ResentPacketsGiveNoSample | crates/protocol/src/protocol.rs:106-111 | section 3 of RFC 6298: taking the resent packets out beforehand changes no sample |
| Retransmission.OldPacketsAreAlwaysResent | crates/protocol/src/protocol.rs:149-163 | a packet 2000 ms old is resent whatever the backoff |
| Retransmission.YoungPacketsWait | crates/protocol/src/protocol.rs:155-163 | a packet younger than the timeout at the start of the pass is never resent |
| Retransmission.PassedOverHoldsBackYounger | crates/protocol/src/protocol.rs:152-165 | a packet passed over holds back every later packet that is no older |
| Retransmission.AllOverdueResentExactly | crates/protocol/src/protocol.rs:152-165 | for packets of any ages: all overdue ones are resent if and only if each is at least as old as min(2000, R0 * 1.5^j) with j the overdue packets before it, and then as many are resent as are overdue |
| Retransmission.BurstResendsPrefix | crates/protocol/src/protocol.rs:152-165 | packets of one age are resent as a prefix: the i-th exactly when its age is at least min(2000, R0 * 1.5^i) |
| Retransmission.CountersAgree | crates/protocol/src/protocol.rs:155-164 | retries, the retransmit counter, the resend queue and the exponent of the backoff grow by the same number |
| Emissions.FlushEmitsExactly | crates/connection/src/connection.rs:108-173 | over runs: a flush hands to the socket the data of the packets it counts as emitted again, in order, and then the frames of the queue |
| Emissions.QueueIsUnflushedExactly | crates/connection/src/connection.rs:98-116 | the queue is everything sent since the last flush, in that order, if and only if that is at most one mebibyte |
| Emissions.TimesAreOfLastEmission | crates/protocol/src/protocol.rs:152-160 | over runs: the time kept with an outstanding packet is that of the last flush that emitted it, first or again |
| Emissions.LeavingIsEmitted | crates/connection/src/connection.rs:109-145 | what that time is computed from is real: every number that leaves with a flush has its data in the output of the flush |
| Emissions.TwoSecondsLaterItLeavesAgain | crates/connection/src/connection.rs:109-112 | a packet still outstanding two seconds after its last emission is in the output of the next flush |
| Emissions.NotBeforeTheTimeout | crates/protocol/src/protocol.rs:152-160 | a packet last emitted less than the timeout ago is not emitted again |
| Emissions.EstimatorTookRoundTrips | crates/protocol/src/protocol.rs:106-121 | over runs: mean and deviation are those of exactly the round trips from the only emission of a packet to the header that acknowledged it, and a header that gives one also undoes every backoff |
| Emissions.MeanOfRoundTrips | crates/protocol/src/protocol.rs:69-77 | section 2 of RFC 6298 over runs, as closed sums of those round trips |
| Emissions.TimeoutWhileNothingHeard | crates/protocol/src/protocol.rs:148-165 | until something is heard the timeout is min(2000, 100 * 1.5^k) after k resends in all passes |
| Emissions.LastReceivedIsLastHeader | crates/protocol/src/protocol.rs:85-86 | over runs: the time that decides `is_timed_out` is that of the last packet with a header, and an ack is pending if and only if the window has bits |
| AntiReplay.AntiReplayWindow.Check | crates/connection/src/connection.rs:28-33 | admits as the specification does |
| AntiReplay.AntiReplayWindow.Record | crates/connection/src/connection.rs:35-50 | the new window, including jumps of 64 and more |
| AntiReplay.WindowIsExact | crates/connection/src/connection.rs:35-50 | after any sequence of records bit `d` is set exactly when `highest - d` was recorded |
| AntiReplay.AdmitsExactly | crates/connection/src/connection.rs:28-50 | exactly the unrecorded nonces above `highest - 64` are admitted |
| AntiReplay.RefusalIsPermanent | crates/connection/src/connection.rs:28-50 | a refused nonce is refused after any further records |
| AntiReplay.AcceptedAtMostOnce | crates/connection/src/connection.rs:28-50 | check, then record: no nonce of any stream is accepted twice |
| AntiReplay.RecentNoncesAreAccepted | crates/connection/src/connection.rs:28-50 | conversely every nonce less than 64 below the top of the stream was accepted |
| Packet.HeaderRoundTrip | crates/protocol/src/packet.rs:36-42 | the packed little-endian reliability header decodes to what was encoded |
| Packet.HeaderLayout | crates/protocol/src/packet.rs:36-42 | sequence, acknowledged sequence and bits follow each other, each with its low bytes first |
| Packet.SignedRoundTrip | bin/client.rs:136-140 | a position coordinate survives its four bytes, for every i32 |
| Pipeline.BootstrapKeyBytes | crates/connection/src/manager.rs:28 | the key every connection starts with is 32 times 0x42 |
| Pipeline.SecureIsSealed | crates/connection/src/pipeline.rs:21-49 | compressing, padding the nonce to twelve bytes and encrypting opens again under the same key and 64-bit nonce and under no other |
| Connection.Connection.constructor | crates/connection/src/connection.rs:76-96 | a new connection: first sequence 1, nonces odd for a server and even for a client, empty queue, no swap pending |
| Connection.Connection.QueuePendingSend | crates/connection/src/connection.rs:98-106 | the send is appended, or dropped when it would pass the bound |
| Connection.Connection.QueueHandshake | crates/connection/src/manager.rs:41-52 | the session key is queued as a reliable send and the swap is left pending |
| Connection.Connection.GetTxNonce | crates/connection/src/connection.rs:179-183 | returns the nonce and moves on by two |
| Connection.Connection.PopFront | crates/connection/src/connection.rs:114-115 | takes the first send, keeping the byte account exact |
| Connection.Connection.Frame | crates/connection/src/connection.rs:117-170 | the wire bytes of one send and the counters and outstanding list after it, also when sealing fails |
| Connection.Connection.SwapKey | crates/connection/src/connection.rs:175-177 | the pending key takes over and nothing stays pending |
| Connection.Connection.Update | crates/connection/src/connection.rs:108-178 | the whole state after a flush, and everything emitted: due resends, then the framed sends in queue order |
| Connection.QueueingKeepsAccount | crates/connection/src/connection.rs:98-106 | a send is refused exactly when it would pass the bound, and the account stays exact |
| Connection.CountersIgnoreResends | crates/connection/src/connection.rs:108-149 | framing reads nothing that the retransmission pass before it has changed |
| Connection.FrameOfItem | crates/connection/src/connection.rs:114-173 | framing the items one by one uses the sequences and nonces of their places in the queue |
| Manager.Handle | crates/connection/src/manager.rs:55-125 | every branch: short packets, failed opening, handshake, application data, disconnect, unknown types |
| Manager.ConnectionManager.HandlePacket | crates/connection/src/manager.rs:22-126 | all connections and the times they were last heard of afterwards, and the returned data; only the entry of the sender changes |
| Manager.ConnectionManager.SendToClient | crates/connection/src/manager.rs:152-159 | queued for the address, whose connection is opened without a handshake if missing |
| Manager.ConnectionManager.FlushAll | crates/connection/src/manager.rs:167-174 | every connection is flushed once, in some order, and the emissions follow each other in that order |
| Manager.EachPeerItsOwn | crates/connection/src/manager.rs:167-174 | whatever the order, each peer is sent the emission of its own connection and nothing else |
| Manager.ConnectionManager.EvictStale | crates/connection/src/manager.rs:176-183 | exactly the connections heard of within the timeout are left |
| Manager.PacketConcernsItsSender | crates/connection/src/manager.rs:22-126 | a packet changes the connection of its sender and no other |
| Manager.DisconnectForgetsExactly | crates/connection/src/manager.rs:120-134 | after its packet a peer has no connection if and only if the packet was a disconnect |
| RoundTrip.ReliableHandled | crates/connection/src/manager.rs:59-98 | what a receiver makes of any reliable frame, for its key and the nonce in the header |
| RoundTrip.UnreliableHandled | crates/connection/src/manager.rs:102-118 | the same for unreliable frames, which leave the reliability state alone |
| RoundTrip.SendArrivesUnchanged | crates/connection/src/connection.rs:117-170 | every framed send is delivered byte for byte to a peer with the same key, given only that the pipeline inverts itself |
| RoundTrip.SendArrivesExactly | crates/connection/src/manager.rs:59-118 | a framed send reaches the application if and only if the receiver holds the key it was sealed under, and the header is heard either way |
| RoundTrip.DuplicatesReachTheApplication | crates/connection/src/manager.rs:62-91 | a reliable packet delivered twice reaches the application twice, although the window calls the second a duplicate |
| RoundTrip.FlushArrivesInOrder | crates/connection/src/connection.rs:114-173 | a flush without loss delivers all framed sends unchanged and in queue order |
| RoundTrip.SnapshotRoundTrip | bin/server.rs:163-178 | the client reads back tick, hash, last input tick and first position of the packet the server builds, whose first byte is 3 |
| RoundTrip.SnapshotCrossesTheWire | bin/client.rs:126-140 | the same through queue, frame, seal, open and parse |
| RoundTrip.PositionsAreLaidOut | bin/server.rs:174-178 | every position of the world is in the packet, twelve bytes each, in order |
| RoundTrip.InputRoundTrip | bin/server.rs:99-120 | the server reads back the tick and mask of an input packet |
| RoundTrip.InputIsReadExactly | bin/server.rs:100-120 | data is read as an input if and only if it is that input's packet with anything behind it |
| RoundTrip.InputLayout | crates/protocol/src/packet.rs:24-29 | an input packet is the byte 4, the tick and the mask, low bytes first |
| RoundTrip.InputCrossesTheWire | bin/client.rs:169-170 | the same through both layers |
| Handshake.KeysAgree | crates/connection/src/manager.rs:33-53 | in every run the client holds the session key only if the server does, neither holds a third key, and authenticated means holding it |
| Handshake.KeysChangeAtMostOnce | crates/connection/src/manager.rs:75-91 | duplicated and resent handshakes change nothing: each side replaces its key at most once |
| Handshake.HandshakesAreBootstrapped | crates/connection/src/connection.rs:114-177 | every handshake in flight or kept for resending is sealed under the bootstrap key and carries the one session key |
| Handshake.HandshakeIsTaken | crates/connection/src/manager.rs:75-91 | a handshake changes the key of a peer that holds the key it was sealed under and of no other |
| Handshake.HearingOnlyRemoves | crates/connection/src/manager.rs:59-126 | no packet adds to the outstanding list of its receiver, and only an opened handshake rekeys it |
| Handshake.HandshakeShapedExactly | crates/connection/src/manager.rs:78-86 | an opened payload is taken for a handshake if and only if it is the byte 1, a key, and anything |
| Handshake.DisguisedSendRekeys | crates/connection/src/manager.rs:75-91 | a reliable send of the application that begins so replaces the key of a peer with the same key and delivers nothing |
| Handshake.NothingUnopenedIsDelivered | crates/connection/src/manager.rs:55-125 | bytes that open under no nonce deliver nothing and leave the key; they disconnect exactly if they begin with 2 |
| Offer.StrangerIsOffered | crates/connection/src/manager.rs:25-53 | whatever the first packet of an unknown peer is, but for a disconnect, the next flush of its connection begins with the session key, which a peer with the key of the connection takes, and then changes to it |
| Offer.FirstReceiptIsOffer | crates/connection/src/manager.rs:33-53 | the connection opened so is the one the runs of `Refinement` and `HandshakeLoss` begin with |
| Offer.KeyIsOffered | crates/connection/src/manager.rs:33-53 | in every run the handshake is in front of the server's queue until the server has changed its key, and from then on a packet is on its way that every holder of the bootstrap key takes for it |
| HandshakeLoss.ClientHoldsKeyExactly | crates/connection/src/manager.rs:75-91 | in every run of whole connections the client holds the session key exactly when the packet with the handshake was delivered to it |
| HandshakeLoss.HandshakeLostExactly | crates/protocol/src/protocol.rs:92-116 | the server has given up the handshake while the client lacks the key if and only if it heard a header in which the handshake was suspect, and the handshake was never delivered |
| HandshakeLoss.GivenUpForGood | crates/protocol/src/protocol.rs:92-116 | after the server has cleared the handshake it never emits it again; the client holds the key later exactly if a copy is delivered |
| HandshakeLoss.HandshakeStaysInCleanRuns | crates/protocol/src/protocol.rs:92-116 | without suspect packets the handshake stays outstanding until the client holds the key |
| HandshakeLoss.HandshakeMayBeLost | crates/protocol/src/protocol.rs:97-103 | the witness: the packet behind the handshake arrives, the reply clears both, and the client keeps the bootstrap key |
| Conservation.SentIsOutstandingOrCleared | crates/connection/src/connection.rs:108-149 | in every run the emitted reliable packets split exactly into outstanding and cleared, the outstanding ones in sending order with the bytes first sent |
| Conservation.SequencesAreDistinct | crates/connection/src/connection.rs:118-119 | while the outstanding numbers span less than 2^16 no two outstanding packets share a sequence |
| Conservation.SentIsNeverRewritten | crates/connection/src/connection.rs:131-142 | what was emitted under a number stays the same for ever |
| Conservation.ResendsRepeat | crates/protocol/src/protocol.rs:152-158 | a flush re-sends outstanding packets only, each with the bytes first sent |
| Conservation.NoncesNeverRepeat | crates/connection/src/connection.rs:155-183 | in every run the nonces of unreliable packets strictly increase, odd for a server and even for a client |
| Conservation.QueueAndTimeoutStayBounded | crates/connection/src/connection.rs:98-116 | in every reachable state the byte account is the queued total and bounded, and the timeout is in [30, 2000] |
| Conservation.RetriesCountResends | crates/protocol/src/protocol.rs:155-160 | in every run an outstanding packet's retries is the number of times it was emitted again |
| Conservation.ResentDataByNumber | crates/protocol/src/protocol.rs:152-158 | what a pass emits is, one by one, what was first sent under the numbers it resends |
| Conservation.SamplesComeFromFirstSends | crates/protocol/src/protocol.rs:106-111 | section 3 of RFC 6298 over runs: only packets emitted exactly once ever give a sample |
| Conservation.ClearedForGood | crates/protocol/src/protocol.rs:92-116 | in no continuation of a run is a cleared packet outstanding or emitted again |
| Conservation.KeptLabelsRemaining | crates/protocol/src/protocol.rs:92-116 | a header removes exactly the acknowledged numbers and keeps the order of the others |
| Conservation.FrameCarriesNumber | crates/connection/src/connection.rs:118-135 | the frame of an item parses back to its header, whose sequence is the low part of its number |
| Refinement.EndpointHears | crates/connection/src/manager.rs:62-64 | the bytes of a packet change a connection as a delivery changes an abstract endpoint |
| Refinement.ItemIsSend | crates/connection/src/connection.rs:117-149 | framing one queue item is one send, one failed send or nothing of the abstract endpoint |
| Refinement.TraceIsRun | crates/connection/src/connection.rs:108-178 | every run of two whole connections over a lossy network is a run of the two abstract endpoints |
| Refinement.ClearedWasReceivedOrNext | crates/protocol/src/protocol.rs:92-116 | in every run of two whole connections a cleared packet or its successor was accepted |
| Refinement.CleanLinkIsSafe | crates/protocol/src/protocol.rs:92-116 | in every run of two whole connections in which no header heard has a suspect packet outstanding, what was cleared was accepted |
| Refinement.CleanArrivalExactly | crates/protocol/src/protocol.rs:92-116 | whether an arrival is so can be read off its header and the outstanding list, and is exact |
| Refinement.ClearedForGood | crates/protocol/src/protocol.rs:92-116 | what either of two connections has cleared, also by mistake, it never emits again in any continuation |
| Refinement.AcceptedWasEmitted | crates/protocol/src/protocol.rs:123-144 | what a connection accepts was emitted by the other |
| Refinement.NewExactlyByNumber | crates/protocol/src/protocol.rs:123-144 | the window's answer to the bytes of a packet is that of the unbounded numbers |
| Refinement.DeliveryYieldsPayload | crates/connection/src/manager.rs:62-97 | in every run a delivered packet yields exactly what was queued under its number, if the receiver holds its key, and nothing otherwise |
| Refinement.ResendsAreOnTheWire | crates/connection/src/connection.rs:109-112 | a retransmission repeats a packet of the same number that was on the wire already |
| ThreadPool.RunKeepsOk | crates/core/src/threading.rs:47-112 | what every step of every interleaving keeps |
| ThreadPool.EveryJobIsInOnePlace | crates/core/src/threading.rs:47-112 | a pushed job is exactly one of queued, running on one worker, finished, panicked or cleared |
| ThreadPool.PopsFollowPushOrder | crates/core/src/threading.rs:59-80 | jobs are taken in push order, all before what is still queued |
| ThreadPool.MutualExclusion | crates/core/src/threading.rs:51-61 | at most one worker works on the queue |
| ThreadPool.WorkersLeaveOnlyWhenDone | crates/core/src/threading.rs:57 | a worker exits only when stopping with an empty queue, so no panic of a job (line 65) takes one away |
| ThreadPool.StopDrainsTheQueue | crates/core/src/threading.rs:85-98 | when the first stop returns every job pushed before the flag was set has run or was cleared |
| ThreadPool.LeftInQueueExactly | crates/core/src/threading.rs:47-98 | when stop has returned a job is still queued exactly when it was pushed after the last worker had exited and not cleared; all others not cleared have run |
| ThreadPool.LeftForGood | crates/core/src/threading.rs:69-98 | such a job is never run in any continuation |
| ThreadPool.ExclusiveStopExactly | crates/core/src/threading.rs:69-98 | as stop is called with nothing else in progress, those are exactly the jobs pushed after the call |
| ThreadPool.LateJobsMayStayQueued | crates/core/src/threading.rs:69-98 | a witness: a job pushed after stop has returned is queued and no worker is left |
| ThreadPool.PopsExactlyUnlessPaused | crates/core/src/threading.rs:58-59 | in every run a worker that looks takes the first job if and only if there is one and the last of the calls to pause and resume was not a pause |
| ThreadPool.WorkersAreAsMany | crates/core/src/threading.rs:26-42 | the pool has as many workers as it was given, and at least one |
| World.SimulateCountsMoves | bin/server.rs:34-40 | a run of physics moves the world by 10 per moving input, whatever their order |
| World.OddInputsMove | bin/server.rs:34-40 | an input moves the world if and only if its lowest bit is set, and then by 10 along the first axis |
| Server.OrOfAnyFirst | bin/server.rs:142-149 | the fold over sessions does not depend on which one is taken first |
| Server.OrHasBitsExactly | bin/server.rs:142-149 | the folded input has exactly the bits of the inputs held, bit by bit |
| Bitwise.BitOrWidth | bin/server.rs:147 | masks of any width fold to a mask of that width |
| Server.OrMovesIfAnyMoves | bin/server.rs:142-151 | the folded input moves the world exactly when some session's input does |
| ServerLoop.Poll | bin/server.rs:97-131 | wire packets through the manager: the connections, the times they were heard of, and the inputs found, in order |
| Server.GameServer.Ingest | bin/server.rs:113-120 | each sender's session has buffered its own inputs in arrival order and no others |
| Server.GameServer.OpenSessions | bin/server.rs:133-139 | a fresh session for every open connection that had none |
| Server.GameServer.PlayOne | bin/server.rs:143-149 | one session takes its input for the tick or holds the last, and keeps only future ticks |
| Server.GameServer.Gather | bin/server.rs:142-149 | all sessions are played once and their inputs are folded, in any order of the map |
| Server.GameServer.PlayTick | bin/server.rs:94-151 | one tick: the inputs are buffered, all sessions are played and the world steps by the fold over what they hold |
| Server.GameServer.RunTick | bin/server.rs:94-195 | the session part of a turn as a function of sessions, world and what arrived |
| ServerLoop.Broadcast | bin/server.rs:161-182 | every connected session has its snapshot queued and no other connection changes |
| ServerLoop.RunTurn | bin/server.rs:92-200 | a whole turn from wire packets to flush: sessions, world, recorded snapshot, connections and everything emitted |
| ServerLoop.TurnEndsWithSnapshot | bin/server.rs:161-200 | what a turn emits to a surviving session ends with a datagram that a peer with the connection's key reads as the tick, hash, last input tick and position of that turn |
| ServerPeers.ConnectedExactly | crates/connection/src/manager.rs:176-183 | over runs: the server has a connection for exactly the peers whose last packet came less than the timeout ago and was not a disconnect |
| ServerPeers.SessionsAreConnections | bin/server.rs:133-195 | over runs: after every turn the sessions are exactly those of the connections |
| InputPath.PolledInputIsFiled | bin/server.rs:97-120 | an input framed under the key its sender has by then is an arrival of that sender, tick and mask, wherever it comes in the poll |
| InputPath.InputWaitsInBuffer | bin/server.rs:113-120 | until its tick comes it is in the session of its sender under that tick |
| InputPath.InputMovesWorld | bin/server.rs:97-151 | from the wire to the world: an odd input of a peer that stays connected, in time and not replaced, moves the world at its tick |
| InputPath.ControllerQueuesInput | bin/client.rs:169-170 | what the client queues for a tick is such an input |
| ServerTrace.SessionAppliesInputInForce | bin/server.rs:94-149 | a session refines the trace specification of hold-last over on-time inputs |
| ServerTrace.GreatestOnTimeTickDecides | bin/server.rs:144-148 | the input applied is the last-arrived one for the greatest tick whose input came no later than that tick |
| ServerTrace.NothingOnTimeMeansNoInput | bin/server.rs:114-118 | and none when nothing ever came on time |
| ServerTrace.ReportsLastInput | bin/server.rs:119-120 | the tick a session reports back is that of the last input that arrived in its lifetime |
| ServerTrace.RunLoop | bin/server.rs:94-195 | the session part of the loop, over any list of turns already parsed, ends in the traced sessions and world |
| ServerRun.RunLoop | bin/server.rs:92-200 | the whole loop from the wire packets of its turns: sessions and world end as the trace of what those packets amount to, connections as the flushes leave them, and every turn emits what they had to say |
| ServerTrace.MovesOnceOnTime | bin/server.rs:114-149 | a session sent moving inputs only holds a moving input if and only if one of them came on time |
| ServerTrace.FedForwardMovesExactly | bin/server.rs:142-151 | sent moving inputs only, the server moves the world at a tick if and only if some session then alive has had one on time |
| ServerTrace.ParticipantLived | bin/server.rs:114-149 | a session has seen the polls of its own lifetime and no others, also when its address came back |
| ServerTrace.ParticipantsHoldInputInForce | bin/server.rs:143-149 | in every run each participant holds the input in force of its own lifetime |
| ServerTrace.BuffersHoldTheFuture | bin/server.rs:148 | in every reachable state a session buffers exactly the arrived inputs for ticks still to come |
| ServerTrace.WorldFollowsInputsInForce | bin/server.rs:142-151 | at every tick the world moves exactly when some participant's input in force moves it |
| Client.GameClient.TakeSnapshot | bin/client.rs:131-153 | the state after a snapshot, rolled back exactly when the recorded hash differs, the round trip it measures and the recorded snapshot |
| Client.GameClient.Replay | bin/client.rs:147-151 | the replay loop, writing the history it reads |
| Client.GameClient.Steer | bin/client.rs:161-176 | the ticks predicted, the input packets queued and the dispatch times kept in one pass |
| ClientTiming.RoundTripIsMeasured | bin/client.rs:133-135 | in every run of passes and snapshots: an answer to an input that waits measures the time since its last sending and ends its waiting; any other measures nothing |
| ClientTiming.MeasuresFirstSendingExactly | bin/client.rs:142-171 | this is the time since the first sending if and only if the tick was sent once, and shorter otherwise |
| ClientTiming.AnsweredUntilSentAgain | bin/client.rs:133-171 | once answered, an input is not measured again until it is sent again |
| ClientTiming.ResentTickMeasuresLess | bin/client.rs:142-171 | a witness: a tick sent at 117 and, after a rollback, at 133 is answered at 150 and measures 17 |
| ClientTiming.ServerTickIsLastHeard | bin/client.rs:131-132 | over runs: the server tick steered by is that of the last snapshot heard |
| ClientTiming.WaitsUntilAnswered | bin/client.rs:171-176 | an input that waits goes on waiting until it is answered, as long as no snapshot of a later tick is heard |
| ClientTiming.PassBoundsWaiting | bin/client.rs:174-176 | more than 128 wait after a pass only if none of them lies behind the server, and none is forgotten while at most 126 wait |
| Client.ForwardPacketIsRead | bin/client.rs:169-170 | the server reads the packets of the controller as the forward input of their ticks |
| Client.ReplayFoldsRecordedInputs | bin/client.rs:147-151 | overwriting records while replaying disturbs no input still to be read: the world is the fold over the inputs recorded before |
| Client.RollbackFoldsRecordedInputs | bin/client.rs:142-153 | a rollback ends at the snapshot's tick plus three with that fold, missing records counting as no input |
| Client.SameSnapshotRollsBackAgain | bin/client.rs:142-151 | the record that disagreed is kept, so the same snapshot rolls back again |
| Client.SecondRollbackAgreesExactly | bin/client.rs:142-151 | the second rollback by the same snapshot ends in the world of the first if and only if the first found a moving input for each of its three ticks |
| Client.WorldsAgreeExactly | bin/client.rs:147-151 | against any server: a replay follows it tick by tick if and only if every replayed input has the effect of the applied one |
| Client.RollbackAgreesExactly | bin/client.rs:142-153 | against any server: world and records agree after a rollback if and only if the three replayed inputs have the effect of the applied ones, and the world alone if and only if as many of them move |
| Client.RollbackAgreesWithMovingServer | bin/client.rs:142-153 | against a server that always moves this means that the three records exist and move |
| Client.NoFurtherRollback | bin/client.rs:142-168 | after an agreeing rollback no snapshot of a predicted tick causes another, in any run |
| TickControl.ClientTrajectory | bin/client.rs:161-166 | the whole trajectory of predicted minus target for a steady server |
| TickControl.ClientReachesBandExactly | bin/client.rs:161-166 | the band [0, 2] is reached after exactly max(-e, e-2, 0) loops and never left |
| TickControl.TargetIsOneWayAhead | bin/client.rs:161-162 | 32 * (target - last server tick - 3) is the round trip in milliseconds, rounded down to a multiple of 32 |
| TickControl.LeadSettlesExactly | bin/client.rs:161-172 | steered by a steady server, the client leads it by the one-way trip in whole ticks of 16 ms plus 3 to 5, exactly from the stated loop on |
| TickControl.SwarmClient.Tick | bin/client_swarm.rs:92-97 | the predicted tick moves on by the rounded and saturated step, never back, for any gain; at 1/20 the error moves as `SwarmError` says |
| TickControl.SwarmStepExactly | bin/client_swarm.rs:94-97 | rounding and saturating cast in integers: no step at -11 and below, else (error + 30) / 20 |
| TickControl.SwarmFixedPoints | bin/client_swarm.rs:94-97 | the fixed points are exactly [-10, 9] |
| TickControl.SwarmMovesInward | bin/client_swarm.rs:94-97 | a loop moves the error towards that band and never across it |
| TickControl.SwarmFromBelow | bin/client_swarm.rs:94-97 | from below the error climbs by one per loop and stops at -10 |
| TickControl.SwarmFromAbove | bin/client_swarm.rs:94-97 | from above the excess over 9 shrinks by at least 19/20 and one tick per loop |
| TickControl.SwarmConverges | bin/client_swarm.rs:94-97 | every start converges, to a value that is given |
| History.HistoryBuffer.constructor | crates/protocol/src/history.rs:17-24 | an empty ring of a power-of-two capacity |
| History.HistoryBuffer.Insert | crates/protocol/src/history.rs:26-29 | the masked slot is overwritten; all slots keep meaning the log of insertions |
| History.HistoryBuffer.Get | crates/protocol/src/history.rs:31-34 | the lookup of the log |
| History.AgreesWithMap | crates/protocol/src/history.rs:26-34 | a tick is found exactly when its latest insertion was followed by none on its slot for another tick, and then it is the latest |
| History.ConsecutiveTicksAreKept | crates/protocol/src/history.rs:26-34 | with consecutive ticks the last `capacity` records are all retrievable |
| Bitwise.MaskIsModulo | crates/protocol/src/history.rs:23-27 | masking with a power of two less one is the remainder |
| Interpolation.Interpolator.PushSnapshot | crates/transport/src/interpolator.rs:23-33 | the buffer is the last max(1, size) strict running maxima of everything pushed |
| Interpolation.Interpolator.Interpolate | crates/transport/src/interpolator.rs:35-48 | a value exactly when the tick lies in [front, back), from the bracketing pair |
| Interpolation.RecordsAreRunningMaxima | crates/transport/src/interpolator.rs:25-27 | a pushed snapshot enters exactly when every earlier one had a smaller tick |
| Interpolation.BufferedExactly | crates/transport/src/interpolator.rs:29-32 | a record is still in the buffer if and only if at most max(1, size) records, itself included, came from it on |
| Interpolation.NewestIsBuffered | crates/transport/src/interpolator.rs:25-32 | the last snapshot in the buffer has the greatest tick ever pushed |
| Interpolation.BracketIsUnique | crates/transport/src/interpolator.rs:39-45 | the bracketing pair is unique |

## Left out

- Sockets, timers, logging and telemetry, and the reading of clocks: instants are parameters.
- The cipher and the compressor themselves: functions with laws. Tampering with a packet is not modelled.
- Making up the session key (crates/connection/src/manager.rs:34-37): the key is any value different from the bootstrap key.
- `f32` rounding: the estimator and the swarm gain are computed in `real`, the gain as exactly 1/20; `lerp` is a function parameter.
- The state hash: an arbitrary function parameter; equal states hash alike and nothing else is used.
- Overflow of the 32-bit positions and counters and of 64-bit ticks and nonces: unbounded here; the round trips ask for nonces below 2^64, and a whole turn of the server for a world with room to move.
- Big-endian hosts.
- Packet numbers 2^15 or more apart: sixteen bits cannot tell them apart, so runs in which they meet are excluded by the guards of `ReceiveWindow` and `AckProtocol`.
- A debug build's stop at the shift by 32.
- Empty unreliable sends: the source stops the program when it takes the type byte; flushing requires that there are none.
- Snapshots shorter than 37 bytes: the client's slicing stops the program; `ParseSnapshot` says `OutOfBounds` there.
- Exactly-once delivery at `handle_packet`: not a property of the code, which ignores the answer of the window.
- Uniqueness of a nonce across reliable and unreliable packets: not a property of the code, since reliable packets use the sequence as nonce.
- Handshake and HandshakeLoss: the client has opened its own connection first, application data is not shaped as a handshake, and there is no disconnect or eviction within a run.
- Conservation and Refinement: a disconnect ends the run, and unreliable frames, which leave the reliability state alone, are not kept in the network of `Refinement`. A whole connection with the aligned decoder is not modelled; what it would guarantee is proved of `AckProtocol`.
- `set_pipeline` and `NullPipeline`.
- `last_ack_flush_time` and `stats_ack_only_sent`, which nothing uses.
- The smoothed round trip that the client prints.
- The swarm client beyond its controller: its world, history and packet handling.
- ThreadPool: step system over values rather than an object, because its threads interleave inside its methods. It also allows pushes while the stopping call is in progress, which Rust's borrowing rules out; `ExclusiveStopExactly` adds that rule. That `stop` returns is not claimed, since paused workers wait for ever.
- Connection.Connection.Update: the callback that sends is modelled as the sequence of packets handed to it.
- Client.NoFurtherRollback: speaks of a server that always moves, since the client predicts a moving input for every tick; `ServerTrace.FedForwardMovesExactly` says from when on a server sent such inputs does.
- ServerRun.RunLoop: for as many turns as the first position can move through in an i32 at 10 mm a turn, about 200 million.
- ServerPeers.ConnectedExactly: instants do not run backwards, and the same number of turns.
- InputPath.InputMovesWorld: the same number of turns, and inputs sent unreliably, as the client sends them once it has synchronised.
- ClientTiming.MeasuresFirstSendingExactly: instants are whole milliseconds that do not run backwards, and no two passes of the client's loop fall on one.
