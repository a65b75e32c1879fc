# SRLTCP core: a verified model

This project models the protocol core of SRLTCP, a peer-to-peer messenger whose Rust core speaks
over iroh connections and over serial lines, and proves what its protocols keep.

## What is modelled

**The serial link** (`core/src/serial/`), layer by layer. `Cobs`, `Crc`, `LinkFrames` and
`FrameCodec` are the frame codec; `ByteStream` and `SerialLink` cut an incoming byte stream into
frames however the bytes arrive; `Reliability` is the sliding-window layer with its 16-bit
wrap-around sequence numbers, as pure functions on a `State` and as a class with the fields and loops
of the implementation; `Reordering` says what a receiver delivers in whatever order frames come,
`Timeouts` when a frame is sent again and `Numbering` which numbers frames carry; `ArqProtocol` joins
two such layers by FIFO channels that may lose any frame; `Messages` and `LinkProtocol` carry whole messages over them, `LinkProgress` shows that they can always
get through, and `ByteLink` joins two whole link tasks by lines of bytes, read in pieces and overlaid
with noise.

**The handshake** (`core/src/crypto/`, `core/src/p2p/engine.rs`). `KeyExchange`, `Sas` and
`PeerCryptos` hold the hybrid key exchange, the transcript, the short authentication string and the
trust state of a peer; `Sessions` the engine's handlers; `Authentication` whose signatures a shown string
rests on, for frames from anyone; `HandshakeProtocol`, `HandshakeTheorems` and
`HandshakeLimits` two honest peers that may both start at once, over channels that lose and reorder
frames. The cryptographic primitives are arbitrary functions: only their lengths, the commutativity
of Diffie-Hellman, the correctness of the KEM and that a signature verifies under its own key are
assumed, as a hypothesis of each theorem. `TrustGate` holds back messages until the user confirms;
`GateOrder` says when they come out in order, `GateSessions` under which handshake they were decrypted,
and `PeerGates` has the engine's critical sections as methods.

**File transfer** (`core/src/transfer/chunked.rs`). `Chunks` is the arithmetic of chunks,
`ChunkSending` and `ChunkReceiving` the two sides, `TransferProtocol` the engine's handlers and the
transfer over a channel that loses, repeats and reorders everything, `ChunkTimes` when a chunk is sent
again, and `AnySender` what a receiver keeps whatever it is sent.

**Connections and QR codes.** `Connections` and `DialGlare` are the registry of connections and the
resolution of simultaneous dialing; `Base64`, `Utf8` and `QrPayload` the QR payloads.

Time is a parameter of every operation that reads the clock. Random values are parameters too.
Each critical section of the engine is one atomic step.

## Where the code and its documentation differ

The model follows the code in each case.

- `docs/SERIAL_PROTOCOL.md:24` allows control frames 16 bytes on the wire. A NACK takes 17
  (`FrameCodec.ControlFrameSizes`).
- `docs/SERIAL_PROTOCOL.md:97` says that after 12 retries the link is declared lost. The poll that
  spends the last retry by a timeout also removes the frame, so timeouts alone never fail the link:
  the frame vanishes silently (`Retries.TimeoutsNeverFail`, `Retries.FrameDroppedSilently`). The link
  fails at the next poll if and only if a NACK, or a third duplicate ACK, has charged a frame's last
  attempt in between (`Retries.NextPollFailsIff`, `Retries.FailsOnlyAfterSpending`). The delivery
  theorems therefore hold up to the first removal.
- `docs/SERIAL_PROTOCOL.md:77` has every data frame carry a cumulative ACK. A retransmitted frame
  carries the ACK of its first sending, and ACK number 0 on a data frame is ignored. An ACK is exact
  if and only if the sender is at most 2^15 + 1 frames past it (`ArqProtocol.AckRemovesExactlyIff`);
  with traffic in both directions this is a hypothesis (`ArqProtocol.FreshLeft`), in one direction it
  is proved.
- `core/src/serial/transport.rs:47-48` wants the timeout to cover a full window. It does for every window
  if and only if the rate is at least 1200 baud (`LinkTiming.RtoCoversWindowsIff`).
- Windows must stay below 2^15 frames: at 2^15 a full acknowledgement leaves the oldest frame in
  flight (`ArqProtocol.FullAckRemovesAllIff`).
- The comment at `core/src/p2p/engine.rs:1960-1961` says that of two simultaneous attempts the one of
  the smaller identity goes on. This holds while frames stay in order and the smaller side does not
  give up; without either condition both sides can end as responders that wait for each other
  (`HandshakeLimits.GivingUpMakesTwoResponders`, `HandshakeLimits.OvertakingMakesTwoResponders`).
- A step 2 is not tied to the step 1 it answers. A side that starts again takes the answer to its first
  attempt, the other side takes the end, and they hold the same transcript, secret and string if and
  only if the answer is to the step 1 now held (`HandshakeLimits.AnswerAgreesIff`,
  `HandshakeLimits.StartingAgainBreaksAgreement`). Otherwise the transcripts, from which the compared
  strings are computed, differ.
- The comment at `core/src/p2p/engine.rs:2111` says that the release delivers what arrived before the
  confirmation. Setting trust and taking the queue are separate critical sections, and so are
  decrypting and holding, so a message can overtake held ones (`GateOrder.ReleaseOvertaken`) or be left
  behind (`GateOrder.HeldAfterRelease`). An automatic confirmation on the responder's side
  (`core/src/p2p/engine.rs:2035-2041`) does not release at all (`GateOrder.AutoTrustOvertakes`).
  `GateOrder.StepKeepsOrderIff` says exactly which step breaks the order.
- Held messages survive a new handshake under the same peer id and are released by its confirmation,
  although theirs was never confirmed (`GateSessions.HeldSurvivesHandshake`,
  `GateSessions.StaleReleaseHandles`); `GateSessions.StepKeepsConfirmedIff` says exactly when.
- An offer repeated between the last chunk and the listing of the file as completed
  (`core/src/p2p/engine.rs:2310` and `:2371`) is taken for a new one and empties the part file that is
  about to be hashed (`TransferProtocol.GapOfferRun`, `TransferProtocol.GapOfferSpoilsIff`).
- A read error in the middle of a batch leaves new chunks counted as sent that never were
  (`ChunkSending.ReadErrorForgetsIff`).
- The comment at `core/src/network/iroh_transport.rs:162-164` promises convergence. It holds per peer
  id; after a `rekey` the second connection meets the first one if and only if the id is the same
  (`DialGlare.TieBreakSeesMovedIff`).

## Model

| member | source | states |
|---|---|---|
| SeqRing.RingOrder | core/src/serial/reliability.rs:286-292 | the wrap-around comparison agrees with the order of the unbounded counters if and only if they are less than half the ring apart |
| Reliability.ReliabilityLayer.constructor | core/src/serial/reliability.rs:61-85 | a new layer has empty tables, counters at zero, and the given timeout and window |
| Reliability.ReliabilityLayer.PrepareSend | core/src/serial/reliability.rs:88-110 | a frame is handed out exactly when the window has room and the payload fits; it carries the next number and the current ACK and is filed as in flight; otherwise nothing changes |
| Reliability.ReliabilityLayer.CountDuplicate | core/src/serial/reliability.rs:200-217 | the third repetition of an ACK makes the numerically smallest frame in flight due and costs it an attempt; another ACK resets the count |
| Reliability.ReliabilityLayer.RemoveAcked | core/src/serial/reliability.rs:219-229 | exactly the frames the ring order puts before the ACK leave the table |
| Reliability.ReliabilityLayer.ReceiveAck | core/src/serial/reliability.rs:200-230 | an ACK is counted and then removes the frames before it |
| Reliability.ReliabilityLayer.MinInflight | core/src/serial/reliability.rs:205 | the frame picked for fast retransmission is the numeric minimum, not the oldest on the ring |
| Reliability.ReliabilityLayer.ReceiveNack | core/src/serial/reliability.rs:232-238 | a NACK makes just the frame it names due at once and costs it an attempt |
| Reliability.ReliabilityLayer.DrainBuffer | core/src/serial/reliability.rs:152-156 | after the awaited frame, the buffered frames that follow without a gap are delivered in order, and the loop ends |
| Reliability.ReliabilityLayer.ReceiveSequenced | core/src/serial/reliability.rs:147-176 | in-order frames are delivered, frames ahead are buffered up to the cap and answered by a NACK, old ones dropped |
| Reliability.ReliabilityLayer.Receive | core/src/serial/reliability.rs:134-198 | state, responses and deliveries of any inbound frame |
| Reliability.ReliabilityLayer.PollRetransmits | core/src/serial/reliability.rs:241-264 | overdue frames with attempts left are resent and those out of attempts leave the table, whatever order the table is walked in |
| ReceiverRing.AnyFramesKeepRing | core/src/serial/reliability.rs:147-193 | whatever frames any peer sends: the receive counter is the number of payloads delivered mod 2^16, at most 64 frames are buffered, each 1 to 2^15 - 1 ahead of it |
| ReceiverRing.DrainRing | core/src/serial/reliability.rs:152-156 | draining moves the counter by exactly the number delivered and keeps the rest of the buffer ahead of it |
| Reordering.DeliversGaplessPrefix | core/src/serial/reliability.rs:147-176 | over any run of frames of any kind in which no sequenced one is more than 64 ahead of the awaited one or half the ring late: exactly the payloads up to the first number that has not come are delivered, in order, each as it came first |
| Reordering.AnyOrderDelivers | core/src/serial/reliability.rs:147-176 | up to 65 payloads from the awaited number on, in whatever order their frames come and come again: once all are there exactly the payloads have been delivered, in order |
| Reordering.KeptIff | core/src/serial/reliability.rs:157-164 | a frame up to half the ring ahead is lost exactly if 64 others are held; what is held is never overwritten |
| Numbering.NextFrameNumbers | core/src/serial/reliability.rs:88-198 | after any run of payloads, receipts and polls the next frame carries the number of payloads accepted and, as its ACK, the number delivered, mod 2^16 |
| Numbering.AnswersNameCounts | core/src/serial/reliability.rs:147-193 | every data, chunk, control or final frame is answered by an ACK with the number delivered by then, one that is ahead first by a NACK that names the awaited number; ACKs and NACKs are not answered |
| Retries.ResendsBounded | core/src/serial/reliability.rs:88-264 | over any run of payloads accepted, frames received and polls, a frame is resent at most as often as it has attempts left, until its number is handed out again |
| Retries.NewFrameResendsBounded | core/src/serial/reliability.rs:88-264 | a frame just accepted is resent at most 12 times until its number is handed out again, whatever else is accepted, received and polled meanwhile |
| Timeouts.ResentIff | core/src/serial/reliability.rs:88-264 | over any run since a payload was accepted: while its frame is in the table, a poll sends it again exactly if the timeout has passed since it was last sent, or the peer has asked for it since, and it has cost fewer than 12 attempts |
| Timeouts.PollsApart | core/src/serial/reliability.rs:241-258 | of two polls less than the timeout apart, whatever happens in between, at most one sends a frame again for which nobody asks |
| Timeouts.EveryThirdRepetition | core/src/serial/reliability.rs:200-217 | while an ACK is repeated the smallest frame it leaves in flight is charged by every third repetition, and no other is |
| Timeouts.RepetitionsCount | core/src/serial/reliability.rs:200-230 | the first ACK of a number starts the count anew |
| Retries.NackedFrameResentIff | core/src/serial/reliability.rs:232-258 | the poll after a NACK resends the frame it names exactly while it has an attempt to spare |
| Retries.DuplicateAcksResendIff | core/src/serial/reliability.rs:200-258 | the poll after a third duplicate ACK resends the numerically smallest frame, unless the ACK removes it or its attempts are spent |
| Retries.PollingEnds | core/src/serial/reliability.rs:241-264 | over any run all polls together resend no more frames than the table has attempts left plus 12 for each payload accepted on the way, so polling dries up |
| Retries.LeavesIff | core/src/serial/reliability.rs:219-229 | a frame leaves the table exactly on an ACK past it or by the poll that uses up its last attempt |
| Retries.TimeoutsNeverFail | core/src/serial/reliability.rs:245-261 | timeouts alone never set the failure flag |
| Retries.SpendsLastIff | core/src/serial/reliability.rs:200-238 | a received frame charges the last attempt of an entry exactly if it is a NACK that names one with a single attempt left, or a third duplicate ACK that leaves the numerically smallest entry, with a single attempt left, in the table |
| Retries.NextPollFailsIff | core/src/serial/reliability.rs:200-264 | exactly after such a frame the next poll fails a link whose entries all had attempts left |
| Retries.FailsOnlyAfterSpending | core/src/serial/reliability.rs:88-264 | over any run of payloads, receipts and polls without such a frame the link never fails |
| Retries.FrameDroppedSilently | core/src/serial/reliability.rs:245-268 | a lone frame never acknowledged is dropped after its last resend while the layer does not report failure |
| ArqProtocol.InflightIsRange | core/src/serial/reliability.rs:88-110 | the frames in flight are exactly those from the last ACK taken to the next number, so the window test counts unacknowledged frames |
| ArqProtocol.StepLeftKeepsInv | core/src/serial/reliability.rs:88-264 | every accepted payload, loss, arrival and poll keeps the invariant that ties both layers to unbounded counters; an arriving ACK is assumed at most 2^15 + 1 frames late |
| ArqProtocol.ExactlyOnceInOrder | core/src/serial/reliability.rs:88-230 | over every run on lossy FIFO channels, with windows below 2^15, no ACK arriving more than 2^15 + 1 frames late (FreshRun) and no frame dropped for its retries, each side delivers a prefix of what the other accepted: in order, once each, through any number of wraps |
| ArqProtocol.OneWayExactlyOnceInOrder | core/src/serial/reliability.rs:88-230 | with payloads in one direction the same holds without any assumption on the age of ACKs |
| ArqProtocol.AckRemovesExactlyIff | core/src/serial/reliability.rs:219-229 | an ACK leaves exactly the frames it does not cover if and only if the sender is at most 2^15 + 1 frames past it |
| ArqProtocol.FullAckRemovesAllIff | core/src/serial/reliability.rs:286-292 | acknowledging a full window removes all of it if and only if the window is below 2^15 |
| ArqProtocol.AwaitedFrameAlwaysInFlight | core/src/serial/reliability.rs:147-174 | in every state reached by a run with fresh ACKs (FreshRun) and nothing dropped, while the receiver is behind, the very frame it waits for and names in a NACK is in flight |
| ArqProtocol.AwaitedFrameAdvances | core/src/serial/reliability.rs:147-156 | the arrival of that frame delivers at least one payload |
| ArqProtocol.LinkNeverStuck | core/src/serial/reliability.rs:219-258 | from every state reached by a run with fresh ACKs (FreshRun) and nothing dropped, in which the frames in flight have two attempts left, some continuation makes a receiver that is behind deliver more |
| ArqProgress.Settle | core/src/serial/reliability.rs:88-264 | from every such state in which the ACKs in flight are fresh too, some continuation without new payloads delivers and acknowledges everything accepted and leaves both channels empty |
| Cobs.RoundTrip | core/src/serial/frame.rs:123-155 | unstuffing undoes stuffing for all bytes |
| Cobs.EncodeInPlace | core/src/serial/frame.rs:123-130 | the one-pass encoder with its reserved length byte computes the block-wise encoding |
| Cobs.KnownEncodings | core/src/serial/frame.rs:123-130 | the published examples of the encoding |
| LinkFrames.ParsesRaw | core/src/serial/frame.rs:132-190 | every raw frame parses to the fields it was built from; unknown flag bytes read as data |
| LinkFrames.OnlyRawParses | core/src/serial/frame.rs:157-190 | nothing else parses: accepted bytes are the raw frame of their fields |
| LinkFrames.RawLayout | docs/SERIAL_PROTOCOL.md:30-42 | the raw frame has the documented layout: magic, flag, three numbers and the checksum, each with the highest byte first |
| Crc.CheckValue | core/src/serial/frame.rs:193-197 | the checksum of the digits 1 to 9 is the published check value of CRC-32 |
| FrameCodec.Encode | core/src/serial/frame.rs:123-147 | the method computes the encoding the lemmas are about |
| FrameCodec.RoundTrip | core/src/serial/frame.rs:123-190 | decoding an encoding without its delimiter gives the frame back, for payloads up to 4096 bytes |
| FrameCodec.WireShape | core/src/serial/frame.rs:123-130 | the only zero byte is the delimiter, the overhead is at most one byte in 254 plus two, and no frame exceeds 4127 bytes |
| FrameCodec.ControlFrameSizes | docs/SERIAL_PROTOCOL.md:24 | an ACK takes 15 bytes on the wire and a NACK 17 |
| LinkTiming.RtoCoversWindow | core/src/serial/transport.rs:47-53 | from 1200 baud up the effective timeout covers the sending of a full window of largest frames |
| LinkTiming.RtoCoversWindowsIff | core/src/serial/transport.rs:47-53 | the timeout covers every window if and only if the rate is at least 1200 baud, below which it is clamped |
| LinkTiming.RtoTight | core/src/serial/transport.rs:47-53 | the timeout is never below the configured one, and past that at most 200 ms more than the window takes at the clamped rate |
| ByteStream.SplitIndependent | core/src/serial/transport.rs:325-345 | on a stream without over-long stretches the garbage rule never fires and the way the bytes are split into calls makes no difference |
| ByteStream.FramesComeOut | core/src/serial/transport.rs:325-345 | however the encodings of some frames are split, exactly these frames come out, in order, and nothing is left over |
| ByteStream.FramesComeOutAfterGarbage | core/src/serial/transport.rs:342-345 | after any garbage that ends in a delimiter all following frames still come out |
| ByteStream.KeptWithoutDelimiterIff | core/src/serial/transport.rs:325-330 | bytes without a delimiter are kept exactly up to four frames of the largest size |
| SerialLink.SerialReader.ExtractFrame | core/src/serial/transport.rs:375-386 | the next non-empty segment, skipping empty ones, or none when no delimiter has come |
| SerialLink.SerialReader.Receive | core/src/serial/transport.rs:325-345 | every complete frame in the buffer is fed to the reliability layer in order, undecodable ones are dropped |
| SerialLink.SerialReader.Feed | core/src/serial/transport.rs:325-352 | deliveries and responses of the frames received, then the retransmissions due |
| SerialLink.LinkTask.Pump | core/src/serial/transport.rs:254-264 | pending fragments are sent in order as far as the window allows, the others stay pending |
| SerialLink.LinkTask.OnRaw | core/src/serial/transport.rs:267-289 | responses precede retransmissions, and the delivered payloads are joined to messages |
| SerialLink.LinkTask.JoinPayloads | core/src/serial/transport.rs:274-289 | delivered payloads extend the partial message, empty ones are skipped and over-long messages dropped |
| SerialLink.LinkTask.OnOutbound | core/src/serial/transport.rs:290-293 | a message is taken exactly while fewer than four windows of fragments are pending |
| SerialLink.LinkTask.OnTick | core/src/serial/transport.rs:294-303 | a tick resends what is due and reports the link lost exactly when the layer has failed |
| Messages.FragmentsJoin | core/src/serial/transport.rs:219-238 | the fragments of a message join to the message again |
| Messages.PrefixJoins | core/src/serial/transport.rs:272-289 | any prefix of the fragments of some messages joins to a prefix of the messages |
| Messages.FragmentsAre | core/src/serial/transport.rs:219-238 | a message is cut into stretches of 4095 bytes, at least one, each led by a one and the last by a zero |
| Messages.NothingOverLimit | core/src/serial/transport.rs:274-289 | whatever payloads arrive, no message emitted and no partial one exceeds 32 MiB |
| Messages.OverlongForgotten | core/src/serial/transport.rs:276-280 | a payload that would pass the limit drops the message so far, and what follows counts as a new message |
| LinkProtocol.MessagesArriveInOrder | core/src/serial/transport.rs:240-306 | over every run on lossy channels, with fresh ACKs (FreshRun) and no frame dropped for its retries, each end emits exactly a prefix of the messages the other one queued |
| LinkProtocol.OneWayMessagesArriveInOrder | core/src/serial/transport.rs:240-306 | with messages in one direction no assumption on the age of ACKs is needed |
| LinkProtocol.EmittedIsPrefix | core/src/serial/transport.rs:272-289 | once every fragment has been accepted and delivered, all messages have been emitted |
| LinkProgress.CanEmitAll | core/src/serial/transport.rs:240-306 | from every state that keeps the invariant, with nothing dropped, attempts left and fresh ACKs in flight, all that is queued can be emitted |
| LinkProgress.MessagesNeverStuck | core/src/serial/transport.rs:240-306 | from every state reached by a run with fresh ACKs (FreshRun) and nothing dropped, with attempts left and fresh ACKs in flight, some continuation emits every message queued |
| LinkProgress.OneWayMessagesNeverStuck | core/src/serial/transport.rs:240-306 | with messages in one direction no assumption on the age of ACKs is needed |
| ByteLink.WrittenAppends | core/src/serial/frame.rs:123-130 | writing frames behind whatever is on its way, noise included, adds exactly these frames to what will be decoded |
| ByteLink.ReadSplits | core/src/serial/transport.rs:325-345 | reading any number of bytes decodes the frames they complete and leaves the others on the line |
| ByteLink.BytesCarryMessages | core/src/serial/transport.rs:240-352 | two link tasks joined by lines of bytes: however the bytes are cut into reads, and whatever is changed on the line so that no frame comes out that was not on its way, one direction emits exactly a prefix of the messages queued |
| ByteLink.BytesRefineFrames | core/src/serial/transport.rs:240-352 | with messages both ways, every run of the two tasks on bytes is a run of the message protocol on frames |
| KeyExchange.HybridKeyExchange.ResponderAccept | core/src/crypto/handshake.rs:81-113 | the responder's answer and secret; the X25519 secret is consumed even when the KEM key is bad |
| KeyExchange.HybridKeyExchange.InitiatorFinish | core/src/crypto/handshake.rs:120-150 | the initiator's secret, with every error path and what it consumes |
| KeyExchange.HybridKeyExchange.TakeSharedSecret | core/src/crypto/handshake.rs:167-169 | the secret is handed out once |
| KeyExchange.SecretsAgree | core/src/crypto/handshake.rs:81-150 | both sides of an exchange end with the secret derived from the Diffie-Hellman secret followed by the encapsulated one, whatever trails the answer, and the answer is the public key followed by the ciphertext |
| KeyExchange.SecretsAreOneShot | core/src/crypto/handshake.rs:81-150 | every message that is long enough uses the X25519 secret up, a bad one too, and without it no step produces a shared secret; a short one changes nothing |
| Transcripts.HandshakeTranscript.AppendBody | core/src/crypto/wire.rs:81-93 | a body is appended after its length only in step order, and an error changes nothing |
| Transcripts.TranscriptInjective | core/src/crypto/wire.rs:81-93 | with bodies below 2^32 bytes, equal transcripts have equal bodies |
| Bytes.BigEndianSpells | core/src/crypto/wire.rs:89 | the length before a body has its highest byte first and is cut to 32 bits |
| Transcripts.TranscriptAmbiguousPastLimit | core/src/crypto/wire.rs:89 | at 2^32 bytes the length is cut and two different lists of bodies have the same transcript |
| Sas.HashInputsEqualIff | core/src/crypto/identity.rs:289-306 | two sides hash the same bytes exactly when they agree on the pair of identities, the secret and all bodies |
| Sas.SasSymmetric | core/src/crypto/identity.rs:296-303 | swapping the local and the remote key changes nothing |
| Bytes.LessIff | core/src/crypto/identity.rs:297 | keys are ordered by their first difference |
| Sas.DigitsSpell | core/src/crypto/identity.rs:308-310 | the digits shown are the number, zero-padded |
| Sas.SasSpells | core/src/crypto/identity.rs:289-311 | the string has six digits that spell the first three bytes, mod 10^6, of the hash of the smaller key, the larger one, the secret and the transcript |
| Sas.SameStringIff | core/src/crypto/identity.rs:305-311 | two sides show the same string exactly if these numbers of their hashes are equal |
| PeerCryptos.PeerCrypto.ConfirmTrusted | core/src/crypto/peer_crypto.rs:57-66 | confirmation succeeds from a shown string or from trust, and fails otherwise |
| PeerCryptos.PeerCrypto.BeginInitiator | core/src/crypto/peer_crypto.rs:97-102 | starting drops any trust and draws fresh secrets whose message is the first body |
| PeerCryptos.PeerCrypto.InitiatorProcessStep2 | core/src/crypto/peer_crypto.rs:110-142 | the initiator's state after a step 2, with what each error leaves behind |
| PeerCryptos.PeerCrypto.InitiatorFinalizeStep3 | core/src/crypto/peer_crypto.rs:145-152 | the initiator's string after its third step, or the error and what it leaves behind |
| PeerCryptos.PeerCrypto.ResponderProcessStep1 | core/src/crypto/peer_crypto.rs:155-187 | the responder's state and answer after a step 1, with what each error leaves behind |
| PeerCryptos.PeerCrypto.ResponderProcessStep3 | core/src/crypto/peer_crypto.rs:190-227 | the responder's state after a step 3 |
| PeerCryptos.PeerCrypto.DecryptOpened | core/src/crypto/peer_crypto.rs:248-259 | decryption is refused before the handshake is complete, and a first message opens the responder's sending side |
| TrustFacts.VerifiedIsComplete | core/src/crypto/peer_crypto.rs:97-259 | whatever is called in whatever order, a peer awaits confirmation or is trusted only with a complete transcript, a secret and a ratchet |
| TrustFacts.TrustChanges | core/src/crypto/peer_crypto.rs:57-227 | trust is gained exactly by confirming a shown string and lost exactly when a handshake starts |
| TrustFacts.TrustedWasConfirmed | core/src/crypto/peer_crypto.rs:57-66 | every way to a trusted state has a confirmation of a shown string after which no handshake starts |
| TrustFacts.ShownFitsUnlessLateStep2 | core/src/crypto/peer_crypto.rs:211-227 | the string shown belongs to the secret, identities and transcript held, through every call but a step 2 that comes when the handshake is over |
| TrustFacts.LateStep2ChangesIdentity | core/src/crypto/peer_crypto.rs:123-124 | such a step 2 fails and yet leaves its own sender as remote identity |
| TrustFacts.EncryptGate | core/src/crypto/peer_crypto.rs:229-246 | encryption passes exactly for a trusted peer whose ratchet may send, and the responder's may after its first message opened |
| TrustFacts.DecryptGate | core/src/crypto/peer_crypto.rs:248-259 | nothing is decrypted before a string is shown; then every message that opens is handed on and only the readiness to send changes |
| Authentication.Step2AcceptedIff | core/src/crypto/peer_crypto.rs:110-142 | the initiator accepts exactly a well-formed step 2 with a signature of the expected identity over it, once, after its own step 1; a frame of anyone else changes nothing |
| Authentication.Step1AcceptedIff | core/src/crypto/peer_crypto.rs:155-187 | the responder accepts exactly a signed step 1 with a good KEM key in a fresh state, and is bound to its signer |
| Authentication.Step3AcceptedIff | core/src/crypto/peer_crypto.rs:190-227 | the responder finishes exactly on a step 3 signed by the signer of its step 1; a frame of anyone else changes nothing |
| Authentication.InitiatorShowsExpected | core/src/crypto/peer_crypto.rs:97-152 | over every sequence of calls of an initiator, whatever the frames, a string is shown or a peer trusted only with the expected identity, which has signed a step 2 |
| Authentication.ResponderShowsSigner | core/src/crypto/peer_crypto.rs:155-227 | over every sequence of calls of a responder, only with an identity that has signed both a step 1 and a step 3 |
| Sessions.PeerSession.BeginHandshake | core/src/p2p/engine.rs:1293-1315 | starting replaces the session's state, unless the peer's handshake is under way |
| Sessions.PeerSession.HandleInit | core/src/p2p/engine.rs:1943-1982 | duplicate, wrong peer, glare won, glare lost and plain answer, as the handler decides |
| Sessions.PeerSession.AnswerInit | core/src/p2p/engine.rs:1964-1980 | becoming responder replaces the key material and remembers the step answered, or fails without a role |
| Sessions.PeerSession.ContinueWithStep2 | core/src/p2p/engine.rs:1339-1367 | the initiator finishes or is reset |
| Sessions.PeerSession.HandleFinish | core/src/p2p/engine.rs:2004-2022 | the responder finishes or is reset |
| Sessions.PeerSession.AbortInitiator | core/src/p2p/engine.rs:1275-1285 | giving up resets the session only of an initiator |
| SessionAuthentication.AnsweredIff | core/src/p2p/engine.rs:1935-1982 | a step 1 is answered exactly if it is well signed and well formed, not the one answered last, not of another identity under a known peer id, and not the loser against an own attempt |
| SessionAuthentication.UnansweredStep1 | core/src/p2p/engine.rs:1935-1982 | every other one leaves the session alone, and a repetition is answered as before while the responder waits |
| SessionAuthentication.AnsweredUnverified | core/src/p2p/engine.rs:1964-1980 | taking up a step 1, with success or not, ends any trust and any attempt of our own |
| SessionAuthentication.GivenUpAnswersAnyone | core/src/p2p/engine.rs:1275-1285 | after giving up any good step 1 but the one answered last is answered, whoever had been expected; only an initiator gives up |
| SessionAuthentication.FinishedIff | core/src/p2p/engine.rs:1339-1367 | an initiator's session finishes exactly on the expected identity's answer and is reset by anything else |
| SessionAuthentication.ConcludedIff | core/src/p2p/engine.rs:2004-2022 | a responder's session finishes exactly on a step 3 of the signer of its step 1 and is reset by anything else |
| SessionAuthentication.ShownPeerTookPart | core/src/p2p/engine.rs:1287-2053 | over every sequence of starts, frames from anyone, confirmations and givings up, a session shows a string or is trusted only with an identity that has signed a step 2 while expected, or both a step 1 and a step 3 |
| HandshakeProtocol.InitiatorEnds | core/src/crypto/peer_crypto.rs:110-152 | the initiator accepts the answer to its step 1 and ends with the outcome of this exchange |
| HandshakeProtocol.ResponderEnds | core/src/crypto/peer_crypto.rs:190-227 | the responder accepts the end of the exchange and has the same transcript, secret and string |
| HandshakeProtocol.OwnProceed | core/src/p2p/engine.rs:1339-1374 | in a single attempt the step 2 an initiator goes on with is the peer's answer to this attempt, and the step succeeds |
| HandshakeProtocol.PeerDuplicate | core/src/p2p/engine.rs:1949-1954 | a first step sent again gets the same answer and changes nothing |
| HandshakeProtocol.StepLeftKeepsGood | core/src/p2p/engine.rs:1287-2053 | every start, resend, arrival, loss and giving up keeps the invariant of both directions |
| HandshakeTheorems.HandshakeAgreement | core/src/p2p/engine.rs:1932-2053 | with at most one attempt each, whatever is lost, overtaken or sent again and whoever gives up, a responder finishes only with the transcript, secret and string the initiator finished with |
| HandshakeTheorems.ResponderWillAgree | core/src/p2p/engine.rs:2003-2022 | when the initiator has finished, the responder either has too or waits, and the last step makes it hold the same |
| HandshakeTheorems.NeverBothResponders | core/src/p2p/engine.rs:1957-1974 | with frames in order, one attempt each, and the side with the smaller key not giving up, two peers with different keys are never both responders |
| HandshakeLimits.GivingUpMakesTwoResponders | core/src/p2p/engine.rs:1275-1285 | with the smaller side giving up they can be, although all frames arrive in order |
| HandshakeLimits.OvertakingMakesTwoResponders | core/src/p2p/engine.rs:1957-1974 | with frames out of order they can be, although nobody gives up |
| HandshakeLimits.AnswerAgreesIff | core/src/crypto/peer_crypto.rs:110-227 | whatever attempt is answered, an initiator that waits takes the answer and the other side the end, and both hold the same transcript, secret and string exactly when the answer is to the step 1 the initiator now holds |
| HandshakeLimits.StartingAgainBreaksAgreement | core/src/crypto/peer_crypto.rs:110-130 | a run of the whole protocol in which a side starts again and finishes on the answer to its first attempt: both finish, with different transcripts |
| TrustGate.HandledAtMostOnce | core/src/p2p/engine.rs:2055-2122 | however critical sections interleave, no message is handled twice, none is handled and still held, and at most 256 are held |
| TrustGate.SettleCensus | core/src/p2p/engine.rs:2098-2108 | a message is never lost between decryption and the queue except when the queue is full |
| TrustGate.NothingUnconfirmed | core/src/p2p/engine.rs:2098-2107 | without a confirmation nothing reaches the application |
| TrustGate.ArrivalOpens | core/src/p2p/engine.rs:2055-2097 | every frame that decrypts, a message or not, lets the answering side send from then on; what is not a message goes no further |
| GateOrder.StepKeepsOrderIff | core/src/p2p/engine.rs:2055-2122 | a critical section keeps everything in order of arrival exactly if it is taken in turn: a message is handled or held only when nothing older is on its way, held or being released |
| GateOrder.HandledInOrder | core/src/p2p/engine.rs:2055-2122 | in every run of critical sections taken in turn, messages are handled in order of arrival and never past a held one |
| GateOrder.ReleaseOvertaken | core/src/p2p/engine.rs:1402-1413 | a message that arrives between the confirmation and the release is handled before the held one |
| GateOrder.HeldAfterRelease | core/src/p2p/engine.rs:2056-2107 | a message decrypted before the confirmation and queued after the release stays held although the peer is trusted, and the next one is handled before it |
| GateOrder.AutoTrustOvertakes | core/src/p2p/engine.rs:2035-2041 | after an automatic confirmation the held messages stay and the next one overtakes them |
| GateSessions.StepKeepsConfirmedIff | core/src/p2p/engine.rs:1397-1404 | of all critical sections only a release can hand over a message of a handshake nobody confirmed, exactly if the queue holds one |
| GateSessions.HandledWereConfirmed | core/src/p2p/engine.rs:2055-2122 | in every run whose releases find no such message, each message handled was decrypted under a confirmed handshake |
| GateSessions.CleanStartsConfirm | core/src/p2p/engine.rs:1293-1315 | that is so in every run in which a handshake starts only when nothing is held, untrusted on its way or due for release |
| GateSessions.HeldSurvivesHandshake | core/src/p2p/engine.rs:2112-2122 | a message held under an unconfirmed handshake is released by the confirmation of the next one |
| GateSessions.StaleReleaseHandles | core/src/p2p/engine.rs:1402-1413 | and by the confirmation of the one before, when the handshake starts between that confirmation and its release |
| PeerGates.PeerGate.DecryptFrame | core/src/p2p/engine.rs:2056-2068 | a frame that decrypts to a message becomes a task with the trust found then; anything else goes no further |
| PeerGates.PeerGate.SettleFrame | core/src/p2p/engine.rs:2098-2108 | the task hands its message on, holds it behind the others, or drops it when 256 are held |
| PeerGates.PeerGate.ConfirmTrusted | core/src/p2p/engine.rs:1397-1404 | a successful confirmation sets trust and touches no message |
| PeerGates.PeerGate.TakeHeldInbound | core/src/p2p/engine.rs:2112-2116 | the queue is taken as a whole and left empty |
| PeerGates.PeerGate.HandleQueue | core/src/p2p/engine.rs:2117-2121 | a queue taken is handled in its order, to the end |
| Chunks.ChunkShape | core/src/transfer/chunked.rs:77-80 | chunks are non-empty, inside the file, all but the last full, and each begins where the one before ends; the length never underflows |
| Chunks.ChunksPartitionFile | core/src/transfer/chunked.rs:57-81 | for an accepted offer every byte of the file is in exactly one chunk and no chunk holds anything else |
| Chunks.SenderManifestValidIff | core/src/transfer/chunked.rs:164-174 | what a sender offers is accepted exactly when the file is within the limit and its chunk count fits 32 bits |
| Chunks.AcceptedIff | core/src/transfer/chunked.rs:57-75 | from anyone, exactly those offers are accepted that have chunks of 1 byte to 1 MiB, at most 64 GiB, just as many chunks as hold the file, and 64 hexadecimal digits for a hash |
| Chunks.SenderManifestIs | core/src/transfer/chunked.rs:158-185 | a sender's chunks have the size asked for, clamped to that range, and are as many as hold the file, mod 2^32 |
| ChunkSending.ChunkedSender.FromBytes | core/src/transfer/chunked.rs:158-185 | a new sender has sent and been acknowledged nothing and offers the manifest of its data |
| ChunkSending.ChunkedSender.CollectOverdue | core/src/transfer/chunked.rs:205-211 | exactly the overdue ids, in ascending order |
| ChunkSending.ChunkedSender.TakeFresh | core/src/transfer/chunked.rs:213-221 | the new ids in order, skipping those acknowledged before they were sent |
| ChunkSending.ChunkedSender.NextChunks | core/src/transfer/chunked.rs:203-229 | overdue chunks in ascending order, then new ones up to the window, each with its bytes of the source, all stamped with the time; at the first chunk that cannot be read the call fails and only those before it are stamped |
| ChunkSending.ChunkedSender.OnAck | core/src/transfer/chunked.rs:232-239 | the ids named are acknowledged if they exist, and leave the window |
| ChunkSending.ChunkedSender.IsComplete | core/src/transfer/chunked.rs:252-254 | counting acknowledged ids tells exactly whether every chunk is acknowledged |
| ChunkSending.SendKeepsAccounted | core/src/transfer/chunked.rs:203-229 | every id sent so far is in flight or acknowledged, never both |
| ChunkSending.ReadErrorForgetsIff | core/src/transfer/chunked.rs:203-229 | a call that fails on a read error breaks this exactly if it had new chunks to send, which are then never sent |
| ChunkSending.AckKeepsAccounted | core/src/transfer/chunked.rs:232-239 | so it stays under any acknowledgement, even of chunks never sent |
| ChunkSending.TakenIds | core/src/transfer/chunked.rs:212-221 | the new ids are exactly the unacknowledged ones passed over, in order, and fill the window as far as there are any |
| ChunkSending.WindowKept | core/src/transfer/chunked.rs:212-221 | a window once kept is kept |
| ChunkSending.NothingForgotten | core/src/transfer/chunked.rs:203-229 | with everything in flight overdue all of it is sent again, and while the transfer is incomplete something is sent |
| ChunkTimes.SentAgainIff | core/src/transfer/chunked.rs:203-239 | over any run of calls and acknowledgements: a chunk last sent at t and not acknowledged since is returned by the next call exactly if the resend time has passed since t; an acknowledged one never is, even if it was acknowledged before it was sent |
| ChunkTimes.CallsApart | core/src/transfer/chunked.rs:203-229 | a chunk one call returns is not returned by a second one sooner than its resend time, whatever happens in between |
| ChunkTimes.ProgressMarkedIff | core/src/transfer/chunked.rs:232-239 | an acknowledgement marks progress exactly if it names an existing chunk for the first time |
| ChunkReceiving.ChunkedReceiver.Create | core/src/transfer/chunked.rs:276-295 | an offer is accepted exactly when it is valid, with a file of the announced size |
| ChunkReceiving.ChunkedReceiver.ReceiveChunk | core/src/transfer/chunked.rs:298-310 | a chunk of the wrong id or length is refused, a known one ignored, a new one written at its place and nowhere else |
| ChunkReceiving.ChunkedReceiver.WriteAt | core/src/transfer/chunked.rs:305-307 | the bytes are written at the offset and nothing else in the file changes |
| ChunkReceiving.ChunkedReceiver.IsComplete | core/src/transfer/chunked.rs:320-322 | counting received ids tells exactly whether every chunk is there |
| ChunkReceiving.ChunkedReceiver.FinalizeFile | core/src/transfer/chunked.rs:325-344 | an incomplete file and one whose hash differs are refused, otherwise the file is the result |
| ChunkReceiving.ReceiveKeepsHolds | core/src/transfer/chunked.rs:298-310 | a chunk of the source leaves every byte of a received chunk equal to the source |
| ChunkReceiving.CompleteFileIsSource | core/src/transfer/chunked.rs:320-322 | once all chunks are there the file is the source |
| ChunkReceiving.TakenIff | core/src/transfer/chunked.rs:298-310 | from anyone, a chunk is taken exactly if its number exists and it has the length of its place; new ones are written there and nowhere else, and nothing else changes anything |
| ChunkReceiving.FinalizedIff | core/src/transfer/chunked.rs:325-344 | a file is handed over exactly if no chunk is missing and it has the hash offered |
| ChunkReceiving.LowerIs | core/src/transfer/chunked.rs:341 | the hash offered is compared without the case of its letters |
| IncomingFiles.IncomingFile.HandleOffer | core/src/p2p/engine.rs:2199-2256 | a valid offer opens and empties the part file, also one that comes between the last chunk and the listing as completed; an empty file is complete at once; an offer repeated at any other time is ignored |
| IncomingFiles.IncomingFile.HandleChunk | core/src/p2p/engine.rs:2280-2325 | a chunk is acknowledged when accepted, and again after completion; the last one completes the file |
| IncomingFiles.IncomingFile.FinishIncoming | core/src/p2p/engine.rs:2370-2386 | a complete file is hashed and listed as completed |
| TransferProtocol.TransferCorrect | core/src/transfer/chunked.rs:187-348 | under any loss, repetition and reordering, but for an offer that comes again between the last chunk and the listing as completed, a receiver that completes has exactly the source and never a checksum mismatch, and a complete sender of at least one chunk means a receiver that has everything |
| TransferProtocol.GapOfferSpoilsIff | core/src/p2p/engine.rs:2308-2371 | such an offer followed by the hashing ends in a checksum mismatch exactly if the hash tells the file from as many zeros |
| TransferProtocol.GapOfferRun | core/src/p2p/engine.rs:2199-2371 | for every file of one chunk there is a run from the start that ends so |
| TransferProtocol.TransferNeverStuck | core/src/p2p/engine.rs:2280-2324 | from every state reached without such an offer some continuation completes both sides, for every window and resend time |
| AnySender.HandedOverAsOffered | core/src/p2p/engine.rs:2199-2386 | whatever is offered and sent in whatever order, every file handed over comes from an acceptable offer, is as long as it says and has its hash |
| AnySender.OncePerOffer | core/src/p2p/engine.rs:2199-2386 | and no more files are handed over than offers came, since a part file moved into place is gone |
| AnySender.FinishFinalizes | core/src/transfer/chunked.rs:325-344 | while the part file is in place, finishing does what finalizing a full receiver does |
| Connections.IrohTransport.RegisterConnection | core/src/network/iroh_transport.rs:165-189 | register, replace or reject a connection, and what gets closed |
| Connections.IrohTransport.UnregisterCurrent | core/src/network/iroh_transport.rs:199-208 | only the connection that is still current is removed and closed |
| Connections.IrohTransport.RekeyConnection | core/src/network/iroh_transport.rs:221-231 | a connection moves to another peer id and closes a different one it finds there |
| Connections.NoConnectionForgotten | core/src/network/iroh_transport.rs:165-231 | a connection ever handed to the registry is still held or has been closed |
| Connections.OneOfTwoStays | core/src/network/iroh_transport.rs:165-189 | of two connections under one peer id exactly one stays and the other is closed; the first one only if it is alive, has the other direction, and the smaller endpoint dialed it |
| Connections.OneOpenPerPeer | core/src/network/iroh_transport.rs:165-208 | without moves a connection still open is held under the id it was registered with |
| Connections.ClosedForReason | core/src/network/iroh_transport.rs:165-231 | what an operation closes was seen closed, removed, replaced, moved upon or rejected |
| Connections.GoneOrMoved | core/src/network/iroh_transport.rs:191-231 | a removed id is free, one with another connection by now stays, and a moved connection is found under the new id only |
| DialGlare.GlareConverges | core/src/network/iroh_transport.rs:160-189 | in every order of registrations and of news of closing, the connection dialed by the smaller endpoint is never closed and both sides end up holding it |
| DialGlare.TieBreakSeesMovedIff | core/src/network/iroh_transport.rs:221-231 | after a connection has been moved, the second registration meets the tie-break, and closes one of the two, exactly if the move was to the same id |
| Base64.DecodesIff | core/src/crypto/identity.rs:191-195 | a text decodes without padding exactly to the bytes it is the encoding of |
| Base64.EncodedDecodes | core/src/crypto/identity.rs:182-196 | the three decoders tried in turn give an encoding back |
| Base64.DecodesAnyIff | core/src/crypto/identity.rs:182-196 | the three decoders in turn take exactly the URL-safe encoding with or without padding and the padded standard one |
| Base64.KnownEncodings | core/src/crypto/identity.rs:191-195 | the test vectors of section 10 of RFC 4648, and the symbols that tell the alphabets apart |
| Utf8.RoundTrip | core/src/crypto/identity.rs:229-253 | the UTF-8 bytes of a text decode to it |
| Utf8.OnlyEncodingDecodes | core/src/crypto/identity.rs:229-253 | no other bytes do |
| Utf8.KnownEncodings | core/src/crypto/identity.rs:229-253 | published encodings of characters of one to four bytes |
| QrPayload.PayloadWithTicket | core/src/crypto/identity.rs:125-137 | the method computes the version 4 payload |
| QrPayload.PayloadWithEndpoint | core/src/crypto/identity.rs:140-159 | the method computes the version 3 payload, or version 2 without a host |
| QrPayload.IdentityRoundTrip | core/src/crypto/identity.rs:207-218 | with white space inserted anywhere, an identity payload parses to its key |
| QrPayload.TicketRoundTripIff | core/src/crypto/identity.rs:125-258 | with white space inserted anywhere, a ticket payload parses to its key and ticket exactly when the ticket has at most 4096 bytes |
| QrPayload.EndpointRoundTrip | core/src/crypto/identity.rs:140-240 | with white space inserted anywhere, an endpoint payload with a host of at most 253 bytes parses to its key and endpoint |
| QrPayload.LongHostCut | core/src/crypto/identity.rs:140-159 | of a longer host the first 253 bytes go into the payload, with their length and the port |
| QrPayload.EndpointNamesHostAndPort | core/src/crypto/identity.rs:266-269 | the endpoint of a host without a colon splits back into that host and that port |
| QrPayload.DoublePortRepaired | core/src/crypto/identity.rs:271-281 | a host that carries its port twice is repaired |
| QrPayload.SinglePortKept | core/src/crypto/identity.rs:271-281 | a host that carries a port once is left alone |
| QrPayload.PortsRead | core/src/crypto/identity.rs:271-281 | what counts as a port: digits with at most one plus sign before them, up to 65535 |
| QrPayload.HostKeptIff | core/src/crypto/identity.rs:266-281 | a host is taken for an endpoint as it is exactly if it has a colon and does not carry its port twice |
| QrPayload.ParsesIff | core/src/crypto/identity.rs:182-258 | a text is accepted exactly if, without white space, it encodes a payload of one of the three layouts, and what it is parsed to; bytes after an endpoint or a ticket are ignored |
| QrPayload.WhiteSpaceIs | core/src/crypto/identity.rs:177-180 | white space is what Unicode lists under that name |

## Left out

- ArqProtocol.ExactlyOnceInOrder: says nothing after a frame has been dropped for its retries, since the code then goes on with a gap; with payloads in both directions it assumes that no ACK arrives more than 2^15 + 1 frames late.
- ArqProtocol.LinkNeverStuck: is about states with attempts left, since the code drops a frame that has none; so are ArqProgress.Settle and the theorems of LinkProgress.
- LinkProtocol.MessagesArriveInOrder: has the same two conditions as the protocol beneath it.
- ByteLink.BytesCarryMessages: leaves out noise that turns into a frame with a valid CRC, and stretches of noise without a delimiter longer than the reader's limit of four raw frames, and noise at the very end of what has been written that takes its last delimiter away.
- HandshakeTheorems.HandshakeAgreement: is about honest peers and one attempt per side; when a later attempt agrees is said by HandshakeLimits.AnswerAgreesIff.
- HandshakeTheorems.NeverBothResponders: needs frames in order and the smaller side not giving up; without either there is a run with two responders. It is about one attempt per side.
- LinkTiming.RtoCoversWindow: does not model the overflow of 64-bit milliseconds, which needs windows of more than 10^12 frames.
- TransferProtocol.TransferCorrect: excludes an offer repeated between the last chunk and the listing of the file as completed, where the code fails (GapOfferRun); TransferNeverStuck likewise.
- The 32-bit counters of retries and duplicate ACKs are unbounded numbers here; both stay small.
- The error-detecting strength of the CRC: a corrupted frame counts as lost.
- The internals of the `cobs`, `crc32fast` and `base64` libraries are their published algorithms here; whether trailing bits and padding are handled as the libraries document is taken from that documentation.
- Real cryptography, and the double ratchet beyond which side may send.
- Serialization of wire frames and messages (postcard, JSON); file paths and the renaming of finished files; stall detection, cancellation and progress reports.
- Threads, channels between tasks, opening of ports and connections, DNS and relays; sends that fail.
- `prepare_chunk_send` and `create_fin`, which the link task never calls.
- Teardown of sessions and the queue of messages waiting for a link.
- The desktop and Android front ends, call signaling, display names, compression and reconnect timing: no protocol state of their own.
