# Quad Cortex broker and relay: a verified model

This project models the native broker and the remote relay of the Quad Cortex tools and proves
what each is for. The broker owns the USB connection to the device; the relay carries remote calls
to brokers. Both are written as threads and tasks that update shared state in place, so most of the
model is state machines over explicit steps, proved over every run, next to classes whose methods
are shown to take exactly those steps.

| file | component |
|---|---|
| `Prelude.dfy` | options, results, bytes |
| `Wire.dfy` | the protobuf wire scanner, with 64-bit shift-and-or varints |
| `Framing.dfy` | the length-prefixed stream codec, and two writers sharing one output |
| `Credentials.dfy`, `Pairing.dfy` | the credential store, one-shot offers, the attempt limiter |
| `Relay.dfy` | the hub: callers, device links and timers as interleaved steps |
| `ReceiveQueue.dfy` | the bounded queue between the HID reader and the broker |
| `Messages.dfy` | message numbering, the latest-message index, the handshake that fills it |
| `Backup.dfy` | the backup loop and its assembler |
| `EventLog.dfy` | bounded logs, cursor reads, bounded subscribers |
| `Decoder.dfy` | the state decoder thread, its queue and the metadata thread |
| `Worker.dfy` | the broker worker as a state machine, its invariants and theorems |
| `WorkerLoop.dfy` | the broker worker as its loop over fields, proved to run that machine |
| `Broker.dfy` | worker, decoder and metadata thread together, around the decoder's queue |
| `Names.dfy`, `Translate.dfy` | the two argument translators and why they agree |
| `Schema.dfy` | the tool schemas the server publishes, against what it accepts |

How the parts hang together. `Worker` is a step function over the worker's whole state, with
history fields for what has been asked, answered, read and lost; its theorems hold of every
reachable state. `WorkerLoop.BrokerWorker` has the program's fields and its loops; `RunLoop`
ensures that what the loop did is a run of that machine. The worker's connection attempt runs
`Messages.FinishHello` and its backup command runs `Backup.CreateBackup`, so the numbering and the
index the worker starts from are the ones those loops produce. `Broker` runs the worker together
with the decoder and the metadata thread and proves that the decoder's queue holds exactly what the
worker sent, so that the theorems of both hold in every run of the three. `Relay.RelayHub.Drive` and
`ReceiveQueue.HidIo.Drive` take their classes through every run of their machines.

Where the code and its own comments part, the model follows the code:

- The reader thread says that an overflow lets the broker tear the session down
  (`services/device-broker/src/usb.rs:122-126`). The worker tolerates one read error
  (`services/device-broker/src/worker.rs:1048-1051`), so the first overflow does not
  (`Worker.LinkSurvivesOneReadError`).
- Dropping a report and raising the overflow flag are two steps, so a report from after the gap can
  be returned before the overflow is reported: exactly when the flag goes up behind a receiver
  waiting on an empty queue (`ReceiveQueue.PrefixUnlessExposed`, `ReceiveQueue.GapIsCrossed`).
- A failed backup throws away the other messages it read
  (`services/device-broker/src/worker.rs:917-936`), so the latest-message index can fall behind what
  has arrived: exactly until later messages of the same kinds make up for it
  (`Worker.IndexHoldsArrivalsIff`, `Worker.FailedBackupHidesMessage`, `Worker.NothingLostIff`).
- A backup attempted while disconnected leaves the phase at "syncing" with no connection, and a
  later soft reconnect is then acknowledged without effect (`Worker.SoftReconnectWorksIff`,
  `Worker.TrapIff`, `Worker.TrapExists`).
- A correlated reply can go to an earlier request of its type that was sent without an id, or with
  the same one, while the rightful request stays pending (`Worker.CorrelatedReplyIff`,
  `Worker.MisdeliveryHappens`).
- The raw log of a new session is not cut to its limit until a message is ingested
  (`services/device-broker/src/worker.rs:1001`; `Worker.LogIsTailIff`, `Worker.LogExceedsLimit`).
- The published tool schemas admit arguments the server refuses: blank text, C1 controls where text is to
  be visible, and integers that are not held as signed 64-bit integers, 1.0 for one
  (`Schemas.FitsIffConforms`, `Schemas.WholeFractionIsRefused`, `Schemas.BlankTextIsRefused`).
- The scanner compares field numbers modulo 2^32 (`Wire.OversizedNumberAliases`).
- The server forwards an explicit null of four of its nullable kinds and drops it for the other two;
  the relay drops every null (`Translate.TranslatorsEqualIff`, `Translate.UnchangedTempoToldApart`).
- Six rows of the relay's table ask for a second confirmation argument
  (`services/qc-relay/src/generated_actions.rs:180-210`, `services/qc-relay/src/generated_actions.rs:640-660`).
  The server takes any Boolean for it, so the relay refuses calls the server accepts
  (`Translate.RelayTakesIffAllSet`, `Translate.RelayRefusesDeclinedReset`).
- A relay caller has no deadline until its frame is queued, and a full queue holds it for as long as
  the link neither takes a frame nor goes (`services/qc-relay/src/relay.rs:194-206`;
  `Relay.BlockedCallerNeverTimesOut`).
- Raw messages are numbered afresh in every session (`services/device-broker/src/usb.rs:218`), so a
  raw cursor is good for one session only, while a decoded-state cursor survives resets
  (`EventLog.InterleavedReadsAreComplete`, `Decoder.TurnFeedsTheLog`).

Assumptions. Random secrets, tokens and UUIDs are fresh, and digests are injective. The monotonic
clock does not run back. Words are 64 bits wide. Atomic operations and lock-protected stretches are
single steps, interleaved in any order. Counters that saturate at 2^64 do not reach it. The decoder's
internals, the catalog parser and the backup chunk decoder are parameters.

## Model

| member | source | states |
|---|---|---|
| Wire.ReadVarint | packages/rust/qc-protocol/src/wire.rs:30-43 | reads exactly the varint at the offset: the base-128 value of its groups modulo 2^64, ten groups at most; otherwise an error, and never past the end |
| Wire.OneMoreByte | packages/rust/qc-protocol/src/wire.rs:37 | shifting a group left and or-ing it into a 64-bit word adds that group at its weight, modulo 2^64 |
| Wire.Skip | packages/rust/qc-protocol/src/wire.rs:45-61 | moves past the field of a wire type, or reports why it cannot |
| Wire.VarintField | packages/rust/qc-protocol/src/wire.rs:16-28 | the loop answers as the scan of the remaining payload does, and terminates |
| Wire.ScanFindsFirst | packages/rust/qc-protocol/src/wire.rs:16-28 | on the bytes of any list of well-formed fields, in any encoding, the first varint field with the wanted number is found; bytes inside other fields are never taken for one |
| Wire.ScanAnswersAreFields | packages/rust/qc-protocol/src/wire.rs:16-28 | conversely every answer is backed by a split of the payload into well-formed fields, and "none" means that all of it was fields |
| Wire.ScanSucceedsIff | packages/rust/qc-protocol/src/wire.rs:16-28 | the scan answers exactly when such a split exists |
| Wire.FoundValueIgnoresSuffix | packages/rust/qc-protocol/src/wire.rs:22-24 | a found value is unchanged by anything appended to the payload |
| Wire.WordRoundTrip | packages/rust/qc-protocol/src/wire.rs:30-43 | every 64-bit word survives minimal encoding and reading |
| Wire.ScanInvertsPrinter | packages/rust/qc-protocol/src/wire.rs:16-61 | the scan inverts a protobuf printer on every list of varint, fixed64, length-delimited and fixed32 fields |
| Wire.OversizedNumberAliases | packages/rust/qc-protocol/src/wire.rs:20-22 | a field numbered 2^32 + n is answered in place of field n |
| Framing.InputStream.Read | services/device-broker/src/rpc.rs:1442-1447 | one read returns any fragment of at least one byte, nothing only at the end of input, or fails |
| Framing.ReadExact | services/device-broker/src/rpc.rs:1453-1456 | fills the body however the input is fragmented, and fails only on a short or failing input |
| Framing.ReadRequest | services/device-broker/src/rpc.rs:1438-1460 | under every fragmentation the outcome is the frame at the head of the input: none only at a frame boundary, an error at an end inside a frame or at a length outside 1 to 16 MiB |
| Framing.WriteResponse | services/device-broker/src/rpc.rs:1462-1474 | appends one whole frame or refuses it whole |
| Framing.FrameLayout | services/device-broker/src/rpc.rs:1462-1474 | a written frame is four bytes of length, the highest first, and the body |
| Framing.FrameTold | services/device-broker/src/rpc.rs:1438-1460 | what any input begins with: nothing, a frame of 1 byte to 16 MiB, a broken header, a length out of bounds or a body cut short |
| Framing.FrameRoundTrip | services/device-broker/src/rpc.rs:1438-1474 | a written frame reads back exactly when its body is not empty |
| Framing.StreamRoundTrip | services/device-broker/src/rpc.rs:1438-1474 | every sequence of bodies of 1 to 16 MiB survives the codec |
| Framing.CutStream | services/device-broker/src/rpc.rs:1441-1456 | a stream cut anywhere yields its complete frames in order, and a clean end exactly at a frame boundary |
| Framing.ActKeepsConsistent | services/device-broker/src/rpc.rs:44-77 | every step of two writers under the output lock keeps the stream a sequence of whole frames and at most one partial one |
| Framing.SharedOutputIsMerge | services/device-broker/src/rpc.rs:44-77 | under every interleaving, what is read when the lock is free is an order-preserving merge of what both writers meant to send, each up to its first body that is too large, which is refused and ends it |
| Framing.AllFitIff | services/device-broker/src/rpc.rs:59-75 | a writer gets to send everything exactly when every body fits a frame |
| Framing.HalfSentFrameIsNotSeen | services/device-broker/src/rpc.rs:44-77 | while a frame is half sent a reader gets the finished frames in order and no clean end |
| Credentials.DeviceCredentialStore.RevokeRecords | services/qc-relay/src/pairing.rs:98-102 | revokes every record of one device and no other |
| Credentials.DeviceCredentialStore.Issue | services/qc-relay/src/pairing.rs:84-122 | pairing a device leaves one new live credential for it, for the given principal, and revokes the older ones |
| Credentials.DeviceCredentialStore.ValidateToken | services/qc-relay/src/pairing.rs:124-142 | the checks on a token, in their order |
| Credentials.DeviceCredentialStore.RevokeDevice | services/qc-relay/src/pairing.rs:160-180 | only the principal of the device's grant revokes it, grant and records; otherwise nothing changes |
| Credentials.DeviceCredentialStore.AuthorizeDevice | services/qc-relay/src/pairing.rs:144-158 | a principal is authorized by a grant of its own that is not revoked |
| Credentials.RunsAreConsistent | services/qc-relay/src/pairing.rs:84-180 | over all issue and revoke runs every token's device has a grant, a live token's grant is live and for its principal, and a device has at most one live token |
| Credentials.ValidateNeedsOnlyTheRecord | services/qc-relay/src/pairing.rs:124-142 | a token is accepted exactly when it is known, unrevoked and unexpired: the checks on the grant are redundant |
| Credentials.ValidImpliesAuthorized | services/qc-relay/src/pairing.rs:124-158 | an accepted token's principal is authorized for its device |
| Credentials.RecordsMatchHistory | services/qc-relay/src/pairing.rs:84-180 | each record holds the credential as issued, revoked exactly if its device was paired again or revoked by its principal since |
| Credentials.KnownTokensWereIssued | services/qc-relay/src/pairing.rs:110-116 | no token is known that was not issued |
| Credentials.ValidateMatchesHistory | services/qc-relay/src/pairing.rs:84-142 | acceptance told by the history alone: issued, unexpired, and neither paired again nor revoked since |
| Credentials.AuthorizeMatchesHistory | services/qc-relay/src/pairing.rs:144-158 | authorization told by the history alone: a principal is authorized exactly if the latest pairing of the device is its own and it has not revoked the device since |
| Credentials.RevocationMatchesHistory | services/qc-relay/src/pairing.rs:160-180 | a principal may revoke a device, again and again, exactly if the latest pairing is its own; after that it is not authorized |
| Pairing.PairingManager.CreateOffer | services/qc-relay/src/pairing.rs:231-246 | opens one offer for the principal, with its expiry |
| Pairing.PairingManager.Attempt | services/qc-relay/src/pairing.rs:256-269 | the in-place pop-front limiter: spent secrets past their expiry go, and the attempt is recorded or refused |
| Pairing.PairingManager.Redeem | services/qc-relay/src/pairing.rs:248-287 | the verdict and the new tables; a credential is issued only on a grant, for the offer's principal |
| Pairing.PoppedKeepsYoung | services/qc-relay/src/pairing.rs:260-265 | popping the front of an ascending deque leaves exactly the attempts inside the window, now and at any later time |
| Pairing.DequeRefinesHistory | services/qc-relay/src/pairing.rs:257-269 | a key's deque counts the same young attempts as the full history of its admitted attempts |
| Pairing.LimiterIsExact | services/qc-relay/src/pairing.rs:257-269 | an attempt is rate-limited exactly when the maximum of earlier admitted attempts under its key are younger than the window |
| Pairing.WindowNeverOverfull | services/qc-relay/src/pairing.rs:257-269 | no half-open interval of window length ever holds more than the maximum of admitted attempts |
| Pairing.TablesFollowLife | services/qc-relay/src/pairing.rs:231-287 | the two tables agree, for every secret, with its life told without tables |
| Pairing.VerdictFollowsLife | services/qc-relay/src/pairing.rs:248-287 | every admitted redemption is judged by the life of its secret |
| Pairing.OffersAndConsumedDisjoint | services/qc-relay/src/pairing.rs:273-280 | the offer table and the consumed table never share a secret |
| Pairing.GrantedIffFirstInTime | services/qc-relay/src/pairing.rs:248-287 | a redemption is granted, to the offer's creator, exactly when it is admitted, in time, and the first admitted one of its secret |
| Pairing.RetryAfterGrant | services/qc-relay/src/pairing.rs:270-280 | later admitted redemptions are replays strictly before the offer's expiry and invalid from then on |
| Pairing.AtMostOneGrant | services/qc-relay/src/pairing.rs:248-287 | a secret yields at most one receipt over every run |
| Relay.StepKeepsInv | services/qc-relay/src/relay.rs:85-360 | every step of callers, links and timers keeps the invariant between connections, sessions, pending tables and calls |
| Relay.ReachableInv | services/qc-relay/src/relay.rs:85-360 | so it holds over every interleaving |
| Relay.OutcomesAreJustified | services/qc-relay/src/relay.rs:162-214 | a finished call's outcome is what a result frame says that its own session's link accepted under its own id, a timeout past its deadline, a disconnect of a retired session, or a refusal made before anything was sent |
| Relay.DoneIsFinal | services/qc-relay/src/relay.rs:162-214 | a call completes at most once |
| Relay.DoneForever | services/qc-relay/src/relay.rs:162-214 | and what it completed with stays, over every continuation |
| Relay.WaitingIsListed | services/qc-relay/src/relay.rs:185-213 | a call waiting on an empty channel is in its own session's pending table and no other, so its sender cannot have been dropped |
| Relay.DoneIsUnlisted | services/qc-relay/src/relay.rs:195-213 | once a call has returned its id is in no pending table |
| Relay.ResultReachesWaitingCallIff | services/qc-relay/src/relay.rs:338-340 | a result reaches a waiting call exactly when it arrives on that call's own session, first |
| Relay.ResultEndsCall | services/qc-relay/src/relay.rs:313-341 | over every run, the first result frame that a waiting call's own session accepts decides it: it ends with the frame's result, null for none, or with the code and message of its error, or a fixed text |
| Relay.UnlistedResultChangesNothing | services/qc-relay/src/relay.rs:338-340 | a late, duplicate or other-session result changes nothing |
| Relay.ConnectionEndsOnlyByItself | services/qc-relay/src/relay.rs:343-353 | disconnecting a replaced link never removes the newer session |
| Relay.CallerFinishesAtDeadline | services/qc-relay/src/relay.rs:201-213 | past its deadline a caller finishes unaided: with its result or a timeout, never through a dropped sender |
| Relay.SenderProceedsIff | services/qc-relay/src/relay.rs:194-206 | a listed caller goes on exactly when the outbound queue has room or is gone; it then waits for the request timeout, 195 s at least for a backup, or is refused |
| Relay.CheckDecides | services/qc-relay/src/relay.rs:177-186 | another principal is forbidden; the right one goes on exactly if the device is ready or is to be reconnected or reset |
| Relay.SessionStep | services/qc-relay/src/relay.rs:85-112 | what each step does to a session's link: open, attached, retired, ready and queued change by the steps that should change them and no others |
| Relay.BlockedCallerNeverTimesOut | services/qc-relay/src/relay.rs:194-206 | while its link stalls a caller at a full queue stays there, whatever else happens and however long |
| Relay.RelayHub.Connect | services/qc-relay/src/relay.rs:85-109 | installs a fresh session and hands back the one it replaces |
| Relay.RelayHub.FailAll | services/qc-relay/src/relay.rs:356-360 | drains one session's table, failing every call in it once |
| Relay.RelayHub.Lookup | services/qc-relay/src/relay.rs:169-176 | takes the current session of the device, or reports it offline |
| Relay.RelayHub.Check | services/qc-relay/src/relay.rs:177-184 | refuses another principal, and a device that is not ready unless it is being reconnected or reset |
| Relay.RelayHub.Insert | services/qc-relay/src/relay.rs:185-187 | lists the call with its session |
| Relay.RelayHub.Send | services/qc-relay/src/relay.rs:188-206 | queues the frame and starts the call's timer, longer for a backup, or finds the queue closed |
| Relay.RelayHub.Forget | services/qc-relay/src/relay.rs:194-197 | an unsent call is unlisted and reported disconnected |
| Relay.RelayHub.Take | services/qc-relay/src/relay.rs:206-208 | a caller takes what its channel holds |
| Relay.RelayHub.Abandon | services/qc-relay/src/relay.rs:209-212 | a timed-out call is unlisted |
| Relay.RelayHub.AcceptFrame | services/qc-relay/src/relay.rs:313-341 | one frame from a link: a result goes to the listed call, a ready frame sets the flag, an invoke frame is ignored |
| Relay.RelayHub.DisconnectLink | services/qc-relay/src/relay.rs:343-352 | takes a link out of service unless it has been replaced |
| Relay.RelayHub.Fire | services/qc-relay/src/relay.rs:206-209 | the timer fires only past the deadline and with no result |
| Relay.RelayHub.Drive | services/qc-relay/src/relay.rs:85-360 | under any interleaving the hub goes through exactly the states of the run, so every theorem about reachable states holds of it |
| Relay.DeviceForPrincipal | services/qc-relay/src/relay.rs:248-270 | selects a device exactly when the principal has one candidate; none and several are told apart |
| ReceiveQueue.HidIo.TrySend | services/device-broker/src/usb.rs:118-143 | queues an event if there is room; otherwise drops it and owes the flag |
| ReceiveQueue.HidIo.ReadNothing | services/device-broker/src/usb.rs:117 | a read that times out forgives an earlier error |
| ReceiveQueue.HidIo.StoreFlag | services/device-broker/src/usb.rs:122-136 | raises the overflow flag, as a step of its own |
| ReceiveQueue.HidIo.SwapFlag | services/device-broker/src/usb.rs:161-167 | reports an overflow once and takes the flag down |
| ReceiveQueue.HidIo.RecvTimeout | services/device-broker/src/usb.rs:173-180 | takes the head of the queue if there is one; on an empty queue it fails if the reader has stopped, and otherwise times out |
| ReceiveQueue.HidIo.Drive | services/device-broker/src/usb.rs:110-181 | under any interleaving of reader and broker the queue goes through exactly the states of the run |
| ReceiveQueue.StepKeepsInv | services/device-broker/src/usb.rs:110-181 | every step of reader and broker keeps the relation between what was read, kept, dropped and returned |
| ReceiveQueue.ReaderStopsIff | services/device-broker/src/usb.rs:113-147 | over every run the reader leaves its loop exactly if its last two reads were errors; a report or an empty read between them forgives the first |
| ReceiveQueue.OverflowIsReportedOnce | services/device-broker/src/usb.rs:161-167 | a read takes the flag down: an overflow is reported once, and without one the broker goes on to receive |
| ReceiveQueue.GapIsDetectedWithinOneEvent | services/device-broker/src/usb.rs:161-181 | what is returned before the first overflow error is a prefix of what was read, followed by at most one event from after the gap |
| ReceiveQueue.PrefixUnlessExposed | services/device-broker/src/usb.rs:120-167 | it is exactly a prefix unless the flag was raised behind a receiver on an empty queue |
| ReceiveQueue.ExposedReceiverCrossesGap | services/device-broker/src/usb.rs:120-181 | from every such moment the next event is returned across the gap |
| ReceiveQueue.GapIsCrossed | services/device-broker/src/usb.rs:99-181 | and whatever the room of the queue and the reports, such a moment is reached from the start: all but the dropped report are returned, across the gap, with no error between them |
| ReceiveQueue.AtomicFlagGivesExactPrefix | services/device-broker/src/usb.rs:120-127 | were dropping and flagging one step, it would always be exactly a prefix |
| Messages.LatestIsLast | services/device-broker/src/usb.rs:270-319 | an index entry is the last message of its kind in the whole history, and every kind read has one |
| Messages.LastOfKindListsIndex | services/device-broker/src/worker.rs:987-994 | sorting the index by sequence number lists, in order, the messages that are the last of their kind |
| Messages.IncreasingUnique | services/device-broker/src/worker.rs:994 | a list rising in sequence number is determined by its members |
| Messages.SortedValues | services/device-broker/src/worker.rs:987-994 | lists an index's values by rising sequence number |
| Messages.ReadUntilPreset | services/device-broker/src/usb.rs:274-301 | reads through the first preset or up to the deadline, and stops at neither less nor more |
| Messages.ReadUntilSeeded | services/device-broker/src/usb.rs:302-319 | reads until the five seed kinds are present or up to the deadline, and nothing once they are |
| Messages.FinishHello | services/device-broker/src/usb.rs:261-334 | the index, counts and history of a new session are those of exactly the messages read; the first two phases stop at the first preset or their deadline, the third once the seed kinds are present or at its own; the session counts as synchronized exactly if a preset came before the third |
| Messages.HelloIsDetermined | services/device-broker/src/usb.rs:261-334 | these conditions leave no choice: answers and deadlines fix what is read and the session's start |
| Messages.TotalCount | services/device-broker/src/worker.rs:1178 | the per-kind counters add up to the messages read |
| Messages.NewestKind | services/device-broker/src/worker.rs:1179-1183 | the kind of the newest indexed message is that of the last in the sorted index |
| Backup.DocumentStartsAtOpening | packages/rust/qc-protocol/src/responses.rs:153-189 | the document under assembly is every chunk from the first opening one on: stale prefixes are dropped and nothing later is |
| Backup.OpensIff | packages/rust/qc-protocol/src/responses.rs:170 | a chunk opens a document exactly if nothing but white space stands before a brace |
| Backup.PendingIff | packages/rust/qc-protocol/src/responses.rs:153-208 | a collection is under way exactly as long as every chunk decodes and, since the first that opened a document, none has been terminal and the text has stayed within the limit |
| Backup.LastChunkDecides | packages/rust/qc-protocol/src/responses.rs:153-208 | from the opening chunk on, the next chunk goes past the limit, is not terminal and is waited on, or ends the collection with the whole text if it is valid and with an error if not |
| Backup.FinishedIff | packages/rust/qc-protocol/src/responses.rs:153-208 | a document is finished exactly by chunks whose last is the first terminal one since the opening, with their text within the limit and valid, and it is that text |
| Backup.FinishedDocument | packages/rust/qc-protocol/src/responses.rs:153-208 | a finished document is the text from the opening chunk through the last, which is the only terminal one among them, and is valid |
| Backup.TakeChunk | services/device-broker/src/usb.rs:490-514 | one chunk finishes, breaks or extends the document; it restarts the stall timer if it is of the document, and the first-chunk timer if it is stale traffic before it |
| Backup.BeforeRead | services/device-broker/src/usb.rs:440-485 | what the clock calls for before a read is done and nothing else: a keepalive when due, a request when the first chunk is overdue, an end when the time or the requests are up, and else a wait of what is left, 200 ms at most |
| Backup.CreateBackup | services/device-broker/src/usb.rs:424-516 | waits for no more reads than the timeout has milliseconds if each moves the clock, and in any case for no more beyond that than those that take no time, however long the device goes on talking; sends at least one request and at most the maximum, spaced by the first-chunk timeout and none into a started document; waits in slices that end by the overall deadline, but for a millisecond at least; side messages are exactly the others read, in order; every refusal has its reason, a stall only after a full stall timeout without a chunk, and none throws away a finished document |
| EventLog.EventsSince | services/device-broker/src/worker.rs:232-259 | a cursor read returns the first matching entries past the cursor, up to the limit |
| EventLog.PageTold | services/device-broker/src/worker.rs:232-259 | a page is the first matching entries, as many as there are up to the limit and 4096 |
| EventLog.NextMatching | services/device-broker/src/worker.rs:232-259 | moving the cursor to the end of a page leaves exactly the entries after it |
| EventLog.CursorReadsAreComplete | services/device-broker/src/worker.rs:232-259 | repeated reads with any positive limit terminate and return every retained matching entry once, in order |
| EventLog.EmptyPageIff | services/device-broker/src/worker.rs:232-259 | a page is empty exactly when nothing retained matches past the cursor |
| EventLog.InterleavedReadsAreComplete | services/device-broker/src/worker.rs:232-259 | with publications, evictions and clears between its reads a client gets no entry twice, none out of order, and skips none still retained |
| EventLog.OfferKeepsSubsequence | services/device-broker/src/worker.rs:744-749 | a full subscriber misses an entry, a subscriber with room gets it at the end |
| EventLog.OfferReachesTheLiving | services/device-broker/src/worker.rs:739-750 | publishing keeps the live subscribers in order and forgets the others; each gets the entry at the end of its queue unless that holds 256 |
| EventLog.SubscriberSeesSubsequence | services/device-broker/src/worker.rs:744-749 | one subscriber's queue, over every run of its own, hands on an in-order subsequence in bounded memory |
| EventLog.SubscribersFollowTheBus | services/device-broker/src/worker.rs:732-750 | over every run of the bus, with subscribers coming and going, each has been delivered an in-order subsequence of what was published since it came |
| EventLog.EventBus.Subscribe | services/device-broker/src/worker.rs:268-278 | adds a subscriber with an empty queue and leaves the others |
| EventLog.EventBus.Publish | services/device-broker/src/worker.rs:732-750 | the log is the last 4096 entries; every live subscriber is offered the entry and the gone ones are forgotten |
| Decoder.StateDecoderThread.ApplyStates | services/device-broker/src/worker.rs:667-672 | folds the updates into the snapshot in order |
| Decoder.StateDecoderThread.PublishFrame | services/device-broker/src/worker.rs:673-680 | publishes under the next number |
| Decoder.StateDecoderThread.AbsorbUpdate | services/device-broker/src/worker.rs:664-680 | updates with nothing to show publish nothing |
| Decoder.StateDecoderThread.HandleCommand | services/device-broker/src/worker.rs:635-719 | one command: a model repository of the session goes out to be parsed, a query is answered from the present state, stale commands change nothing |
| Decoder.StateDecoderThread.Loop | services/device-broker/src/worker.rs:634-720 | the loop over its queue is the replay of the commands up to the stop |
| Decoder.MessageIsShown | services/device-broker/src/worker.rs:642-681 | a current message that decodes to states or carries a clock becomes the last frame of the log, with exactly those states and that mark under the next number, and any other shows nothing |
| Decoder.CatalogIsShown | services/device-broker/src/worker.rs:683-707 | an installed catalog becomes one frame with the states it gives, if any |
| Decoder.OthersAreNotShown | services/device-broker/src/worker.rs:635-719 | a reset keeps nothing but the frame numbers; stale commands, model repositories and queries change nothing |
| Decoder.StepKeepsInv | services/device-broker/src/worker.rs:607-721 | every step of worker, decoder and metadata thread keeps the stamps of the queue and of the parsing jobs |
| Decoder.MessagesAreNeverStale | services/device-broker/src/worker.rs:642-643 | a queued message always meets the decoder in its own generation |
| Decoder.CatalogIsDiscardedIffReset | services/device-broker/src/worker.rs:683-684 | a catalog is discarded exactly when the session it was parsed from has been reset since |
| Decoder.ReplayFoldsSession | services/device-broker/src/worker.rs:634-720 | after any replay of stamped commands the decoder state and the snapshot are those of the current session's own inputs, and the generation is the last reset's |
| Decoder.SnapshotIsSessionFold | services/device-broker/src/worker.rs:607-721 | in every run the snapshot is the fold of exactly the current generation's updates |
| Decoder.StreamIsSessionUpdates | services/device-broker/src/worker.rs:607-721 | in every run the log is the tail of the frames shown since the last reset, and their states joined in order are all the updates of the session's inputs |
| Decoder.CatalogsAreParsed | services/device-broker/src/worker.rs:614-630 | in every run a queued catalog is what an earlier model repository of its own generation parses to |
| Decoder.RepositoryIsParsed | services/device-broker/src/worker.rs:614-651 | and a current model repository gets there if the place is free and it parses |
| Decoder.PlaceIsKept | services/device-broker/src/worker.rs:614-651 | a waiting repository is never displaced; a finished job frees the thread |
| Decoder.LogIsContiguous | services/device-broker/src/worker.rs:633-680 | decoded-state numbers are contiguous and end just before the next one, across resets |
| Decoder.StateReadsAreComplete | services/device-broker/src/worker.rs:251-259 | so cursor reads of decoded state return every retained frame once, in order |
| Decoder.TurnFeedsTheLog | services/device-broker/src/worker.rs:634-720 | a turn leaves the log, clears it or appends one frame under a new number, so interleaved reads of it are complete, across resets too |
| Worker.StepConserves | services/device-broker/src/worker.rs:810-1072 | every step keeps the requests processed equal to those answered and those pending, as multisets |
| Worker.EveryRequestAnsweredOnce | services/device-broker/src/worker.rs:810-1072 | each request processed gets one reply by the time of a stop, and none is pending while no connection exists |
| Worker.RepliesAreDeserved | services/device-broker/src/worker.rs:1080-1116 | a delivered message is of the type asked for and carries no id other than the one asked with; a timeout is past its deadline |
| Worker.RefusalsNameTheirCause | services/device-broker/src/worker.rs:810-1116 | a step refuses requests only for its own reason, and refuses a new one only without a connection |
| Worker.CarriedIdIsField | services/device-broker/src/worker.rs:1080-1090 | the id a message carries is its first varint field numbered 1, in a version message, or 2, in any other |
| Worker.ReadGoesToFirst | services/device-broker/src/worker.rs:1080-1100 | a message answers the first pending request that wants it by type and id, and that one only; wanted by none, it answers nobody |
| Worker.UncorrelatedReply | services/device-broker/src/worker.rs:1091-1096 | a message that carries no id answers the first request of its type, whatever id that asked with |
| Worker.CorrelatedReplyIff | services/device-broker/src/worker.rs:1080-1100 | a reply with an id reaches the request that asked with it exactly when every earlier request of its type asked with another id; otherwise an earlier one takes it and that request stays pending |
| Worker.MisdeliveryHappens | services/device-broker/src/worker.rs:1091-1096 | a reachable state in which the reply with id 7 went to the request without an id and request 7 still waits |
| Worker.ExpiryIsExact | services/device-broker/src/worker.rs:1102-1116 | the expiry refuses exactly the requests whose deadline has come and keeps the others, both in order |
| Worker.AskWaitsOrIsRefused | services/device-broker/src/worker.rs:883-904 | a request waits behind the others for its time, or is refused without a connection |
| Worker.ReadIsIngested | services/device-broker/src/worker.rs:753-791 | a message is indexed and logged under its number, queued for the decoder under the session stamp and counted; a preset, and nothing else, makes the phase ready |
| Worker.ReadsWithoutMessage | services/device-broker/src/worker.rs:1041-1064 | an empty read forgives an error; the second error in a row loses the link and refuses whoever waits, and leaves index and log |
| Worker.SessionOpens | services/device-broker/src/worker.rs:984-1017 | a session starts with the index of its hello, its sorted log behind a reset for the decoder, and the status these call for |
| Worker.AttemptFails | services/device-broker/src/worker.rs:1018-1033 | an attempt without a session changes only the status |
| Worker.DisconnectEnds | services/device-broker/src/worker.rs:832-850 | a disconnect ends the session, refuses whoever waits and seeks no other |
| Worker.ReconnectRestarts | services/device-broker/src/worker.rs:812-831 | a forced reconnect, or one with no session and none in the making, ends the session and seeks a new one; any other changes nothing |
| Worker.BackupLeavesPhase | services/device-broker/src/worker.rs:905-959 | a backup refuses whoever waits, and leaves the phase as synchronization has it |
| Worker.StopEndsAll | services/device-broker/src/worker.rs:960-964 | a stop refuses whoever waits and stops the decoder |
| Worker.TimelyPartitions | services/device-broker/src/worker.rs:1102-1116 | the requests in time and those past their deadline are together all the requests |
| Worker.StepSession | services/device-broker/src/worker.rs:753-1009 | every step keeps both indexes and the log what the session's history calls for |
| Worker.IndexIsSessionHistory | services/device-broker/src/worker.rs:753-791 | while connected both latest-message maps are equal and hold the last message of each kind among what the handshake read and the session ingested, and sequence numbers rise strictly |
| Worker.StepArrivals | services/device-broker/src/worker.rs:905-1061 | every step keeps what arrived an order-preserving merge of what was ingested and what failed backups lost |
| Worker.IndexHoldsArrivalsIff | services/device-broker/src/worker.rs:905-957 | the maps hold the last message of each kind that arrived, side messages of all backups included, exactly when every lost message has been overtaken by an ingested one of its kind |
| Worker.FailedBackupHidesMessage | services/device-broker/src/worker.rs:917-939 | from every connected state, a failed backup that read one side message leaves the maps behind what arrived |
| Worker.LogIsTailIff | services/device-broker/src/worker.rs:985-1002 | the raw log is the last 4096 of the sorted initial index followed by all ingested messages, exactly when that index fits the log or something has been ingested |
| Worker.LogExceedsLimit | services/device-broker/src/worker.rs:985-1002 | a reachable session whose hello read 4097 kinds, no preset and no seed kind among them, has a log of 4097 entries |
| Worker.NothingLostIff | services/device-broker/src/worker.rs:905-957 | over every run, told by its inputs alone: the session has ingested all that arrived exactly when no backup since it opened failed with side messages, and then the maps hold the last message of each kind that arrived |
| Worker.StepStamps | services/device-broker/src/worker.rs:810-1000 | what each step queues for the decoder carries the generation its place calls for |
| Worker.QueueIsStamped | services/device-broker/src/worker.rs:825-826 | so the decoder's queue is always stamped as the decoder relies on |
| Worker.StepLinked | services/device-broker/src/worker.rs:810-1072 | every step keeps the status true to the link, and sets or clears the reconnect trap as stated |
| Worker.StatusTellsTheLink | services/device-broker/src/worker.rs:1124-1184 | the connected flag is up exactly while a connection exists, and phase ready implies one |
| Worker.SoftReconnectWorksIff | services/device-broker/src/worker.rs:812-831 | an acknowledged soft reconnect leaves a connection or auto-connect on exactly when the worker is not trapped |
| Worker.TrapIff | services/device-broker/src/worker.rs:905-959 | the trap is set only by a backup with neither a connection nor auto-connect, and holds until a disconnect or a forced reconnect |
| Worker.SoftReconnectWorksOnline | services/device-broker/src/worker.rs:1076-1078 | in runs with no backup attempted while disconnected, soft reconnects always work |
| Worker.TrapExists | services/device-broker/src/worker.rs:905-959 | a broker started disconnected falls into the trap by one backup |
| Worker.LinkSurvivesOneReadError | services/device-broker/src/worker.rs:1048-1051 | a single read error, an overflow included, leaves the session open |
| Worker.StepKeepsInv | services/device-broker/src/worker.rs:793-1074 | every step keeps all of these invariants |
| Worker.RunKeepsInv | services/device-broker/src/worker.rs:793-1074 | over every run they are kept, and no reply once given is taken back or changed |
| Worker.ReachableInv | services/device-broker/src/worker.rs:793-1074 | so they hold over every run |
| WorkerLoop.Position | services/device-broker/src/worker.rs:1081-1096 | the search finds the first request the message answers, scanning for its id once |
| WorkerLoop.BrokerWorker.FailPending | services/device-broker/src/worker.rs:1118-1122 | the drain refuses every pending request once, in order |
| WorkerLoop.BrokerWorker.DeliverPending | services/device-broker/src/worker.rs:1091-1099 | removes exactly the first compatible request and replies to it |
| WorkerLoop.BrokerWorker.ExpirePending | services/device-broker/src/worker.rs:1102-1116 | the in-place index loop is a stable filter on the deadline, and refuses exactly what it removes |
| WorkerLoop.SweepStep | services/device-broker/src/worker.rs:1105-1115 | one turn of that loop: what is removed and what is passed over |
| WorkerLoop.BrokerWorker.UpdateMessage | services/device-broker/src/worker.rs:1186-1215 | indexes a message and counts it; a preset makes the session ready |
| WorkerLoop.BrokerWorker.IngestIncoming | services/device-broker/src/worker.rs:753-791 | one message goes to both indexes, the log, the subscribers, the decoder and then the request it answers |
| WorkerLoop.BrokerWorker.IngestSide | services/device-broker/src/worker.rs:919-934 | the side messages of a backup are ingested one after the other, in order |
| WorkerLoop.BrokerWorker.EndSession | services/device-broker/src/worker.rs:818-826 | ends a session: no connection, no index, no log, nobody waiting, a new generation |
| WorkerLoop.BrokerWorker.HandleReconnect | services/device-broker/src/worker.rs:812-831 | a satisfied reconnect changes nothing, any other restarts the session |
| WorkerLoop.BrokerWorker.HandleDisconnect | services/device-broker/src/worker.rs:832-849 | closes the session and stops seeking one |
| WorkerLoop.BrokerWorker.HandleRequest | services/device-broker/src/worker.rs:883-904 | a request is pending with its deadline, or refused at once without a connection |
| WorkerLoop.BrokerWorker.Collect | services/device-broker/src/worker.rs:917-918 | the backup's reads are numbered on from the connection's next sequence |
| WorkerLoop.BrokerWorker.HandleBackup | services/device-broker/src/worker.rs:905-959 | other requests fail, the phase says syncing, and side messages are ingested if the backup completes and lost if not |
| WorkerLoop.BrokerWorker.HandleStop | services/device-broker/src/worker.rs:960-964 | refuses whoever waits and stops the decoder |
| WorkerLoop.SortedIndex | services/device-broker/src/worker.rs:987-994 | the initial log lists, by sequence number, the messages of the handshake that are the last of their kind |
| WorkerLoop.BrokerWorker.InstallStatus | services/device-broker/src/worker.rs:1143-1184 | the status of a new session counts all messages read and names the newest kind |
| WorkerLoop.BrokerWorker.Open | services/device-broker/src/worker.rs:979-1009 | a new session has a new generation, its sorted index queued for the decoder and as the log |
| WorkerLoop.BrokerWorker.Connect | services/device-broker/src/worker.rs:968-1025 | an attempt ends with a session, in searching without a device, or in error after a failed handshake |
| WorkerLoop.BrokerWorker.ReadOnce | services/device-broker/src/worker.rs:1027-1063 | a message is numbered and ingested; the second read error in a row drops the link |
| WorkerLoop.BrokerWorker.HandleCommand | services/device-broker/src/worker.rs:810-966 | one command is a run of the state machine |
| WorkerLoop.BrokerWorker.TakeTurn | services/device-broker/src/worker.rs:809-1073 | so is one turn of the loop, with time passing between its parts: commands, attempt, read, and expiry unless the read failed |
| WorkerLoop.BrokerWorker.RunLoop | services/device-broker/src/worker.rs:793-1074 | and so is the whole loop: every state it reaches is one the theorems are about |
| Broker.WorkerSends | services/device-broker/src/worker.rs:810-1000 | what each step of the worker sends is what the decoder's queue gets, stamps and order included |
| Broker.StepAgrees | services/device-broker/src/worker.rs:607-1074 | every step of the three threads keeps the queue, queries and late catalogs aside, equal to what the worker sent |
| Broker.RunIsSound | services/device-broker/src/worker.rs:607-1074 | in every run of the three threads the worker and the decoder are each in a state their own theorems are about |
| Broker.SnapshotFollowsTheWorker | services/device-broker/src/worker.rs:607-1074 | so in every such run a dequeued message meets its own generation and the snapshot is the fold of the current session's updates |
| Names.Convert | services/rust-mcp/src/server.rs:499-513 | the loop over a name's characters computes the naming rule, under any casing of characters |
| Names.PlainNamesNeedAscii | services/rust-mcp/src/server.rs:499-513 | on lower-case names only what the casing does to ASCII matters |
| Names.RuleIsInvertibleIff | services/rust-mcp/src/server.rs:499-513 | on lower-case names the rule can be undone exactly when every underscore is followed by a letter |
| Names.NamesStayDistinct | services/rust-mcp/src/server.rs:499-513 | so distinct such names stay distinct |
| Names.DigitSegmentsCollide | services/rust-mcp/src/server.rs:499-513 | and names with a digit after an underscore can collide |
| Names.CamelJoins | services/rust-mcp/src/server.rs:499-513 | a name is converted word by word |
| Translate.Validate | services/rust-mcp/src/server.rs:315-423 | accepts exactly known arguments that satisfy every property and break no rule; an unknown argument is refused first, then the first unsatisfied property, then a broken rule |
| Translate.RulesTold | services/rust-mcp/src/server.rs:398-421 | the three rules: one bank down or up, no scene onto itself, a label of at most 32 characters without controls |
| Schemas.FitsIffConforms | services/rust-mcp/src/actions.rs:161-213 | the server takes a value exactly if it conforms to the schema published for its kind and is plain: not blank, free of C1 controls where visible, and a signed 64-bit integer where an integer |
| Schemas.AcceptsIffConforms | services/rust-mcp/src/actions.rs:134-159 | the server accepts a call exactly if it conforms to the tool's published schema, its values are plain and no special rule is broken |
| Schemas.WholeFractionIsRefused | services/rust-mcp/src/actions.rs:199-205 | 1.0 conforms where an integer is asked for, and is refused |
| Schemas.BlankTextIsRefused | services/rust-mcp/src/actions.rs:163 | a blank conforms where text is asked for, and is refused |
| Translate.ApplyConfirmationGate | services/rust-mcp/src/server.rs:449-463 | takes out the flag the class calls for, and admits the write exactly if the flag was true |
| Translate.TargetsDiffer | services/rust-mcp/src/server.rs:486-489 | distinct arguments of a well-named row never share a native name, the special renaming included |
| Translate.SentDistinct | services/rust-mcp/src/server.rs:465-497 | nothing the server sends is overwritten while it is collected, the implied confirmation included |
| Translate.TranslatorsAgree | services/qc-relay/src/relay.rs:273-306 | for any arguments that pass validation and the gate, the naming rule with nulls removed equals the relay's table on the original arguments, for every well-formed row |
| Translate.TranslatorsEqualIff | services/rust-mcp/src/server.rs:465-497 | the two are the very same exactly when no null of a null-keeping kind is forwarded |
| Translate.UnchangedTempoToldApart | services/rust-mcp/src/server.rs:467-480 | a call that changes no tempo field is accepted, and the two translations of it differ |
| Translate.RelayTakesIffAllSet | services/qc-relay/src/relay.rs:111-140 | of what the server accepts, the relay takes, with an approved confirmation, exactly the calls whose every confirmation argument is true, and sends the same; any other it refuses, naming one that is not |
| Translate.RelayRefusesDeclinedReset | services/qc-relay/src/relay.rs:130-136 | an accepted restore_tuner_audio call with its preference reset declined is refused by the relay |
| Translate.RelayGates | services/qc-relay/src/relay.rs:111-140 | nothing passes the relay without authorization, a known action, an approved confirmation of a write, every confirmation argument and an admitted argument surface |
| Translate.RenameRowIsWellFormed | services/qc-relay/src/generated_actions.rs:646-655 | the row with the special renaming and the implied confirmation is well formed |
| Translate.RestoreRowIsWellFormed | services/qc-relay/src/generated_actions.rs:196-205 | so is a row that asks for a second confirmation argument |
| Translate.ListModelsRowIsWellFormed | services/qc-relay/src/generated_actions.rs:96-105 | the row whose argument the server consumes is well formed |
| Translate.TempoRowIsWellFormed | services/qc-relay/src/generated_actions.rs:806-815 | the row with the kinds whose null the server drops is well formed |

## Left out

- HID and MIDI transports, sockets, HTTP and MCP routing, task scheduling, keyring and OAuth: foreign calls, present only as events and results.
- JSON text and protobuf message decoding: bodies and payloads are bytes, decoded values are parameters.
- The session timers and the handshake before the hello: an attempt to connect is due or not, and its handshake succeeds or not.
- The two commands that only send, their pacing, keepalives of the worker and the flight recorder: they change none of the state the theorems are about.
- The preset library fed by folder messages, and the preset name, scene and time fields of the status: derived values.
- The observation time of a decoded frame: it plays no part in numbering, retention or delivery.
- A decoder whose metadata thread failed to start, which parses catalogs in place.
- Callers of the relay that are cancelled while they wait.
- Behaviour of the receive queue after the first overflow error.
- Memory ordering weaker than sequential consistency, and liveness beyond the deadlines.
- Saturation of counters at 2^64, and machines whose `usize` is narrower than 64 bits.
- Sessions are shared by reference in the relay; here an id names one and a table holds it.
- The interval between the pairing lock and the credential lock: a redemption and its issue are one step.
- The full action tables: well-formedness of a row is a predicate, and four rows are transcribed.
- The filtering of the model list by its query, and the checks on backend results.
- Backup.CreateBackup: what the device answers is a finite script, after which it is silent; of the readings of the clock in one turn only the first is apart from the others.
- Names.SnakeToCamel: the translators apply the rule with ASCII casing; property names hold nothing else, and other arguments are refused before they are translated.
- Schemas.Conforms: of JSON Schema, the keywords these schemas use; equality of items is by value for numbers and otherwise by writing.
- Translate.Validate: integers are compared with real bounds exactly, without the rounding of 64-bit floats.
- Framing.SharedOutputIsMerge: a write that fails half way, after which the program ends, is not a step.
- Relay.RelayHub.Connect: the replaced session is failed in a step of its own, as it is in the program; the method hands it back and does not fail it.
