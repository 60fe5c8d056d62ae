# RocketBox fabric: a verified model

RocketBox moves files between booths over USB cables that join up to four stations into a fabric. The C++
core streams payloads through asynchronous USB transfers, a session library agrees on who sends what, and a
TypeScript SDK speaks the same frames from a browser. This project models those parts in Dafny and proves what
they are for:

* **Streaming** (`receive_pipeline`, `receive_safety`, `receive_runs`, `send_queue`, `queue_depth`, `header_wait`):
  the receive engine as three actors (main thread, USB callback, disk writer) that move in any order over a ring
  of 34 slots, and the send engine as a class over its 32 transfer buffers. A step is one access to shared memory
  that another actor can observe. `end_to_end` joins sender and receiver.
* **Handshake** (`station`, `station_rules`, `station_history`, `orchestrator`, `handler_atomicity`, `handshake`,
  `handshake_counts`, `handshake_delivery`, `outbound_wait`): one station as a function from fields and event to fields, the class whose
  methods update those fields in place, and two stations joined by two first-in first-out channels that lose frames.
* **Traffic control of a link** (`promise_chain`, `control_queue`, `listen_loop`): promises with their settled states,
  coroutines that may throw at every await; every synchronous segment between two awaits is one method, and
  `Interleave` runs any sequence of segments.
* **Wire formats** (`frame_header`, `payload_stream`, `payload_delivery`, `cable_reading`, `session_text`,
  `session_codec`, `session_reading`, `announce_note`, `note_reading`): printers and parsers of both languages, with
  exact conditions for what survives, and what the parsers make of any input at all.
* **Small stateful structures** (`peer_roster`, `rope_buffer`, `log_shipper`, `tar_members`).

Premises. One USB endpoint completes transfers in submission order, and a successful transfer holds at least the
bytes its slot is for. Each `transferOut` arrives as one `transferIn`; one longer than the buffer offered fails. A
move of a station is one step: a message handler, a user's call, the sender's wait giving up. Offers, declines, readys,
sends and timeouts take the state lock more than once; `handler_atomicity` goes through their gaps one by one and says
exactly which moves of other threads would tell the difference. A station is deaf from the ready that starts its payload
until the offer has been cleared. Session ids are fresh. A clock is an integer that never runs backwards, or a number of
loop passes that still find a deadline in the future. Steps are sequentially consistent. What the environment decides
(transfer results, write results, how much a final flush keeps, user input, timing, loss) is a parameter or an arbitrary
value.

Where a property one might hope for does not hold of every input, the project states the exact condition instead:
file names survive the header exactly when what is kept of them is plain ASCII, and two headers are the same exactly
when size, kind and the kept names are, lone surrogates and NULs at the end apart; session messages exactly when they
are well formed for the reader, announces exactly for plain instances, a roster update exactly when the announce
names a leg, an instance or nobody, a payload in TypeScript exactly behind fewer than sixteen skipped frames, a log
batch exactly when no longer end of the shipped snapshot recurs at the start of the ring, a failed run stops no later
one exactly when the tail or the next link handles its rejection. The receive engine checks every write but not the
final flush of its stream: after success the closed file is the payload exactly when that flush kept everything. At some
gaps between their critical sections a station's offers, readys, timeouts and sends are atomic, at others not: there the
one or two moves that tell are named, as an if-and-only-if over all states that meet the station's invariant.

`docs/PROTOCOL.md` says that senders always submit full 4 MiB chunks with zero padding. The TypeScript sender does;
the C++ sender submits as many bytes as it read. The model follows the code, and both receivers are proved to
accept both.

## Model

| member | source | states |
|---|---|---|
| ReceiveSafety.StepKeepsInv | core/src/usb_transfer_core.cpp:996-1168 | every step of every actor keeps the invariant: bounded counters, a ring that is loaded, then in flight, then free, unread results, and an output stream that has taken the written chunks |
| ReceiveSafety.InspectedSlotIsCurrent | core/src/usb_transfer_core.cpp:1093-1111 | the slot the consumer looks at still carries the result of the transfer it waits for, though the writer may have freed it: it has never been resubmitted |
| ReceiveSafety.WritingIsOnDisk | core/src/usb_transfer_core.cpp:1014-1025 | a write appends to the stream exactly the chunk of the next transfer, whatever the padding behind it |
| ReceiveSafety.ShortChunksHoldNoStaleBytes | core/src/usb_transfer_core.cpp:1052-1058 | whatever a transfer brings for the last, short chunk, and however it ends, what it did not bring is taken as zeros, never as bytes of an earlier chunk, as long as no write has failed |
| ReceiveRuns.FileIsWhatWasDelivered | core/src/usb_transfer_core.cpp:996-1027 | in every run, refused submissions, failed transfers and disk errors included, the output stream has taken the in-order concatenation of what was delivered for the chunks written so far; a failed write adds the beginning of the next one and nothing follows it |
| ReceiveRuns.DiskIsAPrefix | core/src/usb_transfer_core.cpp:996-1027 | in every run the stream has taken a prefix of the payload as long as the transfers that reached it completed, however other transfers and the disk fail, and exactly the chunks written without a disk error |
| ReceiveRuns.OkMeansFileIsPayload | core/src/usb_transfer_core.cpp:1090-1191 | for every interleaving, a successful result means that the output stream took exactly the payload, and that the closed file, always a prefix of it, is the payload if and only if the final flush, whose result is not checked, kept all of it |
| ReceiveRuns.OkIffNothingFailed | core/src/usb_transfer_core.cpp:1138-1191 | a returned run succeeded if and only if no submission, transfer or write to the stream failed, whatever the final flush kept |
| ReceiveRuns.FailedTransferIsNeverWritten | core/src/usb_transfer_core.cpp:1110-1118 | once the main thread has seen a failed transfer that the writer has not taken yet, no run writes it or anything behind it, not even in part |
| ReceiveRuns.SpinningMeansWriterCanMove | core/src/usb_transfer_core.cpp:1041-1050 | while submission spins on a slot that is not free, the writer's own slot is ready or just written, which rests on the pool being two larger than the queue |
| ReceiveRuns.SomeActorCanMove | core/src/usb_transfer_core.cpp:997-1168 | no deadlock: in every reachable state that has not returned, some actor can move without a failure |
| ReceiveRuns.EveryStepIsProgress | core/src/usb_transfer_core.cpp:1038-1136 | every step of every actor decreases the work left |
| ReceiveRuns.EveryRunEnds | core/src/usb_transfer_core.cpp:1090-1191 | every run has at most 7 steps per chunk and 7 more; one that cannot go on has returned, and if nothing failed with the whole payload taken by the stream and saved as far as the flush kept it |
| SendQueue.SendEngine.SubmitNext | core/src/usb_transfer_core.cpp:778-832 | puts the next bytes of the file in flight, or sets the error or the end flag, exactly when it should; the other buffers stay as they are and the books balance |
| SendQueue.SendEngine.ReapPass | core/src/usb_transfer_core.cpp:843-868 | one pass counts exactly the bytes completed before the first failure as sent, refills every buffer it reaped while the file lasts, so that the whole depth stays in flight, touches no other, and keeps the books: active counts the pending transfers, bytes read are sent, pending or lost |
| SendQueue.SendEngine.PumpAndReap | core/src/usb_transfer_core.cpp:836-868 | a turn of the main loop by whose pump every transfer has completed sends more bytes or ends the send with an error |
| SendQueue.SendEngine.Drain | core/src/usb_transfer_core.cpp:871-887 | after an error the drain ends with nothing active once the cancelled transfers complete |
| SendQueue.SendEngine.Send | core/src/usb_transfer_core.cpp:834-898 | success means the submitted buffers are the whole file, all of it was sent and nothing is active; and every send ends: once as many pumps as the file has bytes have found every transfer completed, it has succeeded if and only if neither disk, device nor any transfer failed |
| SendQueue.SubmittedBooks | core/src/usb_transfer_core.cpp:790-831 | submitting into a buffer that is not pending keeps the books and leaves every pending buffer as it was submitted |
| SendQueue.CallbacksKeepCounts | core/src/usb_transfer_core.cpp:839-846 | completion callbacks change neither the number of pending transfers nor their bytes |
| SendQueue.EveryPendingTransferHasBytes | core/src/usb_transfer_core.cpp:790-800 | pending bytes are at least the pending transfers, so nothing pending is empty |
| QueueDepth.EffectiveQueueDepth | core/src/usb_transfer_core.cpp:44-59 | the depth lies in 1..32 and is the largest whose chunks the budget, or 40 percent of the kernel limit, pays for; an unreadable or zero knob counts as 16 MB; in auto mode it is the full depth if and only if the limit is at least 320 MB, as long as doubling it does not wrap |
| QueueDepth.ReceiverStaysWithinDepth | core/src/usb_transfer_core.cpp:1037-1087 | in every run, whatever fails, a receive engine has at most its depth of transfers outstanding |
| QueueDepth.SenderStaysWithinDepth | core/src/usb_transfer_core.cpp:834-867 | between any two segments a send engine's pending buffers hold at most its depth of chunks |
| QueueDepth.TwoProcessesFitThePool | core/src/usb_transfer_core.cpp:40-59 | over all pairs of runs, two processes with a receive engine each at the automatic depth stay within the kernel limit if and only if it is at least 8 MB |
| QueueDepth.SendersFitThePool | core/src/usb_transfer_core.cpp:40-59 | with a limit of at least 8 MB so do a sending and a receiving process, and two that send |
| HeaderWait.WaitForHeader | core/src/usb_transfer_core.cpp:936-981 | for every expected frame kind, or any, the header loop computes the specification on which the next rows rest, and leaves the cable behind the header it found |
| HeaderWait.FirstHeaderDecides | core/src/usb_transfer_core.cpp:951-971 | a caller that expects a session, or any kind, reads nothing away: the first header is taken if it fits and is an error if not |
| HeaderWait.FoundHeaderIsGenuine | core/src/usb_transfer_core.cpp:936-971 | whatever is on the cable and whatever is expected, a header that is found was read whole somewhere along it with the right magic, that size and an acceptable kind, and what is left is what lies behind it |
| HeaderWait.WrongMagicIsRefused | core/src/usb_transfer_core.cpp:945-950 | a header without the magic is an error to every caller |
| HeaderWait.PastStrays | core/src/usb_transfer_core.cpp:951-964 | any number of stray session frames is read away, each with one pass, unless one is larger than 256 KiB, which fails the receive |
| HeaderWait.HeaderFoundIffStraysAreSmall | core/src/usb_transfer_core.cpp:329-349 | given time, the payload's header is found with everything behind it untouched if and only if no stray frame exceeds 256 KiB |
| EndToEnd.SubmittedAreTheChunks | core/src/usb_transfer_core.cpp:782-826 | what a send engine submits for a whole file from full reads is the file cut into 4 MiB chunks |
| EndToEnd.PaddedChunksSupply | sdks/typescript/src/link_send.ts:79-87 | every padded chunk holds what the receiver's slot of that number wants |
| EndToEnd.SupplyIffFullReads | core/src/usb_transfer_core.cpp:790-826 | the transfers submitted for a file are what the receiver may assume if and only if no read away from the end of the file was short |
| EndToEnd.SentFileIsSaved | core/src/usb_transfer_core.cpp:834-1191 | C++ to C++: if the cable relays transfers that carry a file by full reads and the receiver reports success, under any interleaving, its stream took the sent file and the closed file is it just when the flush kept all |
| EndToEnd.SendEngineToDisk | core/src/usb_transfer_core.cpp:712-1191 | from a successful `Send` through the header to the disk: behind small stray frames the receiver finds the header, learns the size, faces the engine's own transfers, and if it reports success has taken the engine's file, saved but for what the flush loses |
| EndToEnd.SentPayloadIsSaved | sdks/typescript/src/link_send.ts:60-94 | TypeScript to C++: what is taken and, but for the flush, saved is the payload without the padding |
| EndToEnd.EveryFileCanBeSaved | core/src/usb_transfer_core.cpp:1037-1191 | for every file, every depth and either sender some run of the receiver on what that sender transmits succeeds and saves the file whole, so the premises above can be met |
| Orchestrator.TransferOrchestrator.OnSessionMessage | lib/session/transfer_orchestrator.cpp:597-622 | dispatching a frame updates the fields exactly as the station model hears it, and keeps the station invariant |
| Orchestrator.TransferOrchestrator.HandleOfferMessage | lib/session/transfer_orchestrator.cpp:797-855 | an offer may touch only the pending offer, the session being accepted and the queue of the payload thread; an offer that is addressed to a free station, is no duplicate and was not completed last becomes pending, or accepted with its job if the station is open, and any other changes nothing |
| Orchestrator.TransferOrchestrator.HandleReadyMessage | lib/session/transfer_orchestrator.cpp:994-1056 | for the outstanding offer the payload thread takes what is staged and the wait is over; any other ready changes nothing |
| Orchestrator.TransferOrchestrator.HandleDeclineMessage | lib/session/transfer_orchestrator.cpp:976-992 | a decline of the outstanding offer leaves nothing of it and frees the station, any other changes nothing, and none completes an inbound session |
| Orchestrator.TransferOrchestrator.AcceptPendingOffer | lib/session/transfer_orchestrator.cpp:857-920 | accepting moves the pending offer to the queue of the payload thread if and only if it is neither being accepted nor was completed last, and keeps the invariant |
| Orchestrator.TransferOrchestrator.RunInboundPayload | lib/session/transfer_orchestrator.cpp:1058-1146 | a payload is kept if and only if it arrived whole and has the announced size, or none was announced; exactly then the session becomes the last completed, which it was not before, and in any case it is released and the station free |
| Orchestrator.TransferOrchestrator.FinishTransfer | lib/session/transfer_orchestrator.cpp:1185-1278 | finishing leaves no outstanding offer and a free station; the last completed session becomes the accepted one if and only if it was received |
| HandlerAtomicity.OfferIsAtomicAtBusyCheck | lib/session/transfer_orchestrator.cpp:806-833 | between the duplicate checks and the busy check an offer is atomic for every move of another thread, and the invariant holds |
| HandlerAtomicity.OfferIsAtomicIff | lib/session/transfer_orchestrator.cpp:833-855 | with any move of another thread between the checks of an offer and keeping it, the result is that of some order of the two, if and only if the offer did not pass its checks, or the move is neither the user accepting another pending offer nor, on an open station, starting a send |
| HandlerAtomicity.OfferKeepsInvIff | lib/session/transfer_orchestrator.cpp:833-918 | the station's invariant survives a move in that gap if and only if it is not that accept |
| HandlerAtomicity.OfferIsAtomicAtAcceptIff | lib/session/transfer_orchestrator.cpp:840-879 | on an open station, between keeping the offer and accepting it, the handler is atomic if and only if the move is neither the user declining it nor a send; the invariant survives either |
| HandlerAtomicity.OfferSlipsAreReachable | lib/session/transfer_orchestrator.cpp:797-879 | the exceptions of both gaps occur after at most one frame from the initial state |
| HandlerAtomicity.DeclineIsAtomic | lib/session/transfer_orchestrator.cpp:976-992 | a decline is atomic whatever moves between its two critical sections |
| HandlerAtomicity.ReadyIsAtomicIff | lib/session/transfer_orchestrator.cpp:994-1033 | a ready is atomic at its first gap if and only if the sender's wait does not time out there, which would leave it an empty payload |
| HandlerAtomicity.ReadyIsAtomicAtJoin | lib/session/transfer_orchestrator.cpp:1033-1056 | between taking the staged payload and handing the thread over, it is atomic for every move |
| HandlerAtomicity.TimeoutIsAtomicIff | lib/session/transfer_orchestrator.cpp:514-576 | between the look that finds the time up and clearing the offer, giving up is atomic if and only if the partner's ready is not handled there |
| HandlerAtomicity.TimeoutIsAtomicOnceCleared | lib/session/transfer_orchestrator.cpp:540-584 | once the offer is cleared, giving up is atomic for every move before it finishes |
| HandlerAtomicity.TimeoutSlipIsReachable | lib/session/transfer_orchestrator.cpp:405-540 | a sender that has sent its offer can be timing out when the ready arrives |
| HandlerAtomicity.SendIsAtomicIff | lib/session/transfer_orchestrator.cpp:405-455 | between its busy check and making the station busy, a send is atomic if and only if no frame makes an open station take an offer there |
| HandlerAtomicity.RepeatedOfferIsIgnored | lib/session/transfer_orchestrator.cpp:806-833 | handling an offer again changes nothing, whatever became of it and however the station is set by then |
| StationRules.MoveKeeps | lib/session/transfer_orchestrator.cpp:797-1056 | every move of a station keeps its invariant: one inbound session in one place, nothing pending meanwhile, no repeat of the last one, an outstanding offer only with a live wait or payload |
| StationRules.OneSessionAtATime | lib/session/transfer_orchestrator.cpp:806-918 | under arbitrary frames and input no session is completed twice in succession, nothing is pending while one is accepted, and the accepted one is never queued for a restart |
| StationHistory.SavedIffAsAnnounced | lib/session/transfer_orchestrator.cpp:1058-1146 | in every history a payload that arrives is saved, under the session of an offer heard before and addressed to this station, if and only if it arrived whole and has the size that offer announced, or none was announced |
| StationHistory.SendsWhatWasGiven | lib/session/transfer_orchestrator.cpp:405-500 | in every history an offer that goes out, for the first time or again, announces the size of the data given for its session, and a payload that goes out is that data |
| StationHistory.DecisionsAreAnswered | lib/session/transfer_orchestrator.cpp:835-974 | in every history the accepts and declines sent are the decisions of user and open station, each answered once by its own frame and in order, except for the latest, which the payload thread still has in hand |
| StationHistory.AcceptedIffHeard | lib/session/transfer_orchestrator.cpp:964-1012 | in every history an outstanding offer counts as accepted if and only if the partner's accept or ready has been heard since it was armed |
| StationHistory.ReceiverTakesThePayload | lib/session/transfer_orchestrator.cpp:1090-1146 | strays change nothing for a receiver, and the first payload ends its receive |
| StationHistory.FailedFrameEndsTheTransfer | lib/session/transfer_orchestrator.cpp:466-475 | behind an offer, accept or ready that the transport refused the transfer is given up and the station left free; behind one it took the thread goes on |
| StationHistory.DeafOnlyOnTheLink | lib/session/transfer_orchestrator.cpp:460-484 | a station hears nothing exactly while its payload thread uses the link |
| StationHistory.ThreadComesToRest | lib/session/transfer_orchestrator.cpp:460-589 | from every state the payload thread comes to rest within four moves of its own, however they turn out, with no offer of its own outstanding and an inbound session released |
| StationHistory.IdleStationIsFree | lib/session/transfer_orchestrator.cpp:272-275 | in every history a station whose payload thread is idle with nothing queued is free to send: no transfer, however it ended, leaves it busy |
| Handshake.StepKeepsInv | lib/session/transfer_orchestrator.cpp:460-594 | every move of either station and every loss keeps the order of sessions in the channels and the agreement of staged and travelling payloads |
| Handshake.SavedIsWhatWasStaged | lib/session/transfer_orchestrator.cpp:994-1146 | in every run over lossy channels, a session that finishes as received has saved exactly the bytes staged for it, although payload frames carry no session id |
| Handshake.AwaitedPayloadIsTheRightOne | lib/session/transfer_orchestrator.cpp:1058-1107 | whenever a receiver waits for a payload, every payload on its channel belongs to the session it waits for |
| HandshakeCounts.CountingChain | lib/session/transfer_orchestrator.cpp:460-540 | for every run and session: payloads sent <= readys heard <= readys sent <= accepts sent <= offers heard <= offers sent <= 2, and at most one payload |
| HandshakeCounts.StepKeepsChain | lib/session/transfer_orchestrator.cpp:857-1012 | every step keeps the chain together with what is owed by threads and under way in channels |
| HandshakeDelivery.EveryPayloadCanBeDelivered | lib/session/transfer_orchestrator.cpp:405-1146 | for every payload there is a run from the start that ends with it saved, so the safety results are not empty |
| HandshakeDelivery.Accepting | lib/session/transfer_orchestrator.cpp:994-1012 | delivery remains possible when the accept is lost, as the ready implies it |
| HandshakeDelivery.LostAcceptIsMadeUpFor | lib/session/transfer_orchestrator.cpp:994-1012 | with an accept and a ready under way to a waiting sender, losing the accept leads to the very same world as hearing both |
| OutboundWait.WaitForPartner | lib/session/transfer_orchestrator.cpp:501-589 | the loop ends with "moved on" if and only if the last look sees the flag down or the offer gone, and every earlier look saw both; it gives up only on a live offer, no earlier than the whole accept timeout after the start, or the whole ready timeout after the acceptance was first seen; it retransmits once, at the first look past the delay that sees a live, unaccepted offer |
| OutboundWait.EveryWaitEnds | lib/session/transfer_orchestrator.cpp:501-589 | if no pass takes longer than d, the wait is over by accept timeout + ready timeout + 2d, whatever is seen and when |
| OutboundWait.LongEnoughMeansOver | lib/session/transfer_orchestrator.cpp:501-589 | looks that reach beyond that time contain one that ends the wait |
| PromiseChain.RunsNeverOverlap | sdks/typescript/src/link_queue.ts:9-14 | in every run of every chain `run = tail.then(..)`, whatever is done with rejections, two runs are never in progress at once |
| PromiseChain.RunsBeginInCallOrder | sdks/typescript/src/link_send.ts:21-29 | a chain whose tail or whose next link handles rejections begins its runs in call order, none twice and none left out |
| PromiseChain.FailuresAreContainedIff | sdks/typescript/src/link_queue.ts:9-14 | in all runs of a chain no run is rejected along with a failed one if and only if the tail or the next link handles the rejection |
| PromiseChain.SomethingIsDue | sdks/typescript/src/link_queue.ts:9-14 | while a tail is unsettled, some run is in progress or some reaction is due: nothing is stuck behind a failure |
| ControlQueue.ControlLink.StartSend | sdks/typescript/src/link_send.ts:21-30 | when the tail before it has settled, either way, no other send is in progress; its job goes in front of the queue, or straight to the device if no drain is active |
| ControlQueue.ControlLink.EnqueueListen | sdks/typescript/src/link_queue.ts:17-41 | a poll is taken exactly when no listen job is queued, and then queued behind the session job |
| ControlQueue.ControlLink.ContinueDrain | sdks/typescript/src/link_queue.ts:43-64 | the drain settles its job once, passes its failure on to the send it belongs to, and takes the head of the queue or goes idle with an empty queue |
| ControlQueue.ControlLink.BeginTask | sdks/typescript/src/link_queue.ts:5-15 | a task begins as the reaction of the tail before it, and the device is unused at that moment |
| ControlQueue.ControlLink.FinishTask | sdks/typescript/src/link_queue.ts:5-15 | a task settles either way; a control task is the one its drain awaits, and the drain takes up exactly its outcome; a direct use leaves the drain alone |
| ControlQueue.ControlLink.SettleTaskTail | sdks/typescript/src/link_queue.ts:10-13 | the tail of a run is fulfilled also when the run was rejected |
| ControlQueue.ControlLink.SendsReachDeviceInCallOrder | sdks/typescript/src/link_send.ts:13-30 | sends begin and settle in the order in which they were called, although their jobs are put in front and some of them fail |
| ControlQueue.ControlLink.QuietMeansAllSettled | sdks/typescript/src/link_queue.ts:43-64 | when nothing is on the device and no reaction or continuation is due, every send called and every poll taken has run and settled exactly once |
| ControlQueue.ControlLink.Interleave | sdks/typescript/src/link_queue.ts:5-64 | every interleaving of segments keeps all of this; a non-empty queue always has an active drain; no run of either chain is rejected along with a failed one; and the n-th send settles as the n-th session use of the device went, which was for its own job: fulfilled if and only if that succeeded |
| ListenLoop.ListenController.SetListenMode | sdks/typescript/src/fabric_link.ts:51-66 | switching listening on leaves a live chain of the current generation, switching it off leaves none |
| ListenLoop.ListenController.BeginSend | sdks/typescript/src/link_send.ts:32-44 | a send that finds no device throws before its `try` and suspends nothing; any other leaves no chain of the current generation |
| ListenLoop.ListenController.ResumeSend | sdks/typescript/src/link_send.ts:43-56 | an await that rejects takes the send out of its `try`; otherwise it leaves it if and only if it has made all the transfers it was called with, and makes one more if not; leaving lowers the suspension counter by one and restarts listening if it is on, staying changes neither |
| ListenLoop.ListenController.PollBody | sdks/typescript/src/fabric_link.ts:121-130 | a poll reads from the device exactly for the current generation, with listening on and no send in its `try` |
| ListenLoop.ListenController.RunSegment | sdks/typescript/src/fabric_link.ts:94-149 | whatever segment runs, a poll that it starts is of the generation then current, and so is a read, which only happens with no send in its `try` |
| ListenLoop.ListenController.Interleave | sdks/typescript/src/fabric_link.ts:51-149 | in every interleaving of mode changes, chains and sends that may throw at every await: with listening on and no send in its `try` a chain of the current generation is alive, the suspension counter is the number of sends in their `try`, and over the whole run polls and reads come in the order of their generations, so no older chain ever polls after a newer one; a send is over without having thrown only after exactly its transfers, and one that has begun, has transfers left and has not thrown is still in its `try` |
| FrameHeader.BuildHeader | sdks/typescript/src/protocol.ts:30-47 | stores into the buffer give the header, or the overflow error of a name that encodes to more than 15 bytes |
| FrameHeader.ParseHeader | sdks/typescript/src/protocol.ts:48-76 | accepts exactly what the specification of the header accepts, with the same error otherwise |
| FrameHeader.AcceptedIffBuilt | sdks/typescript/src/protocol.ts:48-76 | for any bytes, size and kind: the parser returns that size and kind if and only if the bytes begin like the header built for them; the name is what stands before the first NUL, and each error has its own condition |
| FrameHeader.FillFileHeader | core/src/usb_transfer_core.cpp:409-422 | the C++ builder writes the same layout, with the name cut as a C string of at most 15 bytes |
| FrameHeader.HeaderRoundTrip | sdks/typescript/src/protocol.ts:30-76 | for every size and kind, building and parsing gives size, kind and kept name back if and only if the kept name is ASCII without NUL |
| FrameHeader.SameHeaderInBothLanguages | core/src/usb_transfer_core.cpp:409-422 | for such names both languages write the same 32 bytes |
| FrameHeader.DifferentFieldsDifferentHeaders | sdks/typescript/src/protocol.ts:30-47 | for names whose kept part is plain ASCII, headers are equal if and only if size, kind and kept name are |
| FrameHeader.SameHeaderIff | sdks/typescript/src/protocol.ts:30-47 | for all names that fit: two headers are the same if and only if size, kind and what is kept of the names are, with lone surrogates read as U+FFFD and NULs at the end dropped |
| FrameHeader.LoneSurrogatesCollide | sdks/typescript/src/protocol.ts:39-43 | beyond plain names they are not: any two lone surrogates give the same header |
| FrameHeader.LittleEndianRoundTrip | sdks/typescript/src/protocol.ts:36-38 | a size that fits comes back from its little-endian bytes |
| FrameHeader.LowBytesFirst | sdks/typescript/src/protocol.ts:36-38 | of the bytes of a size the lower come first |
| FrameHeader.EncodedReadsBack | sdks/typescript/src/protocol.ts:39-43 | every name, surrogate pairs included, reads back from its UTF-8 bytes, lone surrogates as U+FFFD, whatever follows |
| PayloadStream.ConcatChunks | sdks/typescript/src/protocol.ts:78-90 | for any chunks and total the result is the first total bytes of their concatenation, zero-padded if there are fewer |
| PayloadStream.SendPayload | sdks/typescript/src/link_send.ts:60-94 | transmits the header and the payload's padded chunks in order, or nothing at all when the name does not fit |
| PayloadStream.ReceivePayloadBytes | sdks/typescript/src/link_payload.ts:5-28 | takes exactly the transfers a body of that size needs off the cable and returns its bytes |
| PayloadStream.ReceiveFileTransfer | sdks/typescript/src/link_recv_file.ts:10-83 | outcome, emitted messages and what stays on the cable are those of the specification used below, errors included |
| PayloadDelivery.BodyOfCarried | sdks/typescript/src/link_payload.ts:14-27 | any division of the data into non-empty chunks, the last one padded or not, is read back as the data and nothing more |
| PayloadDelivery.PaddedChunksCarry | sdks/typescript/src/link_send.ts:79-87 | the TypeScript sender's transfers are such a division |
| PayloadDelivery.PlainChunksCarry | core/src/usb_transfer_core.cpp:790-815 | so are the C++ sender's |
| PayloadDelivery.PayloadBehindFewFrames | sdks/typescript/src/link_recv_file.ts:21-81 | behind at most fifteen session frames and empty payloads the payload comes back whole and named, the messages are emitted in order and what follows stays on the cable |
| PayloadDelivery.TooManyFramesInFront | sdks/typescript/src/link_recv_file.ts:24-81 | with sixteen or more the call times out after emitting the first sixteen and leaves the rest |
| PayloadDelivery.DeliveredIffFewInFront | sdks/typescript/src/link_recv_file.ts:24-81 | given time, the payload gets through if and only if fewer than sixteen frames are in front |
| PayloadDelivery.EmittedAreTheMessages | sdks/typescript/src/link_recv_file.ts:42-50 | when the frames in front carry printed messages, those messages are what is emitted |
| PayloadDelivery.SentPayloadIsOnWire | sdks/typescript/src/link_send.ts:72-87 | what either sender transmits for a plain name is a payload frame in the sense of the rows above |
| PayloadDelivery.SessionOnWire | sdks/typescript/src/link_send.ts:45-51 | the header and body of a session send are a frame the payload receiver reads past |
| PayloadDelivery.MessagesThenPayload | sdks/typescript/src/link_recv_file.ts:10-83 | both programs together: after up to fifteen session sends and a `sendPayload`, `receiveFileTransfer` returns the payload and its name, emits the sent messages themselves in order and leaves what follows |
| CableReading.ExactlyTakes | sdks/typescript/src/usb_xfer_in.ts:51-67 | for every queue of transfers: `transferInExact` returns the bytes of the transfers in front, none of them empty, and leaves the rest; it starves when they all hold too few, and stops at the first empty, broken or overlong one with that error |
| CableReading.BodyTakes | sdks/typescript/src/link_payload.ts:5-28 | the same of `receivePayloadBytes`, which takes as many transfers as it needs, lets the last hold more, and passes over empty ones |
| CableReading.BulkTakes | core/src/usb_transfer_core.cpp:302-327 | the same of `bulk_read_all` |
| CableReading.HeaderIsRefused | sdks/typescript/src/link_recv_file.ts:36-72 | a header that does not parse, or announces a payload of another size than expected, fails the call with that error and takes nothing more |
| CableReading.NoHeaderEndsTheCall | sdks/typescript/src/link_recv_file.ts:28-41 | without a whole header the call times out on silence, and otherwise fails with the error of the transfer |
| CableReading.TornFrameEndsTheCall | sdks/typescript/src/link_recv_file.ts:44-81 | a body cut short by a spoilt transfer fails the call; one cut short by silence hangs it |
| PayloadStream.SendSession | sdks/typescript/src/link_send.ts:13-51 | a session body of more than 65536 bytes is refused before anything is sent, any other goes out behind its header |
| SessionCodec.SerializeSessionMessage | sdks/typescript/src/session_codec.ts:61-88 | the lines pushed and joined give the common text |
| SessionCodec.WriteSessionText | lib/session/fabric_session_message.cpp:122-155 | the streamed lines give the same text, or nothing without a session id |
| SessionCodec.ParseSessionPayload | sdks/typescript/src/session_codec.ts:90-107 | reading by `split` computes the specification of the reader |
| SessionCodec.ReadSessionText | lib/session/fabric_session_message.cpp:157-182 | reading by `getline`, which yields no last empty line, computes the C++ reading of the same specification |
| SessionCodec.RoundTripIffWellFormed | sdks/typescript/src/session_codec.ts:18-107 | in either reader, parse undoes print if and only if the kind is known, the id non-empty, the fields free of newlines and outer space, and the counts not negative |
| SessionCodec.BothLanguagesAgree | lib/session/fabric_session_message.cpp:23-182 | a message well formed for the stricter reader is read back by both languages from the one text both print |
| SessionCodec.ReadMessagesAreClean | lib/session/fabric_session_message.cpp:157-182 | whatever text is accepted, the message has clean fields, a known kind and an id |
| SessionCodec.TabsTellTheReadersApart | lib/session/fabric_session_message.cpp:12-21 | a trailing tab survives C++ and is lost in TypeScript: the readers do differ |
| SessionCodec.PrintedReadsAs | sdks/typescript/src/session_codec.ts:61-107 | a printed message with clean fields is refused exactly for an unknown kind or an empty id, and otherwise read with absent counts as zero |
| SessionReading.ReadingMeans | lib/session/fabric_session_message.cpp:23-182 | for any text: a reader throws if and only if it is the C++ one and a line gives a count that cannot be read; otherwise the text is refused exactly for want of the title, a known kind or an id, and every field of the message is what the last line for it says, space around key and value apart |
| SessionReading.NumbersAreRead | lib/session/fabric_session_message.cpp:62-69 | a count is read as far as it goes, a sign, digits and then anything; without digits TypeScript takes zero and C++ throws, which also throws out of range and wraps negative numbers |
| SessionText.DecimalRoundTrip | lib/session/fabric_session_message.cpp:145-149 | the digits of a number are digits and have its value |
| SessionText.CutFacts | lib/session/announce_note.cpp:10-19 | for each notion of outer space in use, trimming yields trimmed text taken from the original and leaves exactly trimmed text alone |
| SessionReading.PrintedOffer | sdks/typescript/src/session_codec.ts:12-88 | the title, the words for the kinds, the keys and their order, as they stand in a printed message |
| AnnounceNote.BuildAnnounceNote | lib/session/announce_note.cpp:55-65 | the note built, the same in both languages, reads back in either reader exactly for the legs and instances that can be carried |
| AnnounceNote.ParseNoteByCharacters | lib/session/announce_note.cpp:67-122 | the C++ pass over the characters, with its token being collected, computes the reading by tokens |
| AnnounceNote.ParseNoteBySplitting | sdks/typescript/src/announce_note.ts:22-55 | so does the TypeScript loop over `split` |
| AnnounceNote.NoteRoundTrip | sdks/typescript/src/announce_note.ts:10-55 | in either language parse undoes build if and only if the leg is 0 to 3 (or the default itself, but not -1) and the instance has no outer space and no semicolon |
| AnnounceNote.PrintedNoteReadsAs | lib/session/announce_note.cpp:29-37 | every note reads back its status; other legs leave the default and leg -1, printed as port 0, reads as leg 0 |
| AnnounceNote.AnnounceSurvives | sdks/typescript/src/session_codec.ts:109-126 | note to message to text to message to note, in either reader: an announce for legs 0 to 3 survives if and only if its instance is free of outer space, semicolons and newlines |
| AnnounceNote.SpacesTellTheReadersApart | lib/session/announce_note.cpp:10-19 | the readers do differ: a no-break space at the end of an instance survives in C++ and is lost in TypeScript |
| AnnounceNote.GeneratedIdsSurvive | lib/session/announce_note.cpp:41-53 | the hexadecimal ids that stations draw always do |
| NoteReading.ReadNoteMeans | lib/session/announce_note.cpp:67-122 | for any text and either reader: leg, status and instance are what the last token of each kind gives, ports 1 to 4 standing for the legs and 0 for the first; a port that is no leg gives nothing |
| PeerRoster.Roster.TouchPeer | lib/session/peer_roster.cpp:42-135 | the erase loop and the three search branches compute the specification of a touch; on a roster that meets the invariant a placed announce leaves one live entry on its leg, just heard from, with what was announced |
| PeerRoster.Roster.SeedFromConfig | lib/session/peer_roster.cpp:16-40 | the roster becomes the named entries of the configuration, in order, each as configured, offline and never seen |
| PeerRoster.Roster.MarkStalePeersOffline | lib/session/peer_roster.cpp:153-165 | exactly the entries seen within the given age stay online |
| PeerRoster.TouchLeavesOneLive | lib/session/peer_roster.cpp:42-135 | after a named announce exactly one entry is live on its leg, with the announced name, instance, status and team and the time of the announce, and the roster invariant holds |
| PeerRoster.AnnouncedStaysOnlineIff | lib/session/peer_roster.cpp:66-165 | through stale marking that entry stays online if and only if no more than the maximum age has passed since the announce |
| PeerRoster.RolesAndTeamsStay | lib/session/peer_roster.cpp:61-135 | a touch changes no role, and a team only to the one announced |
| PeerRoster.UnplacedMovesNobody | lib/session/peer_roster.cpp:113-135 | an announce that names neither leg nor instance moves nobody to another leg |
| PeerRoster.IdsTellPeersApart | lib/session/peer_roster.cpp:7-12 | two ids are equal if and only if they stand for the same instance, or for the same name on the same leg |
| PeerRoster.OtherLegsKeepTheirEntries | lib/session/peer_roster.cpp:54-93 | on other legs a touch adds and changes nothing, and every entry there stays but the announced instance or, for an announce without one, the unnumbered entry of that name |
| PeerRoster.TouchIsSafeIffPlaced | lib/session/peer_roster.cpp:113-135 | a touch keeps the invariant on every roster if and only if the announce names a leg, an instance, or nobody |
| PeerRoster.NoLegHasTwoLivePeers | lib/session/peer_roster.cpp:37-174 | in every run of seeding, announces, ageing and disconnects no leg has two live peers and no instance two entries, even with duplicates in the configuration |
| RopeBuffer.SimReceiveBuffer.Drain | apps/web/sim/fabric_hub.ts:46-61 | takes exactly the first bytes of the flat queue the chunks stand for and leaves the rest |
| RopeBuffer.SimReceiveBuffer.Append | apps/web/sim/fabric_hub.ts:29-39 | adds the data at the end of the queue, and `totalBytes` stays the summed chunk lengths |
| RopeBuffer.SimReceiveBuffer.ReadUpTo | apps/web/sim/fabric_hub.ts:86-91 | returns as much as there is, up to the maximum, and loses nothing |
| RopeBuffer.FabricHub.Transmit | apps/web/sim/fabric_hub.ts:138-146 | for every cable, bytes drained and bytes buffered remain everything the other cables transmitted since the reset, in order |
| RopeBuffer.FabricHub.Read | apps/web/sim/fabric_hub.ts:86-91 | reading moves bytes from buffered to drained and changes nothing for other cables |
| RopeBuffer.NeverItsOwn | apps/web/sim/fabric_hub.ts:138-146 | what a cable hears is what it would hear had it never transmitted: the log without its own transmissions, which keeps exactly those of the others |
| RopeBuffer.SilentCablesHearTheSame | apps/web/sim/fabric_hub.ts:138-146 | cables that are silent themselves hear the same bytes |
| LogShipper.ComputeNewLines | apps/web/src/lib/booth_log_shipper.ts:14-29 | returns what lies behind the longest suffix of the earlier tail that is a prefix of the present one |
| LogShipper.BatchIsExactIff | apps/web/src/lib/booth_log_shipper.ts:14-29 | for every log, lines repeated or not, a batch is exactly the lines since the last successful post that the ring still shows if and only if no longer end of the shipped snapshot recurs at the start of the ring; otherwise it is too short |
| LogShipper.BatchIsWhatIsNew | apps/web/src/lib/booth_log_shipper.ts:56-66 | so without repeated lines every batch is exact |
| LogShipper.NothingEvictedNothingLost | apps/web/src/lib/booth_log_shipper.ts:14-29 | while the ring has evicted nothing the batch is exact even with repeated lines |
| LogShipper.RepeatedLinesCanBeLost | apps/web/src/lib/booth_log_shipper.ts:14-29 | with a full ring of equal lines, one more equal line is never shipped |
| LogShipper.ShippedGrows | apps/web/src/lib/booth_log_shipper.ts:56-80 | for every log, what has been shipped stays the whole log up to the cursor if and only if it was and the new batch is whole: no gap of more than 400 lines and no misleading repetition; a loss is never made up for |
| LogShipper.ShippedOnce | apps/web/src/lib/booth_log_shipper.ts:56-80 | without repeated lines no line is ever shipped twice, gaps included |
| LogShipper.BoothLog.Ship | apps/web/src/lib/booth_log_shipper.ts:56-66 | with no post in flight, one starts with the new lines of the present tail exactly when there are any |
| LogShipper.BoothLog.Settle | apps/web/src/lib/booth_log_shipper.ts:66-80 | only success moves the cursor and ships the batch; a failed post is retried from the same cursor |
| LogShipper.BoothLog.Log | apps/web/src/lib/booth_log.ts:72-85 | the ring shows the last 400 lines of everything logged, also while a post is in flight |
| TarMembers.FindFreeSuffix | lib/session/fabric_tar_pack.cpp:117-128 | the open-ended search ends with the first free suffix, within as many tries as there are names and one more |
| TarMembers.TakenSuffixesAreFew | lib/session/fabric_tar_pack.cpp:119-121 | at most as many suffixes are taken as there are names, as numbered names are injective |
| TarMembers.DisambiguateTarMembers | lib/session/fabric_tar_pack.cpp:93-130 | members end pairwise distinct; each ends under its own name, with its parent directory in front if another has the same name and it has a usable parent, unless an earlier one ended under that name, and then under the first free number; count and sources stay, and entries that were distinct stay as they were |
| TarMembers.NothingToDo | lib/session/fabric_tar_pack.cpp:93-130 | distinct names are left alone, so disambiguating twice is disambiguating once |
| TarMembers.CountMembers | lib/session/fabric_tar_pack.cpp:94-97 | the map counts the occurrences of every name |

## Left out

- libusb and WebUSB calls, opening, claiming and recovering devices, files and temporary files, starting tar: outside calls; they appear as channels, parameters and arbitrary results.
- A short transfer that is not the last one: the receiver would take its missing bytes from the next, so it is excluded by the premise on successful transfers.
- Memory order of the atomics and real clocks: steps are sequentially consistent and time is an integer or a number of passes.
- `receive_file_core` after an abort gives up its drain after two seconds: the model lets the drain end at any point, so nothing depends on it.
- `file_cross_connect_core`: its loop may revisit a slot the writer has not drained, and in-order delivery is not a property of every interleaving there.
- `reset_connection`, loss of the cable, and two overlapping calls of `send_to_peer`: not steps of the station model.
- A handler, a send or a timeout interrupted by one of the moves named in `handler_atomicity`: not a step of the station model either; there one such move in one gap is considered at a time.
- Payload frames in the handshake arrive whole or not at all: their division into transfers is the subject of the streaming and payload modules.
- Joining the payload thread: a queued accept or decline starts once the thread is idle; two threads that join each other are not modelled.
- Session ids: a counter stands for the random text; only equality is ever used.
- The address check of an offer is a flag of the event: any name comparison is covered.
- `session_listener`: its pause and resume are the deafness premise of the station model.
- `headerRead` and `tryReceiveSessionOnce`: a poll is one job that settles in some way; the read it leaves armed is not modelled.
- `abortStuckTransfer` and the chain of interface recoveries: device recovery, with no effect on what the queue keeps.
- JavaScript numbers beyond 2^53: sizes and counts are exact integers.
- PayloadStream.ReceiveFileTransfer: the bytes-to-text decoding of a session body is a parameter, so the results hold for every decoder.
- TarMembers.DisambiguateTarMembers: does not claim that a renamed member resolves under its base directory; the parts of a path are given fields.
- RopeBuffer.FabricHub: all cables of one browser tab; messages between tabs go through the same append and their order is not modelled.
- LogShipper.BoothLog: clearing the log and switching it off are not modelled.
- PeerRoster.Roster: `touch_peer_presence`, `set_peer_online` and `set_all_peers_online` are not modelled, as nothing in the handshake calls them.
- The web orchestrator and the web roster: the C++ ones are modelled.
- Panels, components, formatting, rates, jitter, identity and configuration files: display or text with little behind it.
