# Penguin multiplexor: a verified model

Penguin tunnels TCP streams and UDP datagrams over one WebSocket. Its `penguin_mux` crate runs a
symmetric two-peer protocol that multiplexes credit-controlled byte streams over that one reliable,
ordered connection. This project models the protocol and the code around it in Dafny and proves what
two conforming peers guarantee in every reachable state. Nothing was executed; everything below is
established by the verifier. Check the project with `dafny verify dfyconfig.toml`.

## How it is organised

- `Frames.dfy`: frames and the small integer types. `Codec.dfy`: their binary form.
- `Peer.dfy`: one peer's view of one flow id (`Side`), and what every frame, user call and drop does to it.
- `Lane.dfy`: two sides and the frames between them, for one flow id. `Invariant.dfy`: what every step
  keeps. `Preservation.dfy`: the proof that it does.
- `Link.dfy`: two whole peers, all flow ids, one first-in-first-out sequence of tagged frames per
  direction. A step of the link is a step of one lane and leaves every other lane as it was.
- `Theorems.dfy`, `Progress.dfy`: the results over all runs of the link. `Ledger.dfy`: the writer's books.
  `Parting.dfy`: what becomes of a writer whose reader is gone.
- `Mux.dfy`: the multiplexor as an object with a flow table and queues, updated in place, method by
  method; `WindDown.dfy`: the loops of its task; `Refinement.dfy`: two such objects are a link.
- `Waker.dfy`: a writer waiting for credit, at the grain of single atomic operations.
- `Copy.dfy`: the bidirectional copy future. `Client.dfy`: the client's UDP index and parked request.
  `Timing.dfy`: backoff. `Remotes.dfy`: the remote specification's printer and parser.

Some findings go against what one would expect of the code. Each is stated as an exact condition, with
a witness:

- A writer can be left without credit for good if and only if the reader's threshold, clamped by the
  writer's window, exceeds the reader's own window (`Progress.ProgressExactly`; `PROTOCOL.md:168-169` asks
  for an acknowledgement after `rwnd` frames at the latest).
- A writer whose reader shut down and then dropped its stream is not told, and waits for ever if and only if
  the chunks the reader left unread or had not acknowledged are its whole window and the writer has too
  little to read for an `Acknowledge` of its own (`Parting.AbandonedExactly`, `Parting.UnreadWindowStrands`).
- A writer can sleep through a wake-up if and only if an update it has already looked past is woken for
  before it registers (`Waker.AsleepExactly`, `Waker.LostWakeUp`).
- An empty read that is not the end of the stream happens if and only if the next chunk written is empty
  (`Theorems.EndIsExact`, `Progress.EmptyWriteLooksLikeEnd`); the bidirectional copy then stops and loses
  what follows (`Copying.CopyBidirectional.PollBoth`, `Copying.EmptyChunkEndsCopy`).
- A datagram the encoder produces is refused by the decoder if and only if it has fewer than four bytes of
  data (`Codec.RoundTrip`).
- A remote specification makes the tokenizer slice out of range if and only if the last of its tokens is
  bracketed (`Remotes.TokenizePanicsExactly`, `Remotes.ParsePanicsExactly`).
- Ids are never allocated as 0, and two conforming peers never use 0 for a flow
  (`Theorems.ZeroIsNeverAFlow`), but a `Connect` with id 0 is accepted, and dropping its stream ends the
  task (`WindDown.ZeroStreamStopsTask`).

## Assumptions

- The connection is reliable and ordered. The outgoing queue, the WebSocket and the wire are one
  sequence per direction, and scheduling is arbitrary.
- A flow id is given out again only when nothing of its last use survives at either peer: no slot, no
  frame in flight, no live handle, no pending drop (`Lanes.Idle`). The code relies on random 32-bit ids
  for this (`src/mux/lib.rs:536-543`). Two `Connect`s for the same free id are allowed in every
  interleaving; a `Bind` does not share its id with another request (`Lanes.IdAssumption`).
- Windows and thresholds are positive, as `src/mux/config.rs:112-137` enforces.
- Requesting futures are not cancelled. On a link both multiplexors live; `Mux.dfy` and `WindDown.dfy` also
  cover a user that is gone and an outgoing queue that is closed.
- Atomic operations are sequentially consistent. A write or shutdown is two steps, getting permission
  and queueing the frame, and anything may happen in between; a handle's methods do not overlap.

## Model

| member | source | states |
|---|---|---|
| `Theorems.CreditConserved` | src/mux/stream.rs:177-239 | in every reachable state, credit + frames in flight + frames queued + frames taken since the last acknowledgement + acknowledgements in flight never exceed the reader's window, and equal it while the writer has its slot and the reader its stream |
| `Theorems.QueueNeverOverruns` | src/mux/task.rs:424-439 | between conforming peers the branch that resets a stream for overrunning its window is never taken |
| `Theorems.CreditNeverWraps` | src/mux/lib.rs:377-386 | the atomic addition of an acknowledged count never wraps around 32 bits |
| `Theorems.ReadsArePrefix` | src/mux/stream.rs:83-170 | over every run the bytes read at one end are a prefix of the bytes written at the other |
| `Theorems.EndIsExact` | src/mux/stream.rs:138-164 | a reader at the end of its stream, by `Finish` or by the `Reset` of a drop, has read every byte written, and no more can be written; an empty read that is not the end happens if and only if the next chunk written is empty and has arrived |
| `Progress.EmptyWriteLooksLikeEnd` | src/mux/stream.rs:153-156 | with any configurations, a run in which the reader is told the end while the writer has not finished |
| `Theorems.EndComesExactly` | src/mux/task.rs:390-423 | with everything delivered and consumed, the reader is at the end if and only if the writer has finished |
| `Theorems.RequestsAreAnsweredOnce` | src/mux/lib.rs:200-231 | simultaneous open: one answer per request and no second, an answer under way while there is none, at most one of two requests for an id becomes a stream, and a stream made exists at both ends |
| `Theorems.RequestsArriveAsAsked` | src/mux/task.rs:503-531 | in every reachable state an accepted stream is to go to the port and host its requester named, and a bind request names the type, port and host its requester named |
| `Theorems.SettledPeersAgree` | src/mux/task.rs:335-452 | when nothing of an id is under way, both peers hold it, neither does, or one does and has taken the other's `Finish`; no request is left waiting |
| `Theorems.NoSlotLeaks` | src/mux/task.rs:138-151 | an established slot has its stream with the user or on the way there, or its id in the dropped-ports queue |
| `Theorems.AnsweredExactly` | src/mux/task.rs:335-499 | for every frame in every state: what finds nothing it could be for, or overruns the window, is answered with `Reset`, a `Connect` for a free id with our window, and nothing else is answered |
| `Theorems.TakenExactly` | src/mux/task.rs:359-452 | what any other frame does to an established slot, cell by cell |
| `Theorems.LateDataIsReset` | src/mux/task.rs:447-450 | on a reachable link data finds its receiving end or no slot at all, and without a slot it draws a `Reset` |
| `Parting.LateDataEndsWriter` | src/mux/task.rs:447-450 | serve the flow of such data in any order until nothing is left: its writer has lost its slot and its writes are broken pipes |
| `Parting.ToldExactly` | src/mux/task.rs:617-641 | a side whose peer has given up its slot has lost its own when everything is served if and only if a `Reset` was in flight, or it had sent something, or it had enough to read to send an `Acknowledge` |
| `Ledger.BooksBalance` | src/mux/stream.rs:177-239 | as long as a writer has its slot, whatever became of the reader: credit, permission, chunks written and acknowledgements in flight are the window and the chunks taken, less those not acknowledged |
| `Parting.AbandonedExactly` | src/mux/task.rs:630-641 | a writer whose reader shut down and left without a `Reset` waits for ever if and only if what the reader left unread and what it had not acknowledged are its whole window, and the writer has too little to read for an `Acknowledge` |
| `Parting.NextWriteTells` | src/mux/stream.rs:103-113 | with credit, its next write draws the `Reset` |
| `Parting.StrandedForever` | src/mux/stream.rs:212-225 | without, nothing its user does short of giving up the stream changes that |
| `Parting.StrandedByPeer` | src/mux/task.rs:617-625 | nor does anything the peer can do |
| `Parting.UnreadWindowStrands` | src/mux/task.rs:630-641 | with any configurations a reachable state of this kind |
| `Theorems.ZeroIsNeverAFlow` | src/mux/lib.rs:546-556 | between conforming peers id 0 is never a slot, a stream, a dropped port or a frame of a flow, so a 0 in the dropped-ports queue is the multiplexor's own notice |
| `Theorems.FramesKeepOrder` | src/mux/stream.rs:201-258 | what is in flight is the end of what was sent; no `Push` or second `Finish` after a `Finish`; one `Finish` or one `Reset` for a drop, not both; an acceptor speaks its handshake `Acknowledge` first |
| `Theorems.BindGetsFirstReply` | src/mux/lib.rs:306-320 | a bind gets exactly one result, the acceptor's first reply, however many follow |
| `Theorems.BindNeedsConsent` | src/mux/task.rs:453-478 | a peer that does not accept binds never has a request with its user, replies no, and its requester hears no |
| `Theorems.LaterRepliesAreInert` | src/mux/lib.rs:519-524 | replies after the first change no slot and no result at the requester, and a trailing `Reset` is not even answered |
| `Theorems.ReachableSwap` | src/mux/task.rs:335-499 | the protocol is symmetric: the mirror of a reachable link is reachable, so each result holds for both peers |
| `Preservation.StepKeeps` | src/mux/task.rs:335-661 | every step of either peer on a flow id keeps the invariant |
| `Preservation.OpenedDeliver` | src/mux/task.rs:359-452 | delivering any frame to an open stream keeps flow control, delivery, end-of-stream and reset invariants in both directions |
| `Preservation.OpenedDo` | src/mux/stream.rs:62-258 | so does anything the user or the dropped-ports loop does with an open stream |
| `Preservation.AcceptorActs` | src/mux/task.rs:544-592 | what an acceptor does before its `Acknowledge` arrives it could have done after: the lane stays one frame away from an open one |
| `Preservation.HandshakeDelivers` | src/mux/task.rs:544-612 | in every interleaving of two handshakes on one id, a delivery leads to another handshake state or to an accepted stream |
| `Preservation.FreshlyOpened` | src/mux/task.rs:503-537 | two streams made by `Peer.NewStream`, each with the other's window, satisfy the whole invariant of an open stream: full credit both ways, empty queues, thresholds clamped by the other's window |
| `Links.LinkStepView` | src/mux/task.rs:335-342 | a step of two whole peers, seen at one flow id, is a step of that flow id alone or nothing |
| `Links.RunKeeps` | src/mux/task.rs:106-128 | along every run, every flow id satisfies the invariant |
| `Progress.NoResetStorm` | src/mux/task.rs:335-499 | from any two states with any frames in flight, even bogus ones, deliveries and drops alone end after a bounded number of steps |
| `Progress.ProgressExactly` | src/mux/task.rs:511-534 | a writer can be stuck without credit, the reader having read everything and nothing in flight, if and only if the reader's clamped threshold exceeds its own window |
| `Progress.StuckStays` | src/mux/stream.rs:212-225 | such a state does not change by reading, writing or delivering |
| `Progress.ServiceEnds` | src/mux/stream.rs:138-194 | from any state, every run of deliveries, drops and effective reads of both sides of a flow is no longer than the work there is to do |
| `Progress.ServedWriterHasCredit` | src/mux/stream.rs:177-239 | serve a flow of any reachable link in any order: after at most that many steps nothing is left to serve, and if the threshold fits and the stream is still open its writer then has credit |
| `Progress.SilentWriterHasCredit` | src/mux/stream.rs:177-194 | when the threshold fits, the writer of a silent lane has credit |
| `Multiplexor.Mux.ProcessFrame` | src/mux/task.rs:335-499 | each frame does to its own flow id what the side functions say and to no other, with the queue open or closed and the user there or gone; it fails exactly for a new stream that cannot be acknowledged or handed over and for a datagram nobody receives, and never with `ConnAckGone` |
| `Multiplexor.Mux.ConRecvNewStream` | src/mux/task.rs:544-592 | an in-use id is reset and kept, a free one is established with the `Acknowledge` queued before the user has the stream; on a closed queue or with the user gone the stream is dropped at once and the failure reported |
| `Multiplexor.Mux.AckRecvNewStream` | src/mux/task.rs:598-612 | only a requested slot becomes a stream, which answers the request; any other slot is left alone and reported |
| `Multiplexor.Mux.NewStreamShared` | src/mux/task.rs:503-537 | the flow id gets the new stream of `Peer.NewStream`, which two peers need to start with full windows (`Preservation.FreshlyOpened`); no other id changes and nothing is queued |
| `Multiplexor.Mux.ProcessAcknowledge` | src/mux/task.rs:359-389 | an `Acknowledge` adds credit, finishes a handshake, or is reset, by the state of its slot; never fails |
| `Multiplexor.Mux.ProcessFinish` | src/mux/task.rs:390-421 | `Finish` ends reading, accepts a bind, refuses a `Connect`, or is reset |
| `Multiplexor.Mux.ProcessPush` | src/mux/task.rs:424-452 | data is queued in order, ignored for a dropped stream, and reset without a receiving end |
| `Multiplexor.Mux.ProcessBind` | src/mux/task.rs:453-478 | a bind reaches the user, or is rejected where binds are not accepted or the user is gone, or is ignored while winding down |
| `Multiplexor.Mux.ClosePort` | src/mux/task.rs:617-625 | closing a port frees the slot, ends reading and writing, answers a waiting request, and sends `Reset` only for a stream not finished and not inhibited |
| `Multiplexor.Mux.ClosePortLocal` | src/mux/task.rs:630-661 | the same for a slot already taken out of the table |
| `Multiplexor.Mux.InsertRequested` | src/mux/lib.rs:206-213 | a free id gets its slot; nothing is queued yet |
| `Multiplexor.Mux.SendConnectFrame` | src/mux/lib.rs:214-217 | the `Connect` queued, in a step of its own, names our window and the port and host the call was made with |
| `Multiplexor.Mux.InsertBindRequested` | src/mux/lib.rs:307-315 | a free id gets a bind slot |
| `Multiplexor.Mux.SendBindFrame` | src/mux/lib.rs:316-317 | the `Bind` queued, in a step of its own, names the type, port and host the call was made with |
| `Multiplexor.Mux.ReplyBind` | src/mux/lib.rs:507-517 | accepting queues `Finish`, rejecting queues `Reset` |
| `Multiplexor.Mux.DropBindRequest` | src/mux/lib.rs:519-524 | dropping the request rejects it once more |
| `Multiplexor.Mux.PollObtainWritePermission` | src/mux/stream.rs:201-239 | broken pipe after a finish, pending without credit, else exactly one credit spent |
| `Multiplexor.Mux.QueuePending` | src/mux/stream.rs:108-112 | the permitted frame is queued and, for data, counts as written; a closed queue refuses it and nothing counts |
| `Multiplexor.Mux.SwapFinishSent` | src/mux/stream.rs:244-258 | only the first shutdown gets to queue a `Finish` |
| `Multiplexor.Mux.IncrementPshRecvdSince` | src/mux/stream.rs:177-194 | the counter grows by one or turns into an `Acknowledge` of its value at the threshold |
| `Multiplexor.Mux.PollFillBuf` | src/mux/stream.rs:138-164 | pending exactly while there is nothing and more may come; otherwise the buffer, refilled by one chunk that is counted |
| `Multiplexor.Mux.ConsumeBytes` | src/mux/stream.rs:167-169 | consumed bytes leave the buffer from the front and count as read |
| `Multiplexor.Mux.DropMuxStream` | src/mux/stream.rs:62-74 | the id joins the dropped-ports queue and the receive queue is gone |
| `Multiplexor.Mux.DropMultiplexor` | src/mux/lib.rs:339-345 | id 0 joins the dropped-ports queue and the user's receivers are gone; no flow changes |
| `Multiplexor.Mux.DoAction` | src/mux/stream.rs:62-258 | every action of a user does to its flow id what the side functions say and to no other |
| `Multiplexor.Mux.ProcessNextDrop` | src/mux/task.rs:142-151 | the oldest dropped id is closed, with a `Reset` if its stream was not finished; id 0 closes nothing and ends the loop |
| `Multiplexor.Mux.DisallowWrite` | src/mux/lib.rs:391-404 | the finish flag of one stream is set, nothing else changes |
| `Refinement.ReceiveNext` | src/mux/task.rs:225-238 | on a reachable link the object takes the next frame without failing and moves as the link does |
| `Refinement.ProcessNext` | src/mux/task.rs:138-151 | a dropped id is processed as the link does it, and is never taken for the multiplexor's own notice |
| `Refinement.Connected` | src/mux/lib.rs:132-185 | two new objects are the two peers of a fresh link |
| `Refinement.Acts` | src/mux/stream.rs:62-258 | whatever a user does with one object, the objects stay the two peers of a reachable link |
| `Refinement.Exchange` | src/mux/task.rs:203-238 | a frame leaves one object's queue and is processed by the other without failing, and the objects stay the two peers of a reachable link |
| `Refinement.SendsDatagram` | src/mux/lib.rs:277-291 | so do they when a datagram is queued |
| `Refinement.Reuses` | src/mux/lib.rs:536-543 | and when an id of which nothing is left at either object is free again |
| `Refinement.ObjectsDeliver` | src/mux/stream.rs:83-239 | so what one object's reader has read is a prefix of what the other's writer wrote, all of it at the end, and credit is conserved between the two objects |
| `WindDown.ProcessDroppedPorts` | src/mux/task.rs:138-162 | every id queued before the multiplexor's own notice loses its slot, ids not queued are untouched, and one `Reset` goes out for each open stream, in order, once |
| `WindDown.ZeroStreamStopsTask` | src/mux/task.rs:142-151 | a foreign peer that opens a stream with id 0 makes the task stop as if the multiplexor had been dropped, once that stream is dropped |
| `WindDown.ProcessMessage` | src/mux/task.rs:303-316 | after closing, a message changes its own flow id only, sends nothing, and fails exactly on undecodable bytes, a `Connect` for a free id or a datagram nobody receives |
| `WindDown.ProcessRemaining` | src/mux/task.rs:288-291 | the remaining messages are processed in order up to the first fatal one, with users acting in between |
| `WindDown.DisallowWrites` | src/mux/task.rs:249-253 | exactly the established streams lose the right to write |
| `WindDown.Yield` | src/mux/task.rs:254-257 | whatever users do before the queue is closed, each flow id is where their acts lead and the frames they queued follow the ones already there |
| `WindDown.DrainTable` | src/mux/task.rs:293-295 | the table is emptied, each slot closed silently |
| `WindDown.WindDown` | src/mux/task.rs:242-297 | with users acting throughout, it succeeds if and only if no remaining message is fatal; the i-th frame queued before the close is the i-th thing the socket gets, and the close comes last; then the table is empty and each id is what the acts, the messages and a silent close make of it |
| `WindDown.OrderPerFlow` | src/mux/task.rs:269-283 | so each flow id gets its frames in the order they were queued |
| `WindDown.NothingIsWritten` | src/mux/task.rs:249-253 | from the moment writing is disallowed no data is accepted on an established stream, but for a frame that had its permission before |
| `WindDown.NobodyWaits` | src/mux/task.rs:630-661 | after winding down a pending request has exactly one answer, rejected unless something better came, and a pending bind exactly one result, whatever users and the peer did meanwhile |
| `WindDown.StreamsAreClosed` | src/mux/task.rs:292-295 | a stream open when winding down began can neither write nor receive after |
| `Waker.AsleepExactly` | src/mux/stream.rs:201-238 | over every schedule: a parked writer nobody will wake has unseen credit or finish if and only if, since its poll began, a cell was updated after it had checked that cell and the wake-up came before it had registered |
| `Waker.ParkedWriterIsTold` | src/mux/lib.rs:377-404 | an update woken for after the registration always reaches the writer |
| `Waker.LostWakeUp` | src/mux/stream.rs:215-224 | a run in which a writer with credit sleeps for good |
| `Copying.CopyBidirectional.PollReadUs` | src/mux/stream.rs:330-367 | for every script of answers the stream ends up where `Play` says and the poll reports why it stopped; the count is what the other side accepted, each chunk taken is acknowledged or counted, and the other side is shut down only after every byte ahead of the first empty chunk |
| `Copying.TookMoves` | src/mux/stream.rs:347-350 | bytes the other side took leave the front of the buffer, reach it and are not offered again |
| `Copying.PlayStops` | src/mux/stream.rs:334-358 | no byte is lost, repeated or reordered, and a poll stops only when there is nothing to forward, at the end, or at an answer that says so |
| `Copying.EnoughAnswers` | src/mux/stream.rs:334-358 | if the other side takes something each time, a poll gets to the end of what there is |
| `Copying.CopyBidirectional.ReadPendsOnlyIf` | src/mux/stream.rs:336-347 | a pending poll has nothing to forward, a blocked other side, or no more answers |
| `Copying.CopyBidirectional.PollWriteUs` | src/mux/stream.rs:369-402 | for every script of answers the frames queued, the credit and the rest of the buffer are what `Draw` says; ready means that all that was offered is queued and our end is finished, with one `Finish` |
| `Copying.DrawStops` | src/mux/stream.rs:373-398 | one credit for each frame, and a stop only when the other side has nothing, failed or ended, without credit, or on a broken pipe |
| `Copying.DrawForwards` | src/mux/stream.rs:391-397 | with credit for all of them every buffer offered becomes one frame, as it is, in order |
| `Copying.CopyBidirectional.WritePendsOnlyIf` | src/mux/stream.rs:373-391 | a pending poll has a blocked other side, a buffer that waits for credit, or no more answers |
| `Copying.CopyBidirectional.PushSource` | src/mux/stream.rs:391-397 | a whole buffer is queued for exactly one credit, or stays where it is |
| `Copying.CopyBidirectional.PollBoth` | src/mux/stream.rs:412-416 | a ready future has moved every byte of the other side, and of ours every byte ahead of the first empty chunk, and counts them; it has moved all of ours if and only if nothing but empty chunks followed |
| `Copying.StopsAtEmpty` | src/mux/stream.rs:337-345 | stopping at the first empty chunk loses nothing if and only if nothing but empty chunks follows it |
| `Copying.EmptyChunkEndsCopy` | src/mux/stream.rs:337-345 | a run in which an empty chunk ends the copy with data queued behind it and the stream still open |
| `Codec.Encode` | src/mux/frame.rs:211-229 | the encoded length is five plus the payload length |
| `Codec.EncodeInto` | src/mux/frame.rs:502-561 | the field-by-field encoder yields the specified bytes, of the size it estimated |
| `Codec.DecodeFrom` | src/mux/frame.rs:442-500 | the cursor-based decoder yields the specified frame or error on all inputs |
| `Codec.DecodePayloadFrom` | src/mux/frame.rs:455-497 | the same for the payload of each opcode |
| `Codec.RoundTrip` | src/mux/frame.rs:485-497 | decoding an encoded frame gives it back if and only if it is not a datagram with fewer than four bytes of data |
| `Codec.AcceptedBytesReencode` | src/mux/frame.rs:442-500 | accepted bytes start with the encoding of what was decoded, and equal it for `Connect`, `Push`, `Bind` and `Datagram` |
| `Codec.Layout` | PROTOCOL.md:56-130 | version 7, the seven opcodes and the types of bind as numbers, and every field where the protocol document puts it |
| `Codec.DecodesExactly` | src/mux/frame.rs:442-500 | which bytes are accepted, as numbers: the decoder accepts exactly those, the first byte says which kind of frame they are, and each refusal has its error |
| `Codec.NetworkOrder` | PROTOCOL.md:78-79 | integers are written most significant octet first |
| `Codec.SendDatagram` | src/mux/lib.rs:277-291 | a datagram is queued exactly when its host fits, and the peer decodes it exactly when it has four bytes of data |
| `UdpIndex.MapsNeverDisagree` | src/client/mod.rs:111-158 | over every sequence of adds and prunes the two maps are inverse, ids are not zero, and no lookup the code relies on can fail |
| `UdpIndex.LivePairKeepsId` | src/client/mod.rs:120-126 | a pair keeps its id as long as it lives |
| `UdpIndex.PairsHaveOwnIds` | src/client/mod.rs:127-136 | different pairs have different ids |
| `UdpIndex.PruneIsExact` | src/client/mod.rs:146-157 | pruning removes exactly the expired entries from both maps |
| `UdpIndex.ClientIdMaps.AddUdpClient` | src/client/mod.rs:111-137 | a known pair is refreshed and keeps its id, a new one gets the free id |
| `UdpIndex.ClientIdMaps.PruneUdpClients` | src/client/mod.rs:140-158 | the pass over the id map leaves both maps pruned and consistent |
| `Reconnecting.Client.GetSendStreamChan` | src/client/mod.rs:434-462 | a request is handed over, or parked in a slot that is free |
| `Reconnecting.Client.OnConnected` | src/client/mod.rs:367-429 | what a session hands over, parks and ends with, for every script of events; a parked request goes first, and if it fails again nothing else has moved |
| `Reconnecting.Client.ServeEvents` | src/client/mod.rs:384-428 | each command taken is handed over in order, or parked if it fails, and the session ends as its last event says |
| `Reconnecting.SmoothHandsOver` | src/client/mod.rs:388-392 | as long as all goes well a session hands over one request for each time it turns to them |
| `Reconnecting.SessionEnds` | src/client/mod.rs:384-428 | what ends a session, and whether the client then quits, retries or fails |
| `Reconnecting.GoodSession` | src/client/mod.rs:380-392 | a good session hands over the parked request and as many queued ones as it is asked for |
| `Reconnecting.GivesUpExactly` | src/client/mod.rs:325-347 | without a connection the client gives up after exactly the retries it may make, or never |
| `Reconnecting.Client.MainLoop` | src/client/mod.rs:300-349 | across any number of connections, requests handed over are the first that arrived, in order and once, as many as the sessions give; the next is parked or queued; the client ends as they say, with the backoff's limit, and the backoff never overflows |
| `Timing.Backoff.Advance` | src/mux/timing.rs:45-54 | the k-th success since reset yields the k-th duration; with a limit n > 0 there are exactly n successes, in spite of the wrapping counter; it panics exactly when the next product does not fit a `Duration` |
| `Timing.Backoff.Reset` | src/mux/timing.rs:57-60 | counting starts over |
| `Timing.AdvanceMany` | src/mux/timing.rs:33-60 | a run of calls: with a limit n > 0 exactly the first n wait and the rest are told no, without one all wait, and the k-th waits min(initial * mult^k, max); up to the first overflow if there is one |
| `Timing.ReportedExactly` | src/mux/timing.rs:45-54 | what a call reports: nothing more after the limit, before it the smaller of initial * mult^k and max, unless its product with the multiplier does not fit |
| `Timing.ClampedStep` | src/mux/timing.rs:51-52 | clamping at every step equals clamping once at the end: the k-th duration is min(initial * mult^k, max) |
| `Timing.FitsAlways` | src/mux/timing.rs:51-52 | a schedule whose longest step, multiplied, still fits never panics |
| `Remotes.RemoteRoundTrip` | src/parse_remote.rs:122-246 | a printed remote parses back if and only if hosts with a colon have no closing bracket, other hosts do not start with a bracket, and a SOCKS remote is TCP and not on a local host called "stdio" |
| `Remotes.TokenizeRemote` | src/parse_remote.rs:99-120 | the shrinking-slice loop ends and yields the specified tokens, error or slice out of range |
| `Remotes.TokenizeExactly` | src/parse_remote.rs:99-120 | the tokenizer succeeds exactly on tokens joined by colons of which the last is not bracketed, and finds those tokens |
| `Remotes.TokenizePanicsExactly` | src/parse_remote.rs:104-111 | it slices out of range exactly on tokens joined by colons of which the last is bracketed |
| `Remotes.ParsePanicsExactly` | src/parse_remote.rs:153-246 | so does the parser, on what precedes a valid protocol or on the whole string |
| `Remotes.BracketedAddressPanics` | src/parse_remote.rs:104-111 | a bracketed host alone, or after a port, is such an input |
| `Remotes.PrintedNeverPanics` | src/parse_remote.rs:122-147 | no printed remote does, not even one that does not parse back |
| `Remotes.BracketErrors` | src/parse_remote.rs:104-109 | an unclosed bracket is a bad host, one closed before anything but a colon a bad format |
| `Remotes.WithProtocol` | src/parse_remote.rs:153-158 | a specification without a slash is TCP; with one, what follows the last is the protocol |
| `Remotes.ProtocolExactly` | src/parse_remote.rs:85-95 | "tcp" and "udp" in either case, and nothing else |
| `Remotes.PortExactly` | src/parse_remote.rs:166-170 | a number is a port if and only if it is below 65536 |
| `Remotes.ShortFormsWithoutHost` | src/parse_remote.rs:159-186 | what a port, "socks" and "stdio" stand for alone or in pairs |
| `Remotes.HostAndPort` | src/parse_remote.rs:187-191 | host and port: any local address, same port |
| `Remotes.PortHostAndPort` | src/parse_remote.rs:212-219 | port, host and port: any local address, given port |
| `Remotes.PortRoundTrip` | src/parse_remote.rs:166-170 | a printed port parses to itself |

## Left out

- Tokio, the WebSocket library, keepalive pings and logging: they appear as an ordered sequence and arbitrary scheduling.
- Weak memory orderings: the result would not change at the grain modelled.
- Cancelled requests: the code documents that they are not cancel safe (`src/mux/lib.rs:194-198`).
- Multiplexor.Mux.AckRecvNewStream: the failure to hand a stream to a requester that was cancelled is not modelled, because requests are not cancelled here.
- Multiplexor.Mux.ProcessFrame: for the same reason that failure is not among its outcomes.
- The retry count of `new_stream_channel`: each attempt is modelled, the loop around it only repeats them.
- Randomness of flow ids: an id is any free one, see the assumptions.
- Socket errors while winding down: `WindDown.WindDown` covers the path without them.
- WindDown.WindDown: whether the user is gone does not change while it runs.
- Datagram delivery beyond the codec: it is lossy by design.
- Timing.Backoff.Advance: the counter wraps, as in a release build; a debug build panics there instead.
- Remotes.RemoteRoundTrip: default hosts are the IPv4 ones; the IPv6 build feature is not modelled.
- SOCKS, TLS, ACME, the HTTP service, argument parsing and the server's forwarders: input and output, or thin wrappers.
