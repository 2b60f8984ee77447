# libspaznet, verified

A Dafny model of the protocol code of libspaznet: the QUIC stream data plane and
connection bookkeeping of `example/quic-http3`, the header and frame codecs, the
HTTP/2 and WebSocket frame machines, and the timers, writers and buffered
connections of the event loop.

`dafny verify dfyconfig.toml` checks everything. There are no assumptions,
axioms or external members.

## How it is built

Most stateful components appear twice: as a value with pure operations, and as a
class with the program's own fields and loops whose methods are proved to
compute those operations. Protocols are state machines over the values, and the
theorems about them hold of every run. The coroutines of `Writers` are a state
machine only.

| files | part of the program |
|---|---|
| `Reassembly`, `RecvSide` | receive half of a QUIC stream: chunk list against the bytes it holds |
| `SendQueue`, `SendRuns`, `SendSide` | send half: compacting buffer and range lists against all bytes written |
| `AckRanges` | packet-number space and ACK frames |
| `Flight`, `Moves`, `Sender` | sent-packet records: acknowledgement, loss, probe timeout, packet building |
| `Transfer`, `TransferSteps`, `TransferSafety`, `TransferEnds`, `TransferCompletion`, `TransferWindow`, `SenderRuns` | sender, network and receiver together |
| `Crypto`, `CryptoTransfer` | handshake bytes: reassembly, and end to end |
| `ConnWindow`, `Slots` | connection flow control and stream limits |
| `KeyUpdate`, `KeyAcks` | key update (section 6 of RFC 9001) |
| `VarInt`, `Frames`, `PacketNumber` | QUIC wire formats |
| `Huffman`, `HuffTree`, `HuffTable` | Huffman coding of RFC 7541: encoder, trie decoder, the literal table |
| `PrefixInt`, `HeaderStrings`, `Qpack`, `Hpack`, `StaticTables` | header compression, and its literal tables |
| `Segments`, `Http2`, `Http2Requests`, `Http2Client`, `WebSocket` | frame machines over byte streams |
| `Timers`, `Writers`, `Descriptors`, `Reactor`, `Buffers`, `Connections` | event loop |
| `Bytes`, `Sums`, `BitStrings` | shared vocabulary |

Fields that only record history, such as all bytes ever written, are marked as
such where they are declared. Time, socket results, application callbacks and the
order of network events are inputs. Sealed packets can be opened exactly with the
keys that sealed them, and key derivation is injective.

## Where the code falls short of a promise

Each of these is a lemma that gives the exact condition, for all inputs or all runs,
beside an example.

- A frame that begins where a shorter buffered chunk begins is dropped
  (stream.cpp:100). `Reassembly.CoverageExact` gives the condition;
  `TransferSteps.NeverShadowed` shows that this library's own sender never meets it.
- A shorter CRYPTO frame overwrites a longer one at the same offset
  (connection.cpp:499): `Crypto.FrameAdds`, `Crypto.ShorterFrameLoses`. The
  library's own sender never does that: `CryptoTransfer.MadeAdds`.
- A FIN that goes out on a retransmission leaves the stream writable
  (stream.cpp:229-232): `SendQueue.FinClosesStream` for one pull,
  `SendRuns.OpenAfterFin` for runs,
  `SendRuns.FinOnRetransmissionLeavesStreamOpen`. A stream is safe from rejection if
  and only if no FIN it has sent was overtaken by later bytes:
  `TransferSafety.EndIsTrue`, `TransferEnds.OvertakenCanFail`,
  `TransferEnds.LateWriteIsRejected`.
- An ACK built from an empty record acknowledges packet 0: `AckRanges.AckRoundTrip`.
- A retired stream id that comes back is admitted again and goes beyond the stream
  window, by any number: `Slots.BoundIsTight`.
- A one-byte connection window never reopens: `ConnWindow.NeverStarved`,
  `ConnWindow.OneByteStarves`.
- A key update may start before the peer has received the current generation, after
  which the peer cannot read: `KeyUpdate.UpdateReadable`. That is for good if and
  only if no packet of the generation between was sent: `KeyUpdate.StuckExactly`,
  with `DoubleUpdateSticks` and `DelayedPacketRecovers`. Waiting for an
  acknowledgement of the current generation avoids it, and nothing less does:
  `KeyAcks.AckedUpdateReadable`, `KeyAcks.UnackedUpdateCanLose`.
- The sender may consider a stream delivered though its FIN has not arrived
  (stream.cpp:325): `TransferCompletion.SizeKnownExactly`,
  `TransferCompletion.DeliveredWithoutEnd`.
- The HTTP/2 writer goes on after a write that was broken off:
  `Writers.OneWriterInOrder`.
- One packet number per window size is not recovered: `PacketNumber.Recovers`.
- Frame types whose low byte is a STREAM type are parsed as STREAM:
  `Frames.HighTypeBitsIgnored`, `Frames.UnassignedTypeAccepted`.
- HPACK drops a field with an empty name: `Hpack.RoundTrip`.
- HTTP/2 hands a request over with the headers of the last block that END_HEADERS
  ended, which need not be its first and may not exist:
  `Http2Requests.HeadersAreFirstBlock`, with `EndBeforeEndHeaders`,
  `TrailersReplaceHeaders` and `LateContinuationReplacesHeaders`.
- A readiness notice older than 2^32 registrations can reach a handler it was not
  made for: `Descriptors.CalledExactly`, `Descriptors.StaleAfterWrap`.

## Model

| member | source | states |
|---|---|---|
| `TransferSafety.ReadsArePrefix` | example/quic-http3/src/quic/stream.cpp:140-168 | in every run over a network that drops, repeats, delays and reorders, what the receiving application has read is a prefix of what was written, exactly as long as the read cursor, and every byte held has its written value |
| `TransferSafety.BytesConserved` | example/quic-http3/src/quic/stream.cpp:210-338 | in every run each byte below the send offset is acknowledged, queued for resending or in flight, never two of these and never none; sending stays within the limit the receiver allows |
| `TransferSafety.AcknowledgedIsReceived` | example/quic-http3/src/quic/stream.cpp:292-329 | in every run, on a stream of which no frame was rejected, a byte the sender holds acknowledged, and so may release, was read or is held by the receiver with its true value |
| `TransferSafety.DeliveredIsReceived` | example/quic-http3/src/quic/stream.cpp:346-353 | in every run such a stream, once in the Data Recvd state of the sender, was received to its last byte; whether the receiver knows that it is over is SizeKnownExactly |
| `TransferCompletion.CanComplete` | example/quic-http3/src/quic/stream.cpp:140-290 | from every state of every run, for every stream no sent FIN of which was overtaken, there is a continuation after which the receiving application has read everything written so far and, if the stream was closed, was told that it is over |
| `TransferCompletion.SizeKnownExactly` | example/quic-http3/src/quic/stream.cpp:26-44 | in every run the receiver knows the final size of a stream if and only if a packet with its FIN has arrived |
| `TransferCompletion.AcknowledgedEndIsKnown` | example/quic-http3/src/quic/stream.cpp:292-329 | in every run it knows the final size once an acknowledgement names a packet with the FIN |
| `TransferCompletion.DeliveredWithoutEnd` | example/quic-http3/src/quic/stream.cpp:324-328 | from every start, for every stream, there is a run in which the sender reaches Data Recvd though the receiver does not know the final size: a data frame without FIN counted for it |
| `TransferSafety.QuietIsComplete` | example/quic-http3/src/quic/stream.cpp:140-168 | once everything written to such a stream was sent and nothing is lost or in flight, one read gives the receiving application all the rest |
| `TransferSafety.EndIsTrue` | example/quic-http3/src/quic/stream.cpp:26-138 | in every run, for each stream no sent FIN of which has been overtaken by further bytes: nothing of it is rejected, a final size the receiver learns is the true one, and its end is reported exactly when the size is known and everything written was read |
| `TransferEnds.OvertakenCanFail` | example/quic-http3/src/quic/stream.cpp:219-240 | that condition is exact: from every reachable state in which a sent FIN of a stream was overtaken there is a continuation in which the receiver rejects the stream |
| `TransferEnds.CanBeOvertaken` | example/quic-http3/src/quic/stream.cpp:219-240 | from every start, every stream can get there, by a FIN on a retransmission and a write |
| `TransferEnds.LateWriteIsRejected` | example/quic-http3/src/quic/stream.cpp:219-240 | from every start, for every stream, there is a run in which a write after a retransmitted FIN makes the receiver reject the stream |
| `TransferWindow.NeverRefused` | example/quic-http3/src/quic/connection.cpp:523-570 | in every run with the connection windows of both ends, the receiver can afford every packet it may still get: what it charges is at most what was sent, which stays within the limit it has advertised |
| `TransferSafety.NeverStuck` | example/quic-http3/src/quic/connection.cpp:1198-1233 | every step that the protocol enables can be taken from every reachable state: no precondition of any component fails in any run |
| `TransferSteps.StepKeeps` | example/quic-http3/src/quic/connection.cpp:630-793 | each step of sender, network and receiver keeps the whole invariant: conservation, genuine frames, nesting of retransmissions, faithful reassembly, honest ACKs |
| `TransferSteps.NeverShadowed` | example/quic-http3/src/quic/stream.cpp:98-115 | frames this sender produces never meet the case in which reassembly drops a longer frame, because retransmissions only ever nest in earlier frames |
| `Reassembly.CoverageExact` | example/quic-http3/src/quic/stream.cpp:45-117 | an accepted frame adds exactly its own interval to what was received if and only if its unread part does not begin where a shorter buffered chunk begins; in that case it adds nothing |
| `Reassembly.DeliverSound` | example/quic-http3/src/quic/stream.cpp:26-138 | delivery keeps held bytes at or after the read cursor and below the high-water mark, which stays within the receive limit |
| `Reassembly.ReadMoves` | example/quic-http3/src/quic/stream.cpp:140-168 | a read moves held bytes to the application in order with their values, loses and invents none, and stops only at a byte that is missing |
| `RecvSide.Canonical` | example/quic-http3/src/quic/stream.cpp:60-117 | a chunk list with real gaps between chunks is determined by the bytes it holds, so the stored form is unique |
| `RecvSide.RecvSide.constructor` | example/quic-http3/src/quic/stream.cpp:21-22 | a new stream holds nothing and has the initial limit |
| `RecvSide.RecvSide.MergeForward` | example/quic-http3/src/quic/stream.cpp:82-94 | the forward merge loop restores sorted, separated chunks and keeps every held byte |
| `RecvSide.RecvSide.Insert` | example/quic-http3/src/quic/stream.cpp:60-117 | placing a frame keeps the chunks sorted, non-empty and separated by gaps and holds exactly the old bytes plus the frame, or the old bytes alone when a chunk begins at the same offset |
| `RecvSide.RecvSide.Store` | example/quic-http3/src/quic/stream.cpp:45-117 | the consumed prefix of a frame is cut off and the rest absorbed into the held bytes |
| `RecvSide.RecvSide.SettlePhase` | example/quic-http3/src/quic/stream.cpp:119-136 | the receive state moves on exactly when the held bytes reach from the cursor to the final size |
| `RecvSide.RecvSide.Deliver` | example/quic-http3/src/quic/stream.cpp:26-138 | the chunk-list code computes the abstract delivery, errors included, and keeps the representation valid |
| `RecvSide.RecvSide.ReadContiguous` | example/quic-http3/src/quic/stream.cpp:140-168 | the draining loop returns exactly the run of bytes from the cursor and the end flag of the abstract read |
| `RecvSide.RecvSide.SetRecvLimit` | example/quic-http3/src/quic/stream.cpp:170-176 | the limit grows to the new value exactly when that is larger, and nothing else changes |
| `RecvSide.RecvSide.ResetRecvd` | example/quic-http3/src/quic/stream.cpp:178-193 | a reset with a conflicting final size or one beyond the limit is refused without change; otherwise held bytes are dropped and the final size fixed |
| `SendQueue.PullDrains` | example/quic-http3/src/quic/stream.cpp:210-290 | a pull hands out the written bytes at its offset, takes exactly that many off what is left to send, respects the packet and connection room, and hands out something whenever it may |
| `SendQueue.FinClosesStream` | example/quic-http3/src/quic/stream.cpp:210-290 | for every state and room: a pull leaves a stream with its FIN sent and still writable if and only if the FIN is queued in the sending phase and the room reaches the end of the written bytes from a lost range |
| `SendRuns.RunSound` | example/quic-http3/src/quic/stream.cpp:195-344 | every run of writes, pulls, acknowledgements, losses and limits keeps the send state sound |
| `SendRuns.OpenAfterFin` | example/quic-http3/src/quic/stream.cpp:195-338 | in every such run the stream is writable with its FIN sent if and only if such a pull happened and since then nothing closed the stream or unsent the FIN |
| `SendRuns.FinOnRetransmissionLeavesStreamOpen` | example/quic-http3/src/quic/stream.cpp:228-232 | for every content there is a run that sends its FIN and then still accepts a byte |
| `SendQueue.AckSound` | example/quic-http3/src/quic/stream.cpp:292-329 | acknowledging an outstanding range keeps acknowledged and lost ranges disjoint and below the send offset, and Data Recvd only with everything acknowledged |
| `SendSide.SendSide.constructor` | example/quic-http3/src/quic/stream.cpp:21-22 | a new send side has nothing written, sent or acknowledged |
| `SendSide.SendSide.PrefixReleased` | example/quic-http3/src/quic/stream.cpp:292-329 | the released part of the buffer is exactly the longest acknowledged prefix, so no unacknowledged byte is ever released |
| `SendSide.SendSide.Write` | example/quic-http3/src/quic/stream.cpp:195-208 | the buffer code appends to the abstract written sequence, or ignores the call once the stream is closed to writes |
| `SendSide.SendSide.Slice` | example/quic-http3/src/quic/stream.cpp:276-280 | reading through head index and base is in bounds and yields written[off..off+n] |
| `SendSide.SendSide.Resend` | example/quic-http3/src/quic/stream.cpp:219-240 | the lost-range branch computes the abstract pull |
| `SendSide.SendSide.SendFresh` | example/quic-http3/src/quic/stream.cpp:242-290 | the branch for new bytes computes the abstract pull |
| `SendSide.SendSide.FinAlone` | example/quic-http3/src/quic/stream.cpp:242-272 | a FIN without bytes computes the abstract pull |
| `SendSide.SendSide.PullSend` | example/quic-http3/src/quic/stream.cpp:210-290 | the compacting buffer refines the simple queue of all bytes written: same bytes, same offset, same FIN, same new state |
| `SendSide.SendSide.TryAdvance` | example/quic-http3/src/quic/stream.cpp:346-353 | the state reaches Data Recvd exactly when everything written and the FIN count as acknowledged |
| `SendSide.SendSide.ReleasePrefix` | example/quic-http3/src/quic/stream.cpp:301-311 | releasing the acknowledged front changes no abstract state and leaves no range that could still be released |
| `SendSide.SendSide.Compact` | example/quic-http3/src/quic/stream.cpp:312-323 | compaction keeps the unreleased bytes and bounds the dead part of the buffer |
| `SendSide.SendSide.OnAcked` | example/quic-http3/src/quic/stream.cpp:292-329 | inserting, sorting, merging and releasing ranges computes the abstract acknowledgement |
| `SendSide.SendSide.OnLost` | example/quic-http3/src/quic/stream.cpp:331-338 | the range is queued once for resending and the FIN is unsent again if the range reaches the end |
| `SendSide.SendSide.SetSendLimit` | example/quic-http3/src/quic/stream.cpp:340-344 | the peer limit never decreases |
| `AckRanges.RecordAdds` | example/quic-http3/src/quic/pn_space.cpp:8-63 | recording a number keeps ranges descending with a missing number between neighbours, adds exactly that number and grows the list by at most one |
| `AckRanges.CapRetains` | example/quic-http3/src/quic/pn_space.cpp:53-62 | cutting the list at 32 ranges keeps exactly the 32 highest maximal runs |
| `AckRanges.AckRoundTrip` | example/quic-http3/src/quic/connection.cpp:640-667 | walking a built ACK frame acknowledges exactly the recorded numbers if and only if there is one; an empty record yields a frame that acknowledges packet 0 |
| `AckRanges.PnSpace.constructor` | example/quic-http3/src/quic/pn_space.cpp:101-105 | a new space has recorded nothing and owes no ACK |
| `AckRanges.PnSpace.Place` | example/quic-http3/src/quic/pn_space.cpp:8-63 | the insertion walk over the vector produces the recorded and capped list |
| `AckRanges.PnSpace.OnReceived` | example/quic-http3/src/quic/pn_space.cpp:8-63 | afterwards the ranges stand for the old numbers plus the new one, cut to the 32 highest runs; largest and ACK-owed are updated |
| `AckRanges.PnSpace.BuildAckFrame` | example/quic-http3/src/quic/pn_space.cpp:69-90 | the frame walks back to exactly the recorded numbers, no gap subtraction underflows, and the owed ACK is cleared |
| `AckRanges.PnSpace.TrimBelow` | example/quic-http3/src/quic/pn_space.cpp:92-99 | exactly the numbers below the bound are forgotten |
| `Flight.AckConserved` | example/quic-http3/src/quic/connection.cpp:630-639 | acknowledging one frame of a record keeps the account of every byte |
| `Flight.LoseConserved` | example/quic-http3/src/quic/connection.cpp:696-715 | declaring one frame of a record lost keeps the account of every byte |
| `Flight.PullConserved` | example/quic-http3/src/quic/connection.cpp:1198-1233 | pulling a frame into the packet being built keeps the account of every byte |
| `Flight.PullAuthentic` | example/quic-http3/src/quic/connection.cpp:1198-1233 | a pulled frame carries the written bytes of its stream at its offset |
| `Flight.RetireConserved` | example/quic-http3/src/quic/connection.cpp:951-999 | dropping a stream breaks no account if and only if no record names bytes of it |
| `Flight.DoneInFlight` | example/quic-http3/src/quic/connection.cpp:951-999 | no record names a stream that is in Data Recvd or never sent anything |
| `SenderRuns.MovesAreRun` | example/quic-http3/src/quic/connection.cpp:611-793 | every sequence of writes, pulls, sealed packets, acknowledgements and losses of the sending connection is a continuation of the run of the whole system, and leaves the receiver as it is |
| `SenderRuns.ConnectionFollows` | example/quic-http3/src/quic/connection.cpp:611-793 | so whatever the methods of Sender.Connection do next is part of a run, and all that holds of every run holds of a connection driven by them |
| `Sender.Connection.constructor` | example/quic-http3/src/quic/connection.cpp:33-78 | a new connection has no streams and no records |
| `Sender.Connection.EnsureStream` | example/quic-http3/src/quic/connection.cpp:870-899 | an unknown stream starts empty, a known one is left alone |
| `Sender.Connection.WriteStream` | example/quic-http3/src/quic/connection.cpp:1001-1006 | bytes are appended to the one stream named, opened if need be; on an open stream that is an event of the runs |
| `Sender.Connection.OnMaxData` | example/quic-http3/src/quic/connection.cpp:444-449 | the connection send limit only grows |
| `Sender.Connection.Retire` | example/quic-http3/src/quic/connection.cpp:951-999 | the stream leaves the map; conservation and the connection total still hold if and only if nothing of it is in flight |
| `Sender.Connection.AckEntry` | example/quic-http3/src/quic/connection.cpp:630-639 | exactly one record leaves and exactly its frames are acknowledged |
| `Sender.Connection.AckRange` | example/quic-http3/src/quic/connection.cpp:645-654 | exactly the records numbered in the range leave, each acknowledged once, as events of the runs |
| `Sender.Connection.AckWalk` | example/quic-http3/src/quic/connection.cpp:655-667 | exactly the records the ACK frame names leave; only acknowledgement state changes |
| `Sender.Connection.LoseEntry` | example/quic-http3/src/quic/connection.cpp:696-715 | exactly one record leaves and exactly its frames are queued again |
| `Sender.Connection.DetectLoss` | example/quic-http3/src/quic/connection.cpp:717-747 | exactly the records overdue by packet number or time leave and only resend queues change; nothing happens before the first acknowledgement |
| `Sender.Connection.OnAckFrame` | example/quic-http3/src/quic/connection.cpp:611-694 | exactly the bytes of the named records become acknowledged, then exactly those of overdue ones are queued again; a malformed first range changes nothing; the largest acknowledged number never decreases; all of it is a sequence of events of the runs |
| `Sender.Connection.CheckPto` | example/quic-http3/src/quic/connection.cpp:749-793 | when the probe timeout fires, and only then, exactly the ack-eliciting records are declared lost, as events of the runs |
| `Sender.Connection.RequeueEliciting` | example/quic-http3/src/quic/connection.cpp:749-793 | the erasing loop takes out exactly the ack-eliciting records |
| `Sender.Connection.PullOnce` | example/quic-http3/src/quic/connection.cpp:1208-1233 | one pull adds one genuine frame and its charge, or shows that the stream has nothing it may send |
| `Sender.Connection.CollectStream` | example/quic-http3/src/quic/connection.cpp:1208-1233 | frames are collected up to the share of 1100 bytes; collection stops only when the share or the stream is used up; fresh bytes are charged to the connection within its limit |
| `Sender.Connection.CollectAll` | example/quic-http3/src/quic/connection.cpp:1198-1233 | the streams are asked in order of their ids; nothing is collected only if no stream may send |
| `Sender.Connection.BuildAndSend` | example/quic-http3/src/quic/connection.cpp:1195-1417 | the packet gets the next number, its frames carry written bytes, the record is kept, conservation and the connection limit hold; no packet is built only when nothing is owed and no stream may send; all of it is a sequence of events of the runs |
| `Crypto.FrameAdds` | example/quic-http3/src/quic/connection.cpp:484-521 | an accepted CRYPTO frame adds exactly its bytes if and only if the chunk it overwrites held nothing that only it had |
| `Crypto.ShorterFrameLoses` | example/quic-http3/src/quic/connection.cpp:499-500 | a buffered byte that a shorter frame at the same offset makes disappear |
| `Crypto.FeedKeeps` | example/quic-http3/src/quic/connection.cpp:503-521 | handing over keeps what the receiver has and stops at its first missing byte; what is buffered stays inside the 64 KiB window |
| `Crypto.FeedGenuine` | example/quic-http3/src/quic/connection.cpp:503-521 | what TLS was given stays the exact prefix of the peer's bytes, overlaps and duplicates included |
| `Crypto.CryptoStream.constructor` | example/quic-http3/src/quic/connection.cpp:484-521 | nothing buffered and nothing handed over |
| `Crypto.CryptoStream.OnCryptoFrame` | example/quic-http3/src/quic/connection.cpp:484-501 | the map code computes the abstract step; a frame beyond the window is refused, which closes the connection |
| `Crypto.CryptoStream.FeedTls` | example/quic-http3/src/quic/connection.cpp:503-521 | the erasing loop computes the abstract hand-over and terminates |
| `CryptoTransfer.HandshakeInOrder` | example/quic-http3/src/quic/connection.cpp:139-161 | in every run the peer's TLS has been given a prefix of what this side's TLS produced |
| `CryptoTransfer.HandshakeComplete` | example/quic-http3/src/quic/connection.cpp:696-715 | in every run in which the receiver refused nothing, once nothing is pending or in flight the peer's TLS has been given every byte |
| `CryptoTransfer.SmallHandshakeFits` | example/quic-http3/src/quic/connection.cpp:484-501 | in every run nothing is refused before TLS has produced more than 64 KiB |
| `CryptoTransfer.MadeAdds` | example/quic-http3/src/quic/connection.cpp:499-500 | frames as this sender makes them replace nothing but themselves, so no byte is lost on arrival |
| `ConnWindow.NoWrap` | example/quic-http3/src/quic/connection.cpp:928-949 | consumed <= received <= advertised, so no unsigned subtraction wraps, and received minus consumed never exceeds the initial window |
| `ConnWindow.NeverStarved` | example/quic-http3/src/quic/connection.cpp:937-949 | a peer whose data was all consumed can always send more if and only if the window is at least two bytes |
| `ConnWindow.OneByteStarves` | example/quic-http3/src/quic/connection.cpp:928-949 | a connection with a one-byte window that got and read its one byte has no room left and refreshing gives none |
| `ConnWindow.Window.constructor` | example/quic-http3/src/quic/connection.cpp:57-63 | a new connection has received nothing and advertises its parameters |
| `ConnWindow.Window.InitiateClose` | example/quic-http3/src/quic/connection.cpp:826-839 | the first error wins |
| `ConnWindow.Window.EnforceStreamLimit` | example/quic-http3/src/quic/connection.cpp:906-926 | exactly the ids beyond the advertised number of streams are refused, with STREAM_LIMIT_ERROR |
| `ConnWindow.Window.EnsureStream` | example/quic-http3/src/quic/connection.cpp:870-899 | an admitted id is opened with its limit and the accounts still balance |
| `ConnWindow.Window.Replace` | example/quic-http3/src/quic/connection.cpp:542-570 | growing one stream moves the connection total by exactly its growth |
| `ConnWindow.Window.OnStreamFrame` | example/quic-http3/src/quic/connection.cpp:523-570 | a frame is charged for the bytes by which it raises its stream, or refused with the error of the first failing check and no charge |
| `ConnWindow.Window.OnResetStream` | example/quic-http3/src/quic/connection.cpp:572-609 | a reset is charged up to its final size, or refused with the error of the first failing check and no charge |
| `ConnWindow.Window.ReadStream` | example/quic-http3/src/quic/connection.cpp:1008-1022 | the application gets the stream's run of bytes; the received total does not move |
| `ConnWindow.Window.RefreshWindow` | example/quic-http3/src/quic/connection.cpp:928-935 | consumed is the retired bytes plus the sum of read cursors; the limit never decreases and is extended when less than half a window is left |
| `ConnWindow.Window.SumConsumed` | example/quic-http3/src/quic/connection.cpp:928-935 | the summing loop yields the retired bytes plus the sum of all read cursors |
| `ConnWindow.Window.ExtendWindow` | example/quic-http3/src/quic/connection.cpp:937-949 | the new limit is one window beyond consumed, or unchanged |
| `ConnWindow.Window.Retire` | example/quic-http3/src/quic/connection.cpp:951-973 | a retired stream's received bytes count as consumed, so the total still is the sum |
| `ConnWindow.Window.RetireClosedStreams` | example/quic-http3/src/quic/connection.cpp:951-999 | exactly the streams finished in both directions leave; conn_recv_total_ stays retired plus live high-water marks; stream limits only grow |
| `ConnWindow.Window.CreditStreams` | example/quic-http3/src/quic/connection.cpp:974-998 | both stream limits become closed plus window |
| `ConnWindow.Window.OpenStreamsBounded` | example/quic-http3/src/quic/connection.cpp:906-926 | at most the window, plus the number of retired ids that came back, of streams are open |
| `Slots.Concurrency` | example/quic-http3/src/quic/connection.cpp:906-926 | open streams never exceed the window plus the reopened ids |
| `Slots.AtMostWindow` | example/quic-http3/src/quic/connection.cpp:974-998 | in every run without reopened ids at most the window of streams is open |
| `Slots.BoundIsTight` | example/quic-http3/src/quic/connection.cpp:870-926 | for every window and n there is a run that reopens n retired ids and has window plus n streams open: the bound cannot be improved |
| `KeyUpdate.RatchetInjective` | example/quic-http3/src/quic/connection.cpp:111-135 | no two generations of one secret coincide |
| `KeyUpdate.InitiateAt` | example/quic-http3/src/quic/connection.cpp:795-824 | an update starts exactly when both directions are at the same generation |
| `KeyUpdate.OpenAt` | example/quic-http3/src/quic/connection.cpp:341-400 | a packet is accepted exactly when sealed under the current or next generation; the next one moves the receive side and pulls the send side along unless it moved first |
| `KeyUpdate.KeySpace.constructor` | example/quic-http3/src/quic/connection.cpp:111-135 | both directions at generation 0 with the next keys prepared |
| `KeyUpdate.KeySpace.InitiateKeyUpdate` | example/quic-http3/src/quic/connection.cpp:795-824 | succeeds iff no update is pending and moves the send side by exactly one generation |
| `KeyUpdate.KeySpace.ProcessShortPacket` | example/quic-http3/src/quic/connection.cpp:341-400 | any packet is accepted iff it was sealed with the keys the phase bit selects, current or next, and the receive side moves exactly when those are the next; a packet of the peer is accepted iff its generation is current or next |
| `KeyUpdate.StepKeeps` | example/quic-http3/src/quic/connection.cpp:341-400 | every event keeps both ends described by their generation numbers |
| `KeyUpdate.Ratcheted` | example/quic-http3/src/quic/connection.cpp:111-135 | in every run the secrets are the iterated derivations, the next keys one step ahead, header keys constant, phase bits parities, and no side is more than two generations ahead of the other |
| `KeyUpdate.AcceptedUnderSealingKeys` | example/quic-http3/src/quic/connection.cpp:341-400 | in every run, in both directions, a packet is accepted iff it was sealed under the current or next secret, and then under the keys that sealed it |
| `KeyUpdate.UpdateReadable` | example/quic-http3/src/quic/connection.cpp:795-824 | an update the code allows at either end leaves the other able to read if and only if the other had already received the current generation, which the code does not ask for |
| `KeyUpdate.CarefulRunsStayReadable` | example/quic-http3/src/quic/connection.cpp:795-824 | runs whose updates are all confirmed first never lose readability in either direction |
| `KeyUpdate.StuckExactly` | example/quic-http3/src/quic/connection.cpp:341-400 | in every run, an end that is two generations ahead is unreadable in every continuation if and only if no packet of the generation between was sent |
| `KeyUpdate.BetweenArrives` | example/quic-http3/src/quic/connection.cpp:341-400 | if one was sent, its arrival makes the end readable again |
| `KeyUpdate.StuckForever` | example/quic-http3/src/quic/connection.cpp:341-400 | if none was sent, nothing the end sends in any continuation is accepted |
| `KeyUpdate.DoubleUpdateSticks` | example/quic-http3/src/quic/connection.cpp:795-824 | for either end there is a run that gets it two ahead with nothing sent in between |
| `KeyUpdate.DelayedPacketRecovers` | example/quic-http3/src/quic/connection.cpp:795-824 | and one that gets it two ahead with a packet of the generation between still on its way |
| `KeyAcks.StepKeeps` | example/quic-http3/src/quic/connection.cpp:341-400 | with acknowledgements in the packets, every event keeps what an end knows to be acknowledged within what the other has received |
| `KeyAcks.AckedUpdateReadable` | example/quic-http3/src/quic/connection.cpp:795-824 | in every run, an update started when a packet of the current generation has been acknowledged, which the end itself can see, leaves the other able to read |
| `KeyAcks.PatientRunsStayReadable` | example/quic-http3/src/quic/connection.cpp:795-824 | runs whose updates all waited for that never lose readability in either direction |
| `KeyAcks.UnackedUpdateCanLose` | example/quic-http3/src/quic/connection.cpp:795-824 | nothing less is enough: for every generation but the first, and either end, there is a run in which all earlier generations were acknowledged, the code allows an update, and it makes the end unreadable |
| `Huffman.DecodedIs` | src/codec/huffman.cpp:172-229 | bytes decode to a string if and only if they are the encoding of that string |
| `Huffman.EncodeInjective` | src/codec/huffman.cpp:96-116 | different strings have different encodings, padding included |
| `Huffman.SpelledPrefix` | src/codec/huffman.cpp:96-116 | no padding can be taken for a further symbol: what spells a prefix of a padded spelling is a prefix of the string |
| `Huffman.Flush` | src/codec/huffman.cpp:96-116 | moving whole bytes out of the accumulator loses and reorders no bit |
| `Huffman.FlushLast` | src/codec/huffman.cpp:96-116 | the last byte is the remaining bits filled with ones |
| `Huffman.EncodeByte` | src/codec/huffman.cpp:96-116 | one symbol appends exactly its code to the bits put out and pending |
| `Huffman.EncodeBytes` | src/codec/huffman.cpp:96-116 | the bytes put out and the pending bits spell the input |
| `Huffman.EncodeTo` | src/codec/huffman.cpp:96-116 | the accumulator loop appends exactly the padded spelling |
| `Huffman.EncodedSize` | src/codec/huffman.cpp:88-94 | the size computed in advance is the length of the encoding |
| `HuffTree.Tree.constructor` | src/codec/huffman.cpp:128-170 | after the 257 insertions a node carries a symbol iff its path is the code of that symbol; the trie stays within the 16-bit node index |
| `HuffTree.Tree.Descend` | src/codec/huffman.cpp:148-163 | one bit of an insertion follows or creates the child for it and disturbs no other path |
| `HuffTree.Tree.Insert` | src/codec/huffman.cpp:148-163 | inserting a code labels exactly its node |
| `HuffTree.Tree.WalkOnes` | src/codec/huffman.cpp:205-229 | walking ones leads to the node whose path is ones |
| `HuffTree.Tree.StepBit` | src/codec/huffman.cpp:140-145 | a missing child means no string encodes to such bits |
| `HuffTree.Tree.TakeBit` | src/codec/huffman.cpp:172-204 | each bit extends the path or completes a symbol; a refusal means nothing encodes to the input |
| `HuffTree.Tree.CheckPadding` | src/codec/huffman.cpp:205-229 | accepts exactly at most seven trailing ones |
| `HuffTree.Tree.Decode` | src/codec/huffman.cpp:172-229 | the trie decoder returns s exactly for the encoding of s and refuses everything else, EOS and long padding included |
| `HuffTable.TableValid` | src/codec/huffman.cpp:18-84 | the literal table is prefix-free with lengths 5 to 30 and EOS thirty ones: its code intervals tile [0, 2^30) |
| `PrefixInt.IntRoundTrip` | example/quic-http3/src/http3/qpack.cpp:121-153 | every integer the reader can hold is read back under every prefix, and nothing after it is touched |
| `PrefixInt.WriteInt` | example/quic-http3/src/http3/qpack.cpp:121-134 | appends the encoding and nothing else |
| `PrefixInt.ReadAt` | example/http2/src/codec.cpp:357-387 | the cursor reader computes the abstract read: truncated and over-long integers are refused, and the accumulator wraps at its width |
| `HeaderStrings.ReadStringAt` | example/quic-http3/src/http3/qpack.cpp:164-182 | the cursor reader of a plain or Huffman string computes the abstract read |
| `Qpack.KeyIdentifies` | example/quic-http3/src/http3/qpack.cpp:184-196 | a pair has the key of a static entry only if it is that entry, whatever bytes it contains |
| `Qpack.BuildIndex` | example/quic-http3/src/http3/qpack.cpp:184-196 | the lookup maps find every static pair and name and nothing else |
| `Qpack.StringRoundTrip` | example/quic-http3/src/http3/qpack.cpp:155-182 | a string literal is read back under both prefixes that the encoder writes |
| `Qpack.FieldRoundTrip` | example/quic-http3/src/http3/qpack.cpp:209-300 | each field line is read back, whichever of the forms was chosen, and nothing after it is touched |
| `Qpack.RoundTrip` | example/quic-http3/src/http3/qpack.cpp:209-300 | for every valid static table, decoding the encoding of any ordered header list gives that list |
| `StaticTables.QpackValid` | example/quic-http3/src/http3/qpack.cpp:17-118 | the 99 literal entries are a valid table: none contains the separator |
| `StaticTables.QpackRoundTrip` | example/quic-http3/src/http3/qpack.cpp:17-300 | with the literal Huffman and static tables, decoding the encoding of any ordered header list gives that list |
| `Qpack.WriteString` | example/quic-http3/src/http3/qpack.cpp:155-162 | appends the string literal |
| `Qpack.WriteField` | example/quic-http3/src/http3/qpack.cpp:209-247 | appends the field line for the static pair, the static name or the literal |
| `Qpack.EncodeHeaders` | example/quic-http3/src/http3/qpack.cpp:209-247 | the loop produces the prefix and the field lines in order |
| `Qpack.ReadFieldAt` | example/quic-http3/src/http3/qpack.cpp:249-300 | the cursor reader computes the abstract field read, dynamic-table forms refused |
| `Qpack.DecodeHeaders` | example/quic-http3/src/http3/qpack.cpp:249-300 | the decoder computes the abstract decoding, errors included |
| `Qpack.DecodeFrom` | example/quic-http3/src/http3/qpack.cpp:249-300 | the field loop reads exactly the field lines from the cursor on |
| `Hpack.RoundTrip` | example/http2/src/codec.cpp:443-564 | for every static table with names, decoding the encoding of a header map gives the map if and only if no name is empty, whatever the order of the fields |
| `StaticTables.HpackValid` | example/http2/src/codec.cpp:248-314 | the 62 literal entries all have a name but the unused first |
| `StaticTables.HpackRoundTrip` | example/http2/src/codec.cpp:248-564 | with the literal tables, decoding the encoding of a header map gives the map if and only if no name is empty |
| `Hpack.EmitReads` | example/http2/src/codec.cpp:443-564 | each field is read back and stored unless its name is empty |
| `Hpack.DecodeEmitted` | example/http2/src/codec.cpp:499-564 | decoding the encoding of a field list stores those fields in order |
| `Hpack.WriteString` | example/http2/src/codec.cpp:435-439 | appends the plain literal |
| `Hpack.WriteField` | example/http2/src/codec.cpp:443-497 | the two table searches choose the indexed, named or literal form |
| `Hpack.ReadLiteralAt` | example/http2/src/codec.cpp:499-564 | the cursor reader of a literal computes the abstract read |
| `Hpack.ReadOneAt` | example/http2/src/codec.cpp:499-564 | the cursor reader of one representation computes the abstract read |
| `Hpack.DecodeHeaders` | example/http2/src/codec.cpp:499-564 | the loop stores what was read up to the first malformed representation |
| `VarInt.RoundTrip` | example/quic-http3/src/quic/varint.cpp:20-96 | every value below 2^62 is read back and nothing after it is touched |
| `VarInt.Shortest` | example/quic-http3/src/quic/varint.cpp:20-34 | no encoding of a value is shorter than the one written |
| `VarInt.Decode` | example/quic-http3/src/quic/varint.cpp:79-96 | the cursor moves past the integer, or not at all when the input is short |
| `Frames.FrameRoundTrip` | example/quic-http3/src/quic/frame.cpp:36-347 | every encodable frame is parsed back, whatever follows it |
| `Frames.RangesFit` | example/quic-http3/src/quic/frame.cpp:75-84 | the guard on the ACK range count never refuses an honest encoding |
| `Frames.ParsesTo` | example/quic-http3/src/quic/frame.cpp:349-362 | parsing the concatenated encodings of any frame list gives the list with adjacent paddings merged |
| `Frames.CoalesceKeeps` | example/quic-http3/src/quic/frame.cpp:46-56 | merging paddings changes a list iff it is not canonical |
| `Frames.RoundTrip` | example/quic-http3/src/quic/frame.cpp:349-480 | parsing inverts encoding if and only if the list has no adjacent or empty padding |
| `Frames.HighTypeBitsIgnored` | example/quic-http3/src/quic/frame.cpp:151-155 | for every type and input: above 0x1e exactly the types whose low byte is a STREAM type are parsed, as that type; the parser agrees with one for the assigned types alone if and only if that does not happen |
| `Frames.UnassignedTypeAccepted` | example/quic-http3/src/quic/frame.cpp:151-155 | type 0x108 is parsed as the STREAM type 0x08 |
| `Frames.ParseFrames` | example/quic-http3/src/quic/frame.cpp:349-362 | the loop computes the abstract parse of a whole payload and terminates |
| `PacketNumber.Recovers` | example/quic-http3/src/quic/packet.cpp:129-146 | every number within half a window of the expected one is recovered from its low bits, except the one corner where half the window is expected and the number is the window |
| `PacketNumber.AgreesWithReference` | example/quic-http3/src/quic/packet.cpp:129-146 | agrees with the algorithm of appendix A.3 of RFC 9000 if and only if that corner is not met |
| `Segments.AnySegmentation` | example/http2/src/dispatcher_reactor.cpp:152-166 | for every machine whose steps ignore later bytes, any two ways of cutting the same bytes end in the same state |
| `Http2.SegmentationIndependent` | example/http2/src/dispatcher_reactor.cpp:152-278 | however the bytes are cut into reads, and from every phase, the same state, output and requests result |
| `Http2.HandleBounded` | example/http2/src/dispatcher_reactor.cpp:283-519 | every frame keeps the bounds |
| `Http2.HandleAnnounces` | example/http2/src/dispatcher_reactor.cpp:607-627 | a frame that ends the connection sends GOAWAY and then closes |
| `Http2.AlwaysGood` | example/http2/src/dispatcher_reactor.cpp:152-636 | for every input: at most 100 streams, header blocks within 64 KiB, bodies within 64 MiB, send windows at most 2^31-1, one GOAWAY iff stopped after the preface, for each id no more requests than openings, an open stream counted, returned credit at most the DATA received |
| `Http2Requests.Outcome` | example/http2/src/dispatcher_reactor.cpp:283-542 | for every stream and every sequence of frames, of it and of others: what the connection says about the stream is exactly what its own frames alone call for, turn by turn, and its state is where they leave it |
| `Http2Requests.OutcomeOfBytes` | example/http2/src/dispatcher_reactor.cpp:187-542 | the same for the bytes of those frames |
| `Http2Requests.RequestFrom` | example/http2/src/dispatcher_reactor.cpp:392-542 | a completed request has the blocks of its frames that were ended by END_HEADERS, in order, and the whole of its DATA as body |
| `Http2Requests.HeadersAreFirstBlock` | example/http2/src/dispatcher_reactor.cpp:392-510 | the headers handed over are those of the first block, whatever the decoder, if and only if END_HEADERS came and the last block ended is equal to the first |
| `Http2Requests.EndBeforeEndHeaders` | example/http2/src/dispatcher_reactor.cpp:469-510 | a stream that ends before END_HEADERS is handed over without headers |
| `Http2Requests.TrailersReplaceHeaders` | example/http2/src/dispatcher_reactor.cpp:392-468 | trailers are handed over in place of the headers |
| `Http2Requests.LateContinuationReplacesHeaders` | example/http2/src/dispatcher_reactor.cpp:443-468 | a CONTINUATION after the block has ended is handed over in place of the headers |
| `Http2Requests.CompletedOnce` | example/http2/src/dispatcher_reactor.cpp:520-542 | frames that complete a request yield one handoff, with it |
| `Http2Requests.Dispatched` | example/http2/src/dispatcher_reactor.cpp:283-542 | a stream whose frames complete a request is handed over exactly once, with the headers of its last ended block and its whole body |
| `Http2.Http2Connection.constructor` | example/http2/src/dispatcher_reactor.cpp:123-127 | a new connection waits for the preface |
| `Http2.Http2Connection.OnData` | example/http2/src/dispatcher_reactor.cpp:152-166 | a read runs the machine on what was left and what came |
| `Http2.Http2Connection.TakePreface` | example/http2/src/dispatcher_reactor.cpp:187-278 | waits without change, fails the connection or takes the preface |
| `Http2.Http2Connection.TakeHeader` | example/http2/src/dispatcher_reactor.cpp:187-278 | waits without change, or takes nine bytes as a frame header |
| `Http2.Http2Connection.TakePayload` | example/http2/src/dispatcher_reactor.cpp:187-278 | waits without change, or takes the payload and handles the frame |
| `Http2.Http2Connection.TryProcess` | example/http2/src/dispatcher_reactor.cpp:187-278 | the loop computes the machine's run and terminates |
| `Http2Requests.RequestCompletes` | example/http2/src/dispatcher_reactor.cpp:283-542 | a request whose block and body are cut into any frames, padded, with priority fields, among window updates of its own and any frames of other streams, is handed over exactly once, with the decompressed whole block and the whole body, after exactly the credits for its DATA |
| `Http2Requests.RequestFromBytes` | example/http2/src/dispatcher_reactor.cpp:187-542 | the same for the bytes of those frames |
| `Http2Client.RequestArrives` | example/http2/src/codec.cpp:443-564 | a header map, encoded by the library's HPACK encoder with its literal tables and sent as such a request, is handed over as that map |
| `Http2Requests.OtherFrame` | example/http2/src/dispatcher_reactor.cpp:283-519 | a frame of another stream, or of the connection, leaves a stream and its requests alone |
| `Http2Requests.BytesRun` | example/http2/src/dispatcher_reactor.cpp:187-278 | the bytes of any frames that do not close the connection are handled as exactly those frames |
| `Http2Requests.ResetForgets` | example/http2/src/dispatcher_reactor.cpp:366-378 | after RST_STREAM nothing of the request is handed over without a new HEADERS frame |
| `Http2Requests.LedgerKept` | example/http2/src/dispatcher_reactor.cpp:286-365 | while the connection is open: every PING is answered with its data in order, every SETTINGS is kept and acknowledged, and the send window has grown by exactly the increments |
| `WebSocket.XorTwice` | example/http-websocket/src/handler.cpp:71-76 | masking a byte twice gives the byte |
| `WebSocket.Unmask` | example/http-websocket/src/dispatcher_reactor.cpp:362-375 | unmasking undoes masking under every key |
| `WebSocket.HeaderReads` | example/http-websocket/src/dispatcher_reactor.cpp:275-360 | the header of every serialized valid frame is read back: flags, opcode, length in its shortest form, key |
| `WebSocket.FrameRuns` | example/http-websocket/src/dispatcher_reactor.cpp:275-375 | a serialized frame takes the loop exactly through handling that frame |
| `WebSocket.SegmentationIndependent` | example/http-websocket/src/dispatcher_reactor.cpp:128-188 | however the bytes are cut, the same messages and replies result |
| `WebSocket.DeliversFrom` | example/http-websocket/src/dispatcher_reactor.cpp:380-441 | from any point inside a message, with control frames anywhere between fragments, exactly the messages sent are delivered in order |
| `WebSocket.Delivers` | example/http-websocket/src/dispatcher_reactor.cpp:170-441 | from bytes: the messages are delivered whole and in order, and the pings answered in order |
| `WebSocket.PingsAnswered` | example/http-websocket/src/dispatcher_reactor.cpp:380-441 | while open, the pongs are exactly the ping payloads in order |
| `WebSocket.CloseEnds` | example/http-websocket/src/dispatcher_reactor.cpp:380-454 | a Close frame is echoed, the connection closes, and no byte after it is read |
| `WebSocket.Converses` | example/http-websocket/src/dispatcher_reactor.cpp:170-454 | a whole conversation up to the Close: messages, pongs and the echoed Close as the last things sent |
| `WebSocket.AlwaysGood` | example/http-websocket/src/dispatcher_reactor.cpp:170-454 | for every input: reassembly within 16 MiB, at most one Close, no message after it, a stopped loop once it was sent |
| `WebSocket.WsConnection.constructor` | example/http-websocket/src/dispatcher_reactor.cpp:98-104 | a new connection has nothing buffered |
| `WebSocket.WsConnection.OnData` | example/http-websocket/src/dispatcher_reactor.cpp:128-141 | a read runs the loop on what was left and what came |
| `WebSocket.WsConnection.Process` | example/http-websocket/src/dispatcher_reactor.cpp:170-188 | the loop computes the machine's run and terminates |
| `WebSocket.WsConnection.TryReadHeader` | example/http-websocket/src/dispatcher_reactor.cpp:275-360 | takes a header off the buffer, waits without change, or fails the connection |
| `WebSocket.WsConnection.TryReadPayload` | example/http-websocket/src/dispatcher_reactor.cpp:362-375 | unmasks in place and handles the frame, or waits without change |
| `Timers.PassDone` | src/platform/io_context.cpp:766-851 | a finished pass fired exactly the due, uncancelled timers once each in deadline order, and queued exactly the repeats again |
| `Timers.DeadStays` | src/platform/io_context.cpp:766-851 | a timer cancelled before the pass never fires in it and stays cancelled |
| `Timers.TimerQueue.constructor` | src/platform/io_context.cpp:735-764 | no timers |
| `Timers.TimerQueue.Top` | src/platform/io_context.cpp:766-851 | the heap top has the earliest deadline |
| `Timers.TimerQueue.AddTimer` | src/platform/io_context.cpp:735-764 | a new timer gets a fresh id and a deadline in the future; the loop is woken exactly when it comes before all others |
| `Timers.TimerQueue.CancelTimer` | src/platform/io_context.cpp:730-733 | from then on the timer counts as dead, and no other does |
| `Timers.TimerQueue.Extract` | src/platform/io_context.cpp:766-806 | takes out exactly the due live timers in order, each id having at most one entry, queues exactly the repeats again, and terminates |
| `Timers.TimerQueue.ProcessTimers` | src/platform/io_context.cpp:766-851 | the callbacks posted are those taken out, all of them while the context runs, and exactly the first few when it stops in the middle |
| `Timers.TimerQueue.Take` | src/platform/io_context.cpp:766-851 | each step drops, fires or requeues the earliest entry and lowers the pair of due count and heap size |
| `Timers.TimerQueue.ComputeWait` | src/platform/io_context.cpp:853-880 | the wait never overshoots the earliest live deadline, is less than a millisecond short of it, and only cancelled entries are dropped |
| `Writers.OneWriterInOrder` | example/http2/src/dispatcher_coroutine.cpp:205-248 | in every interleaving at most one writer runs, a non-empty queue has one, and what goes out are the beginnings of the accepted frames, one by one in order, of all of them when no writer is left; the frames are whole if and only if no write was broken off |
| `Writers.OneOwnerInOrder` | example/http-websocket/src/dispatcher_coroutine.cpp:49-93 | in every interleaving the gate has at most one owner, waiters imply an owner, and grants follow arrivals |
| `Descriptors.TokenRoundTrip` | include/libspaznet/platform/io_context.hpp:942-953 | a token gives back generation and descriptor, and is never the null token of the wake-up pipe |
| `Descriptors.StepKeeps` | src/platform/io_context.cpp:517-693 | every registration, removal, report and delivery keeps tokens honest and generations those of their registrations, never 0 |
| `Descriptors.CalledExactly` | src/platform/io_context.cpp:613-693 | in every run, notices delayed and reordered at will, a notice calls a handler if and only if its descriptor is registered, with interest, by a registration that comes a whole number of wrap-arounds after its own |
| `Descriptors.OwnRegistration` | src/platform/io_context.cpp:543-556 | so while fewer than 2^32 numbers were used since, only a handler of the registration it was made for |
| `Descriptors.StaleAfterWrap` | src/platform/io_context.cpp:543-556 | after a whole wrap-around a notice of a removed registration does call the handler of a later one |
| `Descriptors.IoTable.constructor` | include/libspaznet/platform/io_context.hpp:931-937 | nothing registered, the first generation is 1 |
| `Descriptors.IoTable.FetchAdd` | src/platform/io_context.cpp:552-556 | the 32-bit counter is the unbounded one, cut |
| `Descriptors.IoTable.SetIoHandler` | src/platform/io_context.cpp:517-595 | the registration gets a new generation, never 0, and the named interests; others are kept |
| `Descriptors.IoTable.RemoveIo` | src/platform/io_context.cpp:597-611 | exactly that descriptor is forgotten |
| `Descriptors.IoTable.ProcessIoEvents` | src/platform/io_context.cpp:613-693 | the loop takes out exactly the handlers that the notices call for, in order |
| `Reactor.NextKeeps` | src/reactor/buffered_connection.cpp:185-385 | every step of the loop keeps registration, armed flag and buffers consistent, and the adjustments it reports are what the bytes queued have changed by |
| `Reactor.NoLostWakeup` | src/reactor/buffered_connection.cpp:185-385 | in every run, whatever readiness is reported, between callbacks an open started connection has read interest, and write interest while bytes are queued; a closed one is not registered |
| `Reactor.GaugeIsSum` | src/reactor/buffered_connection.cpp:262-385 | in every run the adjustments that write, on_writable and close report add up to the bytes queued on open connections, although a destructor reports nothing |
| `Reactor.SentInOrder` | src/reactor/buffered_connection.cpp:262-385 | in every run the socket took exactly the bytes written, in order, up to those still queued; a connection that closed after flushing has sent them all |
| `Connections.FlushIs` | src/reactor/buffered_connection.cpp:71-94 | what a flush of the buffer sends and leaves is what the loop model says of it |
| `Connections.IoContext.constructor` | include/libspaznet/platform/io_context.hpp:931-937 | nothing registered and nothing buffered |
| `Connections.IoContext.AdjustBytesBuffered` | include/libspaznet/platform/io_context.hpp:1189-1197 | the unsigned gauge moves by the adjustment and never below zero |
| `Connections.BufferedConnection.constructor` | src/reactor/buffered_connection.cpp:129-134 | a new connection is open, unregistered and has nothing queued |
| `Connections.BufferedConnection.SetIoHandler` | src/reactor/buffered_connection.cpp:164-183 | interest is added for this descriptor and no other changes |
| `Connections.BufferedConnection.ReportBufferedDelta` | src/reactor/buffered_connection.cpp:379-385 | the gauge moves by what the queue has grown |
| `Connections.BufferedConnection.Close` | src/reactor/buffered_connection.cpp:341-362 | the flags, the registration and the gauge become what the loop model says of a close |
| `Connections.BufferedConnection.Start` | src/reactor/buffered_connection.cpp:164-183 | computes the start of the loop model |
| `Connections.BufferedConnection.Reregister` | src/reactor/buffered_connection.cpp:250-260 | computes the registration after the last read |
| `Connections.BufferedConnection.FlushOutput` | src/reactor/buffered_connection.cpp:71-94 | the queue loses exactly what the socket took |
| `Connections.BufferedConnection.FinishWrite` | src/reactor/buffered_connection.cpp:312-339 | after the attempt to flush: fails, is done, or arms, and reports the change on each way out |
| `Connections.BufferedConnection.Write` | src/reactor/buffered_connection.cpp:305-339 | computes the write of the loop model, adjustments of the gauge included |
| `Connections.BufferedConnection.FinishFlush` | src/reactor/buffered_connection.cpp:266-299 | reports the change, then fails, closes, disarms or registers again |
| `Connections.BufferedConnection.Writable` | src/reactor/buffered_connection.cpp:262-299 | computes the writable callback of the loop model, adjustments of the gauge included |
| `Connections.BufferedConnection.CloseAfterFlush` | src/reactor/buffered_connection.cpp:364-373 | computes the closing after a flush of the loop model |
| `Connections.BufferedConnection.Destroy` | src/reactor/buffered_connection.cpp:136-153 | a connection that was not closed leaves the table |
| `Buffers.InputBuffer.constructor` | src/reactor/buffered_connection.cpp:11-26 | nothing received |
| `Buffers.InputBuffer.Prepare` | src/reactor/buffered_connection.cpp:11-26 | room is made without changing the contents |
| `Buffers.InputBuffer.Commit` | src/reactor/buffered_connection.cpp:28-30 | the bytes read are appended to the contents |
| `Buffers.InputBuffer.Consume` | src/reactor/buffered_connection.cpp:32-40 | exactly the given number of bytes leaves the front |
| `Buffers.OutputBuffer.constructor` | src/reactor/buffered_connection.cpp:42-69 | nothing queued |
| `Buffers.OutputBuffer.Append` | src/reactor/buffered_connection.cpp:42-69 | the bytes join the end of the queue, whatever was already sent |
| `Buffers.OutputBuffer.PendingBytes` | src/reactor/buffered_connection.cpp:42-69 | the number of bytes queued |
| `Buffers.OutputBuffer.TryFlush` | src/reactor/buffered_connection.cpp:71-94 | what went out and what is left are the old contents in order, cut where the socket stopped; the result says flushed iff nothing is left |

## Left out

- `Sender.Connection` keeps the streams as values of the abstract send state; that `SendSide.SendSide` computes the same operations is proved separately, so sharing of stream objects by reference is not modelled.
- Packet sealing is taken to succeed; when it fails the program drops the frames it has pulled (connection.cpp:1385-1390).
- Unsigned 64-bit totals are unbounded integers; streams and connections of 2^64 bytes are not modelled.
- Final sizes below bytes already received are not refused by the program (stream.cpp:38-40, 178-186), so no such property is stated.
- Application writes may open streams of any id; only ids from the peer are counted against the stream limits.
- Congestion control, round-trip estimates, pacing, the amplification limit, the idle timer and the close path of `build_and_send` (connection.cpp:1061-1175).
- TLS, packet protection, header protection, Retry tokens, version negotiation and long-header parsing.
- CryptoTransfer.HandshakeComplete: excludes runs in which the receiver refused a frame beyond its 64 KiB window, because the connection is then closed; up to 64 KiB none is refused (SmallHandshakeFits).
- Qpack.RoundTrip: encoded strings are shorter than 2^64 bytes.
- Hpack.RoundTrip: strings are shorter than 2^32 bytes; the order in which the encoder sorts the fields is left open, since any order is covered.
- Http2 response sending, request construction from headers, and what the handler does with a request; a failing write in the middle of `try_process`, which closes the connection and drops the rest of the input.
- HTTP/1 parsing, the WebSocket handshake and the sniffing of the protocol, which do depend on how bytes are cut into reads.
- The stand-alone `Frame::parse` of the WebSocket codec, which the dispatchers do not use.
- Timers.TimerQueue.Top: the layout of the binary heap is not modelled; ties between equal deadlines are left open.
- Timers.TimerQueue.AddTimer: clocks and the coroutine form of a timer entry are not modelled; the current time is an argument.
- Reactor.NextKeeps: the TLS branches are not modelled. Connections are told apart by identity, not by descriptor number; readiness may be reported for any of them at any time, and which reports pass the generation check is stated in `Descriptors`.
- Connections.BufferedConnection.Reregister: the reading loop of `on_readable` is in `Reactor` alone, because it calls back into the application.
- The check for finished streams before a retirement is in `ConnWindow.Window.RetireClosedStreams`; a client's unidirectional stream to which the application has written, against section 2.1 of RFC 9000, can be retired with bytes in flight, and `Sender.Connection.Retire` says what then fails.
- Descriptors.IoTable.SetIoHandler: the calls that tell the kernel about interest, and the wake-up byte, are not modelled; the kernel reports only readiness asked for.
- Writers.OneWriterInOrder: coroutine lifetimes and memory order; each block under a mutex is one step.
- HTTP/3 frames and connection handling above QPACK.
- WebSocket.AlwaysGood: what the message handler itself sends or closes inside its callback is not modelled.
