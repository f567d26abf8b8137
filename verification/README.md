# A verified model of daonode's transport stack and user state

daonode is a proxy node daemon. This project models the parts of it whose
correctness is not visible in any single function, and proves what those parts
promise together:

- **HTTPMask split session** (`Uplink.dfy`, `UplinkTheorems.dfy`, `Downlink.dfy`,
  `DownlinkTheorems.dfy`). Client push loop,
  server session and a network that loses, delays, repeats and reorders requests
  and replies, as a state machine over their steps. Pull handlers that compete for
  the lease of one session pipe, cancelled and taken over at any point.
- **Encrypted records** (`Record.dfy`, `RecordTheorems.dfy`). Sealing with a header
  that doubles as the nonce, byte-driven key rotation, strict receive order,
  scatter/gather writes, partial reads and `WriteTo`. The AEAD is ideal: `Open`
  gives back what was sealed under the same key and header, and nothing else.
- **Stream multiplexing** (`Mux.dfy`, `MuxTheorems.dfy`, `MuxErrors.dfy`). Two endpoints over two
  FIFO connections, any number of half-closable streams with bounded queues,
  resets that are sent later by their own goroutines, and connection failure.
- **Sudoku codecs** (`Layout.dfy`, `ClassicTable.dfy`, `Classic.dfy`, `Packed.dfy`,
  `PackedEncoder.dfy`, `PackedPads.dfy`, `PackedWriter.dfy`, `PackedTheorems.dfy`). Byte layouts, clue tables with sorted
  hint keys, both encoders through bounded buffers and both decoders with their
  four-at-a-time fast paths. The packed codec is modelled in two-bit digits: a byte
  is four of them, a group three, and the bit buffers hold the ones in between.
- **Traffic accounting** (`Panel.dfy`, `Accounting.dfy`, `AccountingTheorems.dfy`). Counters,
  pending snapshots and the process-wide baselines that outlive a runtime.
- **Device limiter** (`Limiter.dfy`, `LimiterTheorems.dfy`), **user lists**
  (`UserSync.dfy`, `UserSyncTheorems.dfy`), **Mieru credential cache**
  (`Mieru.dfy`, `MieruTheorems.dfy`), **nonce set** (`NonceSet.dfy`) and **framing** (`Framing.dfy`).

Objects whose methods update fields are classes here too. A class gives its state
as a value (`View()`, `SendState()`, ...), each method is proved equal to a function
on that value or to a relation over it, and the theorems are about the functions, over every
sequence of steps. What the source leaves to chance (random draws, the order of a
Go map, which call fails, what the network does) is an arbitrary choice or an
arbitrary parameter.

Some statements one would expect are false of the code. Each has a concrete run or
input, and the exact condition:

- `PackedTheorems.RoundTripsIffSentinel`: the packed codec is lossless if and only
  if the layout's decode table marks the marker and all pads as no groups. The
  decoder relies on that (`packed_decode.go:18-32`); none of the layout
  constructors establishes it (`PackedTheorems.ShippedLayoutsAreLossy`). This is
  about the symbols that `Write` draws: `PackedWriter.Writer.Write` is proved to
  emit, draw for draw, what the plain encoder `PackedEncoder.Plain` emits.
- `Framing.KipRoundTripIff`, `Framing.DatagramRoundTripIff`: the length guards admit
  65536, which two bytes hold as 0.
- `RecordTheorems.ReliableIffEpochLasts`: the 32-bit epoch starts at random and may
  run through. Over a reliable connection everything is accepted if and only if it
  does not do so before the last record.
- `RecordTheorems.LossIsNoticedIff`: whoever drops, repeats, reorders or injects
  frames can make a receiver skip records between two accepted ones, without an
  error, exactly when there are more than two records and a rotation before the
  last. Records lost in front are never noticed (`RecordTheorems.LeadingLossIsSilent`).
- `RecordTheorems.RotationCountExact`: the rotation count is the quotient if and
  only if the threshold is at least one full record.
- `MuxTheorems.EofIsHonestIff`: `io.EOF` means that everything the peer's Writes
  counted has been read, if and only if the reader has not called `CloseRead`
  (`MuxTheorems.EofAfterCloseRead` is a run that drops data after it).
- `AccountingTheorems.Conservation`: a runtime that finds an old baseline loses
  exactly that baseline, or nothing, and the lemma says when.
- `AccountingTheorems.NothingIsStrandedIff`: every user with unreported bytes is a
  candidate of the next report cycle in all of a run if and only if each time bytes
  were counted on a session the user was one already, or had no counter, or owed
  nothing afterwards. `AccountingTheorems.LateBytesAreStranded` is a run where that fails.
- `LimiterTheorems.UpdateKeepsExactIff`: deleting a user with open sessions makes
  the device counts wrong, and nothing else does.
- `UserSyncTheorems.AddedAloneIff`: the added-user loop on its own keeps the UUID
  index right if and only if no added user takes over a UUID that a later one gives up.
- `NonceSet.ReplayPossibleIffExcess`: a nonce shown again within its lifetime can be
  let through, for some choice of eviction, if and only if a prune since found more
  unexpired nonces than the set may hold.
- `UplinkTheorems.AcknowledgedIff`, `UplinkTheorems.CloseWriteCanCompleteIff`: a retried
  upload gets through if and only if the session is there and the batch is within the
  server's limit. A single write longer than that is accepted, but then neither its
  flush nor CloseWrite can ever succeed.
- `Uplink.RetryBeforeClose`: a failed pipe write and the close after it must be one
  step; with a retry in between the pipe repeats the part it had taken.

## Model

| member | source | states |
|---|---|---|
| Uplink.TunnelSession.StreamPush | core/sudoku/transport/obfs/httpmask/tunnel_server.go:1029-1055 | server state and status of every upload: a number already applied is accepted again and changes nothing, the next one is appended, a gap refused; a failed pipe write closes the session and keeps what was written |
| Uplink.StreamSplitConn.Write | core/sudoku/transport/obfs/httpmask/tunnel_conn_queue.go:163-201 | all of the bytes are accepted, or none and an error, and when which |
| Uplink.StreamSplitConn.StartFlush | core/sudoku/transport/obfs/httpmask/tunnel_conn_stream.go:269-310 | the batch gets the next number and becomes the request's payload |
| Uplink.StreamSplitConn.HandlePayload | core/sudoku/transport/obfs/httpmask/tunnel_conn_stream.go:311-369 | a payload joins the batch or makes it flush first |
| Uplink.StreamSplitConn.FlushAcknowledged | core/sudoku/transport/obfs/httpmask/tunnel_conn_stream.go:269-369 | after an acknowledged flush the payload that did not fit starts the next batch |
| Uplink.ReachableInv | core/sudoku/transport/obfs/httpmask/tunnel_conn_stream.go:247-369 | the invariant tying batches, requests in flight, acknowledgements and pipe holds after every run of client, server and lossy network |
| Uplink.ExactlyOnce | core/sudoku/transport/obfs/httpmask/tunnel_server.go:1029-1055 | in every run the pipe is a prefix of the accepted bytes and, while the session lives, exactly the applied batches once each; acknowledged batches are among them; the gap answer never occurs |
| Uplink.CloseWriteDeliversAll | core/sudoku/transport/obfs/httpmask/tunnel_conn_queue.go:52-97 | CloseWrite returns nil, and the server ends the uplink, only when every accepted byte is in the pipe |
| Uplink.CloseWriteIsFinal | core/sudoku/transport/obfs/httpmask/tunnel_conn_queue.go:52-97 | nothing that happens later changes that |
| Uplink.RetryBeforeClose | core/sudoku/transport/obfs/httpmask/tunnel_server.go:1045-1052 | a retry between a failed write and the close duplicates bytes unless the write had taken none |
| UplinkTheorems.RetryIsAcknowledged | core/sudoku/transport/obfs/httpmask/tunnel_server.go:1037-1040 | in every run, repeating a request whose batch was applied adds its acknowledgement and changes nothing else |
| UplinkTheorems.AcknowledgedIff | core/sudoku/transport/obfs/httpmask/tunnel_conn_stream.go:276-307 | a flush can still be acknowledged in some continuation if and only if it was answered already, or the session is there and the batch is within the upload limit |
| UplinkTheorems.BatchesAreSmall | core/sudoku/transport/obfs/httpmask/tunnel_conn_stream.go:311-369 | no batch is longer than the batch limit or the longest single payload, whichever is more |
| UplinkTheorems.CloseWriteCanCompleteIff | core/sudoku/transport/obfs/httpmask/tunnel_conn_stream.go:332-369 | while the push loop runs, CloseWrite can still return nil with the uplink ended if and only if the FIN was delivered already, or the session is there and no waiting payload is longer than the server takes; then with every accepted byte in the pipe |
| UplinkTheorems.LoopEndsIff | core/sudoku/transport/obfs/httpmask/tunnel_conn_stream.go:264-369 | CloseWrite returns nil exactly if the FIN behind the last flush was answered; the loop fails, and the connection closes, exactly for a failed flush, a failed FIN or Close |
| UplinkTheorems.ShutTakesNothing | core/sudoku/transport/obfs/httpmask/tunnel_conn_queue.go:163-201 | behind a Close or a CloseWrite no Write takes anything |
| Downlink.PullSession.StoreDownlink | core/sudoku/transport/obfs/httpmask/tunnel_server.go:1210-1216 | pending bytes are never overwritten |
| Downlink.PullSession.AcknowledgeDownlink | core/sudoku/transport/obfs/httpmask/tunnel_server.go:1218-1230 | exactly the acknowledged front leaves the pending bytes |
| Downlink.PullSession.SessionPull | core/sudoku/transport/obfs/httpmask/tunnel_server.go:1232-1328 | the bytes after any rounds of the loop, every payload written to the response, and whether it ends with the end-of-stream marker, are those of the round function |
| Downlink.ResponseCarries | core/sudoku/transport/obfs/httpmask/tunnel_server.go:1270-1328 | one response carries exactly the bytes it acknowledged, in order, and behind them at most once the bytes still pending; the marker goes out only with nothing pending |
| Downlink.RoundIsSteps | core/sudoku/transport/obfs/httpmask/tunnel_server.go:1270-1328 | each round that is possible in a session is a run of the state machine's steps with the same bytes and outcome |
| Downlink.ReachableInv | core/sudoku/transport/obfs/httpmask/tunnel_server.go:1167-1328 | lease, handlers and byte accounts agree after every interleaving |
| Downlink.OnePullAtATime | core/sudoku/transport/obfs/httpmask/tunnel_server.go:1167-1201 | at most one handler is past beginSessionPull, and it holds the lease |
| Downlink.DownlinkConservation | core/sudoku/transport/obfs/httpmask/tunnel_server.go:1203-1328 | bytes read from the pipe are acknowledged bytes, then pending ones, then those the one reader has in hand |
| Downlink.EofOnlyAfterAll | core/sudoku/transport/obfs/httpmask/tunnel_server.go:1232-1328 | the end-of-stream answer is sent only after everything was acknowledged |
| DownlinkTheorems.StreamCanEnd | core/sudoku/transport/obfs/httpmask/tunnel_server.go:1167-1328 | from every reachable state of a live session with a finished tunnel and an unbroken pipe, all that was produced can still be acknowledged and the end-of-stream marker be sent |
| DownlinkTheorems.PullEndsIff | core/sudoku/transport/obfs/httpmask/tunnel_server.go:1270-1328 | a pull's response ends with the marker if and only if the pull reaches a round that ends the stream |
| DownlinkTheorems.MarkerIff | core/sudoku/transport/obfs/httpmask/tunnel_server.go:1270-1328 | a round ends the stream exactly if nothing was left over, the pipe reported its end, and what it still handed over was flushed |
| DownlinkTheorems.NothingTwice | core/sudoku/transport/obfs/httpmask/tunnel_server.go:1270-1328 | with every written payload flushed, responses carry nothing but acknowledged bytes |
| DownlinkTheorems.TakeoverStopsHolder | core/sudoku/transport/obfs/httpmask/tunnel_server.go:1167-1201 | a new pull that finds the lease taken stops its holder, nobody else, and waits for it |
| DownlinkTheorems.StoppedIsOver | core/sudoku/transport/obfs/httpmask/tunnel_server.go:1266-1273 | a stopped handler back at the top of its loop never reads, sends or ends the stream again |
| DownlinkTheorems.WaitingPullCanTakeOver | core/sudoku/transport/obfs/httpmask/tunnel_server.go:1167-1201 | from every reachable state of a live session a waiting pull can still get the lease, unless its holder ends the stream |
| DownlinkTheorems.SessionLivesIff | core/sudoku/transport/obfs/httpmask/tunnel_server.go:944-990 | a session is removed exactly by its close, by a broken pipe, or once the uplink is closed and the stream ended |
| Record.RecordConn.MaybeBumpSendEpoch | core/sudoku/transport/crypto/record_conn.go:293-311 | counters, epoch and sequence after one record's bytes |
| Record.RecordConn.GatherSize | core/sudoku/transport/crypto/record_conn.go:337-417 | the record takes all remaining bytes, up to one record's limit |
| Record.RecordConn.Gather | core/sudoku/transport/crypto/record_conn.go:337-417 | the bytes copied across slices are the next ones of the concatenation, and the rest of it remains |
| Record.RecordConn.NextRecord | core/sudoku/transport/crypto/record_conn.go:337-417 | each record's plaintext is the next chunk of the concatenated buffers, and the loop makes progress |
| Record.RecordConn.SendRecord | core/sudoku/transport/crypto/record_conn.go:337-417 | one sealed frame goes out in its place, or the write failed |
| Record.RecordConn.WriteBuffers | core/sudoku/transport/crypto/record_conn.go:327-417 | the frames are those of one Write of the concatenation, and the count is that of fully written frames |
| Record.RecordConn.ReadLocked | core/sudoku/transport/crypto/record_conn.go:438-520 | a read serves the held record or one authenticated frame; a refused frame leaves epoch, sequence and initialisation as they were |
| Record.RecordConn.DrainPlain | core/sudoku/transport/crypto/record_conn.go:522-530 | what is handed out is the front of the held record |
| Record.RecordConn.WriteTo | core/sudoku/transport/crypto/record_copy.go:13-54 | the destination gets the records in order; a short or failing write keeps the unwritten suffix held; the clean end of the connection is no failure |
| RecordTheorems.NonceNeverReused | core/sudoku/transport/crypto/record_conn.go:293-417 | no two records of a sender carry the same header while the epoch counter has not run through and, with rotation off, the sequence number neither |
| RecordTheorems.AcceptedHeadersNeverRepeat | core/sudoku/transport/crypto/record_conn.go:438-516 | for any frames, genuine or not, accepted epochs never go back and a header repeats only after 2^64 records |
| RecordTheorems.DeliveredIsSubsequence | core/sudoku/transport/crypto/record_conn.go:438-516 | with an ideal AEAD the accepted records are an ordered, duplicate-free selection of those sent, with no gap between two accepted records of one epoch |
| RecordTheorems.LossIsNoticedIff | core/sudoku/transport/crypto/record_conn.go:438-516 | whatever happens to the frames the accepted records are one stretch of those sent, if and only if there are at most two records or no rotation before the last |
| RecordTheorems.LossAtRotationIsSilent | core/sudoku/transport/crypto/record_conn.go:459-490 | the shortest run in which a middle record vanishes unnoticed |
| RecordTheorems.LeadingLossIsSilent | core/sudoku/transport/crypto/record_conn.go:459-490 | with any number of records lost in front, all the others are accepted |
| RecordTheorems.RoundTrip | core/sudoku/transport/crypto/record_conn.go:293-530 | over any writes, rotations, reads and WriteTo calls, delivered is a prefix of written, complete once nothing is held or on the wire |
| RecordTheorems.CopySucceedsIff | core/sudoku/transport/crypto/record_copy.go:13-54 | over a reliable link WriteTo returns no error if and only if the destination took every piece offered, and then everything written is delivered; there is nothing to offer if and only if that is so already |
| RecordTheorems.CopyMeetsNoRefusal | core/sudoku/transport/crypto/record_copy.go:13-54 | whatever is on the wire, WriteTo without an error has met no refused frame |
| RecordTheorems.ReadAnswers | core/sudoku/transport/crypto/record_conn.go:438-530 | over a reliable link Read hands out the front of the next piece, as much as fits, and fails if and only if everything has been delivered |
| RecordTheorems.ReadFailsIff | core/sudoku/transport/crypto/record_conn.go:438-530 | whatever is on the wire, Read fails exactly at the end and on a refused frame, hands out nothing then, and keeps its state |
| RecordTheorems.ReliableIffEpochLasts | core/sudoku/transport/crypto/record_conn.go:206-229 | over a reliable connection every record is accepted if and only if the epoch has not run through before the last one |
| RecordTheorems.RotationCountExact | core/sudoku/transport/crypto/record_conn.go:293-311 | rotations equal bytes divided by the threshold for all writes if and only if the threshold is at least a full record |
| RecordTheorems.RotationOff | core/sudoku/transport/crypto/record_conn.go:293-297 | without a threshold no record starts a new epoch |
| Mux.StreamConn.EnqueuePayload | core/sudoku/transport/multiplex/session.go:637-655 | payload joins the unread bytes, is ignored on a closed stream, or overflows the 4 MiB bound |
| Mux.StreamConn.Read | core/sudoku/transport/multiplex/session.go:470-510 | reads take exactly the front of the unread bytes across buffer and queue, as many as fit; the error order once they are gone |
| Mux.StreamConn.CloseRead | core/sudoku/transport/multiplex/session.go:606-624 | the reading side shuts and drops what is unread, and the stream leaves the session if its writing side was shut |
| Mux.Session.SendFrame | core/sudoku/transport/multiplex/session.go:183-205 | one frame behind the others, or a refused payload, or a failed connection that ends the session |
| Mux.Session.OpenStream | core/sudoku/transport/multiplex/session.go:243-261 | the next id, the new stream and its open frame; a stream that cannot be announced is closed |
| Mux.Session.Write | core/sudoku/transport/multiplex/session.go:512-550 | the chunking loop does what the state machine's chunk steps do until the connection fails, and counts exactly the bytes of the chunks sent |
| Mux.Session.CloseStream | core/sudoku/transport/multiplex/session.go:552-581 | both sides shut and the stream leaves the table, with a close frame if the writing side was still open |
| Mux.Session.CloseWrite | core/sudoku/transport/multiplex/session.go:583-604 | the writing side shuts behind everything written; the stream leaves the table once the other direction is over too |
| Mux.Session.CloseWithError | core/sudoku/transport/multiplex/session.go:119-142 | every registered stream is closed with the first error |
| Mux.Session.HandleFrame | core/sudoku/transport/multiplex/session.go:278-366 | the endpoint after one frame, branch by branch |
| Mux.Session.SendReset | core/sudoku/transport/multiplex/session.go:235-241 | a reset owes its two frames to the connection |
| MuxTheorems.ReachableInv | core/sudoku/transport/multiplex/session.go:183-655 | after every run the frames sent for a stream carry exactly what its Writes counted, a prefix of what was written, and the receiver invariant holds |
| MuxTheorems.StreamsAreIsolated | core/sudoku/transport/multiplex/session.go:443-655 | bytes read from a stream are a prefix of what the peer's Writes counted, and so of what it wrote, on that stream; the backlog is bounded |
| MuxTheorems.EofMeansAllDelivered | core/sudoku/transport/multiplex/session.go:470-510 | io.EOF on an open reading side means that all the peer's Writes ever count has been read, in every continuation; after its half-close that is all it wrote, otherwise its session is dead |
| MuxTheorems.EofAfterCloseRead | core/sudoku/transport/multiplex/session.go:606-624 | a run in which Read answers io.EOF after dropped data |
| MuxTheorems.EofIsHonestIff | core/sudoku/transport/multiplex/session.go:470-510 | in all runs everything counted has been read when io.EOF is answered, if and only if the reading side was not shut |
| MuxErrors.TableIsOpenStreams | core/sudoku/transport/multiplex/session.go:552-624 | in every run the table of a live session holds exactly the streams that are still open in one direction |
| MuxErrors.ReadAnswers | core/sudoku/transport/multiplex/session.go:470-510 | in every run, with nothing unread, an open stream answers io.EOF if and only if the peer's own close frame has been taken, and then all the peer wrote has been read; the closed-pipe error if and only if the reading side was shut |
| MuxErrors.EndsWithItsCause | core/sudoku/transport/multiplex/session.go:119-142 | a step closes a stream if and only if it is a cause of its end (close, reset, overflow, failed connection), and Read answers that cause |
| MuxErrors.EndIsFinal | core/sudoku/transport/multiplex/session.go:626-655 | no later step changes that answer or what can still be read |
| MuxErrors.CloseIsTold | core/sudoku/transport/multiplex/session.go:552-604 | while the session lives, a stream that has not ended has its close frame sent if and only if its writing side was shut, and a closed one in any case |
| MuxErrors.OversizeFails | core/sudoku/transport/multiplex/session.go:278-300 | a frame over the limit ends the session and every stream in its table as a failed connection |
| MuxTheorems.WriteIsSteps | core/sudoku/transport/multiplex/session.go:512-550 | a whole Write, cut off anywhere or not, is a sequence of the state machine's steps |
| Layout.NewAsciiLayout | core/sudoku/transport/obfs/sudoku/layout.go:61-104 | the loops fill the tables of the ASCII layout |
| Layout.NewEntropyLayout | core/sudoku/transport/obfs/sudoku/layout.go:106-141 | the loops fill the tables of the entropy layout |
| Layout.AsciiIsGood | core/sudoku/transport/obfs/sudoku/layout.go:61-104 | 64 different hints, no pad is a hint, groups decode to themselves |
| Layout.EntropyIsGood | core/sudoku/transport/obfs/sudoku/layout.go:106-141 | the same for the entropy layout |
| Layout.AsciiIsPrintable | core/sudoku/transport/obfs/sudoku/layout.go:61-104 | whatever is written in the ASCII layout is printable or a newline, hints are written as groups, and the pads are all of 0x20 to 0x3F |
| Layout.EntropyBits | core/sudoku/transport/obfs/sudoku/layout.go:106-141 | bits 7 and 4 are clear in every group and hint byte, and exactly one of them is set in a pad |
| Layout.CustomIsGood | core/sudoku/transport/obfs/sudoku/layout.go:143-255 | every pattern of the right shape gives a layout, with padding, and the same holds for it |
| ClassicTable.IsUniqueClueSet | core/sudoku/transport/obfs/sudoku/table.go:53-76 | the counting loops accept a clue set exactly if it singles out the grid |
| ClassicTable.KeyIsOrderFree | core/sudoku/transport/obfs/sudoku/table.go:224-248 | the sorting network gives two hint quadruples the same key if and only if one is a reordering of the other |
| ClassicTable.KeyDeterminesGrid | core/sudoku/transport/obfs/sudoku/table.go:36-84 | a key built from a unique clue set belongs to one grid only |
| ClassicTable.NewSingleDirectionTable | core/sudoku/transport/obfs/sudoku/table.go:130-197 | the construction loops give each byte all puzzles of its grid and record exactly their keys |
| ClassicTable.BuiltTableIsGood | core/sudoku/transport/obfs/sudoku/table.go:130-197 | every stored puzzle decodes to its byte, whatever the grid order |
| Classic.Rand.Intn | core/sudoku/transport/obfs/sudoku/rand.go:59-68 | the next draw scaled into the range, and no draw used up when there is nothing to choose |
| Classic.DrawHints | core/sudoku/transport/obfs/sudoku/classic_encode.go:3-61 | a reordering of one of the byte's stored puzzles |
| Classic.MaybePad | core/sudoku/transport/obfs/sudoku/classic_encode.go:3-61 | a pad is appended exactly if the draw is below the threshold, and it is the pool's byte for the next draw |
| Classic.AppendPayload | core/sudoku/transport/obfs/sudoku/classic_encode.go:3-61 | the wire carries exactly the payload, and fits the expansion reserved for it |
| Classic.WriteEncoded | core/sudoku/transport/obfs/sudoku/write_buffer.go:52-61 | the pieces of at most 32 KiB are together the buffer, up to where the writer fails |
| Classic.WritePayload | core/sudoku/transport/obfs/sudoku/write_buffer.go:14-47 | batches never exceed the capacity fixed up front, together encode the payload in order, and on failure the count covers only bytes of fully written batches |
| Classic.Conn.Decode | core/sudoku/transport/obfs/sudoku/classic_decode.go:4-45 | the fast path does what decoding hint by hint does, for any table, chunk and destination |
| Classic.SlowIsFaithful | core/sudoku/transport/obfs/sudoku/classic_decode.go:4-45 | any one decode call on a correct wire yields a prefix of the payload and leaves the rest pending |
| Classic.DecodeInvertsEncode | core/sudoku/transport/obfs/sudoku/classic_encode.go:3-61 | decode after encode is the identity for every random choice, padding and chunking |
| Packed.FedKeepsDigits | core/sudoku/transport/obfs/sudoku/packed.go:177-189 | complete groups and left-over bits hold exactly the payload's bits |
| Packed.Reader.TakeByte | core/sudoku/transport/obfs/sudoku/packed_decode.go:29-54 | one wire byte through the bit buffer is one step on digits |
| Packed.Reader.Decode | core/sudoku/transport/obfs/sudoku/packed_decode.go:4-59 | the loop with its four-group path equals one-group-at-a-time decoding for any table, chunk and destination size |
| Packed.FourSlow | core/sudoku/transport/obfs/sudoku/packed_decode.go:11-27 | the three bytes of the fast path are what four single groups give |
| Packed.SlowIsRun | core/sudoku/transport/obfs/sudoku/packed_decode.go:4-59 | one call decodes exactly the bytes it takes |
| PackedEncoder.PlainEmits | core/sudoku/transport/obfs/sudoku/packed.go:161-324 | whatever is drawn: padding first, all of it from the pool, more than one pad for every two of the first 14 bytes, and the symbols of the payload |
| PackedPads.AlwaysPads | core/sudoku/transport/obfs/sudoku/packed.go:202-221 | when every draw is below the threshold, each group has a pad directly before it and the last symbol is a pad |
| PackedPads.NeverPads | core/sudoku/transport/obfs/sudoku/packed.go:161-221 | when no draw is below the threshold, all pads are forced ones: in front, and behind at most every one or two of the first 14 bytes |
| PackedPads.NeverPadsIsUnpadded | core/sudoku/transport/obfs/sudoku/packed.go:161-221 | such a Write is, symbol for symbol, one at threshold 0 for the draws that are left |
| PackedWriter.BlockAgrees | core/sudoku/transport/obfs/sudoku/packed_blocks.go:5-31 | the block formulas emit the groups the bit buffer would |
| PackedWriter.BlockIsPlain | core/sudoku/transport/obfs/sudoku/packed_blocks.go:5-31 | a block takes the same draws and emits the same symbols as its three bytes one by one |
| PackedWriter.Writer.FeedByte | core/sudoku/transport/obfs/sudoku/packed.go:178-189 | the shift loop emits the complete groups, each behind its chance of a pad, and keeps the rest |
| PackedWriter.Writer.WriteProtectedPrefix | core/sudoku/transport/obfs/sudoku/packed.go:161-200 | the first 14 bytes' groups with every forced pad where the draws put it |
| PackedWriter.Writer.AppendBlocks | core/sudoku/transport/obfs/sudoku/packed_blocks.go:5-31 | whole blocks within the room computed for them are the plain encoding of their bytes |
| PackedWriter.Writer.Write | core/sudoku/transport/obfs/sudoku/packed.go:223-324 | the wire gains, draw for draw, the plain encoding of the payload, whatever capacity, batches and blocks, and never past the capacity; on failure the count covers only whole symbols on the wire; the bit buffer ends empty |
| PackedTheorems.ExpectedDecodes | core/sudoku/transport/obfs/sudoku/packed.go:308-315 | groups, residual group and marker give the payload and realign the decoder |
| PackedTheorems.DecodeInvertsEncode | core/sudoku/transport/obfs/sudoku/packed_decode.go:4-59 | for layouts with the sentinel, any Writes cut and read in any way give a prefix of the payloads, all of it at the end |
| PackedTheorems.WithoutSentinel | core/sudoku/transport/obfs/sudoku/packed_decode.go:18-32 | without the sentinel, at any padding threshold, some draws make the Write of a byte 0 decode to something else |
| PackedTheorems.RoundTripsIffSentinel | core/sudoku/transport/obfs/sudoku/packed_decode.go:18-32 | at any padding threshold, what Write emits decodes to its payload for all payloads and draws if and only if the layout has the sentinel |
| PackedTheorems.ShippedLayoutsAreLossy | core/sudoku/transport/obfs/sudoku/layout.go:91-138 | no layout that the constructors build round-trips all payloads and draws |
| Accounting.RuntimeServices.SyncUsers | core/shared/runtime.go:78-108 | users, index, counters, candidates and connections after deleting and adding; the sessions to close are exactly those of the deleted users |
| Accounting.RuntimeServices.UserByUUID | core/shared/runtime.go:118-129 | the lookup through the index, with its final comparison |
| Accounting.RuntimeServices.OpenSession | core/shared/runtime.go:161-203 | only a current user gets a session, and it is registered |
| Accounting.RuntimeServices.ReleaseSession | core/shared/runtime.go:260-271 | the session leaves the table, and the user's entry with the last one |
| Accounting.RuntimeServices.RecordBytes | core/shared/runtime.go:408-426 | the user's counter in that direction grows by exactly the bytes, positive and for a known user, and every other counter stays |
| Accounting.RuntimeServices.Traffic | core/shared/runtime.go:335-380 | each candidate is judged once, in any map order: one report each, exact pending snapshots, and who is forgotten |
| Accounting.RuntimeServices.CommitTraffic | core/shared/runtime.go:384-395 | baselines advance exactly for items equal to the pending report |
| AccountingTheorems.ReachableInv | core/shared/runtime.go:335-395 | every counter is the sum of the byte counts handed over for that user and direction, and ledger, baseline and pending entry agree, over any sequence of runtimes |
| AccountingTheorems.NeverOverReports | core/shared/runtime.go:335-395 | committed reports never exceed the bytes handed over, in one runtime and in all together |
| AccountingTheorems.Conservation | core/shared/runtime.go:456-464 | committed plus uncommitted is the sum of the bytes handed over, less the old baseline exactly if it was charged; equality if and only if it was zero or not charged |
| AccountingTheorems.CycleIff | core/shared/runtime.go:335-380 | exactly who a cycle reports, with what: candidates that owe more than the threshold, all they owe; and who is dropped: candidates that owe nothing and have no session |
| AccountingTheorems.StaleCommitIsIgnored | core/shared/runtime.go:384-395 | after a commit, the same item changes nothing more, whatever happens before the next report cycle |
| AccountingTheorems.SessionBytesIff | core/shared/runtime.go:344-378 | bytes on a session keep every user with unreported bytes a candidate if and only if the user was one, or had no counter, or owes nothing afterwards |
| AccountingTheorems.NothingIsStrandedIff | core/shared/runtime.go:344-378 | the same over all of a run, if and only if it holds of each of its steps |
| AccountingTheorems.NothingIsStranded | core/shared/runtime.go:344-378 | in such a run every user with unreported bytes is reported, exactly, by a cycle without threshold |
| AccountingTheorems.LateBytesAreStranded | core/shared/runtime.go:356-361 | a run at whose end a late read on a closed session is counted, unreported, and its user no candidate |
| Limiter.DeviceLimiter.CheckLimit | limiter/limiter.go:155-182 | unknown users are rejected, untracked connections accepted, others tracked |
| Limiter.DeviceLimiter.TrackConnection | limiter/limiter.go:206-252 | state and verdict of one connection attempt |
| Limiter.DeviceLimiter.ReleaseConnection | limiter/limiter.go:257-278 | one connection fewer; the last one moves the user to pending offline if something was reported |
| Limiter.DeviceLimiter.MarkOfflineUsersReported | limiter/limiter.go:309-323 | only current offline snapshots are cleared |
| Limiter.DeviceLimiter.MarkOnlineDeviceReported | limiter/limiter.go:328-348 | every online user's reported set becomes what the panel accepted |
| Limiter.DeviceLimiter.UpdateUser | limiter/limiter.go:106-147 | limits and tracking after deletions, modifications and additions |
| LimiterTheorems.ReachableValid | limiter/limiter.go:206-348 | in every reachable state online and pending exclude each other, online users have IPs with positive counts, pending ones a reported set |
| LimiterTheorems.LimitHolds | limiter/limiter.go:206-252 | when exactly a connection is accepted; a new IP stays within the limit; a rejection changes nothing; an untracked connection of a known user is always accepted |
| LimiterTheorems.UpdateKeepsExactIff | limiter/limiter.go:139-146 | counts stay those of the open sessions if and only if no deleted user has one |
| LimiterTheorems.SlotsAreOpenSessions | limiter/limiter.go:206-278 | a user's online IPs are exactly those with an open session, counted as often |
| LimiterTheorems.LastReleaseGoesOffline | limiter/limiter.go:257-278 | when a session closes its user stays online exactly if another of its sessions is open; the last one leaves it pending offline if and only if the panel was told of it; nobody else changes |
| LimiterTheorems.OfflineForgets | limiter/limiter.go:309-323 | an offline report forgets exactly the users whose pending entry it carries, and their reported IPs |
| LimiterTheorems.OnlineReports | limiter/limiter.go:328-348 | after an online report a user's reported IPs are the ones the panel took for its id, if it is online, and otherwise what they were |
| LimiterTheorems.DeletedAreForgotten | limiter/limiter.go:106-147 | a change of users forgets the devices of exactly the deleted ones, by tag, and their alive counts, by id |
| LimiterTheorems.TrimIff | limiter/limiter.go:155-158 | an IP loses the IPv4-mapped prefix once, and nothing else |
| LimiterTheorems.BucketRate | limiter/limiter.go:84-86 | megabits per second become whole bytes per second, rounded down; no rate without a limit |
| UserSync.CompareUserList | node/user.go:148-173 | the loops' results and, in any order, the old users not met |
| UserSync.CompareIsDifference | node/user.go:148-173 | added, deleted and modified are exactly the set differences by UUID and id, and the changed limits |
| UserSyncTheorems.LimitsAreRebuilt | limiter/limiter.go:106-131 | the updated limit table is the one built from the new list |
| UserSyncTheorems.IncrementalIsRebuild | core/shared/runtime.go:78-105 | after any number of list changes users, index and limits are those of the last list alone |
| UserSyncTheorems.AgreeingStatesAreEqual | core/shared/runtime.go:78-105 | that determines index and UUIDs completely |
| UserSyncTheorems.LookupIsSearch | core/shared/runtime.go:118-129 | UserByUUID finds what a linear search of the list finds |
| UserSyncTheorems.AddedAloneIff | core/shared/runtime.go:94-99 | the added-user loop alone keeps the index right if and only if nothing is stolen |
| UserSyncTheorems.AddedLoopDropsAnEntry | core/shared/runtime.go:94-99 | a current user that can no longer be found by UUID |
| Mieru.MieruRuntime.RestartLocked | core/mieru/runtime.go:264-342 | server and cache after a restart that may fail at any step |
| Mieru.MieruRuntime.StopLocked | core/mieru/runtime.go:375-398 | the server is given up whether or not it stops in time |
| Mieru.MieruRuntime.CredentialChanged | core/mieru/runtime.go:344-351 | whether a cached credential differs |
| Mieru.MieruRuntime.SyncUsers | core/mieru/runtime.go:195-262 | hot update, restart, rollback and recovery, with every failure |
| Mieru.SyncKeepsValid | core/mieru/runtime.go:195-262 | after success or rollback active users' credentials are current, the cache is bounded, server and policy agree with it; failure keeps the users |
| Mieru.ReachableValid | core/mieru/runtime.go:195-262 | the same after any sequence of calls |
| Mieru.ChangeNeedsRestart | core/mieru/runtime.go:245-261 | with a changed credential the hot update is never used, and success leaves no old or deleted credential in cache or server |
| MieruTheorems.SyncServes | core/mieru/runtime.go:195-342 | exactly when a change of users succeeds; after success or rollback a server runs if and only if there are users, and knows each by its current credential; any other failure leaves no server, except a configuration that fails twice |
| MieruTheorems.HotIff | core/mieru/runtime.go:207-216 | exactly when a running server is updated in place: users before and after, no changed credential, and a cache within 1024 more than the users |
| MieruTheorems.Recovers | core/mieru/runtime.go:195-342 | whatever failed before, a change of which nothing fails makes the server serve exactly the new users |
| Mieru.ServicesFollow | core/shared/runtime.go:82-104 | the connection policy replaces users as the runtime does |
| NonceSet.NonceTable.Allow | core/sudoku/transport/replay.go:27-55 | the verdict and the table, with whichever nonces eviction picked |
| NonceSet.SizeIsBounded | core/sudoku/transport/replay.go:35-53 | never more than one nonce above the configured size |
| NonceSet.ReplayIffEvicted | core/sudoku/transport/replay.go:50-54 | a nonce shown again within its lifetime is let through if and only if it was evicted since |
| NonceSet.ReplayPossibleIffExcess | core/sudoku/transport/replay.go:35-54 | some legal eviction lets it through if and only if a prune since then found more unexpired nonces than the set may hold |
| NonceSet.ExpiredIsFresh | core/sudoku/transport/replay.go:31-54 | from the end of its lifetime on, a minute unless asked otherwise, a nonce is let through again |
| NonceSet.CleansWhenDue | core/sudoku/transport/replay.go:35-48 | exactly which calls clean the set; then no other expired nonce is left, otherwise none is lost |
| Framing.WriteMessage | core/sudoku/transport/kip.go:56-70 | one frame is appended, or a long payload refused |
| Framing.ReadMessage | core/sudoku/transport/kip.go:72-96 | the stream yields the parsed message and stands behind it |
| Framing.KipRoundTripIff | core/sudoku/transport/kip.go:56-96 | a message comes back if and only if its length fits two bytes |
| Framing.MessagesRoundTripIff | core/sudoku/transport/kip.go:56-96 | a list of messages parses to itself if and only if all of them fit |
| Framing.KipLayout | core/sudoku/transport/kip.go:56-70 | magic, type, two length bytes and payload, each at its place |
| Framing.ParseKipIff | core/sudoku/transport/kip.go:72-96 | exactly the streams that start with a whole message are read as one, and the message written back gives the stream |
| Framing.AddressRoundTrip | core/sudoku/transport/address.go:12-100 | only long domains are refused; any other address comes back, IPv4-mapped ones as IPv4 |
| Framing.MappedIsV4 | core/sudoku/transport/address.go:30-32 | IPv6 addresses are taken for IPv4 ones exactly in ::ffff:0:0/96; no other host changes |
| Framing.AddressLayout | core/sudoku/transport/address.go:12-56 | the type byte of each kind of host (1, 3 or 4), then the host, then the port with its high byte first: sections 4 and 5 of RFC 1928 |
| Framing.DecodeAddressIff | core/sudoku/transport/address.go:58-100 | exactly the streams that start with a whole address of one of the three types are read as one, to its end |
| Framing.WriteDatagram | core/sudoku/transport/uot.go:22-41 | one frame is appended, or the datagram refused |
| Framing.DatagramLayout | core/sudoku/transport/uot.go:22-41 | two lengths of two bytes, of address and payload, then the two |
| Framing.ReadHeader | core/sudoku/transport/uot.go:126-151 | address and payload length, or an error |
| Framing.ReadDatagram | core/sudoku/transport/uot.go:43-55 | the stream yields the parsed datagram and stands behind it |
| Framing.DatagramRoundTripIff | core/sudoku/transport/uot.go:22-54 | a datagram comes back if and only if its payload fits two bytes |
| Framing.DatagramsRoundTripIff | core/sudoku/transport/uot.go:22-54 | the same for lists |
| Framing.ReadFrom | core/sudoku/transport/uot.go:66-92 | the skipping and discarding loop |
| Framing.ReceiveKeepsFraming | core/sudoku/transport/uot.go:66-92 | whatever is skipped or dropped, the stream ends at a datagram boundary |
| Framing.HelloRoundTripIff | core/sudoku/transport/kip.go:151-192 | a client hello comes back with and without its table hint |
| Framing.ServerRoundTrip | core/sudoku/transport/kip.go:226-249 | a server hello comes back |

## Left out

- Sockets, HTTP parsing, TLS, QUIC, the panel client, logging and configuration: input and output, or libraries not visible here.
- The interior of AEAD, HKDF, X25519 and SHA-256: the AEAD is ideal, key derivation an injective constructor of the base key and the epoch.
- Classic.Rand.Intn: the draws are an arbitrary tape; the xorshift generator behind them and their distribution are not modelled.
- Grid enumeration and the enumeration of clue positions: the grid list and its clue sets are parameters; the round trip needs at least one clue set for each byte.
- Host, IP and UUID text: hosts are parsed values, a domain is text that is no IP, zone suffixes are gone, UUID normalisation is an arbitrary function.
- Timers, keepalives, session expiry and back-off: steps that may happen at any time, or not at all.
- Uplink.ExactlyOnce: request bodies arrive whole and a failed pipe write with the close after it is one step, because the code does not hold it otherwise; upload numbers are unbounded, where the code has 64 bits.
- Uplink.StreamSplitConn.Write: a send on the full channel, which blocks in the source, takes nothing.
- Downlink.PullSession.SessionPull: keepalive bytes and write deadlines are left out, and a cancelled lease is seen at the top of a round.
- Poll mode and its base64 lines: the upload protocol is that of stream mode.
- RecordTheorems.NonceNeverReused: bounded by 2^32 epochs and, with rotation off, 2^64 records; behind that headers may repeat.
- Record.RecordConn.SendRecord: a failed write leaves nothing of its frame on the wire, where the source may leave a part that no receiver can use.
- Record.RecordConn.MaybeBumpSendEpoch: the byte counter and the product with the update count are unbounded, where the code has 64 bits.
- Rekey, the mode without encryption and the derivation of the base key.
- Mux.Session.HandleFrame: streams are values in the session's table, where the source shares stream objects between table and application, and stream ids do not wrap at 32 bits.
- Mux.Session.SendReset: the text of the reset is dropped, and its two frames are always sent by a goroutine of their own.
- In the multiplexing state machine a send that fails is the session failing just before it; the methods of the session state what the failing send itself leaves.
- Mux.StreamConn.EnqueuePayload: the clamp of a negative byte count is missing, because the count never is negative.
- Keepalive frames and deadlines of the multiplexed session.
- Layout.CustomIsGood: the custom layout is a function of the pattern, where the source fills its tables in loops; the text of the pattern is a list of symbols.
- PackedTheorems.RoundTripsIffSentinel: for padding pools of at most 2^32 bytes, because a 32-bit draw cannot reach entries behind that; the shipped pools have at most 256.
- PackedConn.Flush: every Write leaves the bit buffer empty, so Flush sends at most one pad.
- The reset of pending bits and hints when the connection ends, and the recording of raw input.
- Accounting.RuntimeServices.OpenSession: the first, unlocked check of the user and the limiter's verdict are left to the caller; the check under the lock is the one modelled.
- AccountingTheorems.NeverOverReports: runtimes of one tag follow each other; two at the same time are not modelled, and counters are unbounded, where the code has 64 bits.
- Speed limiting: only the rate that each user's bucket is given is modelled.
- GetOnlineDevice, GetPendingOfflineUsers and the traffic filters of the reporter: plain listings.
- Users whose limits alone changed keep their old limits in the runtime services' user map, so agreement is about ids and UUIDs.
- Mieru.MieruRuntime.SyncUsers: a failed hot update is taken to leave the server's table as it was.
- The map of nonce sets by user hash: each set is independent of the others.
- Choosing a table by its hint, user hashes and feature negotiation of the KIP handshake.
- Route policies, the geodata parser, connection pools, the reload supervisor and the other kernels.
