# The in-memory data plane of netool, in Dafny

netool moves bytes between goroutines and connections through a small set of in-memory
machines: a blocking pipe, an unbounded queue drained by a callback serializer, pooled
buffers and lists of them, buffered readers and writers, an HTTP/2 frame codec with a
demultiplexer for concurrent gRPC calls, a table of pending pings, a parallel task runner
and two Protocol Buffers parsers. This project models these machines and proves what they
promise: for every input, every interleaving of any number of goroutines, or every sequence
of calls.

Two kinds of model appear side by side.

* **Step systems** for what runs concurrently (pipe, serializer, task runner, ping table,
  stream demultiplexer). A state, the events that are enabled in it, and what an event does;
  one event per locked section or per access to something shared, separate events for
  signalling, waiting, timing out and being cancelled. `Legal` runs are exactly the interleavings; theorems quantify
  over all of them, and say what calls answer from the events of the run alone.
* **Classes and loops** for what is updated in place (`Pipe`, `Unbounded`, `ClientConn`,
  `GrpcClient`, `Buffer`, `Pools`, `BufferedWriter`, `BufferedReader`, `ReadVReader`, …). Each
  method is proved against what the new state is in terms of the old one. Where the machine also
  has a step system, that is the function its step applies (`Pipe`, `Unbounded`, `ClientConn`), or
  a run of it (`GrpcClient`).

Buffers live on the heap. `Pools.Owned()` is the ownership discipline: a live buffer is the
only holder of its backing array, a pool the only holder of each array in it, and a pooled
array is at least as long as its pool promises. Every buffer operation keeps it, and states
through `OthersKept` that no buffer it was not given changes at all.

| file | content |
|---|---|
| `Bytes.dfy` | bytes, chunk lists, 32-bit reading of integers |
| `Pipe.dfy`, `PipeSafety.dfy`, `PipeBound.dfy`, `PipeWriters.dfy`, `PipeLiveness.dfy`, `PipeFullness.dfy`, `PipeAnswers.dfy`, `PipeObject.dfy` | the pipe as a step system, conservation, memory bound, many writers, wake-ups and deadlock freedom, blocked writers, what the calls answer, the object itself |
| `Serializer.dfy` | unbounded queue and callback serializer |
| `TaskRunner.dfy`, `PingTable.dfy` | parallel tasks; pending pings |
| `Varint.dfy`, `Protobuf.dfy` | the two varint decoders and the two message parsers |
| `Frames.dfy`, `Demux.dfy`, `DemuxSafety.dfy`, `DemuxAnswers.dfy`, `DemuxObject.dfy` | HTTP/2 frames, gRPC prefix, streams of concurrent calls, what the calls answer |
| `Buffers.dfy`, `MultiBuffers.dfy`, `MultiBufferSplit.dfy`, `Compaction.dfy` | buffers, pools, lists of buffers |
| `BufferedWriting.dfy`, `ListWriting.dfy`, `BufferedReading.dfy`, `ReadAll.dfy` | buffered writer, the writers of lists underneath, buffered reader and copying, reading everything and scatter read |

## Where the code does less than one would expect

Each of these is a lemma or an exact condition in a contract, not a remark.

* A writer may stay blocked although the pipe has room, because one read gives one wake-up. That
  it cannot happen is true if and only if overflow is discarded, the limit is at most zero or the
  largest 32-bit one, a single goroutine writes, or there are only two goroutines
  (`PipeFullness.BlockedMeansFullExactly`).
* The pipe's size test is right while the content is below 2^31 bytes, and above that only if what
  32 bits keep of the size happens to exceed the limit too (`PipeSafety.SizeTestExact`). So the
  content stays within the limit plus the largest write if and only if these two together are below
  2^31 (`PipeBound.MemoryBoundExactly`).
* The serializer's documentation says no callback is added once the context is cancelled; the
  code accepts callbacks until `run` has closed the queue (`Serializer.AcceptedUntilClosed`,
  `Serializer.CancelledContextStillAccepts`). The model follows the code.
* Calls wait with nobody sending pings if and only if the pinging call's wait ended while others
  waited, or a call joined a table that still held an expired one, and somebody has been waiting
  ever since (`PingTable.UnledExactlyWhenLeftAlone`).
* After a caller deleted its stream, the frame the reader already holds still lands: the stream
  gains bytes and its done channel may be closed (`DemuxSafety.LateFrameLands`), but nothing
  beyond that frame (`DemuxSafety.OnlyTheFrameInHandLands`, `DemuxSafety.FrozenExactly`). Once the
  done channel is closed nothing changes the stream.
* `MultiBuffer.Len` counts in 32 bits: `ReadAllToBytes` returns the whole of what it read if and only if
  that is fewer than 2^31 bytes, and otherwise panics or returns fewer bytes without an error; the
  counts of `Copy` and `WriteTo` are right if and only if no list copied had 2^31 bytes.
* `ReadFrom` takes io.ErrUnexpectedEOF for the end also when the source itself answered it: what the source
  still had is then missing without an error (`ReadAll.ReadFrom`, `ReadAll.ReadAllToBytes`).
* A Protocol Buffers message cut off inside a key is a complete message to both parsers; cut off anywhere
  behind a key it is malformed (`Protobuf.TruncationExactly`).
* A call whose stream ends before a status was ever named is an error with status -1, whatever data arrived
  (`DemuxAnswers.CallAnswers`).
* `Compact` tests a 32-bit sum of lengths, not free space. It keeps every byte exactly when
  `Compaction.Foresee` says `Keeps`, which is computed from lengths and free space before the
  call; regular buffers always qualify, a buffer whose front was consumed may not
  (`Compaction.CompactLosesBytes`), nor two buffers whose lengths add up to 2^31
  (`Compaction.CompactLosesLongBuffer`).
* The writer for connections drops a list whose 32-bit length is not positive, without an error, and
  delivers every other one (`ListWriting.WriteList`, `ListWriting.LongListVanishes`); the one that
  writes buffer after buffer ends at a nil entry as at the list's end (`ListWriting.WriteOneByOne`).
  `BufferedReading.DeliveredExactly` carries the former through `Copy` and `WriteTo`.
* `BufferedReader.Read` loses bytes exactly when its source answers bytes together with an
  error, as a `SingleReader` does (buf/reader.go:27-35, 156-159).
* `SplitSize` panics exactly when it has to cut a piece longer than a regular buffer, or of
  negative length, off the first buffer; it keeps to its limit exactly when no sum it compares
  leaves 31 bits.
* A frame survives the wire exactly when its length is below 2^24 and its stream identifier
  below 2^31; a gRPC message exactly when its length plus five is below 2^32; the identifiers a
  client allocates meet this for its first 2^30 calls.
* The two varint decoders differ exactly on inputs whose first ten bytes all carry the
  continuation bit. One returns signed words: the two parsers name a field alike exactly when its
  key is below 2^63, read its number alike exactly when that is below 2^63
  (`Protobuf.ParsersReadSignsApart`), and make the same of a message exactly when it is uniform in
  this sense (`Protobuf.ParsersAgreeExactly`, `Protobuf.ParsersDiffer`).
* `Advance` by so much that the 32-bit position overflows shows consumed bytes again
  (`Buffers.Buffer.Advance`).

## Model

| member | source | states |
|---|---|---|
| `PipeSafety.PipeConservesBytes` | transport/pipe/impl.go:48-174 | in every run of any number of readers and writers: delivered then buffered is what was accepted unless interrupted, delivered is always a prefix of accepted, and end of file was seen only if everything accepted was delivered |
| `PipeSafety.OtherStepsMoveNothing` | transport/pipe/impl.go:91-117 | a timeout, an injected error, a wake-up, a signal or Close neither consumes nor adds a byte |
| `PipeSafety.EndedPipeIsFrozen` | transport/pipe/impl.go:176-210 | after Interrupt of an open pipe no byte moves in any continuation; after Close nothing is accepted and what is buffered can only be delivered |
| `PipeSafety.NothingEntersAfterTheEnd` | transport/pipe/impl.go:176-210 | the same for every run split at a Close or an Interrupt, with conservation of what was accepted before |
| `PipeSafety.SoleReaderGetsPrefix` | transport/pipe/impl.go:83-98 | what one reader's calls returned is a prefix of the accepted bytes, and all of them after end of file |
| `PipeSafety.PipeIsAByteStream` | transport/pipe/impl.go:70-174 | with one writer and one reader, bytes returned are a prefix of bytes submitted; while open, returned, in hand, buffered and undecided bytes make up all that was submitted |
| `PipeSafety.ReadsAnswerBytesOrError` | transport/pipe/impl.go:70-98 | a read call that finishes has some bytes or an error, never both and never neither |
| `PipeAnswers.EventsTell` | transport/pipe/impl.go:176-210 | in every run the status is that of the first Close or Interrupt, the pending error the one injected last and not taken since, and each goroutine inside a call is inside the last one it made |
| `PipeAnswers.ReadSectionExactly` | transport/pipe/impl.go:48-81 | over every run: a read section answers end of file if and only if the pipe was closed and no byte is left, closed pipe if and only if it was interrupted, all that is left if and only if something is, and waits if and only if the pipe is open and empty |
| `PipeAnswers.WriteSectionExactly` | transport/pipe/impl.go:120-172 | over every run: a write section is refused with closed pipe if and only if the pipe has ended, taken whole if and only if it is open and not full, dropped with nil if and only if it is full and discards, and waits if and only if it is full and does not |
| `PipeAnswers.ReadReplies` | transport/pipe/impl.go:83-118 | every answer of a read call, in every run: bytes; end of file exactly on a closed pipe, with everything accepted delivered; closed pipe exactly on an interrupted one; the time-out only to a call that asked for one; the pending injected error only to one that did not |
| `PipeAnswers.WriteReplies` | transport/pipe/impl.go:137-174 | every answer of a write call, in every run: nil if and only if the call was taken, or dropped by a full pipe that discards; otherwise closed pipe, and then the pipe has ended and took nothing of it |
| `PipeAnswers.OtherReplies` | transport/pipe/reader.go:28-40 | an empty write gives nil at once, Recover gives the pending injected error and clears it |
| `PipeWriters.WritesAreTakenWholeAndOnce` | transport/pipe/impl.go:120-174 | for any number of writers: the accepted bytes are whole write calls one after the other, no call twice, each goroutine's calls in its order; while open and not discarding, a call not taken is still being decided |
| `PipeWriters.RunKeepsBalanced` | transport/pipe/impl.go:137-174 | in every run the ledger of taken calls agrees with the state: a retried write was not taken before |
| `PipeSafety.SizeTestExact` | transport/pipe/impl.go:28-30 | the limit test on a 32-bit size agrees with the true size, whatever it is, if and only if the size is below 2^31 or its lowest 32 bits lie between the limit and 2^31 |
| `PipeSafety.PipeMemoryBound` | transport/pipe/impl.go:120-160 | with limit plus largest write below 2^31, in every run the content is at most the limit followed by the last accepted write |
| `PipeBound.MemoryBoundExactly` | transport/pipe/impl.go:28-30 | the content stays within the limit plus the largest write in every run if and only if these two together are below 2^31 |
| `PipeBound.BoundBreaks` | transport/pipe/impl.go:48-54 | otherwise a run that exceeds it: a write leaves exactly 2^31 bytes, which the test takes for a negative size |
| `PipeSafety.EmptyMeansNoBytes` | buf/multi_buffer.go:252-259 | a chunk list is empty for the pipe if and only if it carries no byte |
| `PipeLiveness.RunKeepsWakeups` | transport/pipe/impl.go:83-174 | in every reachable open state a waiting reader with data present has a token, a signalling writer or a retrying reader on its way, and a waiting writer has data present, a token, a signalling reader or a retrying writer |
| `PipeLiveness.PipeNeverDeadlocks` | transport/pipe/impl.go:83-174 | when no call can move, no reader and writer wait for each other; readers wait only on an open empty pipe, writers only on an open one with data |
| `PipeLiveness.InternalRunsAreBounded` | transport/pipe/impl.go:83-174 | calls already begun take a bounded number of steps before each has returned or waits |
| `PipeLiveness.EveryStateSettles` | transport/pipe/impl.go:83-174 | from every reachable state the calls already begun reach a state where nothing can move |
| `PipeFullness.SoleWriterWaitsOnlyWhenFull` | transport/pipe/impl.go:137-174 | a sole writer that stays blocked faces a full pipe |
| `PipeFullness.TwoGoroutinesWaitOnlyWhenFull` | transport/pipe/impl.go:137-174 | the same for two goroutines that both read and write |
| `PipeFullness.SecondWriterMayWaitWithRoom` | transport/pipe/impl.go:168-172 | for every limit from 1 to 2^31 - 2 and any number of goroutines from three on, a run that leaves a writer blocked although there is room |
| `PipeFullness.BlockedMeansFullExactly` | transport/pipe/impl.go:137-174 | a writer blocked for good faces a full pipe in every run if and only if overflow is discarded, the limit is at most 0 or the largest, at most one goroutine writes, or there are at most two |
| `PipeObject.Len` | buf/multi_buffer.go:239-249 | the summing loop gives the byte count read as a signed 32-bit integer |
| `PipeObject.Pipe.GetState` | transport/pipe/impl.go:48-68 | the state test on the object is the one the step system uses: end of file exactly to a reader of a closed pipe without bytes, closed pipe exactly to anybody on an interrupted one and to a writer on a closed one, full exactly to a writer on an open one whose 32-bit size exceeds a limit that is not negative |
| `PipeObject.Pipe.ReadInternal` | transport/pipe/impl.go:70-81 | the read section: its outcome and the whole new state |
| `PipeObject.Pipe.WriteInternal` | transport/pipe/impl.go:120-135 | the write section: its error, if any, and the whole new state |
| `PipeObject.Pipe.SignalReaders` | signal/notifier.go:16-21 | the slot holds one token afterwards, whatever it held |
| `PipeObject.Pipe.SignalWriters` | signal/notifier.go:16-21 | the same for the writers' slot |
| `PipeObject.Pipe.Close` | transport/pipe/impl.go:176-189 | closes once, closing the latch once; a second end changes nothing |
| `PipeObject.Pipe.Interrupt` | transport/pipe/impl.go:192-210 | drops what is buffered and closes the latch, if still open |
| `UnboundedQueue.Unbounded.Put` | buffer/unbounded.go:55-70 | appends to the queue unless it is closing, and says so; never sends on a closed channel |
| `UnboundedQueue.Unbounded.Load` | buffer/unbounded.go:75-88 | moves the oldest backlog entry to the channel without changing the queue's order; panics exactly when an earlier Load already closed the channel |
| `UnboundedQueue.Unbounded.Close` | buffer/unbounded.go:105-116 | closes the channel now or leaves it to a later Load; idempotent, nothing queued is lost |
| `UnboundedQueue.Unbounded.Receive` | buffer/unbounded.go:98-100 | a receive takes the oldest entry |
| `Serializer.SerializerIsExactlyOnceFifo` | concurrent/callback_serializer.go:62-104 | in every run: no double close and no send after close; the k-th execution runs the k-th callback scheduled before `run` closed the queue, the callbacks scheduled later are exactly those whose onFailure runs, and once done is closed each scheduled callback had exactly one of itself and its onFailure run |
| `Serializer.ConsumerNeverStarves` | concurrent/callback_serializer.go:79-104 | `run` is blocked only with nothing queued and the context alive, never while draining |
| `Serializer.DrainTerminates` | concurrent/callback_serializer.go:96-104 | after cancellation `run` takes a bounded number of steps, three more for each callback that still slips in |
| `Serializer.AcceptedUntilClosed` | concurrent/callback_serializer.go:62-77 | a callback is accepted if and only if `run` has not closed the queue yet |
| `Serializer.CancelledContextStillAccepts` | concurrent/callback_serializer.go:41-45 | a run in which a callback is accepted after cancellation, against the documentation |
| `Serializer.SecondLoadPanics` | buffer/unbounded.go:85-87 | without the one-consumer discipline a further Load closes the channel again |
| `TaskRunner.VerdictIsRight` | task/task.go:19-51 | nil if and only if Run collected n signals, and then every task returned nil; a task error if and only if it collected one, and it is what the first task to report returned; a context error if and only if it saw the cancellation, which happened; so nil without a failing task and a cancellation |
| `TaskRunner.PermitsNeverBlock` | signal/semaphore/semaphore.go:9-27 | launching never waits for a permit and giving one back never blocks |
| `TaskRunner.RunIsNotStuck` | task/task.go:37-51 | once all goroutines have ended, Run can take its next step |
| `TaskRunner.RunsAreBounded` | task/task.go:19-51 | every schedule of n tasks has at most 4n + 2 steps besides cancellations |
| `PingTable.ClientConn.Register` | http/client/client_conn.go:343-367 | nothing on a closed connection; else a new key, an empty channel for it, and the role of the call: it pings if and only if nobody was registered |
| `PingTable.ClientConn.Unregister` | http/client/client_conn.go:384-386 | removes one key and nothing else |
| `PingTable.ClientConn.PutPingAck` | http/client/client_conn.go:463-486 | removes exactly the keys from the ack's upwards, sends to each of their empty channels once and closes it, in any iteration order |
| `PingTable.PingTableIsSafe` | http/client/client_conn.go:343-492 | in every interleaving: keys below the next one, each channel sent to at most once and closed at most once, a registered one empty and open, and "valid" only after an ack that followed the registration with a key not above the call's |
| `PingTable.NextAckAnswers` | http/client/client_conn.go:416-442 | the next ack up to its key makes a waiting call's receive possible, and the call then answers valid, with that ack or the one that reached it before |
| `PingTable.AnswersExactly` | http/client/client_conn.go:343-442 | over every run: a call has answered valid if and only if its wait ended by a receive, and then with the first ack after its registration not above its key; invalid if and only if its wait expired and it was taken out of the table, or the connection was shut before it began |
| `PingTable.StepOnLed` | http/client/client_conn.go:353-363 | while some waiting call pings, a step ends that if and only if it is the pinging call's wait ending with others waiting, or a call joining a table without a pinging call |
| `PingTable.UnledExactlyWhenLeftAlone` | http/client/client_conn.go:343-442 | over every run: calls wait with nobody pinging if and only if such a step happened and somebody has been waiting ever since |
| `PingTable.LateCallWaitsAlone` | http/client/client_conn.go:356-366 | a call that begins between the pinging call's failure and its delete waits with nobody pinging |
| `PingTable.FollowersMayBeLeftAlone` | http/client/client_conn.go:343-442 | a run after which the followers, and every later call, wait with nobody pinging |
| `Varint.ReadVarintLimited` | binproto/protobuf/codec.go:19-39 | the shift/or loop yields the 7-bit groups summed as base-128 digits modulo 2^64, end of input, or too long after ten bytes |
| `Varint.ReadVarintUnlimited` | cmd/subcmds/proto.go:110-125 | the same for the loop without a limit |
| `Varint.DecodersAgree` | cmd/subcmds/proto.go:110-125 | when the limited decoder succeeds the other gives the same bits and length; they differ if and only if the first ten bytes all carry the continuation bit |
| `Varint.OrAddsGroup` | binproto/protobuf/codec.go:28 | or-ing a shifted group into the value adds it modulo 2^64, also when its top bits are shifted out |
| `Varint.DecodeInvertsEncode` | binproto/protobuf/codec.go:19-39 | both decoders invert the base-128 encoder on every 64-bit value, whatever follows |
| `Protobuf.ParseMessage` | cmd/subcmds/proto.go:59-107 | the parse loop computes the recursive parse: fields read and how it stopped |
| `Protobuf.FieldNumbersAgree` | binproto/protobuf/codec.go:41-49 | the signed and the unsigned shift give the same field number if and only if the key is below 2^63 |
| `Protobuf.ParsersAgreeExactly` | binproto/protobuf/codec.go:51-108 | on every input the two parsers give the same fields and end if and only if every key, number and length that begins with ten continuation bytes is malformed to the unlimited one too, and every key and number is below 2^63 |
| `Protobuf.ParsersReadSignsApart` | binproto/protobuf/codec.go:53-54 | every field with a negative number is that number to one parser and the number plus 2^64 to the other |
| `Protobuf.ParsersDiffer` | cmd/subcmds/proto.go:59-107 | ten continuation bytes end the message cleanly for one parser and are malformed to the other |
| `Protobuf.ParseInvertsEncode` | binproto/protobuf/codec.go:51-81 | each parser inverts the encoder on every list of fields it can give back at all: signed keys and numbers for one, unsigned for the other |
| `Protobuf.TruncationExactly` | binproto/protobuf/codec.go:83-100 | a message cut off inside a field: the fields before it are read, and the end is malformed if and only if the cut comes behind the whole key |
| `Protobuf.UnsupportedIsBroken` | binproto/protobuf/codec.go:78-79 | after any fields, wire types 3, 4, 6 and 7 end the parse as malformed |
| `Protobuf.HugeLengthCrashes` | binproto/protobuf/codec.go:61-67 | after any fields, a length that cannot be allocated panics whatever follows |
| `Frames.FrameRoundTrip` | grpc/tcpclient/reader.go:217-243 | parsing an encoded frame, whatever follows it, gives it back if and only if length and identifier fit their fields (section 4.1 of RFC 7540) |
| `Frames.FramesRoundTrip` | grpc/tcpclient/writer.go:16-116 | repeated parsing of the concatenated output recovers every list of frames that fit |
| `Frames.FrameLayout` | grpc/tcpclient/writer.go:16-37 | the nine header bytes are those of section 4.1 of RFC 7540: length, type, flags and identifier, numbers with the most significant byte first |
| `Frames.ParseFrameExactly` | grpc/tcpclient/reader.go:217-243 | nothing is read if and only if the bytes end before the header or the payload it announces; otherwise the leading fields and exactly that payload |
| `Frames.EncodeOfParse` | grpc/tcpclient/reader.go:226-232 | writing what was read gives back the bytes if and only if the reserved bit was clear |
| `Frames.FillHeader` | grpc/tcpclient/writer.go:18-24 | the array filled cell by cell is the nine header bytes |
| `Frames.WriteDataFrame` | grpc/tcpclient/writer.go:16-39 | succeeds if and only if no write of the connection failed; then exactly the encoded frame was written, otherwise a prefix of it |
| `Frames.WriteHeadersFrame` | grpc/tcpclient/writer.go:41-63 | the same for HEADERS |
| `Frames.WriteSettingsFrame` | grpc/tcpclient/writer.go:65-89 | the same for SETTINGS, on stream 0 |
| `Frames.WritePingFrame` | grpc/tcpclient/writer.go:91-116 | the same for PING, if the payload is eight bytes; any other is refused and nothing is written |
| `Frames.GrpcRoundTrip` | binproto/http2/grpc.go:14-34 | a message survives if and only if its length plus five is below 2^32, whatever capacity lies behind the slice |
| `Frames.DecodeGrpcExactly` | binproto/http2/grpc.go:23-34 | an error if and only if the data is short or the flag not zero; a panic if and only if the announced end overflows 32 bits or exceeds the capacity; otherwise the announced bytes |
| `Frames.GrpcLayout` | binproto/http2/grpc.go:14-21 | a zero byte, the length cut to 32 bits with the most significant byte first, the payload |
| `DemuxObject.GrpcClient.OnData` | grpc/tcpclient/reader.go:118-132 | left alone, the handler is a run of the step system from the frame's arrival until the reader waits for the next; the stream in the map, if any, gains the payload, and on END_STREAM leaves the map and has its done channel closed; no other stream changes |
| `DemuxObject.GrpcClient.OnHeaders` | grpc/tcpclient/reader.go:134-166 | the same; afterwards status, message and encoding are the last ones the headers name, the others as before; nothing changes if HPACK fails |
| `DemuxObject.GrpcClient.OnReset` | grpc/tcpclient/reader.go:168-178 | the same for RST_STREAM (section 6.4 of RFC 7540): the error code becomes the status and the stream ends; panics if and only if the stream is in the map and the payload shorter than four bytes |
| `DemuxObject.GrpcClient.OnSettings` | grpc/tcpclient/reader.go:180-193 | the same for SETTINGS; panics if and only if the settings were acknowledged before and this ack could be written |
| `DemuxObject.GrpcClient.OnGoAway` | grpc/tcpclient/reader.go:204-215 | the same for GOAWAY (section 6.8 of RFC 7540): exactly the streams in the map end, with its error code as their status, in any order, and the map is empty; a short payload panics if and only if there was one, changing nothing |
| `DemuxSafety.IdsAreDistinct` | grpc/tcpclient/client.go:139-140 | identifiers are the odd numbers from 1 on in 32 bits and do not repeat for 2^31 calls; they fit 31 bits if and only if among the first 2^30 |
| `DemuxSafety.StreamGetsItsOwnData` | grpc/tcpclient/reader.go:118-215 | however the accesses of handlers and the steps of calls interleave, what a stream's payload gains, with the frame in hand, is the in-order concatenation of the DATA frames that arrived while it was in the map; its done channel is closed, or about to be, as often as such a frame or a visit ended it; and it is in the map exactly until something takes it out |
| `DemuxAnswers.StreamIsAsTold` | grpc/tcpclient/reader.go:118-215 | over every run, from events and payload bytes alone: a stored stream's status, message and encoding, with what is in hand, are those named last by headers or a reset that arrived while it was in the map or by a GOAWAY that visited it, else the initial ones; its payload is the DATA that arrived while it was in the map |
| `DemuxAnswers.HeadersTell` | grpc/tcpclient/reader.go:145-158 | the loop over the headers leaves the last status that is a number, the last message and the last encoding |
| `DemuxAnswers.FinishedExactly` | binproto/http2/grpc.go:75-99 | what a finished call makes of its stream: the error if the status is not zero; else undecodable, a panic or the announced bytes, by exact conditions on the payload |
| `DemuxAnswers.CallAnswers` | grpc/tcpclient/client.go:166-174 | whenever a call looks after its done channel was closed, in every run: an error if and only if the status told last is not zero, with that status and message; otherwise the message its DATA frames carry |
| `DemuxSafety.ClosedStreamIsFrozen` | grpc/tcpclient/client.go:166-174 | once its done channel is closed, which is when its caller looks, no run changes a stream |
| `DemuxSafety.OnlyTheFrameInHandLands` | grpc/tcpclient/client.go:155-157 | after a caller's Delete, in every run at most the frame the reader already holds still lands |
| `DemuxSafety.FrozenExactly` | grpc/tcpclient/reader.go:118-132 | a stream out of the map stays as it is in every run if and only if the frame in hand changes nothing and no Range under way can still end it |
| `DemuxSafety.LateFrameLands` | grpc/tcpclient/reader.go:119-127 | a run in which the frame in hand does land after the caller's Delete, closing the done channel |
| `DemuxSafety.DoneClosesAtMostOnce` | grpc/tcpclient/reader.go:118-215 | in every run of any number of calls no done channel is closed twice |
| `DemuxSafety.PanicsExactly` | grpc/tcpclient/reader.go:168-215 | a step panics the client if and only if it slices a short RST_STREAM of a stream in the map or a short GOAWAY on a stream it visits, or closes settingsAcked a second time, which takes a second ack that could be written |
| `DemuxSafety.RunPanicsExactly` | grpc/tcpclient/reader.go:168-215 | over every run, from its events alone: it ends in a panic if and only if its last step is a second written ack, or the access after a short reset or a short GOAWAY's visit |
| `DemuxSafety.FragmentsReassemble` | grpc/tcpclient/reader.go:118-132 | any fragmentation of an encoded message, interleaved with anything, decodes to the message once the done channel is closed or the reader let go |
| `DemuxSafety.WireToMessage` | grpc/tcpclient/reader.go:90-132 | end to end from concatenated frames on the wire to the decoded message, among any steps of any calls |
| `Buffers.Buffer.Write` | buf/buffer.go:222-226 | appends as much as fits behind the content |
| `Buffers.Buffer.Read` | buf/buffer.go:266-277 | takes bytes off the front, end of file when there are none, and resets an emptied buffer |
| `Buffers.Buffer.ReadFromBuffer` | buf/buffer.go:280-284 | reading from another buffer moves bytes: none lost or repeated |
| `Buffers.Buffer.Advance` | buf/buffer.go:195-201 | moves the window's start, from the front or the back, clamped, to the array's beginning where the 32-bit sum overflows |
| `Buffers.Buffer.Resize` | buf/buffer.go:179-192 | when it panics, and exactly when the window it leaves lies within the array, 32-bit overflow included |
| `Buffers.Pools.OwnersAreExclusive` | buf/buffer.go:22-28 | ownership means no two live buffers, no two pools and no buffer and pool share an array |
| `Buffers.Pools.GetPool` | bytespool/pool.go:38-45 | the smallest of the pools of 2048, 8192, 32768 and 131072 bytes that is large enough; none if and only if the size exceeds the largest |
| `Buffers.Pools.Alloc` | bytespool/pool.go:48-54 | an array of at least the size asked for that nobody holds |
| `Buffers.Pools.Free` | bytespool/pool.go:57-66 | the array enters the largest pool it can serve by its capacity read as a 32-bit integer; arrays too short for any, or too long for 31 bits, enter none |
| `Buffers.Pools.New` | buf/buffer.go:31-42 | an empty buffer of 8192 bytes over an array nobody else holds |
| `Buffers.Pools.NewExisted` | buf/buffer.go:45-59 | takes over an array with its bytes; refuses if and only if it is shorter than 8192 |
| `Buffers.Pools.FromBytes` | buf/buffer.go:62-68 | wraps an array that never enters a pool |
| `Buffers.Pools.Release` | buf/buffer.go:86-99 | a managed array of exactly 8192 bytes goes back to its pool, and only once; nil, released and unmanaged buffers are left alone |
| `MultiBuffers.SplitBytes` | buf/multi_buffer.go:98-121 | exactly the first min(len, total) bytes come out, the rest list holds exactly the remainder, the buffers before it are released unless their owner keeps the array, no other buffer changes |
| `MultiBuffers.MergeBytes` | buf/multi_buffer.go:37-52 | the result's bytes are the old ones followed by exactly the input |
| `MultiBuffers.MergeMultiAppends` | buf/multi_buffer.go:28-34 | merging two lists concatenates their bytes and leaves the source empty |
| `MultiBufferSplit.SplitSize` | buf/multi_buffer.go:173-204 | partitions the bytes; first part exact if the first buffer is cut, else at most the size and greedily maximal at buffer granularity if and only if no sum compared leaves 31 bits; with the exact panic condition |
| `MultiBufferSplit.GreedyExactly` | buf/multi_buffer.go:185-196 | the loop that adds in 32 bits takes as many buffers as fit if and only if the first sum above the limit is below 2^31 |
| `MultiBufferSplit.SplitMultiPartitions` | buf/multi_buffer.go:207-217 | splitting at any index, in range or not, partitions the bytes |
| `MultiBufferSplit.ReleaseMulti` | buf/multi_buffer.go:55-61 | no managed buffer of the list stays live; no other buffer changes |
| `Compaction.RegularBuffersKeep` | buf/multi_buffer.go:135-158 | regular buffers, none but the first empty, are compacted without loss |
| `Compaction.CompactLosesBytes` | buf/multi_buffer.go:145-152 | write 8192 bytes and read 8191, write 5 into a second buffer: compacting the two loses bytes |
| `Compaction.CompactLosesLongBuffer` | buf/multi_buffer.go:145-152 | two arrays of 2^30 bytes wrapped as buffers: compacting them drops the second, without a panic |
| `Compaction.MergeBytesExact` | buf/multi_buffer.go:149-152 | one merge loses exactly the bytes that did not fit |
| `Compaction.PackedIsDense` | buf/multi_buffer.go:135-158 | k packed buffers hold at least 8192 times half of k bytes |
| `Compaction.Compact` | buf/multi_buffer.go:135-158 | panics, or keeps every byte in order, if and only if the shapes before the call say so, by the 32-bit sums the code compares; two neighbours of the result together exceed 8192 bytes |
| `BufferedWriting.WriteAllBytes` | buf/io.go:37-54 | repeats short writes until all is written; succeeds if and only if no write failed, and on failure a prefix was written |
| `BufferedWriting.IsEmptyList` | buf/multi_buffer.go:252-259 | empty if and only if the list holds no byte |
| `BufferedWriting.Len` | buf/multi_buffer.go:239-249 | the number of bytes in the list, read as a signed 32-bit integer |
| `BufferedWriting.BufferedWriter.FlushInternal` | buf/writer.go:177-192 | the internal buffer ends up at the sink and the writer without one; succeeds if and only if no write of the sink failed, and on failure a prefix arrived |
| `BufferedWriting.BufferedWriter.Write` | buf/writer.go:98-132 | what is written follows everything written before, in either mode; succeeds if and only if no write of the sink failed; in buffered mode nothing is sent while there is room |
| `BufferedWriting.BufferedWriter.WriteMultiBuffer` | buf/writer.go:135-167 | the bytes of the list follow everything written before, and its loop terminates; succeeds if and only if no write of the sink failed; in unbuffered mode, what the writer underneath takes of them |
| `BufferedWriting.BufferedWriter.SetBuffered` | buf/writer.go:195-204 | switching modes reorders nothing; unbuffered means an empty internal buffer; fails if and only if a write of the sink did |
| `BufferedWriting.BufferedWriter.Flush` | buf/writer.go:170-175 | sink and stream coincide afterwards, unless a write of the sink failed, which is exactly when it fails |
| `BufferedWriting.BufferedWriter.Session` | buf/writer.go:91-204 | over any sequence of calls: it goes through if and only if no write of the sink failed, and then sink and internal buffer hold what was accepted in order; that is all that was submitted, and the sink holds a prefix of it also after a failure, unless the sink takes less than it is given without an error, or counts in 32 bits and was given a list it takes for empty |
| `ListWriting.WriteList` | buf/writer.go:21-65 | fails if and only if a write of the connection did; a call without an error delivers the list if and only if it is empty or its 32-bit length is positive, and else nothing; panics if and only if it has to slice a nil entry; the list is released in every case |
| `ListWriting.LongListVanishes` | buf/writer.go:24-27 | a list of 2^31 bytes: nothing is written and no error returned |
| `ListWriting.WriteOneByOne` | buf/multi_buffer.go:220-236 | fails if and only if a write did; without an error exactly the buffers before the first nil entry are written and released, so all bytes if and only if none stand behind it, and those behind it stay live; after an error all are released |
| `BufferedReading.CopyRound` | buf/copy.go:91-108 | one round moves exactly what the source answered and counts it in 32 bits; it ends the copy as a write failure, at end of file or as a read failure exactly by what the sink and the source answered |
| `BufferedReading.Copy` | buf/copy.go:91-121 | what was taken from the source was given to the writer in order, all of it at end of file; the writer got what it takes of each list, or a prefix after a write error; the count is the sum of the 32-bit lengths; it ends well if and only if no write failed and the source's last answer was end of file |
| `BufferedReading.DeliveredExactly` | buf/copy.go:91-108 | the writer got everything if and only if it does not count in 32 bits or no list had a 32-bit length that is not positive |
| `BufferedReading.CountedExactly` | buf/copy.go:36-42 | that count is the number of bytes if and only if no list had 2^31 bytes or more, and never too large |
| `BufferedReading.BufferedReader.Read` | buf/reader.go:60-85 | the buffered bytes first, as many as fit, without asking the source; else as many as fit of the source's answer, or its error; on an error nothing is lost if and only if the source answered it without bytes |
| `BufferedReading.BufferedReader.ReadByte` | buf/reader.go:53-57 | the next byte, or exactly the source's error when nothing is buffered |
| `BufferedReading.BufferedReader.ReadMultiBuffer` | buf/reader.go:88-96 | the buffered list if there are bytes, else exactly the source's answer, nothing lost |
| `BufferedReading.BufferedReader.ReadAtMost` | buf/reader.go:99-114 | nothing lost, with or without an error; the error is the source's if it came without bytes, else none; it takes a piece of the first buffer or as many whole ones as fit; panics if and only if the list it cuts makes it cut a piece longer than 8192 bytes or of negative length; keeps to the size if and only if it cuts or no 32-bit sum over the list overflows, so always below 2^31 bytes |
| `BufferedReading.BufferedReader.WriteTo` | buf/reader.go:116-138 | the rest of the stream is given to the sink in order, and the sink got what it takes of each list; the count is the sum of their 32-bit lengths, or 0 if the first write fails; a failed write loses what the sink did not take, and nothing more; it ends by exactly what the sink and the source answered |
| `BufferedReading.BufferedReader.Session` | buf/reader.go:53-138 | any sequence of Read, ReadByte, ReadMultiBuffer, ReadAtMost and WriteTo, past any errors, over a source that answers bytes or an error, takes the stream in order; callers and sink got all of it unless a write failed or a sink that counts in 32 bits dropped a list, which takes 2^31 bytes; after end of file, which is seen when the source answers it, it is the whole stream |
| `ReadAll.ReadFrom` | buf/multi_buffer.go:77-94 | the list holds what was taken off the source; it fails if and only if the source's last answer was an error that is neither end of file nor an unexpected one; after end of file it is everything |
| `ReadAll.ReadAllToBytes` | buf/multi_buffer.go:10-22 | fails if and only if the source's last answer was such an error; otherwise the first Int32(total) bytes of what was read, a panic if that is negative; the whole source if and only if all of it was read and it has fewer than 2^31 bytes, so always for a shorter source that only ever ends |
| `ReadAll.ReadLongSource` | buf/multi_buffer.go:15-18 | a source that ends, of 2^31 bytes, panics, one of 2^32 gives nothing and one of 2^32 + 5 five bytes, all without an error |
| `ReadAll.ReadFull` | buf/buffer.go:287-296 | exactly the size asked for, or the source's error with what came before it, end of file after some bytes turned into an unexpected one; an error that comes with the last byte asked for is dropped |
| `ReadAll.AllocStrategy.Adjust` | buf/readv_reader.go:21-35 | doubles or follows the last read, between 1 and 8 |
| `ReadAll.SharesConcatenate` | buf/readv_reader.go:99-111 | what the kernel put into the first k arrays is the first k times 8192 bytes |
| `ReadAll.SetEnds` | buf/readv_reader.go:99-111 | the loop declares each buffer's share and stops after the buffers that n bytes reach into |
| `ReadAll.ReadMulti` | buf/readv_reader.go:73-119 | the buffers returned concatenate to the scattered bytes, there are ⌈n / 8192⌉ of them, every other buffer offered is released and no other buffer changes |
| `ReadAll.ReadBuffer` | buf/reader.go:27-35 | one read into a new buffer, released again if nothing came, with the reader's error |
| `ReadAll.ReadVReader.ReadMultiBuffer` | buf/readv_reader.go:122-143 | the next bytes of the source, none lost, or its error, in at most 8 buffers, over every sequence of calls; the number of buffers offered next is exactly the doubled or the used one |

## Left out

- Backing arrays are objects with a sequence of cells (`Buffers.Block`), overwritten in place, not `array<byte>`; sharing of an array between buffers is modelled and excluded by ownership.
- A list of buffers is a sequence of references: setting the caller's entries to nil and reusing the slice's array are not modelled, so a caller that keeps using the old slice is not either.
- PipeSafety.PipeMemoryBound: for limit plus largest write below 2^31; PipeBound.MemoryBoundExactly says that this is exactly where the bound holds.
- PingTable.ClientConn.Register: keys do not wrap at 2^64.
- BufferedReading.Copy: the 64-bit sum of the counts does not wrap.
- BufferedReading.BufferedReader.Session: the source answers bytes or an error, as the pipe does (PipeSafety.ReadsAnswerBytesOrError); Read states exactly what is lost over other sources.
- Data races as such: an unlocked write of a stream's field is one step; that the caller reads after the last of them is DemuxSafety.ClosedStreamIsFrozen.
- ListWriting.WriteList: over writers that keep io.Writer's promise not to take less than they are given without an error, as net.Buffers relies on; the same holds for WriteOneByOne.
- `BufferedWriting.Sink` stands for any writer underneath, a 32-bit counting one included, given lists without nil entries; what the two writers of lists make of nil entries is in ListWriting.
- Leak freedom: the done path of a pipe write does not release its argument (transport/pipe/impl.go:168-171).
- The pipe's step system carries chunk lists by value; buffer ownership across the pipe is not stated.
- Released buffers inside a list, `SplitFirst`, `SplitFirstBytes`, `MultiBufferContainer`, `BytesRange` and the other read-only accessors: they add only easy members.
- The option to replace the splitting function of a buffered reader, UDP endpoints, packet readers, statistics counters.
- The HTTP/2 client's own stream handling in http/client: only its ping table is modelled; whether sendPing itself returns after cancellation is not.
- A response that arrives before its stream is stored, and how the read loop reports a closed connection.
- Which of its errors a compressed response gives; every one is refused, after its bytes were sliced (`DemuxAnswers.FinishedExactly`). Unmarshalling the message is not modelled.
- HPACK, gzip, proto.Marshal, the kernel's readv and sync.Pool's choice are parameters or undetermined choices.
- Wall-clock time: a timeout is an event that may happen at any point of a wait.
- Command line, dialing, TLS, sockets, WebSocket, proxies, service registry, output formatting, key generation.
