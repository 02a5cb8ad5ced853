# async_io_stream: the `WsIo` adapter, modelled in Dafny

`WsIo` turns a message channel into a byte stream. The channel is a stream
of messages plus a sink of messages. Reading hands out the bytes of the
incoming messages across as many reads as the callers' buffers need.
Writing sends every buffer as one whole message and flushes the sink at
once.

The model has three parts:

- the adapter's pending read state (`ReadState`) and its read path: the
  single-buffer read and the vectored read;
- the write path: write, flush and close;
- the scripted inner channel of the test suite: `TestStream`, a message source
  that replays a queue of actions and counts its polls, and `TestSink`, a
  sink that answers each call from an indexed script and records what it
  was sent.

The files are:

- `io.dfy`: the shared vocabulary (`Io`). It defines bytes,
  `Poll`, `io::Result`, an opaque error kind, and the task context reduced
  to "the caller's waker" or "the no-op waker".
- `test_doubles.dfy`: `TestDoubles`. `TestStream` and `TestSink` are classes
  whose methods update their fields. Pure definitions of one call of
  each are given beside them.
- `read_path.dfy`: `ReadPath`. It holds the reference definitions of
  `poll_read_impl` (`Read`) and `poll_read_vectored_impl` (`ReadVectored`)
  as functions over the pending state and the stream's queue. It also
  holds what is proved about them:
  - no byte is lost, duplicated or reordered, within a call and across calls;
  - the answer reports exactly the bytes copied;
  - the wake rule: the caller's waker is used only while nothing is copied;
  - which actions a read consumes;
  - the end-of-stream latch and the one-shot deferred error;
  - the routing of errors in the vectored read.
- `write_path.dfy`: `WritePath`. It holds the reference definitions of the
  write side over the state of the scripted sink, and their properties.
- `ws_io.dfy`: `WsIoAdapter`. It holds the `WsIo` class, with its one
  mutable field `state` and its inner channel. Reads copy into `array<byte>`
  buffers through loops. Each method is proved to do exactly what the
  reference definition says. The class invariant `Valid` ties everything
  handed out, then the buffered bytes, then the source's queue, to the
  scripted bytes.
- `scenarios.dfy`: `Scenarios`. It holds the tests of the suite as facts
  about the reference definitions: the answer, bytes, state and polls of
  each call a test makes.

## Model

| member | source | states |
|---|---|---|
| Io.Min | src/lib.rs:168 | the minimum of two numbers: at most each, and equal to one of them (the amount `Cursor::read` copies) |
| TestDoubles.StreamNext | tests/common/mod.rs:69-89 | the end of the stream is answered iff the queue is empty; `Pending` iff the front action is `Pending`; an error iff the front action is an error |
| TestDoubles.StreamNextData | tests/common/mod.rs:73-88 | the payload answered, followed by the data still queued, is the data queued before the poll |
| TestDoubles.TestStream.constructor | tests/common/mod.rs:48-55 | the stream starts with the given queue and a poll count of zero |
| TestDoubles.TestStream.PollNext | tests/common/mod.rs:69-89 | counts the call and records its context; the answer and the new queue are `StreamNext` and `Rest` of the old queue |
| TestDoubles.SinkCallsCount | tests/common/mod.rs:162-203 | each sink call bumps only its own counter and answers from its own script at the old counter; only an accepted `start_send` appends the item |
| TestDoubles.TestSink.constructor | tests/common/mod.rs:141-154 | counters at zero, the three scripts as given, no items |
| TestDoubles.TestSink.PollReady | tests/common/mod.rs:162-172 | answers the script entry at the old counter and bumps the counter; nothing else changes |
| TestDoubles.TestSink.StartSend | tests/common/mod.rs:175-190 | answers the script entry at the old counter and bumps the counter; the item is recorded iff the answer is `Ok` |
| TestDoubles.TestSink.PollFlush | tests/common/mod.rs:193-203 | answers the script entry at the old counter and bumps the counter |
| TestDoubles.TestSink.PollClose | tests/common/mod.rs:206-209 | the answer is the scripted close, `SinkPollClose`: always ready and successful, with nothing changed |
| ReadPath.Settle | src/lib.rs:193-278 | a non-message answer of the stream: `Pending` iff nothing is in hand and the stream is pending; `StreamEnded` is latched iff the stream ended; an error is answered iff nothing is in hand, deferred iff bytes are in hand; `Ok` reports the bytes in hand |
| ReadPath.CopyChunk | src/lib.rs:163-176 | the bytes in hand grow up to the buffer size; a chunk is kept only when the buffer is full, and a kept chunk has bytes left |
| ReadPath.CopyChunkConserves | src/lib.rs:168-176 | exactly `min(remaining, room)` bytes are copied from the cursor on; the bytes in hand, then what the chunk keeps, equal the bytes before |
| ReadPath.FillChunk | src/lib.rs:163-188 | the chunk arm never shrinks the bytes in hand, never overfills the buffer, and leaves a well-formed state |
| ReadPath.FillPoll | src/lib.rs:191-280 | the arm without state: the same bounds as `FillChunk` |
| ReadPath.Fill | src/lib.rs:151-282 | the read loop: the same bounds as `FillChunk` |
| ReadPath.Read | src/lib.rs:140-283 | one read copies at most the buffer's size and leaves a well-formed state (the latch kept: see Findings) |
| ReadPath.ReadAsWritten | src/lib.rs:149-153 | the read as written: a well-formed state results, and a latched end of stream is answered `Ok(0)` with no state left |
| ReadPath.ReadStarts | src/lib.rs:149-161 | a latched end answers `Ok(0)` and stays latched without polling; a deferred error is answered at once and cleared without polling; otherwise the loop runs from the given state |
| ReadPath.ChunkStep | src/lib.rs:163-188 | one chunk-arm turn: a full buffer ends the read with `Ok(cap)` and the rest of the chunk; otherwise the chunk is used up and the loop goes on without state |
| ReadPath.PollStep | src/lib.rs:191-280 | one turn without state: the stream is polled with the caller's context iff nothing is copied; a message becomes the chunk; the end, an error and `Pending` end the read as written in the source |
| ReadPath.ChunkReports | src/lib.rs:163-188 | from the chunk arm, `Ok(n)` reports exactly the bytes copied; `Pending` and errors come only with nothing copied and leave no state; an error is deferred only when bytes are returned |
| ReadPath.PollReports | src/lib.rs:191-280 | the same as `ChunkReports`, from the arm without state |
| ReadPath.ReadOutcome | src/lib.rs:140-283 | for a whole read: `Ok(n)` reports exactly the bytes copied, and `n` is at most the buffer size; `Pending` and errors copy nothing and leave no state; a deferred error comes with bytes |
| ReadPath.ChunkConserves | src/lib.rs:163-188 | from the chunk arm: bytes copied, then buffered, then still queued, equal the bytes in hand, then the rest of the chunk, then the queued data |
| ReadPath.PollConserves | src/lib.rs:191-280 | the same as `ChunkConserves`, from the arm without state |
| ReadPath.ReadConserves | src/lib.rs:140-283 | one read loses, duplicates and reorders no byte: copied, then buffered, then queued equals buffered, then queued, before |
| ReadPath.ChunkWakes | src/lib.rs:233-247 | every poll is made with the caller's context iff nothing was copied at that point, else with the no-op context; `Pending` comes from a last poll made with nothing copied |
| ReadPath.PollWakes | src/lib.rs:193-247 | the same as `ChunkWakes`, from the arm without state |
| ReadPath.ReadWakes | src/lib.rs:191-280 | the wake rule for a whole read, and `Pending` copies nothing |
| ReadPath.ChunkPops | src/lib.rs:163-280 | from the chunk arm, the read consumes a prefix of the queue, one action per poll, plus one poll when it meets the end; a latched end means the queue is empty; a deferred error is the last action consumed |
| ReadPath.PollPops | src/lib.rs:191-280 | the same as `ChunkPops`, from the arm without state |
| ReadPath.ReadPolls | src/lib.rs:149-280 | the queue after a read is a suffix of the queue before; one poll per action popped, plus one for the end of the stream; a latched end polls nothing and pops nothing |
| ReadPath.ReadKeeps | src/lib.rs:66-74 | the adapter invariant (handed out, then buffered, then queued, is the script; a latched end means an empty queue) survives every read |
| ReadPath.ChunkCopy | src/lib.rs:163-188 | from a stored chunk, a buffer no bigger than what is left is filled at once with the next bytes of the chunk, without a poll; an exact fit drops the chunk; a bigger buffer takes the whole rest of the chunk first and then polls |
| ReadPath.ChunkExtends | src/lib.rs:163-188 | bytes already copied stay at the front of the buffer (chunk arm) |
| ReadPath.PollExtends | src/lib.rs:191-280 | bytes already copied stay at the front of the buffer (arm without state) |
| ReadPath.ChunkKeptOnlyWhenFull | src/lib.rs:181-187 | a chunk is kept only with a completely filled buffer answered `Ok(cap)` (chunk arm) |
| ReadPath.PollKeptOnlyWhenFull | src/lib.rs:181-187 | the same as `ChunkKeptOnlyWhenFull`, from the arm without state |
| ReadPath.ReadSeries | src/lib.rs:140-283 | successive reads: one outcome per buffer, and a well-formed state after all of them |
| ReadPath.SeriesConserves | src/lib.rs:140-283 | across any number of reads of any sizes, the bytes returned, then buffered, then queued, are those at the start; the bytes returned are a prefix of the scripted data |
| ReadPath.SeriesStep | src/lib.rs:140-283 | one read that keeps every byte, followed by any series of reads that keeps every byte, keeps every byte of the script in order |
| ReadPath.EndedLatch | src/lib.rs:153 | once the end is latched, every later read answers `Ok(0)`, polls nothing, pops nothing, and keeps the latch |
| ReadPath.ErrorOneShot | src/lib.rs:157-161 | a deferred error is answered once, with no bytes and no poll; the following reads start from no state |
| ReadPath.EndDeliversAll | src/lib.rs:206-215 | reading until the end is latched returns exactly the scripted data, in order |
| ReadPath.EndedMeansDrained | src/lib.rs:206-263 | across reads, a latched end of stream means the queue is empty |
| ReadPath.AsWrittenRepolls | src/lib.rs:149-153 | as written, a read on a latched end answers `Ok(0)` but drops the latch, so the next read polls the stream again; the corrected read does not poll |
| ReadPath.AnswerAfter | src/lib.rs:316-341 | once bytes have been read into earlier buffers, the call can no longer answer `Pending` or an error: it answers `Ok` with at least those bytes |
| ReadPath.VecLoop | src/lib.rs:290-353 | the buffer loop leaves a well-formed state and visits at most every buffer |
| ReadPath.VecAfter | src/lib.rs:296-344 | the buffer just read is the first one visited, and the buffers visited are at most all of them |
| ReadPath.VecSkipStep | src/lib.rs:292 | an empty buffer is passed over, gets nothing, and the loop goes on |
| ReadPath.VecStarts | src/lib.rs:288-290 | the buffer loop starts at the first buffer with `have_read` at 0, nothing handed out and no poll made |
| ReadPath.VecReadStep | src/lib.rs:296-344 | a non-empty buffer gets one read, with the caller's context iff nothing is read yet; a filled buffer passes on with the count grown; otherwise the call ends with `AnswerAfter`, an error after bytes read being stored |
| ReadPath.VecAfterStep | src/lib.rs:298-343 | what follows one read into a buffer: the same as `VecReadStep`, from the read's outcome |
| ReadPath.VecEndStep | src/lib.rs:348-353 | past the last buffer: the bytes read are the answer; with none read the call is one read into an empty buffer |
| ReadPath.VecSizes | src/lib.rs:290-346 | each buffer visited receives at most its size, and every buffer before the last one visited is filled completely |
| ReadPath.VecSizesAfter | src/lib.rs:296-344 | the same as `VecSizes`, from the read into the current buffer |
| ReadPath.VecShape | src/lib.rs:286-354 | `Ok(n)` reports all bytes read into the buffers; `Pending` and errors are answered only when nothing was read |
| ReadPath.VecShapeAfter | src/lib.rs:296-344 | the same as `VecShape`, from the read into the current buffer |
| ReadPath.VecConserves | src/lib.rs:286-354 | the vectored read loses or reorders no byte: copied into the buffers in order, then buffered, then queued, equals buffered, then queued, before |
| ReadPath.VecConservesAfter | src/lib.rs:296-344 | the same as `VecConserves`, from the read into the current buffer |
| ReadPath.VecErrorRouting | src/lib.rs:336-342 | an error answered means nothing was read and no state is left; a stored error means the call answers `Ok` with all bytes read, which are more than zero |
| ReadPath.VecErrorsRouted | src/lib.rs:302-341 | error routing: the same as `VecErrorRouting`, without the byte count |
| ReadPath.VecErrorsRoutedAfter | src/lib.rs:296-344 | the same as `VecErrorsRouted`, from the read into the current buffer |
| ReadPath.VecWakes | src/lib.rs:296-323 | every poll before any byte is read uses the caller's context and every later one the no-op context; `Pending` comes from a poll made with nothing read |
| ReadPath.VecWakesAfter | src/lib.rs:296-344 | the same as `VecWakes`, from the read into the current buffer |
| ReadPath.VecAllEmpty | src/lib.rs:348-353 | if every buffer is empty, the vectored read is one read into an empty buffer: same answer, state, queue and polls, with nothing copied |
| WritePath.Write | src/lib.rs:357-408 | the sink's `poll_ready` is consulted once; `Pending` iff it is pending; `Ok` iff ready and the send is taken, and then `Ok` is the buffer's length; the scripts are not changed |
| WritePath.Flush | src/lib.rs:411-420 | the sink's flush answer is passed through unchanged, and only the flush counter moves |
| WritePath.Close | src/lib.rs:423-428 | the answer is the sink's own close answer, passed through, and the sink is left as that close leaves it |
| WritePath.CloseLeavesSink | src/lib.rs:423-428 | on the scripted sink a close succeeds at once, changes nothing, and closing again gives the same |
| WritePath.WriteGate | src/lib.rs:364-371 | a sink not ready answers as the write: `Pending` stays `Pending`, an error is returned; nothing is sent or flushed |
| WritePath.WriteSendFails | src/lib.rs:377-406 | a refused send is the write's error; nothing is recorded and there is no flush |
| WritePath.WriteOneMessage | src/lib.rs:377-403 | an accepted write submits the whole buffer as exactly one item, flushes exactly once, and answers the buffer's length |
| WritePath.WriteIgnoresFlush | src/lib.rs:399-403 | the flush's answer, `Pending` and errors included, has no bearing on the write's answer or on the items sent |
| WsIoAdapter.CopyInto | src/lib.rs:168 | the source bytes land in the buffer from the given index on; every other element keeps its value |
| WsIoAdapter.ReadChunk | src/lib.rs:163-176 | the front of the buffer and the state left are those of `CopyChunk`; the rest of the buffer is untouched |
| WsIoAdapter.ChunkArm | src/lib.rs:163-188 | one chunk-arm turn on a real buffer, as `ChunkStep` says: a full buffer ends the read; otherwise the loop goes on without state |
| WsIoAdapter.PollArm | src/lib.rs:191-280 | one poll of the source, as `PollStep` says, with the context recorded: a message goes on as the chunk; anything else ends the read |
| WsIoAdapter.AfterBuffer | src/lib.rs:298-343 | the call goes on iff the buffer was filled, with the count grown; otherwise it ends with `AnswerAfter`, and an error met after bytes were read is handed back to be stored |
| WsIoAdapter.WsIo.constructor | src/lib.rs:91-99 | no pending state; nothing handed out; the invariant holds |
| WsIoAdapter.WsIo.PollRead | src/lib.rs:140-283 | the answer, the new state, the source's queue, its poll count and contexts are those of `Read`; the bytes copied fill the front of the buffer, and the rest is untouched; the invariant is kept |
| WsIoAdapter.WsIo.ReadLoop | src/lib.rs:148-282 | the loop from the taken state does what `Read` says; the buffer past the bytes copied is untouched |
| WsIoAdapter.WsIo.LoopAs | src/lib.rs:148-282 | the loop reaches the outcome it is given: the latched end and the deferred error answer at once, and any other start goes on as `Fill` says; the buffer past the bytes copied is untouched |
| WsIoAdapter.WsIo.PollReadVectored | src/lib.rs:286-354 | the answer, the new state, the queue and the contexts are those of `ReadVectored`; each buffer visited holds its bytes at the front, and everything else is untouched; the invariant is kept |
| WsIoAdapter.WsIo.VectoredAs | src/lib.rs:286-354 | the vectored read reaches the outcome of `ReadVectored` for the state on entry: answer, state, queue, contexts, bytes handed out, and each buffer's new contents |
| WsIoAdapter.WsIo.Vectored | src/lib.rs:290-353 | the buffer loop and its end, from a start with nothing read, give that same outcome, each buffer holding its share of the bytes at the front and its old contents after them |
| WsIoAdapter.WsIo.VisitAll | src/lib.rs:290-346 | the buffers are visited in order until one ends the call or none is left, as `ReadVectored` says |
| WsIoAdapter.WsIo.SkipBuffer | src/lib.rs:292 | an empty buffer is passed over untouched, as `VecSkipStep` says |
| WsIoAdapter.WsIo.FillBuffer | src/lib.rs:296-344 | one non-empty buffer is read, as `VecReadStep` says; no other buffer is touched |
| WsIoAdapter.WsIo.ReadBuffer | src/lib.rs:296-344 | one `poll_read_impl` into the buffer with the context the wake rule gives; its bytes land at the buffer's front; the call ends or goes on as `VecReadStep` says |
| WsIoAdapter.WsIo.ReadInto | src/lib.rs:296-322 | one `poll_read_impl` into a buffer after `have_read` bytes: answer, state and queue as `Read` gives them; its bytes are handed out after the earlier ones and land at the buffer's front; its polls are recorded after the earlier ones |
| WsIoAdapter.WsIo.Advance | src/lib.rs:298-343 | after that read: a filled buffer passes on to the next size with the count grown, anything else ends the call with the answer `ReadVectored` gives, an error after bytes being stored as the pending state |
| WsIoAdapter.WsIo.EndVectored | src/lib.rs:348-353 | the end of a vectored read that got past every buffer, as `VecEndStep` says |
| WsIoAdapter.WsIo.ReadEmpty | src/lib.rs:352 | a read into an empty buffer does what `Read` with size 0 says, handing out nothing |
| WsIoAdapter.WsIo.PollWrite | src/lib.rs:357-408 | the answer and the sink afterwards are those of `Write` |
| WsIoAdapter.WsIo.PollFlush | src/lib.rs:411-420 | the answer and the sink afterwards are those of `Flush` |
| WsIoAdapter.WsIo.PollClose | src/lib.rs:423-428 | the answer and the sink afterwards are those of `Close` |
| Scenarios.SmallerFirst | tests/async_read.rs:178-187 | `smaller`, first one-byte read: `[1]`, the message kept with cursor 1, one poll with the caller's context |
| Scenarios.SmallerSecond | tests/async_read.rs:178-187 | second read: `[1]` from the stored message, no poll |
| Scenarios.SmallerThird | tests/async_read.rs:178-187 | third read: `[2]`, one poll |
| Scenarios.SmallerFourth | tests/async_read.rs:178-187 | fourth read: `[2]`, no poll (two polls in all) |
| Scenarios.BiggerFirst | tests/async_read.rs:192-205 | `bigger`, first three-byte read: `[1, 1, 2]`, two polls, the second with the no-op context |
| Scenarios.BiggerSecond | tests/async_read.rs:192-205 | second read: `[2]`, the end met and latched (three polls in all) |
| Scenarios.VeryBigRest | tests/async_read.rs:209-218 | `very_big`: after its first message, the first read takes the next three messages, each polled with the no-op context |
| Scenarios.VeryBigFirst | tests/async_read.rs:209-218 | the first five-byte read takes all four messages, `[1, 2, 2, 3, 4]`, in four polls, and leaves no state |
| Scenarios.VeryBigSecond | tests/async_read.rs:209-218 | the second read polls once, meets the end, answers `Ok(0)` and latches it (five polls in all) |
| Scenarios.BiggerPendingFirst | tests/async_read.rs:223-238 | `bigger_pending`: the `Pending` after a message is swallowed, and `[1, 1]` is returned |
| Scenarios.BiggerPendingSecond | tests/async_read.rs:223-238 | the next read returns `[2, 2]` and latches the end |
| Scenarios.BiggerErrorFirst | tests/async_read.rs:243-257 | `bigger_error`: the error after a message is deferred, and `[1, 1]` is returned |
| Scenarios.BiggerErrorSecond | tests/async_read.rs:243-257 | the next read answers the error without polling |
| Scenarios.ErrorFirst | tests/async_read.rs:262-271 | `error`: an error met first is answered at once |
| Scenarios.ErrorSecond | tests/async_read.rs:262-271 | the next read returns the data that follows |
| Scenarios.EndFirst | tests/async_read.rs:149-158 | `dont_poll_after_stream_end`: a two-byte read of the script `[1]` returns `[1]`, meets the end and latches it, in two polls |
| Scenarios.EndSecond | tests/async_read.rs:149-158 | the next read answers `Ok(0)` without polling |
| Scenarios.EmptyBuffer | tests/async_read.rs:120-129 | a zero-length read answers `Ok(0)` after one poll with the caller's context, keeping the whole message as the chunk |
| Scenarios.Exact | tests/async_read.rs:134-143 | two two-byte reads get one whole message each, one poll apiece, leaving no state |
| Scenarios.ExactBeyondEnd | tests/async_read.rs:164-173 | after the two reads of `Exact`, a zero-length read polls once more, meets the end, answers `Ok(0)` and latches it |
| Scenarios.PendingRead | tests/async_read.rs:276-285 | a `Pending` met with nothing copied is the answer, with no bytes and no state; the next read gets the message; two polls |
| Scenarios.EmptyBufferVectored | tests/vector_read.rs:98-107 | one empty buffer: `Ok(0)` after one poll, the message kept whole |
| Scenarios.ExactVectored | tests/vector_read.rs:112-120 | two two-byte buffers get one message each: `Ok(4)`, two polls, the second with the no-op context |
| Scenarios.EndVectored | tests/vector_read.rs:126-134 | the end met while filling the first buffer ends the call with `Ok(1)`, the end latched, the second buffer not visited; two polls |
| Scenarios.ExactBeyondEndVectored | tests/vector_read.rs:140-148 | two buffers get a message each and the third meets the end: `Ok(4)`, the end latched, three polls |
| Scenarios.BiggerVectored | tests/vector_read.rs:167-178 | the first three-byte buffer is filled across two messages; the second gets one byte and meets the end: `Ok(4)`, three polls |
| Scenarios.BiggerPendingVectored | tests/vector_read.rs:196-207 | a partly filled first buffer ends the call with `Ok(2)` |
| Scenarios.BiggerErrorVectored | tests/vector_read.rs:213-223 | the error after the first message is stored and `Ok(2)` is answered |
| Scenarios.ErrorVectored | tests/vector_read.rs:229-237 | an error on the first buffer is the answer, after one poll |
| Scenarios.PendingVectored | tests/vector_read.rs:243-251 | `Pending` on the first buffer is the answer, after one poll |
| Scenarios.PollReadyPending | tests/async_write.rs:44-62 | a pending sink: `Pending`, nothing sent or flushed |
| Scenarios.PollReadyError | tests/async_write.rs:67-85 | a failing `poll_ready`: its error, nothing sent or flushed |
| Scenarios.NormalUse | tests/async_write.rs:90-109 | one item `[1, 1]`, one flush, `Ok(2)` |
| Scenarios.SendError | tests/async_write.rs:114-132 | a refused send: its error, and no flush |
| Scenarios.FlushErrorDropped | tests/async_write.rs:137-155 | the first write of `flush_error_return_from_poll_write`: the flush error is dropped and `Ok(2)` answered |

## Left out

- Logging (`trace!`, `error!`) and `debug_assert!`: these have no effect on behaviour.
- `Pin`, `Unpin`, `Context` and real wakers: a context is either the caller's waker or the no-op waker. Which context each poll used is recorded as a ghost sequence on the stream.
- The trait glue that forwards to the `_impl` functions (the futures and tokio `AsyncRead`/`AsyncWrite` impls and tokio's `poll_shutdown`). This includes the `AsyncBufRead` impl, which is not in the adapter's source. The `Pharos`, `Borrow`, `inner`/`inner_mut` and `Debug` members are left out too.
- The generic item type `I`: messages are byte sequences. `io::Error` is an opaque error kind that is only moved around.
- The inner channel `St`: it is the pair of test doubles, held as two fields (`stream`, `sink`) instead of one.
- `usize`: counts are unbounded naturals, and no width limit is reached on these paths.
- Surfacing a flush error on the next write: `poll_write_impl` drops the flush's answer (src/lib.rs:399). The test `flush_error_return_from_poll_write` only covers its first write here, because its second write would index past the scripts.
- TestSink.PollReady, TestSink.StartSend, TestSink.PollFlush: indexing past the end of a script panics in the source. That case becomes a precondition, which `WritePath.Scripted` packages for a write.
- The test drivers (`tester`, `tester_futures`, `tester_tokio`) and the `From` conversions into `Action`.
- WsIo.PollReadVectored: the buffers are distinct arrays, as `&mut` slices are.
- Scenarios: most tests have each of their calls stated as its own fact about the reference definitions, not as one chained lemma.
- Scenarios: `smaller_vectored` (tests/vector_read.rs:154-162) and `very_big_vectored` (tests/vector_read.rs:183-191) have no scenario lemma, because evaluating them on the literal scripts is too costly for the solver. `VecSizes` and `VecConserves` state in general what they check.
- `poll_write_vectored` is not defined by the adapter, so the trait's default applies to it. The expectations of tests/vector_write.rs, one item holding all the buffers, are not part of this model.

## Findings

| source | as written | input that shows it | evidently intended | confidence | as-written member | corrected member |
|---|---|---|---|---|---|---|
| src/lib.rs:149-153 | the state is taken out of the adapter before the loop, and the `StreamEnded` arm returns `Ok(0)` without putting it back, so the latch lasts for one read | state `StreamEnded`, then two reads: the second read finds no state and polls the stream again | the end of the stream stays latched and the stream is not polled after it. The `StreamEnded` state exists for this, and the comment at src/lib.rs:210-211 worries about polling the stream again. The test `dont_poll_after_stream_end` makes only two reads, so it does not see the difference | not executed | ReadPath.ReadAsWritten, ReadPath.AsWrittenRepolls | ReadPath.Read, ReadPath.EndedLatch |
