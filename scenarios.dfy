/**
 * The scenarios of the test suite (tests/async_read.rs, tests/vector_read.rs,
 * tests/async_write.rs) as facts about the reference definitions: for each
 * call a test makes, the answer, the bytes copied, the state left behind and
 * the polls made. A test's poll count is the sum of the polls of its calls.
 */
module Scenarios {
  import opened Io
  import Doubles = TestDoubles
  import opened ReadPath
  import WritePath

  /** Two two-byte messages, the script of most read tests. */
  function TwoPairs(): seq<Doubles.Action>
  {
    [Doubles.Action.Data([1, 1]), Doubles.Action.Data([2, 2])]
  }

  const NC := ErrorKind.NotConnected

  // ---------------------------------------------------------------------
  // `smaller` (tests/async_read.rs:178-187): four one-byte reads, two polls.

  lemma SmallerFirst()
    ensures Read(None, TwoPairs(), 1, Caller)
      == ReadRun(Poll.Ready(Ok(1)), [1], Some(ReadState.Ready([1, 1], 1)), [Doubles.Action.Data([2, 2])], [Probe(Caller, 0)])
  {
  }

  lemma SmallerSecond()
    ensures Read(Some(ReadState.Ready([1, 1], 1)), [Doubles.Action.Data([2, 2])], 1, Caller)
      == ReadRun(Poll.Ready(Ok(1)), [1], None, [Doubles.Action.Data([2, 2])], [])
  {
  }

  lemma SmallerThird()
    ensures Read(None, [Doubles.Action.Data([2, 2])], 1, Caller)
      == ReadRun(Poll.Ready(Ok(1)), [2], Some(ReadState.Ready([2, 2], 1)), [], [Probe(Caller, 0)])
  {
  }

  lemma SmallerFourth()
    ensures Read(Some(ReadState.Ready([2, 2], 1)), [], 1, Caller) == ReadRun(Poll.Ready(Ok(1)), [2], None, [], [])
  {
  }

  // ---------------------------------------------------------------------
  // `bigger` (tests/async_read.rs:192-205): reads of three bytes, three polls.

  lemma BiggerFirst()
    ensures Read(None, TwoPairs(), 3, Caller)
      == ReadRun(Poll.Ready(Ok(3)), [1, 1, 2], Some(ReadState.Ready([2, 2], 1)), [], [Probe(Caller, 0), Probe(Noop, 2)])
  {
  }

  /** The second read finds the end after one byte: it answers that byte and latches the end. */
  lemma BiggerSecond()
    ensures Read(Some(ReadState.Ready([2, 2], 1)), [], 3, Caller)
      == ReadRun(Poll.Ready(Ok(1)), [2], Some(StreamEnded), [], [Probe(Noop, 1)])
  {
  }

  // ---------------------------------------------------------------------
  // `very_big` (tests/async_read.rs:210-218): four messages into one read, five polls.

  /** The part of the first `very_big` read after its first message. */
  lemma VeryBigRest()
    ensures FillPoll([Doubles.Action.Data([2, 2]), Doubles.Action.Data([3]), Doubles.Action.Data([4])], 5, [1], Caller)
      == ReadRun(Poll.Ready(Ok(5)), [1, 2, 2, 3, 4], None, [], [Probe(Noop, 1), Probe(Noop, 3), Probe(Noop, 4)])
  {
    var four := [Doubles.Action.Data([4])];
    var three := [Doubles.Action.Data([3])] + four;
    assert FillPoll(four, 5, [1, 2, 2, 3], Caller) == ReadRun(Poll.Ready(Ok(5)), [1, 2, 2, 3, 4], None, [], [Probe(Noop, 4)]);
    assert FillChunk([3], 0, four, 5, [1, 2, 2], Caller) == FillPoll(four, 5, [1, 2, 2, 3], Caller);
    assert FillPoll(three, 5, [1, 2, 2], Caller)
      == ReadRun(Poll.Ready(Ok(5)), [1, 2, 2, 3, 4], None, [], [Probe(Noop, 3), Probe(Noop, 4)]);
    assert CopyChunk([2, 2], 0, 5, [1]) == ([1, 2, 2], None) by {
      assert [2, 2][0..2] == [2, 2];
      assert [1] + [2, 2] == [1, 2, 2];
    }
    assert FillChunk([2, 2], 0, three, 5, [1], Caller) == FillPoll(three, 5, [1, 2, 2], Caller);
  }

  lemma VeryBigFirst()
    ensures Read(None, [Doubles.Action.Data([1]), Doubles.Action.Data([2, 2]), Doubles.Action.Data([3]), Doubles.Action.Data([4])], 5, Caller)
      == ReadRun(Poll.Ready(Ok(5)), [1, 2, 2, 3, 4], None, [], [Probe(Caller, 0), Probe(Noop, 1), Probe(Noop, 3), Probe(Noop, 4)])
  {
    var two := [Doubles.Action.Data([2, 2]), Doubles.Action.Data([3]), Doubles.Action.Data([4])];
    VeryBigRest();
    assert CopyChunk([1], 0, 5, []) == ([1], None) by {
      assert [1][0..1] == [1];
      assert [] + [1] == [1];
    }
    assert FillChunk([1], 0, two, 5, [], Caller) == FillPoll(two, 5, [1], Caller);
  }

  lemma VeryBigSecond()
    ensures Read(None, [], 4, Caller) == ReadRun(Poll.Ready(Ok(0)), [], Some(StreamEnded), [], [Probe(Caller, 0)])
  {
  }

  // ---------------------------------------------------------------------
  // `bigger_pending` (tests/async_read.rs:223-238): the `Pending` after a
  // message is swallowed, four polls.

  lemma BiggerPendingFirst()
    ensures Read(None, [Doubles.Action.Data([1, 1]), Doubles.Action.Pending, Doubles.Action.Data([2, 2])], 3, Caller)
      == ReadRun(Poll.Ready(Ok(2)), [1, 1], None, [Doubles.Action.Data([2, 2])], [Probe(Caller, 0), Probe(Noop, 2)])
  {
  }

  lemma BiggerPendingSecond()
    ensures Read(None, [Doubles.Action.Data([2, 2])], 3, Caller)
      == ReadRun(Poll.Ready(Ok(2)), [2, 2], Some(StreamEnded), [], [Probe(Caller, 0), Probe(Noop, 2)])
  {
  }

  // ---------------------------------------------------------------------
  // `bigger_error` (tests/async_read.rs:243-257): the error after a message
  // is answered by the next read, without a poll; four polls.

  lemma BiggerErrorFirst()
    ensures Read(None, [Doubles.Action.Data([1, 1]), Doubles.Action.Error(NC), Doubles.Action.Data([2, 2])], 3, Caller)
      == ReadRun(Poll.Ready(Ok(2)), [1, 1], Some(ReadState.Error(NC)), [Doubles.Action.Data([2, 2])], [Probe(Caller, 0), Probe(Noop, 2)])
  {
    var rest := [Doubles.Action.Error(NC), Doubles.Action.Data([2, 2])];
    assert FillPoll(rest, 3, [1, 1], Caller)
      == ReadRun(Poll.Ready(Ok(2)), [1, 1], Some(ReadState.Error(NC)), [Doubles.Action.Data([2, 2])], [Probe(Noop, 2)]);
    assert FillChunk([1, 1], 0, rest, 3, [], Caller) == FillPoll(rest, 3, [1, 1], Caller);
  }

  lemma BiggerErrorSecond()
    ensures Read(Some(ReadState.Error(NC)), [Doubles.Action.Data([2, 2])], 3, Caller)
      == ReadRun(Poll.Ready(Err(NC)), [], None, [Doubles.Action.Data([2, 2])], [])
  {
  }

  // ---------------------------------------------------------------------
  // `error` (tests/async_read.rs:262-271): an error met first is answered at once.

  lemma ErrorFirst()
    ensures Read(None, [Doubles.Action.Error(NC), Doubles.Action.Data([1, 1])], 3, Caller)
      == ReadRun(Poll.Ready(Err(NC)), [], None, [Doubles.Action.Data([1, 1])], [Probe(Caller, 0)])
  {
  }

  lemma ErrorSecond()
    ensures Read(None, [Doubles.Action.Data([1, 1])], 2, Caller)
      == ReadRun(Poll.Ready(Ok(2)), [1, 1], None, [], [Probe(Caller, 0)])
  {
  }

  // ---------------------------------------------------------------------
  // `empty_buffer` (tests/async_read.rs:120-129): a zero-length read still
  // polls once; the message is kept whole for later.

  lemma EmptyBuffer()
    ensures Read(None, TwoPairs(), 0, Caller)
      == ReadRun(Poll.Ready(Ok(0)), [], Some(ReadState.Ready([1, 1], 0)), [Doubles.Action.Data([2, 2])], [Probe(Caller, 0)])
  {
  }

  // ---------------------------------------------------------------------
  // `exact` (tests/async_read.rs:134-143) and `exact_beyond_end`
  // (tests/async_read.rs:164-173): each read gets one whole message with one
  // poll; past the end a zero-length read answers `Ok(0)` after one more poll.

  lemma Exact()
    ensures var first := Read(None, TwoPairs(), 2, Caller);
      && first == ReadRun(Poll.Ready(Ok(2)), [1, 1], None, [Doubles.Action.Data([2, 2])], [Probe(Caller, 0)])
      && Read(first.state, first.rest, 2, Caller) == ReadRun(Poll.Ready(Ok(2)), [2, 2], None, [], [Probe(Caller, 0)])
  {
  }

  lemma ExactBeyondEnd()
    ensures Read(None, [], 0, Caller) == ReadRun(Poll.Ready(Ok(0)), [], Some(StreamEnded), [], [Probe(Caller, 0)])
  {
  }

  // ---------------------------------------------------------------------
  // `pending` (tests/async_read.rs:276-285): a `Pending` met with nothing
  // copied is the answer and leaves the buffer as it was; the next read gets
  // the message; two polls.

  lemma PendingRead()
    ensures var first := Read(None, [Doubles.Action.Pending, Doubles.Action.Data([2, 2])], 3, Caller);
      && first == ReadRun(Poll.Pending, [], None, [Doubles.Action.Data([2, 2])], [Probe(Caller, 0)])
      && Read(first.state, first.rest, 2, Caller) == ReadRun(Poll.Ready(Ok(2)), [2, 2], None, [], [Probe(Caller, 0)])
  {
  }

  // ---------------------------------------------------------------------
  // `dont_poll_after_stream_end` (tests/async_read.rs:149-158): two polls in all.

  lemma EndFirst()
    ensures Read(None, [Doubles.Action.Data([1])], 2, Caller)
      == ReadRun(Poll.Ready(Ok(1)), [1], Some(StreamEnded), [], [Probe(Caller, 0), Probe(Noop, 1)])
  {
  }

  lemma EndSecond()
    ensures Read(Some(StreamEnded), [], 1, Caller) == ReadRun(Poll.Ready(Ok(0)), [], Some(StreamEnded), [], [])
  {
  }

  // ---------------------------------------------------------------------
  // tests/vector_read.rs: one vectored read per test.

  /** A vectored step with its read's outcome `r` known: a filled buffer passes on to the loop `tail` over the buffers after it. */
  lemma PassOn(state: PendingState, actions: seq<Doubles.Action>, caps: seq<nat>, have: nat, cx: Waker,
               r: ReadRun, tail: VecRun, v: VecRun)
    requires StateOk(state) && caps != [] && caps[0] != 0 && StateOk(r.state)
    requires Read(state, actions, caps[0], if have == 0 then cx else Noop) == r && Filled(r.poll, caps[0])
    requires VecLoop(r.state, r.rest, caps[1..], have + r.poll.value.value, cx) == tail
    requires v == VecRun(tail.poll, [r.out] + tail.outs, tail.state, tail.rest, Shift(r.probes, have) + tail.probes)
    ensures VecLoop(state, actions, caps, have, cx) == v
  {
  }

  /** A vectored step with its read's outcome `r` known: a buffer not filled ends the call. */
  lemma EndsAt(state: PendingState, actions: seq<Doubles.Action>, caps: seq<nat>, have: nat, cx: Waker, r: ReadRun, v: VecRun)
    requires StateOk(state) && caps != [] && caps[0] != 0 && StateOk(r.state)
    requires Read(state, actions, caps[0], if have == 0 then cx else Noop) == r && !Filled(r.poll, caps[0])
    requires !(have > 0 && r.poll.Ready? && r.poll.value.Err?)
    requires v == VecRun(AnswerAfter(r.poll, have), [r.out], r.state, r.rest, Shift(r.probes, have))
    ensures VecLoop(state, actions, caps, have, cx) == v
  {
  }

  /** `empty_buffer_vectored` (tests/vector_read.rs:98-107): one empty buffer still polls once; the message is kept. */
  lemma EmptyBufferVectored()
    ensures ReadVectored(None, TwoPairs(), [0], Caller)
      == VecRun(Poll.Ready(Ok(0)), [[]], Some(ReadState.Ready([1, 1], 0)), [Doubles.Action.Data([2, 2])], [Probe(Caller, 0)])
  {
  }

  /** `exact_vectored` (tests/vector_read.rs:112-120): one message per buffer, two polls. */
  lemma ExactVectored()
    ensures ReadVectored(None, TwoPairs(), [2, 2], Caller)
      == VecRun(Poll.Ready(Ok(4)), [[1, 1], [2, 2]], None, [], [Probe(Caller, 0), Probe(Noop, 2)])
  {
    assert Read(None, TwoPairs(), 2, Caller) == ReadRun(Poll.Ready(Ok(2)), [1, 1], None, [Doubles.Action.Data([2, 2])], [Probe(Caller, 0)]);
    assert Read(None, [Doubles.Action.Data([2, 2])], 2, Noop) == ReadRun(Poll.Ready(Ok(2)), [2, 2], None, [], [Probe(Noop, 0)]);
    assert VecLoop(None, [], [], 4, Caller) == VecRun(Poll.Ready(Ok(4)), [], None, [], []);
    assert VecLoop(None, [Doubles.Action.Data([2, 2])], [2], 2, Caller) == VecRun(Poll.Ready(Ok(4)), [[2, 2]], None, [], [Probe(Noop, 2)]);
  }

  /** `dont_poll_after_stream_end_vectored` (tests/vector_read.rs:126-134): the end met in the first buffer ends the call, two polls. */
  lemma EndVectored()
    ensures ReadVectored(None, [Doubles.Action.Data([1])], [2, 1], Caller)
      == VecRun(Poll.Ready(Ok(1)), [[1]], Some(StreamEnded), [], [Probe(Caller, 0), Probe(Noop, 1)])
  {
    EndFirst();
    EndsAt(None, [Doubles.Action.Data([1])], [2, 1], 0, Caller,
           ReadRun(Poll.Ready(Ok(1)), [1], Some(StreamEnded), [], [Probe(Caller, 0), Probe(Noop, 1)]),
           VecRun(Poll.Ready(Ok(1)), [[1]], Some(StreamEnded), [], [Probe(Caller, 0), Probe(Noop, 1)]));
  }

  /** The last buffer of `exact_beyond_end_vectored` meets the end after four bytes were read. */
  lemma ExactBeyondEndTail()
    ensures VecLoop(None, [], [2], 4, Caller) == VecRun(Poll.Ready(Ok(4)), [[]], Some(StreamEnded), [], [Probe(Noop, 4)])
  {
    assert Read(None, [], 2, Noop) == ReadRun(Poll.Ready(Ok(0)), [], Some(StreamEnded), [], [Probe(Noop, 0)]);
  }

  /** The last two buffers of `exact_beyond_end_vectored`. */
  lemma ExactBeyondEndSecond()
    ensures VecLoop(None, [Doubles.Action.Data([2, 2])], [2, 2], 2, Caller)
      == VecRun(Poll.Ready(Ok(4)), [[2, 2], []], Some(StreamEnded), [], [Probe(Noop, 2), Probe(Noop, 4)])
  {
    ExactBeyondEndTail();
    assert Read(None, [Doubles.Action.Data([2, 2])], 2, Noop) == ReadRun(Poll.Ready(Ok(2)), [2, 2], None, [], [Probe(Noop, 0)]);
    assert [2, 2][1..] == [2];
  }

  /** `exact_beyond_end_vectored` (tests/vector_read.rs:140-148): the third buffer meets the end, `Ok(4)`, three polls. */
  lemma ExactBeyondEndVectored()
    ensures ReadVectored(None, TwoPairs(), [2, 2, 2], Caller)
      == VecRun(Poll.Ready(Ok(4)), [[1, 1], [2, 2], []], Some(StreamEnded), [], [Probe(Caller, 0), Probe(Noop, 2), Probe(Noop, 4)])
  {
    ExactBeyondEndSecond();
    assert Read(None, TwoPairs(), 2, Caller) == ReadRun(Poll.Ready(Ok(2)), [1, 1], None, [Doubles.Action.Data([2, 2])], [Probe(Caller, 0)]);
    assert [2, 2, 2][1..] == [2, 2];
  }

  /** `bigger_vectored` (tests/vector_read.rs:167-178): the first buffer is filled; the second gets one byte and the end, three polls. */
  lemma BiggerVectored()
    ensures ReadVectored(None, TwoPairs(), [3, 3], Caller)
      == VecRun(Poll.Ready(Ok(4)), [[1, 1, 2], [2]], Some(StreamEnded), [], [Probe(Caller, 0), Probe(Noop, 2), Probe(Noop, 4)])
  {
    BiggerFirst();
    var r := ReadRun(Poll.Ready(Ok(1)), [2], Some(StreamEnded), [], [Probe(Noop, 1)]);
    assert Read(Some(ReadState.Ready([2, 2], 1)), [], 3, Noop) == r;
    assert [3, 3][1..] == [3];
    var tail := VecRun(Poll.Ready(Ok(4)), [[2]], Some(StreamEnded), [], [Probe(Noop, 4)]);
    EndsAt(Some(ReadState.Ready([2, 2], 1)), [], [3], 3, Caller, r, tail);
    PassOn(None, TwoPairs(), [3, 3], 0, Caller,
           ReadRun(Poll.Ready(Ok(3)), [1, 1, 2], Some(ReadState.Ready([2, 2], 1)), [], [Probe(Caller, 0), Probe(Noop, 2)]), tail,
           VecRun(Poll.Ready(Ok(4)), [[1, 1, 2], [2]], Some(StreamEnded), [], [Probe(Caller, 0), Probe(Noop, 2), Probe(Noop, 4)]));
  }

  /** `bigger_pending_vectored` (tests/vector_read.rs:196-207): a partly filled first buffer ends the call. */
  lemma BiggerPendingVectored()
    ensures ReadVectored(None, [Doubles.Action.Data([1, 1]), Doubles.Action.Pending, Doubles.Action.Data([2, 2])], [3, 3], Caller)
      == VecRun(Poll.Ready(Ok(2)), [[1, 1]], None, [Doubles.Action.Data([2, 2])], [Probe(Caller, 0), Probe(Noop, 2)])
  {
    BiggerPendingFirst();
  }

  /** `bigger_error_vectored` (tests/vector_read.rs:213-223): the error is kept for the next call. */
  lemma BiggerErrorVectored()
    ensures ReadVectored(None, [Doubles.Action.Data([1, 1]), Doubles.Action.Error(NC), Doubles.Action.Data([2, 2])], [3, 3, 3], Caller)
      == VecRun(Poll.Ready(Ok(2)), [[1, 1]], Some(ReadState.Error(NC)), [Doubles.Action.Data([2, 2])], [Probe(Caller, 0), Probe(Noop, 2)])
  {
    BiggerErrorFirst();
  }

  /** `error_vectored` (tests/vector_read.rs:229-237): an error on the first buffer is the answer, one poll. */
  lemma ErrorVectored()
    ensures ReadVectored(None, [Doubles.Action.Error(NC), Doubles.Action.Data([1, 1]), Doubles.Action.Data([2, 2])], [3, 3, 3], Caller)
      == VecRun(Poll.Ready(Err(NC)), [[]], None, [Doubles.Action.Data([1, 1]), Doubles.Action.Data([2, 2])], [Probe(Caller, 0)])
  {
  }

  /** `pending_vectored` (tests/vector_read.rs:243-251): `Pending` on the first buffer is the answer, one poll. */
  lemma PendingVectored()
    ensures ReadVectored(None, [Doubles.Action.Pending, Doubles.Action.Data([1, 1]), Doubles.Action.Data([2, 2])], [3, 3, 3], Caller)
      == VecRun(Poll.Pending, [[]], None, [Doubles.Action.Data([1, 1]), Doubles.Action.Data([2, 2])], [Probe(Caller, 0)])
  {
  }

  // ---------------------------------------------------------------------
  // tests/async_write.rs: one write of `[1, 1]` per test.

  function Sink(ready: Doubles.ReadyAction, send: Doubles.SendAction, flush: Doubles.FlushAction): Doubles.SinkView
  {
    Doubles.SinkView(0, 0, 0, [ready], [send], [flush], [])
  }

  /** `poll_ready_pending` (tests/async_write.rs:44-62): nothing is sent or flushed. */
  lemma PollReadyPending()
    ensures var s := Sink(Doubles.ReadyAction.Pending, Doubles.SendAction.Ok, Doubles.FlushAction.Ok);
      WritePath.Write(s, [1, 1]) == WritePath.WriteRun(Poll.Pending, s.(pollReady := 1))
  {
  }

  /** `poll_ready_error` (tests/async_write.rs:67-85). */
  lemma PollReadyError()
    ensures var s := Sink(Doubles.ReadyAction.Error(NC), Doubles.SendAction.Ok, Doubles.FlushAction.Ok);
      WritePath.Write(s, [1, 1]) == WritePath.WriteRun(Poll.Ready(Err(NC)), s.(pollReady := 1))
  {
  }

  /** `normal_use` (tests/async_write.rs:90-109): one item, one flush, two bytes written. */
  lemma NormalUse()
    ensures var s := Sink(Doubles.ReadyAction.Ok, Doubles.SendAction.Ok, Doubles.FlushAction.Ok);
      WritePath.Write(s, [1, 1])
        == WritePath.WriteRun(Poll.Ready(Ok(2)), s.(pollReady := 1, startSend := 1, pollFlush := 1, items := [[1, 1]]))
  {
  }

  /** `send_error` (tests/async_write.rs:114-132): the send's error, no flush. */
  lemma SendError()
    ensures var s := Sink(Doubles.ReadyAction.Ok, Doubles.SendAction.Error(NC), Doubles.FlushAction.Ok);
      WritePath.Write(s, [1, 1]) == WritePath.WriteRun(Poll.Ready(Err(NC)), s.(pollReady := 1, startSend := 1))
  {
  }

  /** The first write of `flush_error_return_from_poll_write` (tests/async_write.rs:137-155): the flush error is dropped. */
  lemma FlushErrorDropped()
    ensures var s := Sink(Doubles.ReadyAction.Ok, Doubles.SendAction.Ok, Doubles.FlushAction.Error(NC));
      WritePath.Write(s, [1, 1])
        == WritePath.WriteRun(Poll.Ready(Ok(2)), s.(pollReady := 1, startSend := 1, pollFlush := 1, items := [[1, 1]]))
  {
  }
}
