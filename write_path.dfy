/**
 * The write side of `WsIo` (src/lib.rs, `poll_write_impl`,
 * `poll_flush_impl`, `poll_close_impl`) as pure functions over the state of
 * the scripted sink. Every write becomes one whole message: the sink is
 * asked whether it is ready, the buffer is submitted, and the sink is
 * flushed with the flush's answer thrown away.
 */
module WritePath {
  import opened Io
  import Doubles = TestDoubles

  /** The outcome of one call on the write side: the poll result and the sink afterwards. */
  datatype WriteRun<T> = WriteRun(poll: Poll<IoResult<T>>, sink: Doubles.SinkView)

  /**
   * The sink's scripts hold an entry for every call a write makes: one for
   * `poll_ready`, one for `start_send` once it answered ready, one for
   * `poll_flush` once the send was taken. The scripted sink panics otherwise.
   */
  predicate Scripted(v: Doubles.SinkView)
  {
    && v.pollReady < |v.readyActions|
    && (v.readyActions[v.pollReady].Ok? ==>
          && v.startSend < |v.sendActions|
          && (v.sendActions[v.startSend].Ok? ==> v.pollFlush < |v.flushActions|))
  }

  /** The scripts are only read, never changed, by the adapter. */
  predicate SameScripts(v: Doubles.SinkView, w: Doubles.SinkView)
  {
    v.readyActions == w.readyActions && v.sendActions == w.sendActions && v.flushActions == w.flushActions
  }

  /**
   * `poll_write_impl` (src/lib.rs:357-408) of `buf` on a sink in state `v`.
   * The sink's `Pending` or error from `poll_ready` is answered as is; an
   * error from `start_send` is answered as is; after a taken send the sink is
   * flushed once and the write answers `Ok(buf.len())` whatever the flush
   * said.
   */
  function Write(v: Doubles.SinkView, buf: Bytes): (r: WriteRun<nat>)
    requires Scripted(v)
    ensures SameScripts(r.sink, v) && r.sink.pollReady == v.pollReady + 1
    ensures r.poll.Pending? <==> v.readyActions[v.pollReady].Pending?
    ensures r.poll.Ready? && r.poll.value.Ok? <==>
      v.readyActions[v.pollReady].Ok? && v.sendActions[v.startSend].Ok?
    ensures r.poll.Ready? && r.poll.value.Ok? ==> r.poll.value.value == |buf|
  {
    var (afterReady, ready) := Doubles.SinkPollReady(v);
    if ready.Pending? then WriteRun(Poll.Pending, afterReady)
    else if ready.value.Err? then WriteRun(Poll.Ready(Err(ready.value.error)), afterReady)
    else
      var (afterSend, sent) := Doubles.SinkStartSend(afterReady, buf);
      if sent.Err? then WriteRun(Poll.Ready(Err(sent.error)), afterSend)
      else
        var (afterFlush, _) := Doubles.SinkPollFlush(afterSend);
        WriteRun(Poll.Ready(Ok(|buf|)), afterFlush)
  }

  /** `poll_flush_impl` (src/lib.rs:411-420): the sink's flush answer, passed through unchanged. */
  function Flush(v: Doubles.SinkView): (r: WriteRun<()>)
    requires v.pollFlush < |v.flushActions|
    ensures r.poll == Doubles.FlushAnswer(v.flushActions[v.pollFlush])
    ensures r.sink == v.(pollFlush := v.pollFlush + 1)
  {
    var (afterFlush, flushed) := Doubles.SinkPollFlush(v);
    match flushed
    case Pending => WriteRun(Poll.Pending, afterFlush)
    case Ready(Ok(_)) => WriteRun(Poll.Ready(Ok(())), afterFlush)
    case Ready(Err(e)) => WriteRun(Poll.Ready(Err(e)), afterFlush)
  }

  /** `poll_close_impl` (src/lib.rs:423-428): the sink's close answer, passed through unchanged. */
  function Close(v: Doubles.SinkView): (r: WriteRun<()>)
    ensures r.poll == Doubles.SinkPollClose(v).1 && r.sink == Doubles.SinkPollClose(v).0
  {
    var (afterClose, closed) := Doubles.SinkPollClose(v);
    match closed
    case Pending => WriteRun(Poll.Pending, afterClose)
    case Ready(Ok(_)) => WriteRun(Poll.Ready(Ok(())), afterClose)
    case Ready(Err(e)) => WriteRun(Poll.Ready(Err(e)), afterClose)
  }

  /**
   * On the scripted sink a close always succeeds at once and leaves every
   * counter, script and item as it was, so closing twice is the same as
   * closing once.
   */
  lemma CloseLeavesSink(v: Doubles.SinkView)
    ensures Close(v).poll == Poll.Ready(Ok(()))
    ensures Close(v).sink == v && Close(Close(v).sink) == Close(v)
  {
  }

  /**
   * The ready gate: when `poll_ready` does not answer ready, its `Pending`
   * or error is the write's answer, nothing is submitted and the sink is
   * neither sent to nor flushed.
   */
  lemma WriteGate(v: Doubles.SinkView, buf: Bytes)
    requires Scripted(v) && !v.readyActions[v.pollReady].Ok?
    ensures var r := Write(v, buf);
      && r.sink == v.(pollReady := v.pollReady + 1)
      && (v.readyActions[v.pollReady].Pending? ==> r.poll == Poll.Pending)
      && (v.readyActions[v.pollReady].Error? ==> r.poll == Poll.Ready(Err(v.readyActions[v.pollReady].kind)))
  {
  }

  /** A refused submission: the send's error is the write's answer, nothing is submitted and the sink is not flushed. */
  lemma WriteSendFails(v: Doubles.SinkView, buf: Bytes, e: ErrorKind)
    requires Scripted(v) && v.readyActions[v.pollReady].Ok?
    requires v.sendActions[v.startSend] == Doubles.SendAction.Error(e)
    ensures var r := Write(v, buf);
      && r.poll == Poll.Ready(Err(e))
      && r.sink == v.(pollReady := v.pollReady + 1, startSend := v.startSend + 1)
  {
  }

  /**
   * A taken write: the whole buffer is submitted as exactly one item, the
   * sink is flushed exactly once, and the write answers with the buffer's
   * length.
   */
  lemma WriteOneMessage(v: Doubles.SinkView, buf: Bytes)
    requires Scripted(v) && v.readyActions[v.pollReady].Ok? && v.sendActions[v.startSend].Ok?
    ensures var r := Write(v, buf);
      && r.poll == Poll.Ready(Ok(|buf|))
      && r.sink.items == v.items + [buf]
      && r.sink == v.(pollReady := v.pollReady + 1, startSend := v.startSend + 1,
                      pollFlush := v.pollFlush + 1, items := v.items + [buf])
  {
  }

  /**
   * The flush's answer, `Pending` and errors included, has no bearing on the
   * write: two sinks that differ only in their flush script give the same
   * answer and submit the same items.
   */
  lemma WriteIgnoresFlush(v: Doubles.SinkView, flushes: seq<Doubles.FlushAction>, buf: Bytes)
    requires Scripted(v) && Scripted(v.(flushActions := flushes))
    ensures var r := Write(v, buf);
      var r' := Write(v.(flushActions := flushes), buf);
      r.poll == r'.poll && r.sink == r'.sink.(flushActions := v.flushActions)
  {
  }
}
