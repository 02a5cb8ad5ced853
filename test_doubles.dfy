/**
 * The scripted inner channel of the test suite (tests/common/mod.rs):
 * `TestStream`, a message source that replays a queue of actions and counts
 * its polls, and `TestSink`, a message sink that answers each call from an
 * indexed script, counts its calls and records the submitted items.
 */
module TestDoubles {
  import opened Io

  /** One scripted answer of `TestStream::poll_next`. */
  datatype Action = Pending | Error(kind: ErrorKind) | Data(bytes: Bytes)

  /** What one `poll_next` yields: `Poll<Option<io::Result<Vec<u8>>>>`. */
  type StreamPoll = Poll<Option<IoResult<Bytes>>>

  /** The payload bytes of the `Data` actions of a script, in script order. */
  function DataOf(actions: seq<Action>): Bytes
  {
    if actions == [] then []
    else (if actions[0].Data? then actions[0].bytes else []) + DataOf(actions[1..])
  }

  /** The bytes a poll result hands over: the message of `Ready(Some(Ok(_)))`, nothing otherwise. */
  function Payload(p: StreamPoll): Bytes
  {
    if p.Ready? && p.value.Some? && p.value.value.Ok? then p.value.value.value else []
  }

  /** The action queue after one `poll_next`: the front action is popped; an empty queue stays empty. */
  function Rest(actions: seq<Action>): (r: seq<Action>)
    ensures |r| == if actions == [] then 0 else |actions| - 1
    ensures r == if actions == [] then [] else actions[1..]
  {
    if actions == [] then [] else actions[1..]
  }

  /** The answer of one `poll_next` on the queue `actions`: the end of the stream once the queue is empty. */
  function StreamNext(actions: seq<Action>): (r: StreamPoll)
    ensures r == Ready(None) <==> actions == []
    ensures r.Pending? <==> actions != [] && actions[0].Pending?
    ensures r.Ready? && r.value.Some? && r.value.value.Err? <==> actions != [] && actions[0].Error?
  {
    if actions == [] then Ready(None)
    else match actions[0]
      case Pending => Poll.Pending
      case Data(d) => Ready(Some(IoResult.Ok(d)))
      case Error(k) => Ready(Some(Err(k)))
  }

  /**
   * Nothing of the script is lost or reordered by a poll: the bytes of the
   * answer followed by those still queued are exactly the bytes queued before.
   */
  lemma StreamNextData(actions: seq<Action>)
    ensures DataOf(actions) == Payload(StreamNext(actions)) + DataOf(Rest(actions))
  {
  }

  /** `TestStream`: replays `actions` front to back; `polled` counts every call. */
  class TestStream {
    var actions: seq<Action>
    var polled: nat
    /** The context each poll was made with, oldest first (a ghost record; the source ignores `_cx`). */
    ghost var contexts: seq<Waker>

    ghost predicate Valid()
      reads this
    {
      polled == |contexts|
    }

    constructor (actions: seq<Action>)
      ensures Valid()
      ensures this.actions == actions && polled == 0 && contexts == []
    {
      this.actions := actions;
      polled := 0;
      contexts := [];
    }

    /** `poll_next`: counts the call, then pops and answers the front action; an empty queue ends the stream. */
    method PollNext(cx: Waker) returns (r: StreamPoll)
      requires Valid()
      modifies this
      ensures Valid()
      ensures polled == old(polled) + 1 && contexts == old(contexts) + [cx]
      ensures r == StreamNext(old(actions)) && actions == Rest(old(actions))
    {
      polled := polled + 1;
      contexts := contexts + [cx];
      if |actions| > 0 {
        var action := actions[0];
        actions := actions[1..];
        match action
        case Pending => r := Poll.Pending;
        case Data(data) => r := Ready(Some(IoResult.Ok(data)));
        case Error(err) => r := Ready(Some(Err(err)));
      } else {
        r := Ready(None);
      }
    }
  }

  datatype ReadyAction = Pending | Ok | Error(kind: ErrorKind)
  datatype SendAction = Ok | Error(kind: ErrorKind)
  datatype FlushAction = Pending | Ok | Error(kind: ErrorKind)

  function ReadyAnswer(a: ReadyAction): Poll<IoResult<()>>
  {
    match a
    case Pending => Poll.Pending
    case Ok => Ready(IoResult.Ok(()))
    case Error(e) => Ready(Err(e))
  }

  function SendAnswer(a: SendAction): IoResult<()>
  {
    match a
    case Ok => IoResult.Ok(())
    case Error(e) => Err(e)
  }

  function FlushAnswer(a: FlushAction): Poll<IoResult<()>>
  {
    match a
    case Pending => Poll.Pending
    case Ok => Ready(IoResult.Ok(()))
    case Error(e) => Ready(Err(e))
  }

  /** The fields of a `TestSink`, as a value. */
  datatype SinkView = SinkView(
    pollReady: nat, startSend: nat, pollFlush: nat,
    readyActions: seq<ReadyAction>, sendActions: seq<SendAction>, flushActions: seq<FlushAction>,
    items: seq<Bytes>)

  /** `poll_ready` on a sink in state `v`: the new state and the answer. */
  function SinkPollReady(v: SinkView): (SinkView, Poll<IoResult<()>>)
    requires v.pollReady < |v.readyActions|
  {
    (v.(pollReady := v.pollReady + 1), ReadyAnswer(v.readyActions[v.pollReady]))
  }

  /** `start_send(item)` on a sink in state `v`. */
  function SinkStartSend(v: SinkView, item: Bytes): (SinkView, IoResult<()>)
    requires v.startSend < |v.sendActions|
  {
    var a := v.sendActions[v.startSend];
    var w := v.(startSend := v.startSend + 1);
    (if a.Ok? then w.(items := w.items + [item]) else w, SendAnswer(a))
  }

  /** `poll_flush` on a sink in state `v`. */
  function SinkPollFlush(v: SinkView): (SinkView, Poll<IoResult<()>>)
    requires v.pollFlush < |v.flushActions|
  {
    (v.(pollFlush := v.pollFlush + 1), FlushAnswer(v.flushActions[v.pollFlush]))
  }

  /** `poll_close` on a sink in state `v`: the scripted sink always closes at once and successfully, changing nothing. */
  function SinkPollClose(v: SinkView): (SinkView, Poll<IoResult<()>>)
  {
    (v, Ready(IoResult.Ok(())))
  }

  /**
   * Each scripted sink call bumps its own counter by one, answers from the
   * script entry at the old counter value, and leaves the other counters
   * alone; only a successful `start_send` changes `items`, by appending the
   * item.
   */
  lemma SinkCallsCount(v: SinkView, item: Bytes)
    ensures v.pollReady < |v.readyActions| ==>
      var (w, r) := SinkPollReady(v);
      w.pollReady == v.pollReady + 1 && w.startSend == v.startSend && w.pollFlush == v.pollFlush
      && w.items == v.items && r == ReadyAnswer(v.readyActions[v.pollReady])
    ensures v.startSend < |v.sendActions| ==>
      var (w, r) := SinkStartSend(v, item);
      w.pollReady == v.pollReady && w.startSend == v.startSend + 1 && w.pollFlush == v.pollFlush
      && (r.Ok? <==> v.sendActions[v.startSend].Ok?)
      && w.items == (if r.Ok? then v.items + [item] else v.items)
    ensures v.pollFlush < |v.flushActions| ==>
      var (w, r) := SinkPollFlush(v);
      w.pollReady == v.pollReady && w.startSend == v.startSend && w.pollFlush == v.pollFlush + 1
      && w.items == v.items && r == FlushAnswer(v.flushActions[v.pollFlush])
  {
  }

  /**
   * `TestSink`: `poll_ready`, `start_send` and `poll_flush` each answer from
   * their own script, indexed by their own call counter; indexing past the
   * end of a script panics in the source, so a call needs an entry left.
   */
  class TestSink {
    var pollReady: nat
    var startSend: nat
    var pollFlush: nat
    var readyActions: seq<ReadyAction>
    var sendActions: seq<SendAction>
    var flushActions: seq<FlushAction>
    var items: seq<Bytes>

    function View(): SinkView
      reads this
    {
      SinkView(pollReady, startSend, pollFlush, readyActions, sendActions, flushActions, items)
    }

    constructor (readyActions: seq<ReadyAction>, sendActions: seq<SendAction>, flushActions: seq<FlushAction>)
      ensures View() == SinkView(0, 0, 0, readyActions, sendActions, flushActions, [])
    {
      pollReady, startSend, pollFlush := 0, 0, 0;
      this.readyActions := readyActions;
      this.sendActions := sendActions;
      this.flushActions := flushActions;
      items := [];
    }

    method PollReady(cx: Waker) returns (r: Poll<IoResult<()>>)
      requires pollReady < |readyActions|
      modifies this
      ensures pollReady == old(pollReady) + 1
      ensures r == ReadyAnswer(old(readyActions[pollReady]))
      ensures View() == SinkPollReady(old(View())).0
    {
      pollReady := pollReady + 1;
      match readyActions[pollReady - 1]
      case Pending => r := Poll.Pending;
      case Ok => r := Ready(IoResult.Ok(()));
      case Error(e) => r := Ready(Err(e));
    }

    method StartSend(item: Bytes) returns (r: IoResult<()>)
      requires startSend < |sendActions|
      modifies this
      ensures startSend == old(startSend) + 1
      ensures r == SendAnswer(old(sendActions[startSend]))
      ensures items == if r.Ok? then old(items) + [item] else old(items)
      ensures View() == SinkStartSend(old(View()), item).0
    {
      startSend := startSend + 1;
      match sendActions[startSend - 1]
      case Error(e) => r := Err(e);
      case Ok =>
        items := items + [item];
        r := IoResult.Ok(());
    }

    method PollFlush(cx: Waker) returns (r: Poll<IoResult<()>>)
      requires pollFlush < |flushActions|
      modifies this
      ensures pollFlush == old(pollFlush) + 1
      ensures r == FlushAnswer(old(flushActions[pollFlush]))
      ensures View() == SinkPollFlush(old(View())).0
    {
      pollFlush := pollFlush + 1;
      match flushActions[pollFlush - 1]
      case Pending => r := Poll.Pending;
      case Ok => r := Ready(IoResult.Ok(()));
      case Error(e) => r := Ready(Err(e));
    }

    /** `poll_close`: always ready and successful; touches nothing. */
    method PollClose(cx: Waker) returns (r: Poll<IoResult<()>>)
      ensures r == SinkPollClose(View()).1 && r.Ready? && r.value.Ok?
    {
      r := Ready(IoResult.Ok(()));
    }
  }
}
