/**
 * The read path of `WsIo` (src/lib.rs, `poll_read_impl` and
 * `poll_read_vectored_impl`) as pure functions over the adapter's pending
 * read state and the inner stream's action queue, with the properties the
 * adapter promises proved about them. The methods of `WsIoAdapter.WsIo` are
 * proved to behave exactly as these functions say.
 */
module ReadPath {
  import opened Io
  import Doubles = TestDoubles

  /** `ReadState`: a partly consumed message with its cursor, a deferred error, or the end of the stream. */
  datatype ReadState = Ready(chunk: Bytes, position: nat) | Error(error: ErrorKind) | StreamEnded

  /** The pending state the adapter keeps between calls (`Option<ReadState>`). */
  type PendingState = Option<ReadState>

  /** A stored chunk always has bytes left: an exhausted chunk collapses to `None`. */
  predicate StateOk(state: PendingState)
  {
    state.Some? && state.value.Ready? ==> state.value.position < |state.value.chunk|
  }

  /** The state inside the read loop: no pending state, or a chunk whose cursor is within it. */
  predicate LoopState(state: PendingState)
  {
    state.None? || (state.value.Ready? && state.value.position <= |state.value.chunk|)
  }

  /** The bytes a state still holds for later reads. */
  function Buffered(state: PendingState): Bytes
  {
    if state.Some? && state.value.Ready? && state.value.position <= |state.value.chunk|
    then state.value.chunk[state.value.position..] else []
  }

  /** One poll of the inner stream made by a read: the context used and how many bytes the call had copied by then. */
  datatype Probe = Probe(waker: Waker, copied: nat)

  function Wakers(probes: seq<Probe>): seq<Waker>
  {
    if probes == [] then [] else [probes[0].waker] + Wakers(probes[1..])
  }

  lemma {:induction false} WakersAppend(a: seq<Probe>, b: seq<Probe>)
    ensures Wakers(a + b) == Wakers(a) + Wakers(b)
  {
    if a != [] {
      assert (a + b)[0] == a[0];
      assert (a + b)[1..] == a[1..] + b;
      assert Wakers(a + b) == [a[0].waker] + Wakers(a[1..] + b);
      WakersAppend(a[1..], b);
    } else {
      assert a + b == b;
    }
  }

  lemma WakersSnoc(a: seq<Probe>, p: Probe)
    ensures Wakers(a + [p]) == Wakers(a) + [p.waker]
  {
    WakersAppend(a, [p]);
    assert Wakers([p]) == [p.waker] + Wakers([]);
  }

  lemma {:induction false} WakersLength(probes: seq<Probe>)
    ensures |Wakers(probes)| == |probes|
  {
    if probes != [] {
      WakersLength(probes[1..]);
    }
  }

  /** The outcome of one read call: the poll result, the bytes copied to the buffer's front, the new pending state, the stream's remaining queue, the polls made. */
  datatype ReadRun = ReadRun(poll: Poll<IoResult<nat>>, out: Bytes, state: PendingState, rest: seq<Doubles.Action>, probes: seq<Probe>)

  /** Whether a poll of the stream handed over a message. */
  predicate IsData(p: Doubles.StreamPoll)
  {
    p.Ready? && p.value.Some? && p.value.value.Ok?
  }

  /**
   * How a read ends when the stream answers anything but a message
   * (src/lib.rs:193-278). With nothing copied yet (`have` empty): `Pending`
   * is passed on, the end of the stream answers `Ok(0)` and latches
   * `StreamEnded`, an error is answered at once. With bytes copied the call
   * must succeed: it answers `Ok` with those bytes, latching the end of the
   * stream, deferring the error to the next call, or forgetting `Pending`.
   */
  function Settle(p: Doubles.StreamPoll, have: Bytes, rest: seq<Doubles.Action>, probe: Probe): (r: ReadRun)
    requires !IsData(p)
    ensures r.out == have && r.rest == rest && r.probes == [probe]
    ensures r.poll.Pending? <==> have == [] && p.Pending?
    ensures r.state == Some(StreamEnded) <==> p == Poll.Ready(None)
    ensures r.state.Some? && r.state.value.Error? <==> have != [] && p.Ready? && p.value.Some?
    ensures r.poll.Ready? && r.poll.value.Err? <==> have == [] && p.Ready? && p.value.Some?
    ensures r.poll.Ready? && r.poll.value.Ok? ==> r.poll.value.value == |have|
    ensures r.state.Some? && r.state.value.Error? ==> p == Poll.Ready(Some(Err(r.state.value.error)))
  {
    if |have| == 0 then
      if p.Pending? then ReadRun(Pending, [], None, rest, [probe])
      else if p.value.None? then ReadRun(Poll.Ready(Ok(0)), [], Some(StreamEnded), rest, [probe])
      else ReadRun(Poll.Ready(Err(p.value.value.error)), [], None, rest, [probe])
    else
      if p.Pending? then ReadRun(Poll.Ready(Ok(|have|)), have, None, rest, [probe])
      else if p.value.None? then ReadRun(Poll.Ready(Ok(|have|)), have, Some(StreamEnded), rest, [probe])
      else ReadRun(Poll.Ready(Ok(|have|)), have, Some(ReadState.Error(p.value.value.error)), rest, [probe])
  }

  /** The copy step of the chunk arm (src/lib.rs:163-176): the bytes in hand after copying, and the state left. */
  function CopyChunk(chunk: Bytes, pos: nat, cap: nat, have: Bytes): (c: (Bytes, PendingState))
    requires pos <= |chunk| && |have| <= cap
    ensures |have| <= |c.0| <= cap
    ensures LoopState(c.1) && StateOk(c.1)
    ensures c.1.Some? ==> |c.0| == cap && c.1.value.Ready? && c.1.value.chunk == chunk
  {
    var k := Min(|chunk| - pos, cap - |have|);
    (have + chunk[pos..pos + k], if pos + k == |chunk| then None else Some(ReadState.Ready(chunk, pos + k)))
  }

  /**
   * The copy step moves `min(remaining, room)` bytes from the cursor on: the
   * bytes in hand followed by what the chunk still holds are unchanged.
   */
  lemma CopyChunkConserves(chunk: Bytes, pos: nat, cap: nat, have: Bytes)
    requires pos <= |chunk| && |have| <= cap
    ensures var c := CopyChunk(chunk, pos, cap, have);
      && c.0 == have + chunk[pos..pos + Min(|chunk| - pos, cap - |have|)]
      && c.0 + Buffered(c.1) == have + chunk[pos..]
  {
    var k := Min(|chunk| - pos, cap - |have|);
    assert chunk[pos..] == chunk[pos..pos + k] + chunk[pos + k..];
  }

  /**
   * The chunk arm of the read loop of `poll_read_impl` (src/lib.rs:163-188):
   * `have` bytes are already in a buffer of `cap` bytes; the chunk is copied
   * from its cursor as far as the buffer allows, and a full buffer ends the
   * call, keeping what is left of the chunk. Otherwise the chunk ran out and
   * the loop goes on without state.
   */
  function FillChunk(chunk: Bytes, pos: nat, actions: seq<Doubles.Action>, cap: nat, have: Bytes, cx: Waker): (r: ReadRun)
    requires pos <= |chunk| && |have| <= cap
    ensures StateOk(r.state) && |have| <= |r.out| <= cap
    decreases |actions|, 1
  {
    var c := CopyChunk(chunk, pos, cap, have);
    if |c.0| == cap then ReadRun(Poll.Ready(Ok(cap)), c.0, c.1, actions, [])
    else FillPoll(actions, cap, c.0, cx)
  }

  /**
   * The arm of the read loop without state (src/lib.rs:191-280): the stream
   * is polled, with the caller's context while nothing is copied yet and the
   * no-op context afterwards; a message it hands over becomes the chunk, any
   * other answer ends the call as `Settle` says.
   */
  function FillPoll(actions: seq<Doubles.Action>, cap: nat, have: Bytes, cx: Waker): (r: ReadRun)
    requires |have| <= cap
    ensures StateOk(r.state) && |have| <= |r.out| <= cap
    decreases |actions|, 0
  {
    var probe := Probe(if |have| == 0 then cx else Noop, |have|);
    var p := Doubles.StreamNext(actions);
    if IsData(p) then
      var r := FillChunk(p.value.value.value, 0, Doubles.Rest(actions), cap, have, cx);
      r.(probes := [probe] + r.probes)
    else Settle(p, have, Doubles.Rest(actions), probe)
  }

  /** The read loop of `poll_read_impl` (src/lib.rs:151-282) from the loop's local `state`. */
  function Fill(state: PendingState, actions: seq<Doubles.Action>, cap: nat, have: Bytes, cx: Waker): (r: ReadRun)
    requires LoopState(state) && |have| <= cap
    ensures StateOk(r.state) && |have| <= |r.out| <= cap
  {
    if state.Some? then FillChunk(state.value.chunk, state.value.position, actions, cap, have, cx)
    else FillPoll(actions, cap, have, cx)
  }

  /**
   * One `poll_read_impl` call into a buffer of `cap` bytes with context `cx`:
   * the end of the stream answers `Ok(0)` and stays latched, a deferred error
   * is answered once, anything else runs the read loop.
   */
  function Read(state: PendingState, actions: seq<Doubles.Action>, cap: nat, cx: Waker): (r: ReadRun)
    requires StateOk(state)
    ensures StateOk(r.state) && |r.out| <= cap
  {
    match state
    case Some(StreamEnded) => ReadRun(Poll.Ready(Ok(0)), [], Some(StreamEnded), actions, [])
    case Some(Error(e)) => ReadRun(Poll.Ready(Err(e)), [], None, actions, [])
    case _ => Fill(state, actions, cap, [], cx)
  }

  /**
   * `poll_read_impl` exactly as written: the state is taken out before the
   * loop and the `StreamEnded` arm returns without putting it back, so the
   * adapter is left with no state at all.
   */
  function ReadAsWritten(state: PendingState, actions: seq<Doubles.Action>, cap: nat, cx: Waker): (r: ReadRun)
    requires StateOk(state)
    ensures StateOk(r.state)
  {
    match state
    case Some(StreamEnded) => ReadRun(Poll.Ready(Ok(0)), [], None, actions, [])
    case _ => Read(state, actions, cap, cx)
  }

  /**
   * The read loop part way: from the loop's local `state`, with `have` in
   * hand and the polls `probes` made, the loop ends as `r` says.
   */
  predicate Continues(r: ReadRun, state: PendingState, actions: seq<Doubles.Action>, cap: nat, have: Bytes, cx: Waker, probes: seq<Probe>)
  {
    && LoopState(state) && |have| <= cap
    && var f := Fill(state, actions, cap, have, cx); r == f.(probes := probes + f.probes)
  }

  /** A read starts the loop from the state it was given, unless that state is the end of the stream or an error. */
  lemma ReadStarts(state: PendingState, actions: seq<Doubles.Action>, cap: nat, cx: Waker)
    requires StateOk(state)
    ensures var r := Read(state, actions, cap, cx);
      && (state == Some(StreamEnded) ==> r == ReadRun(Poll.Ready(Ok(0)), [], state, actions, []))
      && (state.Some? && state.value.Error? ==> r == ReadRun(Poll.Ready(Err(state.value.error)), [], None, actions, []))
      && (LoopState(state) ==> Continues(r, state, actions, cap, [], cx, []))
  {
  }

  /** One turn of the chunk arm: the read ends with a full buffer, or goes on to poll with the chunk used up. */
  lemma ChunkStep(r: ReadRun, chunk: Bytes, pos: nat, actions: seq<Doubles.Action>, cap: nat, have: Bytes, cx: Waker, probes: seq<Probe>)
    requires pos <= |chunk| && Continues(r, Some(ReadState.Ready(chunk, pos)), actions, cap, have, cx, probes)
    ensures var c := CopyChunk(chunk, pos, cap, have);
      && (|c.0| == cap ==> r == ReadRun(Poll.Ready(Ok(cap)), c.0, c.1, actions, probes))
      && (|c.0| != cap ==> c.1 == None && Continues(r, None, actions, cap, c.0, cx, probes))
  {
    var c := CopyChunk(chunk, pos, cap, have);
    if |c.0| == cap {
      assert probes + [] == probes;
    }
  }

  /**
   * One turn of the arm without state: the stream is polled with the
   * context the wake rule gives, and a message goes on as the new chunk,
   * anything else ends the read.
   */
  lemma PollStep(r: ReadRun, actions: seq<Doubles.Action>, cap: nat, have: Bytes, cx: Waker, probes: seq<Probe>)
    requires Continues(r, None, actions, cap, have, cx, probes)
    ensures var probes' := probes + [Probe(if |have| == 0 then cx else Noop, |have|)];
      var rest := Doubles.Rest(actions);
      match Doubles.StreamNext(actions)
      case Ready(Some(Ok(d))) => Continues(r, Some(ReadState.Ready(d, 0)), rest, cap, have, cx, probes')
      case Ready(None) => r == ReadRun(Poll.Ready(Ok(|have|)), have, Some(StreamEnded), rest, probes')
      case Ready(Some(Err(e))) =>
        r == if |have| == 0 then ReadRun(Poll.Ready(Err(e)), have, None, rest, probes')
             else ReadRun(Poll.Ready(Ok(|have|)), have, Some(ReadState.Error(e)), rest, probes')
      case Pending =>
        r == ReadRun(if |have| == 0 then Poll.Pending else Poll.Ready(Ok(|have|)), have, None, rest, probes')
  {
    var probe := Probe(if |have| == 0 then cx else Noop, |have|);
    var p := Doubles.StreamNext(actions);
    if IsData(p) {
      var f := FillChunk(p.value.value.value, 0, Doubles.Rest(actions), cap, have, cx);
      assert probes + ([probe] + f.probes) == probes + [probe] + f.probes;
    }
  }

  // ---------------------------------------------------------------------
  // Properties of one read

  /**
   * The result reports exactly the bytes copied; `Pending` and errors come
   * with no bytes, only when nothing was in hand, and leave no state behind;
   * an error is deferred only when bytes are returned.
   */
  predicate Reports(r: ReadRun, have: Bytes)
  {
    && (r.poll.Ready? && r.poll.value.Ok? ==> r.poll.value.value == |r.out|)
    && (r.poll.Pending? ==> have == [] && r.out == [] && r.state == None)
    && (r.poll.Ready? && r.poll.value.Err? ==> have == [] && r.out == [] && r.state == None)
    && (r.state.Some? && r.state.value.Error? ==> r.out != [] && r.poll == Poll.Ready(Ok(|r.out|)))
  }

  lemma {:induction false} ChunkReports(chunk: Bytes, pos: nat, actions: seq<Doubles.Action>, cap: nat, have: Bytes, cx: Waker)
    requires pos <= |chunk| && |have| <= cap
    ensures Reports(FillChunk(chunk, pos, actions, cap, have, cx), have)
    decreases |actions|, 1
  {
    var c := CopyChunk(chunk, pos, cap, have);
    if |c.0| < cap {
      PollReports(actions, cap, c.0, cx);
    }
  }

  lemma {:induction false} PollReports(actions: seq<Doubles.Action>, cap: nat, have: Bytes, cx: Waker)
    requires |have| <= cap
    ensures Reports(FillPoll(actions, cap, have, cx), have)
    decreases |actions|, 0
  {
    var p := Doubles.StreamNext(actions);
    if IsData(p) {
      ChunkReports(p.value.value.value, 0, Doubles.Rest(actions), cap, have, cx);
    }
  }

  lemma ReadOutcome(state: PendingState, actions: seq<Doubles.Action>, cap: nat, cx: Waker)
    requires StateOk(state)
    ensures var r := Read(state, actions, cap, cx);
      Reports(r, []) && (r.poll.Ready? && r.poll.value.Ok? ==> r.poll.value.value <= cap)
  {
    if state.Some? && state.value.Ready? {
      ChunkReports(state.value.chunk, state.value.position, actions, cap, [], cx);
    } else if state.None? {
      PollReports(actions, cap, [], cx);
    }
  }

  /**
   * No byte is lost, duplicated or reordered: the bytes copied, then the
   * bytes still buffered, then the data still queued in the stream, are the
   * bytes `before` that were in hand, buffered and queued at the start.
   */
  predicate Conserves(r: ReadRun, before: Bytes)
  {
    r.out + Buffered(r.state) + Doubles.DataOf(r.rest) == before
  }

  lemma {:induction false} ChunkConserves(chunk: Bytes, pos: nat, actions: seq<Doubles.Action>, cap: nat, have: Bytes, cx: Waker)
    requires pos <= |chunk| && |have| <= cap
    ensures Conserves(FillChunk(chunk, pos, actions, cap, have, cx), have + chunk[pos..] + Doubles.DataOf(actions))
    decreases |actions|, 1
  {
    var c := CopyChunk(chunk, pos, cap, have);
    CopyChunkConserves(chunk, pos, cap, have);
    if |c.0| < cap {
      PollConserves(actions, cap, c.0, cx);
      assert Buffered(c.1) == [];
      assert c.0 + [] == c.0;
    }
  }

  lemma {:induction false} PollConserves(actions: seq<Doubles.Action>, cap: nat, have: Bytes, cx: Waker)
    requires |have| <= cap
    ensures Conserves(FillPoll(actions, cap, have, cx), have + Doubles.DataOf(actions))
    decreases |actions|, 0
  {
    var p := Doubles.StreamNext(actions);
    var rest := Doubles.Rest(actions);
    Doubles.StreamNextData(actions);
    if IsData(p) {
      var d := p.value.value.value;
      ChunkConserves(d, 0, rest, cap, have, cx);
      assert d[0..] == d;
      Assoc(have, d, Doubles.DataOf(rest));
    } else {
      assert Doubles.DataOf(actions) == Doubles.DataOf(rest);
    }
  }

  lemma ReadConserves(state: PendingState, actions: seq<Doubles.Action>, cap: nat, cx: Waker)
    requires StateOk(state)
    ensures Conserves(Read(state, actions, cap, cx), Buffered(state) + Doubles.DataOf(actions))
  {
    if state.Some? && state.value.Ready? {
      ChunkConserves(state.value.chunk, state.value.position, actions, cap, [], cx);
      assert [] + state.value.chunk[state.value.position..] == Buffered(state);
    } else if state.None? {
      PollConserves(actions, cap, [], cx);
      assert [] + Doubles.DataOf(actions) == Buffered(state) + Doubles.DataOf(actions);
    }
  }

  /**
   * The wake discipline: each poll was made once at least `have` bytes were
   * in hand and before the last byte returned was copied, with the caller's
   * context when nothing was copied and the no-op one otherwise; a `Pending`
   * answer comes from the last poll, made with nothing copied.
   */
  predicate Wakes(r: ReadRun, have: nat, cx: Waker)
  {
    && (forall i :: 0 <= i < |r.probes| ==>
          have <= r.probes[i].copied <= |r.out| &&
          r.probes[i].waker == (if r.probes[i].copied == 0 then cx else Noop))
    && (r.poll.Pending? ==> r.probes != [] && r.probes[|r.probes| - 1] == Probe(cx, 0))
  }

  lemma {:induction false} ChunkWakes(chunk: Bytes, pos: nat, actions: seq<Doubles.Action>, cap: nat, have: Bytes, cx: Waker)
    requires pos <= |chunk| && |have| <= cap
    ensures Wakes(FillChunk(chunk, pos, actions, cap, have, cx), |have|, cx)
    decreases |actions|, 1
  {
    var c := CopyChunk(chunk, pos, cap, have);
    if |c.0| < cap {
      PollWakes(actions, cap, c.0, cx);
    }
  }

  lemma {:induction false} PollWakes(actions: seq<Doubles.Action>, cap: nat, have: Bytes, cx: Waker)
    requires |have| <= cap
    ensures Wakes(FillPoll(actions, cap, have, cx), |have|, cx)
    decreases |actions|, 0
  {
    var p := Doubles.StreamNext(actions);
    if IsData(p) {
      var d := p.value.value.value;
      ChunkWakes(d, 0, Doubles.Rest(actions), cap, have, cx);
      ChunkReports(d, 0, Doubles.Rest(actions), cap, have, cx);
    }
  }

  lemma ReadWakes(state: PendingState, actions: seq<Doubles.Action>, cap: nat, cx: Waker)
    requires StateOk(state)
    ensures var r := Read(state, actions, cap, cx);
      Wakes(r, 0, cx) && (r.poll.Pending? ==> r.out == [])
  {
    ReadOutcome(state, actions, cap, cx);
    if state.Some? && state.value.Ready? {
      ChunkWakes(state.value.chunk, state.value.position, actions, cap, [], cx);
    } else if state.None? {
      PollWakes(actions, cap, [], cx);
    }
  }

  /**
   * Polls and the script: the read pops a prefix of the queue, one action per
   * poll, plus one poll of the empty queue when it meets the end of the
   * stream, and then the queue is empty. The last action popped is the one
   * whose error a deferred error holds.
   */
  predicate Pops(r: ReadRun, actions: seq<Doubles.Action>)
  {
    && |r.rest| <= |actions| && r.rest == actions[|actions| - |r.rest|..]
    && |r.probes| == |actions| - |r.rest| + (if r.state == Some(StreamEnded) then 1 else 0)
    && (r.state == Some(StreamEnded) ==> r.rest == [])
    && (r.state.Some? && r.state.value.Error? ==>
          |r.rest| < |actions| && actions[|actions| - |r.rest| - 1] == Doubles.Action.Error(r.state.value.error))
  }

  lemma {:induction false} ChunkPops(chunk: Bytes, pos: nat, actions: seq<Doubles.Action>, cap: nat, have: Bytes, cx: Waker)
    requires pos <= |chunk| && |have| <= cap
    ensures Pops(FillChunk(chunk, pos, actions, cap, have, cx), actions)
    decreases |actions|, 1
  {
    var c := CopyChunk(chunk, pos, cap, have);
    if |c.0| < cap {
      PollPops(actions, cap, c.0, cx);
    }
  }

  lemma {:induction false} PollPops(actions: seq<Doubles.Action>, cap: nat, have: Bytes, cx: Waker)
    requires |have| <= cap
    ensures Pops(FillPoll(actions, cap, have, cx), actions)
    decreases |actions|, 0
  {
    var p := Doubles.StreamNext(actions);
    var rest := Doubles.Rest(actions);
    if IsData(p) {
      var d := p.value.value.value;
      ChunkPops(d, 0, rest, cap, have, cx);
      var r' := FillChunk(d, 0, rest, cap, have, cx);
      assert rest == actions[1..];
      assert r'.rest == rest[|rest| - |r'.rest|..] == actions[|actions| - |r'.rest|..];
      if r'.state.Some? && r'.state.value.Error? {
        assert actions[|actions| - |r'.rest| - 1] == rest[|rest| - |r'.rest| - 1];
      }
    } else if actions != [] {
      assert rest == actions[1..] == actions[|actions| - |rest|..];
    }
  }

  lemma ReadPolls(state: PendingState, actions: seq<Doubles.Action>, cap: nat, cx: Waker)
    requires StateOk(state)
    ensures var r := Read(state, actions, cap, cx);
      && |r.rest| <= |actions| && r.rest == actions[|actions| - |r.rest|..]
      && |r.probes| == |actions| - |r.rest| + (if r.state == Some(StreamEnded) && state != Some(StreamEnded) then 1 else 0)
      && (r.state == Some(StreamEnded) && state != Some(StreamEnded) ==> r.rest == [])
      && (state == Some(StreamEnded) ==> r.rest == actions && r.probes == [])
  {
    if state.Some? && state.value.Ready? {
      ChunkPops(state.value.chunk, state.value.position, actions, cap, [], cx);
    } else if state.None? {
      PollPops(actions, cap, [], cx);
    }
  }

  /**
   * The adapter's invariant survives a read: the bytes handed out so far,
   * then the bytes buffered, then the data still queued, stay the scripted
   * bytes, and the end of the stream is latched only once the queue is
   * empty.
   */
  lemma ReadKeeps(handed: Bytes, state: PendingState, actions: seq<Doubles.Action>, cap: nat, cx: Waker, script: Bytes)
    requires StateOk(state) && handed + Buffered(state) + Doubles.DataOf(actions) == script
    requires state == Some(StreamEnded) ==> actions == []
    ensures var r := Read(state, actions, cap, cx);
      && handed + r.out + Buffered(r.state) + Doubles.DataOf(r.rest) == script
      && (r.state == Some(StreamEnded) ==> r.rest == [])
  {
    var r := Read(state, actions, cap, cx);
    ReadConserves(state, actions, cap, cx);
    ReadPolls(state, actions, cap, cx);
    Prepend(handed, r.out, Buffered(r.state), Doubles.DataOf(r.rest), Buffered(state), Doubles.DataOf(actions));
  }

  /**
   * Chunk arithmetic. From a stored chunk with `remaining` bytes left, a read
   * into `cap` bytes copies `min(remaining, cap)` bytes from the cursor on;
   * when the chunk does not run out the buffer is full and the read returns
   * at once, without polling, keeping the chunk with its cursor advanced by
   * `cap`; a chunk that runs out exactly fills the buffer and collapses.
   */
  lemma ChunkCopy(chunk: Bytes, pos: nat, actions: seq<Doubles.Action>, cap: nat, cx: Waker)
    requires pos < |chunk|
    ensures var remaining := |chunk| - pos;
      var r := Read(Some(ReadState.Ready(chunk, pos)), actions, cap, cx);
      && (cap <= remaining ==>
            r == ReadRun(Poll.Ready(Ok(cap)), chunk[pos..pos + cap],
                         if cap == remaining then None else Some(ReadState.Ready(chunk, pos + cap)), actions, []))
      && (remaining < cap ==> chunk[pos..] <= r.out && r.probes != [])
  {
    var r := Read(Some(ReadState.Ready(chunk, pos)), actions, cap, cx);
    var c := CopyChunk(chunk, pos, cap, []);
    CopyChunkConserves(chunk, pos, cap, []);
    if |chunk| - pos < cap {
      assert c.0 == chunk[pos..];
      assert r == FillPoll(actions, cap, c.0, cx);
      PollExtends(actions, cap, c.0, cx);
    }
  }

  /** Bytes already copied stay at the front of the buffer. */
  lemma {:induction false} ChunkExtends(chunk: Bytes, pos: nat, actions: seq<Doubles.Action>, cap: nat, have: Bytes, cx: Waker)
    requires pos <= |chunk| && |have| <= cap
    ensures have <= FillChunk(chunk, pos, actions, cap, have, cx).out
    decreases |actions|, 1
  {
    var c := CopyChunk(chunk, pos, cap, have);
    CopyChunkConserves(chunk, pos, cap, have);
    if |c.0| < cap {
      PollExtends(actions, cap, c.0, cx);
    }
  }

  lemma {:induction false} PollExtends(actions: seq<Doubles.Action>, cap: nat, have: Bytes, cx: Waker)
    requires |have| <= cap
    ensures have <= FillPoll(actions, cap, have, cx).out
    decreases |actions|, 0
  {
    var p := Doubles.StreamNext(actions);
    if IsData(p) {
      ChunkExtends(p.value.value.value, 0, Doubles.Rest(actions), cap, have, cx);
    }
  }

  /** A chunk left in the state means the buffer was filled completely. */
  lemma {:induction false} ChunkKeptOnlyWhenFull(chunk: Bytes, pos: nat, actions: seq<Doubles.Action>, cap: nat, have: Bytes, cx: Waker)
    requires pos <= |chunk| && |have| <= cap
    ensures var r := FillChunk(chunk, pos, actions, cap, have, cx);
      r.state.Some? && r.state.value.Ready? ==> |r.out| == cap && r.poll == Poll.Ready(Ok(cap))
    decreases |actions|, 1
  {
    var c := CopyChunk(chunk, pos, cap, have);
    if |c.0| < cap {
      PollKeptOnlyWhenFull(actions, cap, c.0, cx);
    }
  }

  lemma {:induction false} PollKeptOnlyWhenFull(actions: seq<Doubles.Action>, cap: nat, have: Bytes, cx: Waker)
    requires |have| <= cap
    ensures var r := FillPoll(actions, cap, have, cx);
      r.state.Some? && r.state.value.Ready? ==> |r.out| == cap && r.poll == Poll.Ready(Ok(cap))
    decreases |actions|, 0
  {
    var p := Doubles.StreamNext(actions);
    if IsData(p) {
      ChunkKeptOnlyWhenFull(p.value.value.value, 0, Doubles.Rest(actions), cap, have, cx);
    }
  }

  // ---------------------------------------------------------------------
  // Successive reads

  datatype Series = Series(runs: seq<ReadRun>, state: PendingState, rest: seq<Doubles.Action>)

  /** Reads into buffers of the sizes `caps`, one after another, each with context `cx`. */
  function ReadSeries(state: PendingState, actions: seq<Doubles.Action>, caps: seq<nat>, cx: Waker): (s: Series)
    requires StateOk(state)
    ensures |s.runs| == |caps| && StateOk(s.state)
    decreases |caps|
  {
    if caps == [] then Series([], state, actions)
    else
      var r := Read(state, actions, caps[0], cx);
      var s := ReadSeries(r.state, r.rest, caps[1..], cx);
      Series([r] + s.runs, s.state, s.rest)
  }

  function Outs(runs: seq<ReadRun>): Bytes
  {
    if runs == [] then [] else runs[0].out + Outs(runs[1..])
  }

  function PollCount(runs: seq<ReadRun>): nat
  {
    if runs == [] then 0 else |runs[0].probes| + PollCount(runs[1..])
  }

  /**
   * Byte order across calls: whatever the buffer sizes, the bytes returned by
   * successive reads, followed by what is still buffered and still queued,
   * are the bytes buffered and queued at the start. In particular the bytes
   * returned are a prefix of the scripted data.
   */
  lemma {:induction false} SeriesConserves(state: PendingState, actions: seq<Doubles.Action>, caps: seq<nat>, cx: Waker)
    requires StateOk(state)
    ensures var s := ReadSeries(state, actions, caps, cx);
      && Outs(s.runs) + Buffered(s.state) + Doubles.DataOf(s.rest) == Buffered(state) + Doubles.DataOf(actions)
      && Outs(s.runs) <= Buffered(state) + Doubles.DataOf(actions)
    decreases |caps|
  {
    var s := ReadSeries(state, actions, caps, cx);
    if caps != [] {
      var r := Read(state, actions, caps[0], cx);
      var t := ReadSeries(r.state, r.rest, caps[1..], cx);
      assert s == Series([r] + t.runs, t.state, t.rest);
      ReadConserves(state, actions, caps[0], cx);
      SeriesConserves(r.state, r.rest, caps[1..], cx);
      SeriesStep(r, t, Buffered(state) + Doubles.DataOf(actions));
    }
    FrontIsPrefix(Outs(s.runs), Buffered(s.state), Doubles.DataOf(s.rest));
  }

  lemma FrontIsPrefix(a: Bytes, b: Bytes, c: Bytes)
    ensures a <= a + b + c
  {
    assert (a + b + c)[..|a|] == a;
  }

  /** A read that conserves its bytes, followed by a series that conserves its own, conserves them all. */
  lemma SeriesStep(r: ReadRun, t: Series, before: Bytes)
    requires Outs(t.runs) + Buffered(t.state) + Doubles.DataOf(t.rest) == Buffered(r.state) + Doubles.DataOf(r.rest)
    requires r.out + Buffered(r.state) + Doubles.DataOf(r.rest) == before
    ensures Outs([r] + t.runs) + Buffered(t.state) + Doubles.DataOf(t.rest) == before
  {
    assert ([r] + t.runs)[1..] == t.runs;
    Prepend(r.out, Outs(t.runs), Buffered(t.state), Doubles.DataOf(t.rest), Buffered(r.state), Doubles.DataOf(r.rest));
  }

  /**
   * Conservation across one step: bytes `x` copied by this step, then what
   * the rest of the call copies, keeps and leaves queued, make up the total.
   */
  lemma Chain(o': Bytes, b': Bytes, d': Bytes, x: Bytes, o: Bytes, b: Bytes, d: Bytes, bb: Bytes, dd: Bytes, total: Bytes)
    requires o' == x + o && b' == b && d' == d
    requires o + b + d == bb + dd && x + bb + dd == total
    ensures o' + b' + d' == total
  {
    Prepend(x, o, b, d, bb, dd);
  }

  /** Bytes put in front of both sides of an equation of concatenations. */
  lemma Prepend(x: Bytes, o: Bytes, b: Bytes, d: Bytes, b': Bytes, d': Bytes)
    requires o + b + d == b' + d'
    ensures x + o + b + d == x + b' + d'
  {
    Assoc3(x, o, b, d);
    Assoc(x, b', d');
  }

  lemma Assoc<T>(a: seq<T>, b: seq<T>, c: seq<T>)
    ensures a + (b + c) == a + b + c
  {
  }

  lemma Assoc3(a: Bytes, b: Bytes, c: Bytes, d: Bytes)
    ensures a + b + c + d == a + (b + c + d)
  {
    Assoc(a, b, c);
    Assoc(a, b + c, d);
    Assoc(b, c, d);
    Assoc(a + b, c, d);
  }

  /** Once the stream has ended every later read answers `Ok(0)` without polling, and the state stays `StreamEnded`. */
  lemma {:induction false} EndedLatch(actions: seq<Doubles.Action>, caps: seq<nat>, cx: Waker)
    ensures var s := ReadSeries(Some(StreamEnded), actions, caps, cx);
      && s.state == Some(StreamEnded) && s.rest == actions && PollCount(s.runs) == 0
      && forall i :: 0 <= i < |s.runs| ==> s.runs[i] == ReadRun(Poll.Ready(Ok(0)), [], Some(StreamEnded), actions, [])
    decreases |caps|
  {
    if caps != [] {
      EndedLatch(actions, caps[1..], cx);
      var s := ReadSeries(Some(StreamEnded), actions, caps, cx);
      assert s.runs[1..] == ReadSeries(Some(StreamEnded), actions, caps[1..], cx).runs;
    }
  }

  /** A deferred error is answered by the next read, with no bytes and no poll; the read after that starts afresh. */
  lemma ErrorOneShot(e: ErrorKind, actions: seq<Doubles.Action>, cap: nat, caps: seq<nat>, cx: Waker)
    ensures var s := ReadSeries(Some(ReadState.Error(e)), actions, [cap] + caps, cx);
      && s.runs[0] == ReadRun(Poll.Ready(Err(e)), [], None, actions, [])
      && s.runs[1..] == ReadSeries(None, actions, caps, cx).runs
  {
    assert ([cap] + caps)[1..] == caps;
  }

  /** Reading until the end is met returns every scripted byte, in order. */
  lemma EndDeliversAll(actions: seq<Doubles.Action>, caps: seq<nat>, cx: Waker)
    requires ReadSeries(None, actions, caps, cx).state == Some(StreamEnded)
    ensures Outs(ReadSeries(None, actions, caps, cx).runs) == Doubles.DataOf(actions)
  {
    SeriesConserves(None, actions, caps, cx);
    EndedMeansDrained(None, actions, caps, cx);
  }

  lemma {:induction false} EndedMeansDrained(state: PendingState, actions: seq<Doubles.Action>, caps: seq<nat>, cx: Waker)
    requires StateOk(state)
    requires state == Some(StreamEnded) ==> actions == []
    ensures var s := ReadSeries(state, actions, caps, cx);
      s.state == Some(StreamEnded) ==> s.rest == []
    decreases |caps|
  {
    if caps != [] {
      var r := Read(state, actions, caps[0], cx);
      var t := ReadSeries(r.state, r.rest, caps[1..], cx);
      assert ReadSeries(state, actions, caps, cx) == Series([r] + t.runs, t.state, t.rest);
      ReadPolls(state, actions, caps[0], cx);
      EndedMeansDrained(r.state, r.rest, caps[1..], cx);
    }
  }

  /** The end-of-stream latch as written is lost after one read: the read after it polls the stream again. */
  lemma AsWrittenRepolls(actions: seq<Doubles.Action>, cap1: nat, cap2: nat, cx: Waker)
    ensures var a := ReadAsWritten(Some(StreamEnded), actions, cap1, cx);
      && a == ReadRun(Poll.Ready(Ok(0)), [], None, actions, [])
      && |ReadAsWritten(a.state, a.rest, cap2, cx).probes| >= 1
      && |Read(Some(StreamEnded), actions, cap2, cx).probes| == 0
  {
    var b := Read(None, actions, cap2, cx);
    assert b == FillPoll(actions, cap2, [], cx);
  }

  // ---------------------------------------------------------------------
  // Vectored read

  /** The outcome of a vectored read: as for one read, with the bytes copied into each buffer visited. */
  datatype VecRun = VecRun(poll: Poll<IoResult<nat>>, outs: seq<Bytes>, state: PendingState, rest: seq<Doubles.Action>, probes: seq<Probe>)

  /** The probes of a read that started after `have` bytes were already copied by the vectored call. */
  function Shift(probes: seq<Probe>, have: nat): seq<Probe>
  {
    if probes == [] then [] else [Probe(probes[0].waker, probes[0].copied + have)] + Shift(probes[1..], have)
  }

  lemma {:induction false} ShiftFacts(probes: seq<Probe>, have: nat)
    ensures |Shift(probes, have)| == |probes| && Wakers(Shift(probes, have)) == Wakers(probes)
    ensures forall i :: 0 <= i < |probes| ==> Shift(probes, have)[i] == Probe(probes[i].waker, probes[i].copied + have)
  {
    if probes != [] {
      ShiftFacts(probes[1..], have);
    }
  }

  /**
   * What the vectored call answers when the read into a buffer did not fill
   * it (src/lib.rs:298-343): on the first buffer, the read's own answer; once
   * `have` bytes are read, `Ok` with those bytes plus any the read copied,
   * even when the read answered `Pending` or an error.
   */
  function AnswerAfter(poll: Poll<IoResult<nat>>, have: nat): (a: Poll<IoResult<nat>>)
    ensures have > 0 ==> a.Ready? && a.value.Ok? && a.value.value >= have
  {
    if have == 0 then poll
    else match poll
      case Pending => Poll.Ready(Ok(have))
      case Ready(Ok(n)) => Poll.Ready(Ok(have + n))
      case Ready(Err(_)) => Poll.Ready(Ok(have))
  }

  /** Whether a read answered `Ok` with at least `cap` bytes, i.e. filled its buffer. */
  predicate Filled(poll: Poll<IoResult<nat>>, cap: nat)
  {
    poll.Ready? && poll.value.Ok? && poll.value.value >= cap
  }

  /**
   * The buffer loop of `poll_read_vectored_impl` (src/lib.rs:288-353) over
   * the buffer sizes `caps`, `have` bytes having been read into earlier
   * buffers. Empty buffers are skipped; each other buffer gets one
   * `poll_read_impl`, with the caller's context while nothing is read and the
   * no-op context after. When no byte was read at all, the call ends with a
   * read into an empty buffer.
   */
  function VecLoop(state: PendingState, actions: seq<Doubles.Action>, caps: seq<nat>, have: nat, cx: Waker): (v: VecRun)
    requires StateOk(state)
    ensures StateOk(v.state) && |v.outs| <= |caps|
    decreases |caps|, 1
  {
    if caps == [] then
      if have == 0 then
        var r := Read(state, actions, 0, cx);
        VecRun(r.poll, [], r.state, r.rest, r.probes)
      else VecRun(Poll.Ready(Ok(have)), [], state, actions, [])
    else if caps[0] == 0 then
      var v := VecLoop(state, actions, caps[1..], have, cx);
      v.(outs := [[]] + v.outs)
    else VecAfter(Read(state, actions, caps[0], if have == 0 then cx else Noop), caps, have, cx)
  }

  /**
   * What the vectored call does with the outcome `r` of the read into its
   * next buffer, of size `caps[0]`: a filled buffer passes on to the next
   * one; any other outcome ends the call, an error met after bytes were read
   * being stored for the next call.
   */
  function VecAfter(r: ReadRun, caps: seq<nat>, have: nat, cx: Waker): (v: VecRun)
    requires StateOk(r.state) && caps != []
    ensures StateOk(v.state) && 1 <= |v.outs| <= |caps| && v.outs[0] == r.out
    decreases |caps|, 0
  {
    var probes := Shift(r.probes, have);
    if Filled(r.poll, caps[0]) then
      var v := VecLoop(r.state, r.rest, caps[1..], have + r.poll.value.value, cx);
      VecRun(v.poll, [r.out] + v.outs, v.state, v.rest, probes + v.probes)
    else
      var deferred := have > 0 && r.poll.Ready? && r.poll.value.Err?;
      VecRun(AnswerAfter(r.poll, have), [r.out], if deferred then Some(ReadState.Error(r.poll.value.error)) else r.state, r.rest, probes)
  }

  /**
   * The vectored loop part way: with the bytes `outs` already copied into the
   * first buffers and the polls `probes` made, the loop over the remaining
   * buffers `caps` ends the call as `v` says.
   */
  predicate VecContinues(v: VecRun, state: PendingState, actions: seq<Doubles.Action>, caps: seq<nat>, have: nat, cx: Waker,
                         outs: seq<Bytes>, probes: seq<Probe>)
  {
    && StateOk(state)
    && var w := VecLoop(state, actions, caps, have, cx);
    v == VecRun(w.poll, outs + w.outs, w.state, w.rest, probes + w.probes)
  }

  /** A vectored read starts its buffer loop with nothing read, copied or polled. */
  lemma VecStarts(state: PendingState, actions: seq<Doubles.Action>, caps: seq<nat>, cx: Waker)
    requires StateOk(state)
    ensures VecContinues(ReadVectored(state, actions, caps, cx), state, actions, caps, 0, cx, [], [])
  {
    var w := VecLoop(state, actions, caps, 0, cx);
    assert [] + w.outs == w.outs && [] + w.probes == w.probes;
  }

  /** An empty buffer is passed over untouched. */
  lemma VecSkipStep(v: VecRun, state: PendingState, actions: seq<Doubles.Action>, caps: seq<nat>, have: nat, cx: Waker,
                    outs: seq<Bytes>, probes: seq<Probe>)
    requires caps != [] && caps[0] == 0 && VecContinues(v, state, actions, caps, have, cx, outs, probes)
    ensures VecContinues(v, state, actions, caps[1..], have, cx, outs + [[]], probes)
  {
    var w := VecLoop(state, actions, caps[1..], have, cx);
    assert outs + ([[]] + w.outs) == outs + [[]] + w.outs;
  }

  /**
   * A non-empty buffer gets one read, with the caller's context only while
   * nothing is copied: a filled buffer passes on to the next, anything else
   * ends the call with the answer `AnswerAfter` gives.
   */
  lemma VecReadStep(v: VecRun, state: PendingState, actions: seq<Doubles.Action>, caps: seq<nat>, have: nat, cx: Waker,
                    outs: seq<Bytes>, probes: seq<Probe>)
    requires caps != [] && caps[0] != 0 && VecContinues(v, state, actions, caps, have, cx, outs, probes)
    ensures var r := Read(state, actions, caps[0], if have == 0 then cx else Noop);
      var probes' := probes + Shift(r.probes, have);
      && (Filled(r.poll, caps[0]) ==>
            VecContinues(v, r.state, r.rest, caps[1..], have + r.poll.value.value, cx, outs + [r.out], probes'))
      && (!Filled(r.poll, caps[0]) ==>
            v == VecRun(AnswerAfter(r.poll, have), outs + [r.out],
                        if have > 0 && r.poll.Ready? && r.poll.value.Err? then Some(ReadState.Error(r.poll.value.error)) else r.state,
                        r.rest, probes'))
  {
    var r := Read(state, actions, caps[0], if have == 0 then cx else Noop);
    assert VecLoop(state, actions, caps, have, cx) == VecAfter(r, caps, have, cx);
    VecAfterStep(v, r, caps, have, cx, outs, probes);
  }

  lemma VecAfterStep(v: VecRun, r: ReadRun, caps: seq<nat>, have: nat, cx: Waker, outs: seq<Bytes>, probes: seq<Probe>)
    requires StateOk(r.state) && caps != []
    requires var w := VecAfter(r, caps, have, cx);
      v == VecRun(w.poll, outs + w.outs, w.state, w.rest, probes + w.probes)
    ensures var probes' := probes + Shift(r.probes, have);
      && (Filled(r.poll, caps[0]) ==>
            VecContinues(v, r.state, r.rest, caps[1..], have + r.poll.value.value, cx, outs + [r.out], probes'))
      && (!Filled(r.poll, caps[0]) ==>
            v == VecRun(AnswerAfter(r.poll, have), outs + [r.out],
                        if have > 0 && r.poll.Ready? && r.poll.value.Err? then Some(ReadState.Error(r.poll.value.error)) else r.state,
                        r.rest, probes'))
  {
    if Filled(r.poll, caps[0]) {
      var w := VecLoop(r.state, r.rest, caps[1..], have + r.poll.value.value, cx);
      assert outs + ([r.out] + w.outs) == outs + [r.out] + w.outs;
      assert probes + (Shift(r.probes, have) + w.probes) == probes + Shift(r.probes, have) + w.probes;
    }
  }

  /** Past the last buffer: with nothing copied the call ends with one read into an empty buffer. */
  lemma VecEndStep(v: VecRun, state: PendingState, actions: seq<Doubles.Action>, have: nat, cx: Waker,
                   outs: seq<Bytes>, probes: seq<Probe>)
    requires VecContinues(v, state, actions, [], have, cx, outs, probes)
    ensures have == 0 ==> var r := Read(state, actions, 0, cx);
      v == VecRun(r.poll, outs, r.state, r.rest, probes + r.probes)
    ensures have != 0 ==> v == VecRun(Poll.Ready(Ok(have)), outs, state, actions, probes)
  {
    assert outs + [] == outs;
    assert probes + [] == probes;
  }

  lemma ConcatSnoc(outs: seq<Bytes>, out: Bytes)
    ensures Concat(outs + [out]) == Concat(outs) + out
  {
    ConcatAppend(outs, [out]);
    assert Concat([out]) == out + Concat([]);
  }

  /** `poll_read_vectored_impl` on buffers of sizes `caps`. */
  function ReadVectored(state: PendingState, actions: seq<Doubles.Action>, caps: seq<nat>, cx: Waker): VecRun
    requires StateOk(state)
  {
    VecLoop(state, actions, caps, 0, cx)
  }

  function Concat(outs: seq<Bytes>): Bytes
  {
    if outs == [] then [] else outs[0] + Concat(outs[1..])
  }

  lemma {:induction false} ConcatAppend(a: seq<Bytes>, b: seq<Bytes>)
    ensures Concat(a + b) == Concat(a) + Concat(b)
  {
    if a != [] {
      assert (a + b)[0] == a[0];
      assert (a + b)[1..] == a[1..] + b;
      assert Concat(a + b) == a[0] + Concat(a[1..] + b);
      ConcatAppend(a[1..], b);
    } else {
      assert a + b == b;
    }
  }

  /**
   * Buffer by buffer: each buffer visited receives at most its size, and
   * every buffer before the last one visited is filled completely (empty
   * ones receive nothing).
   */
  predicate Sized(outs: seq<Bytes>, caps: seq<nat>)
  {
    && |outs| <= |caps|
    && (forall j :: 0 <= j < |outs| ==> |outs[j]| <= caps[j])
    && (forall j :: 0 <= j < |outs| - 1 ==> |outs[j]| == caps[j])
  }

  /** Putting a buffer's bytes in front of the later ones keeps the sizes right when it was filled. */
  lemma SizedCons(out: Bytes, outs: seq<Bytes>, caps: seq<nat>)
    requires caps != [] && Sized(outs, caps[1..])
    requires |out| <= caps[0] && (outs != [] ==> |out| == caps[0])
    ensures Sized([out] + outs, caps)
  {
    var all := [out] + outs;
    forall j | 0 < j < |all|
      ensures all[j] == outs[j - 1] && caps[j] == caps[1..][j - 1]
    {
    }
  }

  lemma {:induction false} VecSizes(state: PendingState, actions: seq<Doubles.Action>, caps: seq<nat>, have: nat, cx: Waker)
    requires StateOk(state)
    ensures Sized(VecLoop(state, actions, caps, have, cx).outs, caps)
    decreases |caps|, 1
  {
    if caps != [] && caps[0] == 0 {
      VecSizes(state, actions, caps[1..], have, cx);
      SizedCons([], VecLoop(state, actions, caps[1..], have, cx).outs, caps);
    } else if caps != [] {
      var r := Read(state, actions, caps[0], if have == 0 then cx else Noop);
      ReadOutcome(state, actions, caps[0], if have == 0 then cx else Noop);
      VecSizesAfter(r, caps, have, cx);
    }
  }

  lemma {:induction false} VecSizesAfter(r: ReadRun, caps: seq<nat>, have: nat, cx: Waker)
    requires StateOk(r.state) && caps != [] && |r.out| <= caps[0]
    requires r.poll.Ready? && r.poll.value.Ok? ==> r.poll.value.value == |r.out|
    ensures Sized(VecAfter(r, caps, have, cx).outs, caps)
    decreases |caps|, 0
  {
    if Filled(r.poll, caps[0]) {
      var v' := VecLoop(r.state, r.rest, caps[1..], have + r.poll.value.value, cx);
      VecSizes(r.state, r.rest, caps[1..], have + r.poll.value.value, cx);
      SizedCons(r.out, v'.outs, caps);
    } else {
      SizedCons(r.out, [], caps);
    }
  }

  /**
   * `Ok(n)` reports `have` plus all bytes copied into the buffers; `Pending`
   * and errors are only answered while nothing was read at all.
   */
  predicate Counted(v: VecRun, have: nat)
  {
    && (v.poll.Ready? && v.poll.value.Ok? ==> v.poll.value.value == have + |Concat(v.outs)|)
    && (v.poll.Pending? || (v.poll.Ready? && v.poll.value.Err?) ==> have == 0 && Concat(v.outs) == [])
  }

  lemma {:induction false} VecShape(state: PendingState, actions: seq<Doubles.Action>, caps: seq<nat>, have: nat, cx: Waker)
    requires StateOk(state)
    ensures Counted(VecLoop(state, actions, caps, have, cx), have)
    decreases |caps|, 1
  {
    if caps == [] {
      if have == 0 { ReadOutcome(state, actions, 0, cx); }
    } else if caps[0] == 0 {
      VecShape(state, actions, caps[1..], have, cx);
      var v' := VecLoop(state, actions, caps[1..], have, cx);
      assert Concat([[]] + v'.outs) == Concat(v'.outs) by {
        assert ([[]] + v'.outs)[1..] == v'.outs;
      }
    } else {
      var r := Read(state, actions, caps[0], if have == 0 then cx else Noop);
      ReadOutcome(state, actions, caps[0], if have == 0 then cx else Noop);
      VecShapeAfter(r, caps, have, cx);
    }
  }

  lemma {:induction false} VecShapeAfter(r: ReadRun, caps: seq<nat>, have: nat, cx: Waker)
    requires StateOk(r.state) && caps != [] && caps[0] != 0 && Reports(r, [])
    ensures Counted(VecAfter(r, caps, have, cx), have)
    decreases |caps|, 0
  {
    var v := VecAfter(r, caps, have, cx);
    if Filled(r.poll, caps[0]) {
      var n := r.poll.value.value;
      VecShape(r.state, r.rest, caps[1..], have + n, cx);
      var v' := VecLoop(r.state, r.rest, caps[1..], have + n, cx);
      assert Concat(v.outs) == r.out + Concat(v'.outs) by {
        assert v.outs == [r.out] + v'.outs;
        assert v.outs[1..] == v'.outs;
      }
    } else {
      assert Concat(v.outs) == r.out + Concat([]);
    }
  }

  /** The vectored read keeps byte order: copied bytes, then buffered, then queued data are those before. */
  predicate VecConserved(v: VecRun, before: Bytes)
  {
    Concat(v.outs) + Buffered(v.state) + Doubles.DataOf(v.rest) == before
  }

  lemma {:induction false} VecConserves(state: PendingState, actions: seq<Doubles.Action>, caps: seq<nat>, have: nat, cx: Waker)
    requires StateOk(state)
    ensures VecConserved(VecLoop(state, actions, caps, have, cx), Buffered(state) + Doubles.DataOf(actions))
    decreases |caps|, 1
  {
    var v := VecLoop(state, actions, caps, have, cx);
    if caps == [] {
      if have == 0 {
        ReadConserves(state, actions, 0, cx);
      }
      assert Concat(v.outs) == [];
    } else if caps[0] == 0 {
      VecConserves(state, actions, caps[1..], have, cx);
      var v' := VecLoop(state, actions, caps[1..], have, cx);
      assert Concat(v.outs) == Concat(v'.outs) by {
        assert v.outs[1..] == v'.outs;
      }
    } else {
      var w := if have == 0 then cx else Noop;
      var r := Read(state, actions, caps[0], w);
      ReadConserves(state, actions, caps[0], w);
      ReadOutcome(state, actions, caps[0], w);
      VecConservesAfter(r, caps, have, cx);
    }
  }

  lemma {:induction false} VecConservesAfter(r: ReadRun, caps: seq<nat>, have: nat, cx: Waker)
    requires StateOk(r.state) && caps != [] && Reports(r, [])
    ensures VecConserved(VecAfter(r, caps, have, cx), r.out + Buffered(r.state) + Doubles.DataOf(r.rest))
    decreases |caps|, 0
  {
    var v := VecAfter(r, caps, have, cx);
    if Filled(r.poll, caps[0]) {
      var n := r.poll.value.value;
      VecConserves(r.state, r.rest, caps[1..], have + n, cx);
      var v' := VecLoop(r.state, r.rest, caps[1..], have + n, cx);
      assert Concat(v.outs) == r.out + Concat(v'.outs) by {
        assert v.outs[1..] == v'.outs;
      }
      Chain(Concat(v.outs), Buffered(v.state), Doubles.DataOf(v.rest),
            r.out, Concat(v'.outs), Buffered(v'.state), Doubles.DataOf(v'.rest),
            Buffered(r.state), Doubles.DataOf(r.rest), r.out + Buffered(r.state) + Doubles.DataOf(r.rest));
    } else {
      assert Concat(v.outs) == r.out + Concat([]);
      assert Buffered(v.state) == Buffered(r.state);
    }
  }

  /**
   * An error met while filling a later buffer is not lost: it is stored as
   * the deferred error, and the call answers `Ok` with the bytes already
   * read; one met on the first buffer is answered at once.
   */
  predicate ErrorsRouted(v: VecRun)
  {
    && (v.poll.Ready? && v.poll.value.Err? ==> v.state == None)
    && (v.state.Some? && v.state.value.Error? ==> v.poll.Ready? && v.poll.value.Ok? && v.poll.value.value > 0)
  }

  lemma VecErrorRouting(state: PendingState, actions: seq<Doubles.Action>, caps: seq<nat>, have: nat, cx: Waker)
    requires StateOk(state)
    ensures var v := VecLoop(state, actions, caps, have, cx);
      && (v.poll.Ready? && v.poll.value.Err? ==> have == 0 && v.state == None)
      && (v.state.Some? && v.state.value.Error? ==> v.poll == Poll.Ready(Ok(have + |Concat(v.outs)|)) && have + |Concat(v.outs)| > 0)
  {
    VecShape(state, actions, caps, have, cx);
    VecErrorsRouted(state, actions, caps, have, cx);
  }

  lemma {:induction false} VecErrorsRouted(state: PendingState, actions: seq<Doubles.Action>, caps: seq<nat>, have: nat, cx: Waker)
    requires StateOk(state)
    ensures ErrorsRouted(VecLoop(state, actions, caps, have, cx))
    decreases |caps|, 1
  {
    if caps == [] {
      if have == 0 { ReadOutcome(state, actions, 0, cx); }
    } else if caps[0] == 0 {
      VecErrorsRouted(state, actions, caps[1..], have, cx);
    } else {
      ReadOutcome(state, actions, caps[0], if have == 0 then cx else Noop);
      VecErrorsRoutedAfter(Read(state, actions, caps[0], if have == 0 then cx else Noop), caps, have, cx);
    }
  }

  lemma {:induction false} VecErrorsRoutedAfter(r: ReadRun, caps: seq<nat>, have: nat, cx: Waker)
    requires StateOk(r.state) && caps != [] && Reports(r, [])
    ensures ErrorsRouted(VecAfter(r, caps, have, cx))
    decreases |caps|, 0
  {
    if Filled(r.poll, caps[0]) {
      VecErrorsRouted(r.state, r.rest, caps[1..], have + r.poll.value.value, cx);
    }
  }

  /**
   * The wake discipline over a list of polls: each was made once at least
   * `have` bytes were copied, with the caller's context when nothing at all
   * was copied and with the no-op context otherwise.
   */
  predicate WakeDiscipline(probes: seq<Probe>, have: nat, cx: Waker)
  {
    forall i :: 0 <= i < |probes| ==>
      probes[i].copied >= have && probes[i].waker == (if probes[i].copied == 0 then cx else Noop)
  }

  lemma WakeDisciplineAppend(c: seq<Probe>, a: seq<Probe>, b: seq<Probe>, have: nat, have': nat, cx: Waker)
    requires c == a + b
    requires WakeDiscipline(a, have, cx) && WakeDiscipline(b, have', cx) && have <= have'
    ensures WakeDiscipline(c, have, cx)
  {
    forall i | 0 <= i < |c|
      ensures c[i].copied >= have && c[i].waker == (if c[i].copied == 0 then cx else Noop)
    {
      if i >= |a| {
        assert c[i] == b[i - |a|];
      } else {
        assert c[i] == a[i];
      }
    }
  }

  /**
   * The wake discipline of the vectored read: every poll made before any byte
   * was copied into any buffer uses the caller's context, every later one the
   * no-op context; `Pending` is answered only from a poll made with nothing
   * copied.
   */
  predicate VecWoken(v: VecRun, have: nat, cx: Waker)
  {
    && WakeDiscipline(v.probes, have, cx)
    && (v.poll.Pending? ==> v.probes != [] && v.probes[|v.probes| - 1] == Probe(cx, 0))
  }

  lemma {:induction false} VecWakes(state: PendingState, actions: seq<Doubles.Action>, caps: seq<nat>, have: nat, cx: Waker)
    requires StateOk(state)
    ensures VecWoken(VecLoop(state, actions, caps, have, cx), have, cx)
    decreases |caps|, 1
  {
    if caps == [] {
      if have == 0 { ReadWakes(state, actions, 0, cx); }
    } else if caps[0] == 0 {
      VecWakes(state, actions, caps[1..], have, cx);
    } else {
      var w := if have == 0 then cx else Noop;
      ReadWakes(state, actions, caps[0], w);
      ReadOutcome(state, actions, caps[0], w);
      VecWakesAfter(Read(state, actions, caps[0], w), caps, have, cx);
    }
  }

  lemma {:induction false} VecWakesAfter(r: ReadRun, caps: seq<nat>, have: nat, cx: Waker)
    requires StateOk(r.state) && caps != [] && caps[0] != 0 && Reports(r, [])
    requires Wakes(r, 0, if have == 0 then cx else Noop)
    ensures VecWoken(VecAfter(r, caps, have, cx), have, cx)
    decreases |caps|, 0
  {
    var v := VecAfter(r, caps, have, cx);
    var probes := Shift(r.probes, have);
    ShiftFacts(r.probes, have);
    assert WakeDiscipline(probes, have, cx);
    if Filled(r.poll, caps[0]) {
      var n := r.poll.value.value;
      var v' := VecLoop(r.state, r.rest, caps[1..], have + n, cx);
      VecWakes(r.state, r.rest, caps[1..], have + n, cx);
      VecShape(r.state, r.rest, caps[1..], have + n, cx);
      WakeDisciplineAppend(v.probes, probes, v'.probes, have, have + n, cx);
    } else if v.poll.Pending? {
      assert have == 0 && r.poll.Pending?;
      var last := |r.probes| - 1;
      assert probes[last] == Probe(r.probes[last].waker, r.probes[last].copied + have);
    }
  }

  /** If every buffer is empty the vectored read is one `poll_read_impl` on an empty buffer. */
  lemma {:induction false} VecAllEmpty(state: PendingState, actions: seq<Doubles.Action>, caps: seq<nat>, cx: Waker)
    requires StateOk(state)
    requires forall j :: 0 <= j < |caps| ==> caps[j] == 0
    ensures var v := ReadVectored(state, actions, caps, cx);
      var r := Read(state, actions, 0, cx);
      v.poll == r.poll && v.state == r.state && v.rest == r.rest && v.probes == r.probes
      && |v.outs| == |caps| && Concat(v.outs) == []
    decreases |caps|
  {
    if caps != [] {
      VecAllEmpty(state, actions, caps[1..], cx);
    }
  }
}
