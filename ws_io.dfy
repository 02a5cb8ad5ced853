/**
 * `WsIo` (src/lib.rs): a byte-stream reader and writer over a message
 * channel. The adapter keeps one field that changes, the pending read
 * `state`; its inner channel is the scripted pair of test doubles, the
 * message source for reads and the message sink for writes. Each method is
 * proved to do exactly what the pure definitions of `ReadPath` and
 * `WritePath` say, so every property proved there holds of it.
 */
module WsIoAdapter {
  import opened Io
  import Doubles = TestDoubles
  import ReadPath
  import WritePath

  /** The sizes of the buffers of a vectored read. */
  function Lengths(bufs: seq<array<byte>>): (caps: seq<nat>)
    ensures |caps| == |bufs| && forall i :: 0 <= i < |bufs| ==> caps[i] == bufs[i].Length
  {
    seq(|bufs|, i requires 0 <= i < |bufs| => bufs[i].Length)
  }

  /**
   * The copy of `Cursor::read` (src/lib.rs:168): `src` lands in `buf` from
   * index `at` on, and every other element of `buf` keeps its value.
   */
  method CopyInto(buf: array<byte>, at: nat, src: Bytes)
    requires at + |src| <= buf.Length
    modifies buf
    ensures forall j :: 0 <= j < buf.Length ==> buf[j] == if at <= j < at + |src| then src[j - at] else old(buf[j])
  {
    for i := 0 to |src|
      invariant forall j :: 0 <= j < buf.Length ==> buf[j] == if at <= j < at + i then src[j - at] else old(buf[j])
    {
      buf[at + i] := src[i];
    }
  }

  /** A sequence whose elements from `n` on are those of `b` is its own first `n` elements followed by the rest of `b`. */
  lemma Spliced(a: Bytes, b: Bytes, n: nat)
    requires |a| == |b| && n <= |a|
    requires forall j :: n <= j < |a| ==> a[j] == b[j]
    ensures a == a[..n] + b[n..]
  {
    assert forall j :: 0 <= j < |a| ==> a[j] == (a[..n] + b[n..])[j];
  }

  /**
   * The chunk arm of the read loop (src/lib.rs:163-176): the stored chunk is
   * copied from its cursor into `buf` after the `have` bytes already there,
   * as far as `buf` allows. The bytes now in `buf`'s front and the state left
   * are those of `ReadPath.CopyChunk`; the rest of `buf` is untouched.
   */
  method ReadChunk(buf: array<byte>, have: nat, chunk: Bytes, position: nat) returns (n: nat, left: ReadPath.PendingState)
    requires position <= |chunk| && have <= buf.Length
    modifies buf
    ensures var c := ReadPath.CopyChunk(chunk, position, buf.Length, old(buf[..have]));
      n == |c.0| && buf[..n] == c.0 && left == c.1
    ensures forall j :: n <= j < buf.Length ==> buf[j] == old(buf[j])
  {
    var k := Min(|chunk| - position, buf.Length - have);
    CopyInto(buf, have, chunk[position..position + k]);
    assert buf[..have + k] == old(buf[..have]) + chunk[position..position + k];
    n := have + k;
    left := if position + k == |chunk| then None else Some(ReadPath.ReadState.Ready(chunk, position + k));
  }

  /**
   * The chunk arm of the read loop as a whole (src/lib.rs:163-188): after the
   * copy, a full buffer ends the read, keeping what is left of the chunk;
   * otherwise the chunk is used up and the loop goes on without state.
   */
  method ChunkArm(buf: array<byte>, have: nat, chunk: Bytes, position: nat, ghost R: ReadPath.ReadRun,
                  ghost actions: seq<Doubles.Action>, ghost cx: Waker, ghost probes: seq<ReadPath.Probe>)
    returns (done: bool, r: Poll<IoResult<nat>>, n: nat, local: ReadPath.PendingState, state: ReadPath.PendingState)
    requires position <= |chunk| && have <= buf.Length
    requires ReadPath.Continues(R, Some(ReadPath.ReadState.Ready(chunk, position)), actions, buf.Length, buf[..have], cx, probes)
    modifies buf
    ensures have <= n <= buf.Length && forall j :: n <= j < buf.Length ==> buf[j] == old(buf[j])
    ensures done ==> R == ReadPath.ReadRun(r, buf[..n], state, actions, probes)
    ensures !done ==> state == None && local == None && ReadPath.Continues(R, None, actions, buf.Length, buf[..n], cx, probes)
  {
    ReadPath.ChunkStep(R, chunk, position, actions, buf.Length, buf[..have], cx, probes);
    n, local := ReadChunk(buf, have, chunk, position);
    done, r, state := false, Poll.Pending, None;
    if n == buf.Length {
      state := local;
      done, r := true, Poll.Ready(Ok(n));
    }
  }

  /**
   * The arm of the read loop without state (src/lib.rs:191-280): the source
   * is polled, with the caller's context while nothing is copied and the
   * no-op context once `have` bytes are; a message becomes the new chunk and
   * the loop goes on, anything else ends the read with the answer and the
   * pending state `ReadPath` gives.
   */
  method PollArm(stream: Doubles.TestStream, cx: Waker, have: nat, ghost R: ReadPath.ReadRun, ghost cap: nat,
                 ghost haveBytes: Bytes, ghost probes: seq<ReadPath.Probe>, ghost contexts: seq<Waker>)
    returns (done: bool, r: Poll<IoResult<nat>>, local: ReadPath.PendingState, state: ReadPath.PendingState, ghost probes': seq<ReadPath.Probe>)
    requires stream.Valid() && |haveBytes| == have && stream.contexts == contexts + ReadPath.Wakers(probes)
    requires ReadPath.Continues(R, None, stream.actions, cap, haveBytes, cx, probes)
    modifies stream
    ensures stream.Valid() && stream.contexts == contexts + ReadPath.Wakers(probes')
    ensures done ==> R == ReadPath.ReadRun(r, haveBytes, state, stream.actions, probes')
    ensures !done ==> state == None && |stream.actions| < |old(stream.actions)|
    ensures !done ==> ReadPath.Continues(R, local, stream.actions, cap, haveBytes, cx, probes')
  {
    var waker := if have == 0 then cx else Noop;
    ReadPath.PollStep(R, stream.actions, cap, haveBytes, cx, probes);
    probes' := probes + [ReadPath.Probe(waker, have)];
    ReadPath.WakersSnoc(probes, ReadPath.Probe(waker, have));
    var p := stream.PollNext(waker);
    done, r, local, state := true, Poll.Pending, None, None;
    match p
    case Ready(Some(Ok(chunk))) =>
      done, local := false, Some(ReadPath.ReadState.Ready(chunk, 0));
    case Ready(None) =>
      state := Some(ReadPath.ReadState.StreamEnded);
      r := Poll.Ready(Ok(have));
    case Ready(Some(Err(e))) =>
      if have == 0 {
        r := Poll.Ready(Err(e));
      } else {
        state := Some(ReadPath.ReadState.Error(e));
        r := Poll.Ready(Ok(have));
      }
    case Pending =>
      if have != 0 {
        r := Poll.Ready(Ok(have));
      }
  }

  /** `now` holds `out` at its front and the elements of `before` after it. */
  predicate AtFront(now: Bytes, out: Bytes, before: Bytes)
  {
    |out| <= |before| && now == out + before[|out|..]
  }

  /** `AtFront`, element by element. */
  lemma AtFrontAt(now: Bytes, out: Bytes, before: Bytes)
    requires AtFront(now, out, before)
    ensures |now| == |before| && |out| <= |now|
    ensures forall k :: 0 <= k < |now| ==> now[k] == if k < |out| then out[k] else before[k]
  {
  }

  /**
   * How the vectored call goes on after the read `n` into a buffer of size
   * `cap` (src/lib.rs:298-343), `have` bytes being read before it: a filled
   * buffer passes on with the count grown; otherwise the call ends with
   * `ReadPath.AnswerAfter`, and an error met after bytes were read is
   * handed back to be stored.
   */
  method AfterBuffer(n: Poll<IoResult<nat>>, have: nat, cap: nat) returns (done: bool, r: Poll<IoResult<nat>>, have': nat, deferred: Option<ErrorKind>)
    ensures done <==> !ReadPath.Filled(n, cap)
    ensures !done ==> have' == have + n.value.value && deferred == None
    ensures done ==> r == ReadPath.AnswerAfter(n, have)
    ensures done ==> deferred == if have > 0 && n.Ready? && n.value.Err? then Some(n.value.error) else None
  {
    done, r, have', deferred := false, Poll.Pending, have, None;
    if n.Ready? && n.value.Ok? && n.value.value >= cap {
      have' := have + n.value.value;
    } else {
      done := true;
      if have == 0 {
        r := n;
      } else {
        match n
        case Pending =>
          r := Poll.Ready(Ok(have));
        case Ready(Ok(k)) =>
          r := Poll.Ready(Ok(have + k));
        case Ready(Err(e)) =>
          deferred := Some(e);
          r := Poll.Ready(Ok(have));
      }
    }
  }

  class WsIo {
    /** The pending read state (`Option<ReadState>`). */
    var state: ReadPath.PendingState
    /** The inner channel's message source. */
    const stream: Doubles.TestStream
    /** The inner channel's message sink. */
    const sink: Doubles.TestSink
    /** Every data byte the source was scripted with (a ghost record). */
    ghost var script: Bytes
    /** Every byte the reads handed to callers so far, in order (a ghost record). */
    ghost var delivered: Bytes

    /**
     * The adapter's invariant: a stored chunk has bytes left; what was
     * handed out, then what is buffered, then what the source still holds
     * are the scripted bytes in order; and once the end of the stream is
     * latched the source has nothing left.
     */
    ghost predicate Valid()
      reads this, stream
    {
      && stream.Valid()
      && ReadPath.StateOk(state)
      && delivered + ReadPath.Buffered(state) + Doubles.DataOf(stream.actions) == script
      && (state == Some(ReadPath.ReadState.StreamEnded) ==> stream.actions == [])
    }

    /** `WsIo::new` (src/lib.rs:91-99): no pending state. */
    constructor (stream: Doubles.TestStream, sink: Doubles.TestSink)
      requires stream.Valid()
      ensures Valid() && state == None && this.stream == stream && this.sink == sink
      ensures script == Doubles.DataOf(stream.actions) && delivered == []
    {
      this.stream := stream;
      this.sink := sink;
      state := None;
      script := Doubles.DataOf(stream.actions);
      delivered := [];
    }

    /**
     * `poll_read_impl` (src/lib.rs:140-283) into `buf`, with the end-of-stream
     * latch kept: the answer, the new state, the polls of the source and its
     * remaining queue are those of `ReadPath.Read`, the bytes it copies fill
     * the front of `buf` and the rest of `buf` is untouched.
     */
    method PollRead(cx: Waker, buf: array<byte>) returns (r: Poll<IoResult<nat>>)
      requires Valid()
      modifies this, stream, buf
      ensures Valid() && script == old(script)
      ensures var R := ReadPath.Read(old(state), old(stream.actions), buf.Length, cx);
        && r == R.poll && state == R.state && stream.actions == R.rest
        && stream.contexts == old(stream.contexts) + ReadPath.Wakers(R.probes)
        && stream.polled == old(stream.polled) + |R.probes|
        && AtFront(buf[..], R.out, old(buf[..]))
        && delivered == old(delivered) + R.out
    {
      var taken := state;
      state := None;
      var haveRead;
      r, haveRead := ReadLoop(cx, buf, taken);
      delivered := delivered + buf[..haveRead];
      Spliced(buf[..], old(buf[..]), haveRead);
      ghost var R := ReadPath.Read(taken, old(stream.actions), buf.Length, cx);
      ReadPath.ReadKeeps(old(delivered), taken, old(stream.actions), buf.Length, cx, script);
      ReadPath.WakersLength(R.probes);
    }

    /**
     * `poll_read_vectored_impl` (src/lib.rs:286-354) into the buffers `bufs`,
     * which are distinct (`&mut` slices do not overlap): the answer, the new
     * state, the polls and the source's queue are those of
     * `ReadPath.ReadVectored`; each buffer visited gets its bytes at its
     * front, the rest of it and every buffer not visited are untouched.
     */
    method PollReadVectored(cx: Waker, bufs: seq<array<byte>>) returns (r: Poll<IoResult<nat>>)
      requires Valid()
      requires forall i, j :: 0 <= i < j < |bufs| ==> bufs[i] != bufs[j]
      modifies this, stream, set i | 0 <= i < |bufs| :: bufs[i]
      ensures Valid() && script == old(script)
      ensures var V := ReadPath.ReadVectored(old(state), old(stream.actions), Lengths(bufs), cx);
        && r == V.poll && state == V.state && stream.actions == V.rest
        && stream.contexts == old(stream.contexts) + ReadPath.Wakers(V.probes)
        && delivered == old(delivered) + ReadPath.Concat(V.outs)
        && |V.outs| <= |bufs|
      ensures var V := ReadPath.ReadVectored(old(state), old(stream.actions), Lengths(bufs), cx);
        forall i, k :: 0 <= i < |bufs| && 0 <= k < bufs[i].Length ==>
          bufs[i][k] == if i < |V.outs| && k < |V.outs[i]| then V.outs[i][k] else old(bufs[i][k])
    {
      ghost var V := ReadPath.ReadVectored(state, stream.actions, Lengths(bufs), cx);
      r := VectoredAs(cx, bufs, V);
    }

    /** The vectored read into `bufs` as `V` says, `V` being `ReadPath.ReadVectored` of the state on entry. */
    method VectoredAs(cx: Waker, bufs: seq<array<byte>>, ghost V: ReadPath.VecRun) returns (r: Poll<IoResult<nat>>)
      requires Valid() && V == ReadPath.ReadVectored(state, stream.actions, Lengths(bufs), cx)
      requires forall i, j :: 0 <= i < j < |bufs| ==> bufs[i] != bufs[j]
      modifies this, stream, set i | 0 <= i < |bufs| :: bufs[i]
      ensures Valid() && script == old(script)
      ensures r == V.poll && state == V.state && stream.actions == V.rest
      ensures stream.contexts == old(stream.contexts) + ReadPath.Wakers(V.probes)
      ensures delivered == old(delivered) + ReadPath.Concat(V.outs) && |V.outs| <= |bufs|
      ensures forall j, k :: 0 <= j < |bufs| && 0 <= k < bufs[j].Length ==>
        bufs[j][k] == if j < |V.outs| && k < |V.outs[j]| then V.outs[j][k] else old(bufs[j][k])
    {
      ghost var before := Contents(bufs);
      assert forall j, k :: 0 <= j < |bufs| && 0 <= k < bufs[j].Length ==> before[j][k] == bufs[j][k];
      ReadPath.VecStarts(state, stream.actions, Lengths(bufs), cx);
      assert Lengths(bufs)[0..] == Lengths(bufs);
      r := Vectored(cx, bufs, before, V);
    }

    /**
     * The vectored read as `V` says, the buffers having held `before`: the
     * buffers are visited, then the call is ended past the last one.
     */
    method Vectored(cx: Waker, bufs: seq<array<byte>>, ghost before: seq<Bytes>, ghost V: ReadPath.VecRun)
      returns (r: Poll<IoResult<nat>>)
      requires forall i, j :: 0 <= i < j < |bufs| ==> bufs[i] != bufs[j]
      requires Visiting(bufs, before, V, cx, 0, false, Poll.Pending, 0, [], [], stream.contexts, delivered)
      requires forall j, k :: 0 <= j < |bufs| && 0 <= k < bufs[j].Length ==> before[j][k] == bufs[j][k]
      modifies this, stream, set i | 0 <= i < |bufs| :: bufs[i]
      ensures Valid() && script == old(script)
      ensures r == V.poll && state == V.state && stream.actions == V.rest
      ensures stream.contexts == old(stream.contexts) + ReadPath.Wakers(V.probes)
      ensures delivered == old(delivered) + ReadPath.Concat(V.outs) && |V.outs| <= |bufs|
      ensures forall j, k :: 0 <= j < |bufs| && 0 <= k < bufs[j].Length ==>
        bufs[j][k] == if j < |V.outs| && k < |V.outs[j]| then V.outs[j][k] else old(bufs[j][k])
    {
      var done, i, haveRead;
      ghost var outs, probes;
      done, r, i, haveRead, outs, probes := VisitAll(cx, bufs, before, V);
      if !done {
        assert Lengths(bufs)[i..] == [];
        r := EndVectored(cx, V, haveRead, outs, probes, old(stream.contexts), old(delivered));
      }
      assert V.outs == outs;
      forall j, k | 0 <= j < |bufs| && 0 <= k < bufs[j].Length
        ensures bufs[j][k] == if j < |V.outs| && k < |V.outs[j]| then V.outs[j][k] else old(bufs[j][k])
      {
        assert before[j][k] == old(bufs[j][k]);
      }
    }

    /**
     * The buffer loop of `poll_read_vectored_impl` (src/lib.rs:290-346): the
     * buffers are visited in order until one of them ends the call or none
     * is left.
     */
    method VisitAll(cx: Waker, bufs: seq<array<byte>>, ghost before: seq<Bytes>, ghost V: ReadPath.VecRun)
      returns (done: bool, r: Poll<IoResult<nat>>, i: nat, haveRead: nat, ghost outs: seq<Bytes>, ghost probes: seq<ReadPath.Probe>)
      requires forall i, j :: 0 <= i < j < |bufs| ==> bufs[i] != bufs[j]
      requires Visiting(bufs, before, V, cx, 0, false, Poll.Pending, 0, [], [], stream.contexts, delivered)
      modifies this, stream, set i | 0 <= i < |bufs| :: bufs[i]
      ensures script == old(script) && (done || i == |bufs|)
      ensures Visiting(bufs, before, V, cx, i, done, r, haveRead, outs, probes, old(stream.contexts), old(delivered))
    {
      outs, probes := [], [];
      haveRead := 0;
      i := 0;
      done := false;
      r := Poll.Pending;
      while i < |bufs| && !done
        invariant Visiting(bufs, before, V, cx, i, done, r, haveRead, outs, probes, old(stream.contexts), old(delivered))
        invariant script == old(script)
        decreases |bufs| - i, if done then 0 else 1
      {
        if bufs[i].Length == 0 {
          outs := SkipBuffer(cx, bufs, before, V, i, haveRead, outs, probes, old(stream.contexts), old(delivered));
          i := i + 1;
        } else {
          done, r, i, haveRead, outs, probes := FillBuffer(cx, bufs, before, V, i, haveRead, outs, probes, old(stream.contexts), old(delivered));
        }
      }
    }

    /** What the buffers of a vectored read hold. */
    ghost function Contents(bufs: seq<array<byte>>): (c: seq<Bytes>)
      reads set j | 0 <= j < |bufs| :: bufs[j]
      ensures |c| == |bufs| && forall j :: 0 <= j < |bufs| ==> c[j] == bufs[j][..]
    {
      seq(|bufs|, j reads set j | 0 <= j < |bufs| :: bufs[j] requires 0 <= j < |bufs| => bufs[j][..])
    }

    /**
     * The vectored read part way, `i` buffers visited: `outs` holds what the
     * visited buffers got, at their fronts, the other elements keeping what
     * they held `before`; the polls made and the bytes handed out so far are
     * recorded; and either the call has ended as `V` says, or the buffers
     * from `i` on finish it as `V` says.
     */
    ghost predicate Visiting(bufs: seq<array<byte>>, before: seq<Bytes>, V: ReadPath.VecRun, cx: Waker, i: nat, done: bool,
                             r: Poll<IoResult<nat>>, haveRead: nat, outs: seq<Bytes>, probes: seq<ReadPath.Probe>,
                             contexts: seq<Waker>, handed: Bytes)
      reads this, stream, set j | 0 <= j < |bufs| :: bufs[j]
    {
      && Valid()
      && i <= |bufs| && |outs| == (if done then i + 1 else i) && |outs| <= |bufs|
      && |before| == |bufs| && (forall j :: 0 <= j < |bufs| ==> |before[j]| == bufs[j].Length)
      && stream.contexts == contexts + ReadPath.Wakers(probes)
      && delivered == handed + ReadPath.Concat(outs)
      && (forall j, k :: 0 <= j < |bufs| && 0 <= k < bufs[j].Length ==>
            bufs[j][k] == if j < |outs| && k < |outs[j]| then outs[j][k] else before[j][k])
      && (done ==> V == ReadPath.VecRun(r, outs, state, stream.actions, probes))
      && (!done ==> ReadPath.VecContinues(V, state, stream.actions, Lengths(bufs)[i..], haveRead, cx, outs, probes))
    }

    /** An empty buffer of the vectored read (src/lib.rs:292) is passed over untouched. */
    method SkipBuffer(cx: Waker, bufs: seq<array<byte>>, ghost before: seq<Bytes>, ghost V: ReadPath.VecRun, i: nat,
                      haveRead: nat, ghost outs: seq<Bytes>, ghost probes: seq<ReadPath.Probe>,
                      ghost contexts: seq<Waker>, ghost handed: Bytes)
      returns (ghost outs': seq<Bytes>)
      requires i < |bufs| && bufs[i].Length == 0
      requires Visiting(bufs, before, V, cx, i, false, Poll.Pending, haveRead, outs, probes, contexts, handed)
      ensures Visiting(bufs, before, V, cx, i + 1, false, Poll.Pending, haveRead, outs', probes, contexts, handed)
    {
      ghost var caps := Lengths(bufs);
      assert caps[i..][1..] == caps[i + 1..];
      ReadPath.VecSkipStep(V, state, stream.actions, caps[i..], haveRead, cx, outs, probes);
      ReadPath.ConcatSnoc(outs, []);
      outs' := outs + [[]];
    }

    /**
     * A non-empty buffer of the vectored read (src/lib.rs:296-344) gets its
     * read, as `ReadBuffer` says; no other buffer is touched.
     */
    method FillBuffer(cx: Waker, bufs: seq<array<byte>>, ghost before: seq<Bytes>, ghost V: ReadPath.VecRun, i: nat,
                      haveRead: nat, ghost outs: seq<Bytes>, ghost probes: seq<ReadPath.Probe>,
                      ghost contexts: seq<Waker>, ghost handed: Bytes)
      returns (done: bool, r: Poll<IoResult<nat>>, i': nat, haveRead': nat, ghost outs': seq<Bytes>, ghost probes': seq<ReadPath.Probe>)
      requires forall i, j :: 0 <= i < j < |bufs| ==> bufs[i] != bufs[j]
      requires i < |bufs| && bufs[i].Length != 0
      requires Visiting(bufs, before, V, cx, i, false, Poll.Pending, haveRead, outs, probes, contexts, handed)
      modifies this, stream, bufs[i]
      ensures script == old(script) && (if done then i' == i else i' == i + 1)
      ensures Visiting(bufs, before, V, cx, i', done, r, haveRead', outs', probes', contexts, handed)
    {
      ghost var caps := Lengths(bufs);
      var b := bufs[i];
      assert caps[i..][1..] == caps[i + 1..];
      done, r, haveRead', outs', probes' := ReadBuffer(cx, b, haveRead, V, caps[i..], outs, probes, contexts, handed);
      i' := if done then i else i + 1;
      forall j, k | 0 <= j < |bufs| && 0 <= k < bufs[j].Length
        ensures bufs[j][k] == if j < |outs'| && k < |outs'[j]| then outs'[j][k] else before[j][k]
      {
        if j != i {
          assert bufs[j] != b;
          assert bufs[j][k] == old(bufs[j][k]);
          if j < |outs'| {
            assert outs'[j] == outs[j];
          }
        }
      }
    }

    /**
     * The end of a vectored read that filled every buffer it was given
     * (src/lib.rs:352-353): the bytes read are the answer, and when there were
     * none the call ends with one read into an empty buffer.
     */
    method EndVectored(cx: Waker, ghost V: ReadPath.VecRun, haveRead: nat, ghost outs: seq<Bytes>, ghost probes: seq<ReadPath.Probe>,
                       ghost contexts: seq<Waker>, ghost handed: Bytes)
      returns (r: Poll<IoResult<nat>>)
      requires Valid() && ReadPath.VecContinues(V, state, stream.actions, [], haveRead, cx, outs, probes)
      requires stream.contexts == contexts + ReadPath.Wakers(probes) && delivered == handed + ReadPath.Concat(outs)
      modifies this, stream
      ensures Valid() && script == old(script)
      ensures r == V.poll && state == V.state && stream.actions == V.rest && V.outs == outs
      ensures stream.contexts == contexts + ReadPath.Wakers(V.probes) && delivered == handed + ReadPath.Concat(outs)
    {
      ReadPath.VecEndStep(V, state, stream.actions, haveRead, cx, outs, probes);
      if haveRead == 0 {
        ghost var R := ReadPath.Read(state, stream.actions, 0, cx);
        ReadPath.WakersAppend(probes, R.probes);
        ReadPath.Assoc(contexts, ReadPath.Wakers(probes), ReadPath.Wakers(R.probes));
        r := ReadEmpty(cx);
      } else {
        r := Poll.Ready(Ok(haveRead));
      }
    }

    /** The read into an empty buffer that ends a vectored read in which no byte was read (src/lib.rs:352). */
    method ReadEmpty(cx: Waker) returns (r: Poll<IoResult<nat>>)
      requires Valid()
      modifies this, stream
      ensures Valid() && script == old(script) && delivered == old(delivered)
      ensures var R := ReadPath.Read(old(state), old(stream.actions), 0, cx);
        && r == R.poll && state == R.state && stream.actions == R.rest
        && stream.contexts == old(stream.contexts) + ReadPath.Wakers(R.probes)
    {
      var empty := new byte[0];
      r := PollRead(cx, empty);
    }

    /**
     * One non-empty buffer of the vectored read (src/lib.rs:296-344): one
     * `poll_read_impl` into it, with the caller's context while nothing is
     * read and the no-op context after; a filled buffer passes on to the next
     * one, anything else ends the call, and an error met once bytes are read
     * is stored for the next call.
     */
    method ReadBuffer(cx: Waker, b: array<byte>, haveRead: nat, ghost V: ReadPath.VecRun, ghost caps: seq<nat>,
                      ghost outs: seq<Bytes>, ghost probes: seq<ReadPath.Probe>, ghost contexts: seq<Waker>, ghost handed: Bytes)
      returns (done: bool, r: Poll<IoResult<nat>>, haveRead': nat, ghost outs': seq<Bytes>, ghost probes': seq<ReadPath.Probe>)
      requires Valid() && caps != [] && caps[0] == b.Length && b.Length != 0
      requires ReadPath.VecContinues(V, state, stream.actions, caps, haveRead, cx, outs, probes)
      requires stream.contexts == contexts + ReadPath.Wakers(probes) && delivered == handed + ReadPath.Concat(outs)
      modifies this, stream, b
      ensures Valid() && script == old(script)
      ensures |outs'| == |outs| + 1 && outs'[..|outs|] == outs && |outs'[|outs|]| <= b.Length
      ensures forall k :: 0 <= k < b.Length ==> b[k] == if k < |outs'[|outs|]| then outs'[|outs|][k] else old(b[k])
      ensures stream.contexts == contexts + ReadPath.Wakers(probes') && delivered == handed + ReadPath.Concat(outs')
      ensures done ==> V == ReadPath.VecRun(r, outs', state, stream.actions, probes')
      ensures !done ==> ReadPath.VecContinues(V, state, stream.actions, caps[1..], haveRead', cx, outs', probes')
    {
      var w := if haveRead == 0 then cx else Noop;
      ghost var R := ReadPath.Read(state, stream.actions, b.Length, w);
      assert ReadPath.VecLoop(state, stream.actions, caps, haveRead, cx) == ReadPath.VecAfter(R, caps, haveRead, cx);
      ReadPath.ReadOutcome(state, stream.actions, b.Length, w);
      var n := ReadInto(w, b, haveRead, outs, probes, contexts, handed);
      done, r, haveRead', outs', probes' := Advance(cx, n, b.Length, R, V, caps, haveRead, outs, probes, contexts, handed);
    }

    /**
     * What the vectored read does once the read `R` into its next buffer, of
     * size `cap`, has answered `n`, as `ReadPath.VecAfterStep` says: a
     * filled buffer passes on with the count grown; otherwise the call ends,
     * an error met after bytes were read being stored as the pending state.
     */
    method Advance(cx: Waker, n: Poll<IoResult<nat>>, cap: nat, ghost R: ReadPath.ReadRun, ghost V: ReadPath.VecRun, ghost caps: seq<nat>,
                   haveRead: nat, ghost outs: seq<Bytes>, ghost probes: seq<ReadPath.Probe>, ghost contexts: seq<Waker>, ghost handed: Bytes)
      returns (done: bool, r: Poll<IoResult<nat>>, haveRead': nat, ghost outs': seq<Bytes>, ghost probes': seq<ReadPath.Probe>)
      requires Valid() && caps != [] && caps[0] == cap && ReadPath.Reports(R, []) && ReadPath.StateOk(R.state)
      requires n == R.poll && state == R.state && stream.actions == R.rest
      requires var w := ReadPath.VecAfter(R, caps, haveRead, cx);
        V == ReadPath.VecRun(w.poll, outs + w.outs, w.state, w.rest, probes + w.probes)
      requires stream.contexts == contexts + ReadPath.Wakers(probes + ReadPath.Shift(R.probes, haveRead))
      requires delivered == handed + ReadPath.Concat(outs + [R.out])
      modifies this
      ensures Valid() && script == old(script) && delivered == old(delivered) && stream.actions == R.rest
      ensures outs' == outs + [R.out] && probes' == probes + ReadPath.Shift(R.probes, haveRead)
      ensures done ==> V == ReadPath.VecRun(r, outs', state, stream.actions, probes')
      ensures !done ==> ReadPath.VecContinues(V, state, stream.actions, caps[1..], haveRead', cx, outs', probes')
    {
      ReadPath.VecAfterStep(V, R, caps, haveRead, cx, outs, probes);
      outs' := outs + [R.out];
      probes' := probes + ReadPath.Shift(R.probes, haveRead);
      var deferred;
      done, r, haveRead', deferred := AfterBuffer(n, haveRead, cap);
      if deferred.Some? {
        state := Some(ReadPath.ReadState.Error(deferred.value));
      }
    }

    /**
     * The `poll_read_impl` into one buffer of a vectored read, `haveRead`
     * bytes having been read into the buffers before it: its bytes land at
     * the buffer's front and are handed out after the earlier ones, and its
     * polls are recorded after the earlier ones.
     */
    method ReadInto(w: Waker, b: array<byte>, haveRead: nat, ghost outs: seq<Bytes>, ghost probes: seq<ReadPath.Probe>,
                    ghost contexts: seq<Waker>, ghost handed: Bytes)
      returns (n: Poll<IoResult<nat>>)
      requires Valid()
      requires stream.contexts == contexts + ReadPath.Wakers(probes) && delivered == handed + ReadPath.Concat(outs)
      modifies this, stream, b
      ensures Valid() && script == old(script)
      ensures var R := ReadPath.Read(old(state), old(stream.actions), b.Length, w);
        && n == R.poll && state == R.state && stream.actions == R.rest && |R.out| <= b.Length
        && stream.contexts == contexts + ReadPath.Wakers(probes + ReadPath.Shift(R.probes, haveRead))
        && delivered == handed + ReadPath.Concat(outs + [R.out])
        && forall k :: 0 <= k < b.Length ==> b[k] == if k < |R.out| then R.out[k] else old(b[k])
    {
      ghost var R := ReadPath.Read(state, stream.actions, b.Length, w);
      n := PollRead(w, b);
      ReadPath.ShiftFacts(R.probes, haveRead);
      ReadPath.WakersAppend(probes, ReadPath.Shift(R.probes, haveRead));
      ReadPath.ConcatSnoc(outs, R.out);
      ReadPath.Assoc(contexts, ReadPath.Wakers(probes), ReadPath.Wakers(R.probes));
      ReadPath.Assoc(handed, ReadPath.Concat(outs), R.out);
      AtFrontAt(b[..], R.out, old(b[..]));
    }

    /**
     * `poll_write_impl` (src/lib.rs:357-408): the sink must be ready, then
     * takes the whole buffer as one message and is flushed, the flush's
     * answer being dropped; the answer and the sink afterwards are those of
     * `WritePath.Write`.
     */
    method PollWrite(cx: Waker, buf: Bytes) returns (r: Poll<IoResult<nat>>)
      requires WritePath.Scripted(sink.View())
      modifies sink
      ensures var w := WritePath.Write(old(sink.View()), buf);
        r == w.poll && sink.View() == w.sink
    {
      var ready := sink.PollReady(cx);
      if ready.Pending? {
        return Poll.Pending;
      }
      if ready.value.Err? {
        return Poll.Ready(Err(ready.value.error));
      }
      var sent := sink.StartSend(buf);
      match sent
      case Ok(_) =>
        var _ := sink.PollFlush(cx);
        r := Poll.Ready(Ok(|buf|));
      case Err(e) =>
        r := Poll.Ready(Err(e));
    }

    /** `poll_flush_impl` (src/lib.rs:411-420): the sink's flush answer, as `WritePath.Flush` says. */
    method PollFlush(cx: Waker) returns (r: Poll<IoResult<()>>)
      requires sink.pollFlush < |sink.flushActions|
      modifies sink
      ensures var w := WritePath.Flush(old(sink.View()));
        r == w.poll && sink.View() == w.sink
    {
      var flushed := sink.PollFlush(cx);
      match flushed
      case Pending =>
        r := Poll.Pending;
      case Ready(Ok(_)) =>
        r := Poll.Ready(Ok(()));
      case Ready(Err(e)) =>
        r := Poll.Ready(Err(e));
    }

    /** `poll_close_impl` (src/lib.rs:423-428): the sink's close answer, as `WritePath.Close` says. */
    method PollClose(cx: Waker) returns (r: Poll<IoResult<()>>)
      ensures var w := WritePath.Close(sink.View());
        r == w.poll && sink.View() == w.sink
    {
      r := sink.PollClose(cx);
    }

    /**
     * The read loop of `poll_read_impl` (src/lib.rs:148-282), run on the state
     * `taken` out of the adapter: `haveRead` counts the bytes copied into
     * `buf`, and the state the call leaves behind is written back on exit.
     */
    method ReadLoop(cx: Waker, buf: array<byte>, taken: ReadPath.PendingState) returns (r: Poll<IoResult<nat>>, haveRead: nat)
      requires stream.Valid() && ReadPath.StateOk(taken) && state == None
      modifies this`state, stream, buf
      ensures stream.Valid()
      ensures var R := ReadPath.Read(taken, old(stream.actions), buf.Length, cx);
        && r == R.poll && state == R.state && stream.actions == R.rest
        && haveRead == |R.out| && buf[..haveRead] == R.out
        && stream.contexts == old(stream.contexts) + ReadPath.Wakers(R.probes)
      ensures forall j :: haveRead <= j < buf.Length ==> buf[j] == old(buf[j])
    {
      ghost var R := ReadPath.Read(taken, stream.actions, buf.Length, cx);
      ReadPath.ReadStarts(taken, stream.actions, buf.Length, cx);
      r, haveRead := LoopAs(cx, buf, taken, R);
    }

    /**
     * The read loop proved against the outcome `R` it is to reach, given by
     * what the taken state is and how the loop goes on from it.
     */
    method LoopAs(cx: Waker, buf: array<byte>, taken: ReadPath.PendingState, ghost R: ReadPath.ReadRun)
      returns (r: Poll<IoResult<nat>>, haveRead: nat)
      requires stream.Valid() && ReadPath.StateOk(taken) && state == None
      requires taken == Some(ReadPath.ReadState.StreamEnded) ==> R == ReadPath.ReadRun(Poll.Ready(Ok(0)), [], taken, stream.actions, [])
      requires taken.Some? && taken.value.Error? ==> R == ReadPath.ReadRun(Poll.Ready(Err(taken.value.error)), [], None, stream.actions, [])
      requires ReadPath.LoopState(taken) ==> ReadPath.Continues(R, taken, stream.actions, buf.Length, [], cx, [])
      modifies this`state, stream, buf
      ensures stream.Valid()
      ensures r == R.poll && state == R.state && stream.actions == R.rest
      ensures haveRead == |R.out| && buf[..haveRead] == R.out
      ensures stream.contexts == old(stream.contexts) + ReadPath.Wakers(R.probes)
      ensures forall j :: haveRead <= j < buf.Length ==> buf[j] == old(buf[j])
    {
      assert buf[..0] == [];
      ghost var probes: seq<ReadPath.Probe> := [];
      haveRead := 0;
      var local := taken;
      var done := false;
      r := Poll.Pending;
      while !done
        invariant stream.Valid() && haveRead <= buf.Length
        invariant forall j :: haveRead <= j < buf.Length ==> buf[j] == old(buf[j])
        invariant stream.contexts == old(stream.contexts) + ReadPath.Wakers(probes)
        invariant done ==>
          R == ReadPath.ReadRun(r, buf[..haveRead], state, stream.actions, probes)
        invariant !done ==> state == None
        invariant !done && !ReadPath.LoopState(local) ==>
          local == taken && haveRead == 0 && probes == [] && stream.actions == old(stream.actions)
        invariant !done && ReadPath.LoopState(local) ==>
          ReadPath.Continues(R, local, stream.actions, buf.Length, buf[..haveRead], cx, probes)
        decreases if done then 0 else 1, |stream.actions|, if local.Some? then 1 else 0
      {
        match local
        case Some(StreamEnded) =>
          state := local;
          r, done := Poll.Ready(Ok(0)), true;
        case Some(Error(e)) =>
          r, done := Poll.Ready(Err(e)), true;
        case Some(Ready(chunk, position)) =>
          done, r, haveRead, local, state := ChunkArm(buf, haveRead, chunk, position, R, stream.actions, cx, probes);
        case None =>
          done, r, local, state, probes := PollArm(stream, cx, haveRead, R, buf.Length, buf[..haveRead], probes, old(stream.contexts));
      }
    }
  }
}
