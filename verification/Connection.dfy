/** One client connection (src/net/reactor.cpp): the length-prefix framing of what it sends and the
    write queue of what it is sent. */
module Connection {
  import opened Bytes

  // ================ output ================

  /** The write side; `armed` says that EPOLLOUT is registered. */
  datatype Out = Out(writeBuf: bytes, writeOffset: nat, queue: seq<bytes>, armed: bool)

  const FRESH := Out([], 0, [], false)

  function Enqueue(o: Out, data: bytes): Out
  {
    if o.writeOffset == 0 && o.writeBuf == [] then Out(data, 0, o.queue, true)
    else o.(queue := o.queue + [data])
  }

  function Advance(o: Out): Out
  {
    if o.queue != [] then Out(o.queue[0], 0, o.queue[1..], o.armed) else Out([], 0, [], false)
  }

  /** What `send_all` may have sent at most. */
  function Sendable(o: Out): nat { if o.writeOffset <= |o.writeBuf| then |o.writeBuf| - o.writeOffset else 0 }

  /** The socket took `k` bytes. */
  function Sent(o: Out, k: nat): Out
    requires k <= Sendable(o)
  {
    var o' := o.(writeOffset := o.writeOffset + k);
    if o'.writeOffset >= |o'.writeBuf| then Advance(o') else o'
  }

  datatype OutOp = Respond(data: bytes) | Writable(k: nat)

  /** The connection with everything handed to it and everything the socket took. */
  datatype OutRun = OutRun(o: Out, responses: seq<bytes>, wire: bytes)

  function Taken(o: Out, k: nat): nat { if k < Sendable(o) then k else Sendable(o) }

  function OutStep(s: OutRun, op: OutOp): OutRun
  {
    match op
    case Respond(data) => OutRun(Enqueue(s.o, data), s.responses + [data], s.wire)
    case Writable(k) =>
      var n := Taken(s.o, k);
      OutRun(Sent(s.o, n), s.responses, s.wire + Chunk(s.o, n))
  }

  /** The next `n` unsent bytes of the buffer being written. */
  function Chunk(o: Out, n: nat): bytes
    requires n <= Sendable(o)
  {
    if n == 0 then [] else o.writeBuf[o.writeOffset..o.writeOffset + n]
  }

  function RunOut(ops: seq<OutOp>): OutRun
  {
    if ops == [] then OutRun(FRESH, [], []) else OutStep(RunOut(ops[..|ops| - 1]), ops[|ops| - 1])
  }

  function Unsent(o: Out): bytes
  {
    (if o.writeOffset <= |o.writeBuf| then o.writeBuf[o.writeOffset..] else []) + Concat(o.queue)
  }

  /** Between steps a non-empty buffer has something left, an empty one has nothing queued behind it. */
  ghost predicate Tidy(o: Out)
  {
    && o.writeOffset <= |o.writeBuf|
    && (o.writeOffset == |o.writeBuf| ==> o == FRESH)
    && (o.armed <==> o.writeBuf != [])
    && forall d :: d in o.queue ==> d != []
  }

  lemma EnqueueAppends(o: Out, data: bytes)
    requires Tidy(o) && data != []
    ensures Tidy(Enqueue(o, data)) && Unsent(Enqueue(o, data)) == Unsent(o) + data
  {
    if o == FRESH {
      ConcatNone();
      assert Unsent(o) == [] && Unsent(Enqueue(o, data)) == data;
    } else {
      ConcatAppend(o.queue, [data]);
      assert Concat([data]) == data + Concat([]);
    }
  }

  lemma SentDrops(o: Out, k: nat)
    requires Tidy(o) && k <= Sendable(o)
    ensures Tidy(Sent(o, k)) && Unsent(o) == Chunk(o, k) + Unsent(Sent(o, k))
  {
    hide Concat;
    ConcatNone();
    var rest := o.writeBuf[o.writeOffset..];
    if o.writeOffset + k < |o.writeBuf| {
      assert rest == Chunk(o, k) + o.writeBuf[o.writeOffset + k..];
    } else if o.queue != [] {
      ConcatFront(o.queue);
      assert o.queue[0] in o.queue;
      assert o.armed && o.queue[0] != [];
      assert forall d :: d in o.queue[1..] ==> d in o.queue;
      assert rest == Chunk(o, k) && Sent(o, k).writeBuf[0..] == o.queue[0];
    } else {
      assert rest == Chunk(o, k);
    }
  }

  lemma ConcatFront(parts: seq<bytes>)
    requires parts != []
    ensures Concat(parts) == parts[0] + Concat(parts[1..])
  {
  }

  ghost predicate OutInv(s: OutRun)
  {
    Tidy(s.o) && s.wire + Unsent(s.o) == Concat(s.responses)
  }

  lemma OutStepKeeps(s: OutRun, op: OutOp)
    requires OutInv(s) && (op.Respond? ==> op.data != [])
    ensures OutInv(OutStep(s, op))
  {
    hide Concat, Tidy, Unsent, Enqueue, Sent, Chunk;
    match op {
      case Respond(data) =>
        EnqueueAppends(s.o, data);
        ConcatSnoc(s.responses, data);
        assert s.wire + (Unsent(s.o) + data) == s.wire + Unsent(s.o) + data;
      case Writable(k) =>
        var n := Taken(s.o, k);
        SentDrops(s.o, n);
        assert s.wire + (Chunk(s.o, n) + Unsent(Sent(s.o, n))) == s.wire + Chunk(s.o, n) + Unsent(Sent(s.o, n));
    }
  }

  lemma ConcatSnoc(parts: seq<bytes>, last: bytes)
    ensures Concat(parts + [last]) == Concat(parts) + last
  {
    ConcatAppend(parts, [last]);
    assert Concat([last]) == last + Concat([]);
  }

  /** In every run of non-empty responses, what the socket took, then the unsent rest of the buffer, then the
      queue, is exactly the responses in order; and EPOLLOUT is armed exactly when something is unsent. */
  lemma {:induction false} OutputExactlyOnceInOrder(ops: seq<OutOp>)
    requires forall op :: op in ops ==> (op.Respond? ==> op.data != [])
    ensures RunOut(ops).wire + Unsent(RunOut(ops).o) == Concat(RunOut(ops).responses)
    ensures RunOut(ops).o.armed <==> Unsent(RunOut(ops).o) != []
    decreases |ops|
  {
    OutRunKeeps(ops);
    ArmedMeansUnsent(RunOut(ops).o);
  }

  lemma {:induction false} OutRunKeeps(ops: seq<OutOp>)
    requires forall op :: op in ops ==> (op.Respond? ==> op.data != [])
    ensures OutInv(RunOut(ops))
    decreases |ops|
  {
    hide OutStep;
    if ops != [] {
      OutRunKeeps(ops[..|ops| - 1]);
      OutStepKeeps(RunOut(ops[..|ops| - 1]), ops[|ops| - 1]);
    } else {
      ConcatNone();
    }
  }

  lemma ArmedMeansUnsent(o: Out)
    requires Tidy(o)
    ensures o.armed <==> Unsent(o) != []
  {
    ConcatNone();
    if o.writeBuf != [] {
      assert Unsent(o)[0] == o.writeBuf[o.writeOffset];
    }
  }

  // ================ input ================

  datatype In = In(readBuf: bytes, expectedLen: nat, haveHeader: bool)

  const NOTHING_READ := In([], 0, false)

  /** One call of `recv_all`: an error, or how many bytes it delivered.  An error discards no bytes. */
  datatype Recv = Failed | Got(k: nat)

  datatype Outcome = Waiting | Closed | Body(body: bytes)

  /** `static_cast<size_t>` of the decoded length: negative lengths become huge. */
  function Announced(header: bytes): nat
    requires |header| == 4
  {
    Decode32(header) as int % TWO_64
  }

  /** Fill the buffer up to `total` bytes from the stream; how many bytes were consumed and whether to go on. */
  function Fill(buf: bytes, total: nat, ahead: bytes, recv: Recv): (r: (bytes, nat, Outcome))
    ensures r.1 <= |ahead| && (r.2.Body? ==> |r.0| >= total)
  {
    if |buf| >= total then (buf, 0, Body([]))
    else match recv
      case Failed => (buf, 0, Waiting)
      case Got(k) =>
        var n := Clamp(k, total - |buf|, |ahead|);
        (buf + ahead[..n], n, if n == 0 then Closed else if |buf| + n < total then Waiting else Body([]))
  }

  /** `recv_all` never delivers more than asked for or than the stream holds. */
  function Clamp(k: nat, room: nat, ahead: nat): (n: nat)
    ensures n <= k && n <= room && n <= ahead
  {
    var m := if k < room then k else room;
    if m < ahead then m else ahead
  }

  /** `handle_read` on the bytes `ahead` in the socket: new state, bytes consumed, outcome. */
  function HandleRead(c: In, max: uint32, ahead: bytes, recv1: Recv, recv2: Recv): (In, nat, Outcome)
  {
    if c.haveHeader then ReadBody(c, ahead, recv2, 0)
    else
      var (buf, n, out) := Fill(c.readBuf, 4, ahead, recv1);
      if !out.Body? then (c.(readBuf := buf), n, out)
      else
        var len := Announced(buf[..4]);
        if len > max then (c.(readBuf := buf, expectedLen := len), n, Closed)
        else ReadBody(In(buf, len, true), ahead[n..], recv2, n)
  }

  function ReadBody(c: In, ahead: bytes, recv: Recv, consumed: nat): (In, nat, Outcome)
  {
    var (buf, n, out) := Fill(c.readBuf, 4 + c.expectedLen, ahead, recv);
    if !out.Body? then (c.(readBuf := buf), consumed + n, out)
    else (c.(readBuf := [], haveHeader := false), consumed + n, Body(buf[4..]))
  }

  /** One read event: the two `recv_all` results it meets, and whether the request it completes is accepted. */
  datatype ReadOp = ReadOp(recv1: Recv, recv2: Recv, accepted: bool)

  /** The read side over a stream: position in it, bodies handed to the parser, and whether it is closed. */
  datatype InRun = InRun(c: In, at: nat, bodies: seq<bytes>, closed: bool)

  function InStep(stream: bytes, max: uint32, s: InRun, op: ReadOp): InRun
  {
    if s.closed || s.at > |stream| then s
    else
      var (c, n, out) := HandleRead(s.c, max, stream[s.at..], op.recv1, op.recv2);
      InRun(c, s.at + n, if out.Body? then s.bodies + [out.body] else s.bodies,
            out.Closed? || (out.Body? && !op.accepted))
  }

  function RunIn(stream: bytes, max: uint32, ops: seq<ReadOp>): InRun
  {
    if ops == [] then InRun(NOTHING_READ, 0, [], false)
    else InStep(stream, max, RunIn(stream, max, ops[..|ops| - 1]), ops[|ops| - 1])
  }

  /** The length-prefix decoding of a stream: the bodies of its whole frames, up to the first bad length. */
  function Frames(stream: bytes, max: uint32): seq<bytes>
  {
    if |stream| < 4 then []
    else
      var len := Announced(stream[..4]);
      if len > max || |stream| < 4 + len then []
      else [stream[4..4 + len]] + Frames(stream[4 + len..], max)
  }

  /** The stream up to `start` is whole frames with these bodies. */
  ghost predicate Splits(stream: bytes, max: uint32, start: nat, bodies: seq<bytes>)
    requires start <= |stream|
  {
    forall t: bytes {:trigger stream[..start] + t} :: Frames(stream[..start] + t, max) == bodies + Frames(t, max)
  }

  /** `start` is where the frame being read begins, and there is no whole frame from there to the position reached. */
  ghost predicate InInv(stream: bytes, max: uint32, s: InRun, start: nat)
  {
    && start <= s.at <= |stream|
    && Splits(stream, max, start, s.bodies)
    && Frames(stream[start..s.at], max) == []
    && (!s.closed ==>
          && s.c.readBuf == stream[start..s.at]
          && (if s.c.haveHeader
              then 4 <= |s.c.readBuf| < 4 + s.c.expectedLen && s.c.expectedLen == Announced(s.c.readBuf[..4]) <= max
              else |s.c.readBuf| < 4))
  }

  lemma FillIsSlice(stream: bytes, start: nat, at: nat, total: nat, recv: Recv)
    requires start <= at <= |stream| && at - start <= total
    ensures var (buf, n, out) := Fill(stream[start..at], total, stream[at..], recv);
            && at + n <= |stream| && buf == stream[start..at + n] && |buf| <= total
            && (out.Body? <==> |buf| == total)
  {
  }

  /** Less than a whole frame, or one that announces too much, decodes to nothing. */
  lemma NoFrame(s: bytes, max: uint32)
    requires |s| < 4 || Announced(s[..4]) > max || |s| < 4 + Announced(s[..4])
    ensures Frames(s, max) == []
  {
  }

  lemma OneFrame(stream: bytes, max: uint32, start: nat, end: nat, t: bytes)
    requires start + 4 <= end <= |stream| && end - start - 4 == Announced(stream[start..start + 4]) <= max
    ensures Frames(stream[start..end] + t, max) == [stream[start + 4..end]] + Frames(t, max)
  {
    hide Announced;
    var s := stream[start..end] + t;
    assert s[..4] == stream[start..start + 4];
    assert s[4..end - start] == stream[start + 4..end] && s[end - start..] == t;
  }

  lemma SplitsNext(stream: bytes, max: uint32, start: nat, end: nat, bodies: seq<bytes>)
    requires start + 4 <= end <= |stream| && end - start - 4 == Announced(stream[start..start + 4]) <= max
    requires Splits(stream, max, start, bodies)
    ensures Splits(stream, max, end, bodies + [stream[start + 4..end]])
  {
    hide Announced, Frames;
    var body := stream[start + 4..end];
    forall t: bytes
      ensures Frames(stream[..end] + t, max) == bodies + [body] + Frames(t, max)
    {
      OneFrame(stream, max, start, end, t);
      assert stream[..end] + t == stream[..start] + (stream[start..end] + t);
      assert bodies + ([body] + Frames(t, max)) == bodies + [body] + Frames(t, max);
    }
  }

  /** Reading the body: the frame is completed and becomes the next one of the decoding, or it is not. */
  lemma BodyKeeps(stream: bytes, max: uint32, c: In, start: nat, at: nat, consumed: nat, recv: Recv)
    requires start <= at <= |stream| && c.haveHeader && c.readBuf == stream[start..at]
    requires 4 <= at - start <= 4 + c.expectedLen && c.expectedLen == Announced(stream[start..start + 4]) <= max
    ensures var (c', n, out) := ReadBody(c, stream[at..], recv, consumed);
            && n >= consumed && at + (n - consumed) <= |stream|
            && (out.Body? ==>
                  && c'.readBuf == [] && !c'.haveHeader && start + 4 + c.expectedLen == at + (n - consumed)
                  && out.body == stream[start + 4..at + (n - consumed)])
            && (!out.Body? ==>
                  && c' == c.(readBuf := stream[start..at + (n - consumed)]) && 4 <= |c'.readBuf| < 4 + c.expectedLen
                  && c'.readBuf[..4] == stream[start..start + 4])
  {
    hide Fill, Announced;
    FillIsSlice(stream, start, at, 4 + c.expectedLen, recv);
    var (buf, n, out) := Fill(c.readBuf, 4 + c.expectedLen, stream[at..], recv);
    if out.Body? {
      assert buf[4..] == stream[start + 4..at + n];
    }
  }

  /** The part of a step that reads the header, if it is not there yet. */
  lemma HeaderKeeps(stream: bytes, max: uint32, c: In, start: nat, at: nat, recv1: Recv)
    requires start <= at <= |stream| && !c.haveHeader && c.readBuf == stream[start..at] && at - start < 4
    ensures var (buf, n, out) := Fill(c.readBuf, 4, stream[at..], recv1);
            && at + n <= |stream| && buf == stream[start..at + n] && |buf| <= 4
            && (out.Body? ==> |buf| == 4 && buf[..4] == stream[start..start + 4] && stream[at..][n..] == stream[at + n..])
            && (!out.Body? ==> |buf| < 4)
  {
    FillIsSlice(stream, start, at, 4, recv1);
  }

  lemma {:induction false} InStepKeeps(stream: bytes, max: uint32, s: InRun, start: nat, op: ReadOp) returns (start': nat)
    requires InInv(stream, max, s, start)
    ensures InInv(stream, max, InStep(stream, max, s, op), start')
  {
    hide Frames, Fill, ReadBody, Announced, Splits;
    start' := start;
    if s.closed {
      return;
    }
    var ahead := stream[s.at..];
    if s.c.haveHeader {
      assert s.c.readBuf[..4] == stream[start..start + 4];
      BodyKeeps(stream, max, s.c, start, s.at, 0, op.recv2);
      start' := Settle(stream, max, s, start, op);
    } else {
      HeaderKeeps(stream, max, s.c, start, s.at, op.recv1);
      var (buf, n, out) := Fill(s.c.readBuf, 4, ahead, op.recv1);
      if out.Body? && Announced(buf[..4]) <= max {
        assert buf[..4] == buf;
        BodyKeeps(stream, max, In(buf, Announced(buf[..4]), true), start, s.at + n, n, op.recv2);
        start' := Settle(stream, max, s, start, op);
      } else {
        NoFrame(buf, max);
      }
    }
  }

  /** After the body was read or is still awaited. */
  lemma Settle(stream: bytes, max: uint32, s: InRun, start: nat, op: ReadOp) returns (start': nat)
    requires InInv(stream, max, s, start) && !s.closed
    requires var (c', n, out) := HandleRead(s.c, max, stream[s.at..], op.recv1, op.recv2);
             && s.at + n <= |stream|
             && (out.Body? ==> c'.readBuf == [] && !c'.haveHeader && start + 4 <= s.at + n && out.body == stream[start + 4..s.at + n]
                               && |out.body| == Announced(stream[start..start + 4]) <= max)
             && (!out.Body? ==> c'.haveHeader && c'.readBuf == stream[start..s.at + n]
                                && 4 <= |c'.readBuf| < 4 + c'.expectedLen && c'.expectedLen == Announced(c'.readBuf[..4]) <= max)
    ensures InInv(stream, max, InStep(stream, max, s, op), start')
  {
    hide Frames, HandleRead, Announced, Splits;
    var (c', n, out) := HandleRead(s.c, max, stream[s.at..], op.recv1, op.recv2);
    if out.Body? {
      start' := s.at + n;
      SplitsNext(stream, max, start, start', s.bodies);
      NoFrame(stream[start'..start'], max);
    } else {
      start' := start;
      NoFrame(c'.readBuf, max);
    }
  }

  lemma {:induction false} InRunKeeps(stream: bytes, max: uint32, ops: seq<ReadOp>) returns (start: nat)
    ensures InInv(stream, max, RunIn(stream, max, ops), start)
    decreases |ops|
  {
    hide InStep, Frames;
    if ops == [] {
      start := 0;
      NoFrame(stream[0..0], max);
      assert forall t: bytes :: stream[..0] + t == t && [] + Frames(t, max) == Frames(t, max);
    } else {
      start := InRunKeeps(stream, max, ops[..|ops| - 1]);
      start := InStepKeeps(stream, max, RunIn(stream, max, ops[..|ops| - 1]), start, ops[|ops| - 1]);
    }
  }

  lemma {:induction false} FramesBounded(stream: bytes, max: uint32)
    ensures forall b :: b in Frames(stream, max) ==> |b| <= max
    decreases |stream|
  {
    if |stream| >= 4 && Announced(stream[..4]) <= max && |stream| >= 4 + Announced(stream[..4]) {
      FramesBounded(stream[4 + Announced(stream[..4])..], max);
    }
  }

  /** However the socket splits the stream, and whether or not the connection was closed since, the bodies handed to the parser
      are exactly the whole frames among the bytes read: none is lost, split, merged or invented.  So they are a prefix of
      the decoding of the whole stream, and none is longer than the limit. */
  lemma FramingSafe(stream: bytes, max: uint32, ops: seq<ReadOp>)
    ensures RunIn(stream, max, ops).at <= |stream|
    ensures RunIn(stream, max, ops).bodies == Frames(stream[..RunIn(stream, max, ops).at], max)
    ensures RunIn(stream, max, ops).bodies <= Frames(stream, max)
    ensures forall b :: b in RunIn(stream, max, ops).bodies ==> |b| <= max
  {
    hide Frames, RunIn;
    var start := InRunKeeps(stream, max, ops);
    FramesBounded(stream, max);
    var run, all := RunIn(stream, max, ops), Frames(stream, max);
    assert stream[..start] + stream[start..run.at] == stream[..run.at];
    assert stream[..start] + stream[start..] == stream;
    assert forall i :: 0 <= i < |run.bodies| ==> run.bodies[i] == all[i];
  }

  /** Where the frame being read begins. */
  function FrameStart(s: InRun): int { s.at - |s.c.readBuf| }

  /** When a read event closes the connection: a receive that was needed delivered nothing, the length announced is over the
      limit, or the request completed by it was refused; and when it gets further: when what it waits for is delivered. */
  ghost predicate ClosesAsItShould(stream: bytes, max: uint32, s: InRun, s': InRun, op: ReadOp)
    requires 0 <= FrameStart(s) <= s.at <= |stream| && s'.at <= |stream|
  {
    var body := FrameStart(s) + 4;
    var announced := if s'.at >= body then Announced(stream[FrameStart(s)..body]) else 0;
    && (s'.closed <==>
          || (s'.at < body && op.recv1.Got? && s'.at == s.at)
          || (s'.at >= body && announced > max)
          || (s'.at >= body && announced <= max && s'.bodies == s.bodies && op.recv2.Got? && s'.at == if s.at > body then s.at else body)
          || (s'.bodies != s.bodies && !op.accepted))
    && (s.at < body && s.at < |stream| && op.recv1.Got? && op.recv1.k > 0 ==> s'.at > s.at)
    && (s.at >= body && s.at < |stream| && op.recv2.Got? && op.recv2.k > 0 ==> s'.at > s.at)
  }

  /** So it is for every read event of every run. */
  lemma ClosesExactly(stream: bytes, max: uint32, ops: seq<ReadOp>, op: ReadOp)
    requires !RunIn(stream, max, ops).closed
    ensures var s, s' := RunIn(stream, max, ops), InStep(stream, max, RunIn(stream, max, ops), op);
            0 <= FrameStart(s) <= s.at <= |stream| && s'.at <= |stream| && ClosesAsItShould(stream, max, s, s', op)
  {
    hide Frames, Announced, RunIn, Splits;
    var s := RunIn(stream, max, ops);
    var start := InRunKeeps(stream, max, ops);
    assert s.c.haveHeader ==> s.c.readBuf[..4] == stream[start..start + 4];
    StepCloses(stream, max, s, start, op);
  }

  lemma StepCloses(stream: bytes, max: uint32, s: InRun, start: nat, op: ReadOp)
    requires InInv(stream, max, s, start) && !s.closed && (s.c.haveHeader ==> s.c.readBuf[..4] == stream[start..start + 4])
    ensures var s' := InStep(stream, max, s, op); s'.at <= |stream| && ClosesAsItShould(stream, max, s, s', op)
  {
    hide Frames, Announced, Splits;
    if !s.c.haveHeader {
      var (buf, n, out) := Fill(s.c.readBuf, 4, stream[s.at..], op.recv1);
      FillIsSlice(stream, start, s.at, 4, op.recv1);
      if out.Body? {
        assert buf[..4] == stream[start..start + 4];
        assert |buf| == 4 && s.at + n == start + 4;
      }
    }
  }

  // ================ the connection object ================

  class Connection {
    var readBuf: bytes
    var expectedLen: nat
    var haveHeader: bool
    var writeBuf: bytes
    var writeOffset: nat
    var writeQueue: seq<bytes>
    var armed: bool

    ghost function Input(): In reads this { In(readBuf, expectedLen, haveHeader) }
    ghost function Output(): Out reads this { Out(writeBuf, writeOffset, writeQueue, armed) }

    constructor ()
      ensures Input() == NOTHING_READ && Output() == FRESH
    {
      readBuf, expectedLen, haveHeader := [], 0, false;
      writeBuf, writeOffset, writeQueue, armed := [], 0, [], false;
    }

    /** The tail of handle_read and of drain_cross_reactor_responses. */
    method Respond(data: bytes)
      modifies this
      ensures Output() == Enqueue(old(Output()), data) && Input() == old(Input())
    {
      var wasIdle := writeOffset == 0 && writeBuf == [];
      if wasIdle {
        writeBuf, writeOffset := data, 0;
      } else {
        writeQueue := writeQueue + [data];
      }
      if wasIdle {
        armed := true;
      }
    }

    method AdvanceWriteQueue()
      modifies this
      ensures Output() == Advance(old(Output())) && Input() == old(Input())
    {
      if writeQueue != [] {
        writeBuf, writeOffset, writeQueue := writeQueue[0], 0, writeQueue[1..];
      } else {
        writeBuf, writeOffset, armed := [], 0, false;
      }
    }

    /** `result` is what `send_all` reported for the unsent part; false means the connection is closed. */
    method HandleWrite(result: Option<nat>) returns (open: bool)
      requires result.Some? ==> result.value <= Sendable(Output())
      modifies this
      ensures Input() == old(Input()) && open == result.Some?
      ensures Output() == if open then Sent(old(Output()), result.value) else old(Output())
    {
      if result.None? {
        return false;
      }
      writeOffset := writeOffset + result.value;
      if writeOffset >= |writeBuf| {
        AdvanceWriteQueue();
      }
      return true;
    }

    /** The buffer is grown to `total` bytes and shrunk again to what `recv_all` delivered. */
    method Receive(total: nat, ahead: bytes, recv: Recv) returns (n: nat, out: Outcome)
      modifies this`readBuf
      ensures (readBuf, n, out) == Fill(old(readBuf), total, ahead, recv)
    {
      if |readBuf| >= total {
        return 0, Body([]);
      }
      if recv.Failed? {
        return 0, Waiting;
      }
      n := Clamp(recv.k, total - |readBuf|, |ahead|);
      readBuf := readBuf + ahead[..n];
      if n == 0 {
        return 0, Closed;
      }
      out := if |readBuf| < total then Waiting else Body([]);
    }

    method ReceiveBody(ahead: bytes, recv: Recv, before: nat) returns (consumed: nat, outcome: Outcome)
      modifies this
      ensures (Input(), consumed, outcome) == ReadBody(old(Input()), ahead, recv, before)
      ensures Output() == old(Output())
    {
      hide Fill;
      var n;
      n, outcome := Receive(4 + expectedLen, ahead, recv);
      consumed := before + n;
      if !outcome.Body? {
        return;
      }
      outcome := Body(readBuf[4..]);
      readBuf, haveHeader := [], false;
    }

    method Read(max: uint32, ahead: bytes, recv1: Recv, recv2: Recv) returns (consumed: nat, outcome: Outcome)
      modifies this
      ensures (Input(), consumed, outcome) == HandleRead(old(Input()), max, ahead, recv1, recv2)
      ensures Output() == old(Output())
    {
      hide Announced, Fill, ReadBody;
      consumed := 0;
      if !haveHeader {
        consumed, outcome := Receive(4, ahead, recv1);
        if !outcome.Body? {
          return;
        }
        expectedLen := Announced(readBuf[..4]);
        if expectedLen > max {
          return consumed, Closed;
        }
        haveHeader := true;
      }
      assert ahead[0..] == ahead;
      consumed, outcome := ReceiveBody(ahead[consumed..], recv2, consumed);
    }
  }
}
