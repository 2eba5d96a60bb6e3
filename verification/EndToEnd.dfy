/** Codec and connection together: requests reach the parser intact however the socket splits them, and responses reach
    the client intact and in order however it takes them. */
module EndToEnd {
  import opened Bytes
  import opened Wire
  import opened Protocol
  import opened Connection
  import Q = Requests
  import QL = RequestLaws
  import P = Responses
  import PL = ResponseLaws

  /** A body behind its length. */
  function PutFrame(body: bytes, rest: bytes): bytes
    requires |body| < 0x8000_0000
  {
    PutInt32(|body|, PutBytes(body, rest))
  }

  ghost predicate Sendables(bodies: seq<bytes>, max: uint32) { max < 0x8000_0000 && forall b :: b in bodies ==> |b| <= max }

  function Stream(bodies: seq<bytes>): bytes
    requires forall b :: b in bodies ==> |b| < 0x8000_0000
  {
    if bodies == [] then [] else PutFrame(bodies[0], Stream(bodies[1..]))
  }

  lemma FirstFrame(body: bytes, rest: bytes, max: uint32)
    requires |body| <= max < 0x8000_0000
    ensures Frames(PutFrame(body, rest), max) == [body] + Frames(rest, max)
  {
    hide BE32, Decode32;
    var s := PutFrame(body, rest);
    DecodeInvertsEncode32(|body|);
    assert s[..4] == BE32(|body|);
    assert s[4..4 + |body|] == body && s[4 + |body|..] == rest;
  }

  lemma {:induction false} StreamFrames(bodies: seq<bytes>, max: uint32)
    requires Sendables(bodies, max)
    ensures Frames(Stream(bodies), max) == bodies
  {
    hide Frames, PutFrame;
    if bodies != [] {
      StreamFrames(bodies[1..], max);
      FirstFrame(bodies[0], Stream(bodies[1..]), max);
    } else {
      NoFrames(max);
    }
  }

  lemma NoFrames(max: uint32)
    ensures Frames([], max) == []
  {
  }

  /** What arrived of a stream decodes to the first of its frames. */
  lemma {:induction false} FramesPrefix(part: bytes, whole: bytes, max: uint32)
    requires part <= whole
    ensures Frames(part, max) <= Frames(whole, max)
    decreases |part|
  {
    hide Announced;
    if |part| >= 4 {
      assert part[..4] == whole[..4];
      var len := Announced(part[..4]);
      if len <= max && |part| >= 4 + len {
        assert part[4..4 + len] == whole[4..4 + len];
        assert part[4 + len..] <= whole[4 + len..];
        FramesPrefix(part[4 + len..], whole[4 + len..], max);
      }
    }
  }

  /** Of a stream cut anywhere, exactly the frames whose last byte is there are decoded. */
  lemma {:induction false} FramesSoFar(bodies: seq<bytes>, at: nat, max: uint32, j: nat)
    requires Sendables(bodies, max) && at <= |Stream(bodies)| && j <= |bodies|
    ensures j <= |Frames(Stream(bodies)[..at], max)| <==> |Stream(bodies[..j])| <= at
  {
    hide Frames, PutFrame;
    if bodies == [] || j == 0 {
      assert bodies[..j] == [];
    } else {
      var first, rest := bodies[0], bodies[1..];
      assert bodies[..j][1..] == rest[..j - 1] && bodies[..j][0] == first;
      FirstFramePart(first, Stream(rest), at, max);
      FirstFramePart(first, Stream(rest[..j - 1]), 0, max);
      if at >= 4 + |first| {
        FramesSoFar(rest, at - 4 - |first|, max, j - 1);
      }
    }
  }

  lemma FirstFramePart(body: bytes, rest: bytes, at: nat, max: uint32)
    requires |body| <= max < 0x8000_0000 && at <= |PutFrame(body, rest)|
    ensures |PutFrame(body, rest)| == 4 + |body| + |rest|
    ensures Frames(PutFrame(body, rest)[..at], max) ==
            if at < 4 + |body| then [] else [body] + Frames(rest[..at - 4 - |body|], max)
  {
    hide BE32, Decode32, Frames;
    var s := PutFrame(body, rest)[..at];
    DecodeInvertsEncode32(|body|);
    if at < 4 + |body| {
      assert at >= 4 ==> s[..4] == BE32(|body|);
      NoFrame(s, max);
    } else {
      assert s == PutFrame(body, rest[..at - 4 - |body|]);
      FirstFrame(body, rest[..at - 4 - |body|], max);
    }
  }

  // ================ requests ================

  datatype Call = Call(envelope: Q.Envelope, request: Request)

  ghost predicate Encodes(c: Call, body: bytes)
  {
    Q.ValidEnvelope(c.envelope) && Q.Encodable(c.request) && body == Q.Encode(c.envelope, c.request)
  }

  /** A client that sends framed requests: whatever the socket delivers when, a request is handed to the parser exactly when
      its last byte was read, in the order sent, and is accepted as the request it is.  What is lost when the connection
      closes is only what was not read. */
  lemma RequestsSurviveChunking(calls: seq<Call>, bodies: seq<bytes>, max: uint32, ops: seq<ReadOp>)
    requires |bodies| == |calls| && Sendables(bodies, max) && forall i :: 0 <= i < |calls| ==> Encodes(calls[i], bodies[i])
    ensures var parsed, at := RunIn(Stream(bodies), max, ops).bodies, RunIn(Stream(bodies), max, ops).at;
            && |parsed| <= |calls|
            && (forall j :: 0 <= j <= |calls| ==> (j <= |parsed| <==> |Stream(bodies[..j])| <= at))
            && forall i :: 0 <= i < |parsed| ==> Q.Parse(parsed[i]) == Q.Accepted(calls[i].request)
  {
    hide RunIn, Frames, Stream, Q.Parse, Q.Encode, Q.Encodable, Q.ValidEnvelope;
    FramingSafe(Stream(bodies), max, ops);
    StreamFrames(bodies, max);
    var parsed, at := RunIn(Stream(bodies), max, ops).bodies, RunIn(Stream(bodies), max, ops).at;
    forall j | 0 <= j <= |calls|
      ensures j <= |parsed| <==> |Stream(bodies[..j])| <= at
    {
      FramesSoFar(bodies, at, max, j);
    }
    forall i | 0 <= i < |parsed|
      ensures Q.Parse(parsed[i]) == Q.Accepted(calls[i].request)
    {
      assert Encodes(calls[i], bodies[i]) && parsed[i] == bodies[i];
      QL.ParseInvertsEncode(calls[i].envelope, calls[i].request);
    }
  }

  // ================ responses ================

  ghost predicate Answers(rs: seq<Response>, sent: seq<bytes>, max: uint32)
  {
    && |rs| == |sent| && max < 0x8000_0000
    && forall i :: 0 <= i < |rs| ==> P.Decodable(rs[i]) && sent[i] == P.Frame(rs[i]) && |P.PutBody(rs[i], [])| <= max
  }

  ghost function Bodies(rs: seq<Response>): (bs: seq<bytes>)
    ensures |bs| == |rs| && forall i :: 0 <= i < |rs| ==> bs[i] == P.PutBody(rs[i], [])
  {
    seq(|rs|, i requires 0 <= i < |rs| => P.PutBody(rs[i], []))
  }

  lemma FrameIsPutFrame(r: Response, rest: bytes)
    requires |P.PutBody(r, [])| < 0x8000_0000
    ensures P.Frame(r) + rest == PutFrame(P.PutBody(r, []), rest)
  {
    hide P.PutBody, BE32;
    var body := P.PutBody(r, []);
    assert BE32(|body|) + body + rest == BE32(|body|) + (body + rest);
  }

  lemma {:induction false} ConcatIsStream(rs: seq<Response>, sent: seq<bytes>, max: uint32)
    requires Answers(rs, sent, max)
    ensures Sendables(Bodies(rs), max) && Concat(sent) == Stream(Bodies(rs))
  {
    hide P.Frame, P.PutBody, P.Decodable, PutFrame;
    if rs != [] {
      assert Answers(rs[1..], sent[1..], max);
      ConcatIsStream(rs[1..], sent[1..], max);
      assert Bodies(rs)[1..] == Bodies(rs[1..]);
      FrameIsPutFrame(rs[0], Stream(Bodies(rs[1..])));
    }
  }

  /** A client that splits what it received by the length prefixes and knows what it asked for decodes, in order, the
      responses it was given, and all of them once nothing is unsent, whatever the socket took when. */
  lemma ResponsesArriveInOrder(ops: seq<OutOp>, rs: seq<Response>, max: uint32)
    requires forall op :: op in ops ==> (op.Respond? ==> op.data != [])
    requires Answers(rs, RunOut(ops).responses, max)
    ensures var got := Frames(RunOut(ops).wire, max);
            && |got| <= |rs| && (Unsent(RunOut(ops).o) == [] ==> |got| == |rs|)
            && forall i :: 0 <= i < |got| ==> P.DecodeBody(P.KindOf(rs[i]), got[i]) == Some(P.Sent(rs[i]))
  {
    hide RunOut, Frames, Concat, Unsent, Stream, P.DecodeBody, P.PutBody, P.Decodable, P.Frame, P.Sent;
    OutputExactlyOnceInOrder(ops);
    var out, bodies := RunOut(ops), Bodies(rs);
    ConcatIsStream(rs, out.responses, max);
    StreamFrames(bodies, max);
    assert out.wire <= out.wire + Unsent(out.o) && out.wire + [] == out.wire;
    FramesPrefix(out.wire, Stream(bodies), max);
    var got := Frames(out.wire, max);
    forall i | 0 <= i < |got|
      ensures P.DecodeBody(P.KindOf(rs[i]), got[i]) == Some(P.Sent(rs[i]))
    {
      assert got[i] == bodies[i] && P.Decodable(rs[i]);
      PL.DecodeInvertsBody(rs[i]);
    }
  }
}
