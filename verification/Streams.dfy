/** What one end writes and the other end reads. */
module Streams {
  import opened Bytes
  import opened Serialization
  import opened SocketWriter
  import Endpoint
  import FrameReader
  import F = Frames

  /**
   Whatever the writer went through, however far the stream got and wherever it was cut, the
   reader has handed out a prefix of the frames that were started, themselves a prefix of
   those issued: in order and byte for byte.  A frame whose callback reported success is
   among them as soon as the bytes up to its end have arrived, and not before.
   */
  lemma {:induction false} FramesArriveInOrder(es: seq<Step>, s: Writer, segments: seq<Bytes>)
    requires Run(SocketWriter.START, es, s) && Flatten(segments) <= s.wire
    ensures FrameReader.FeedSegments(FrameReader.START, segments).frames <= Frames(s.started) <= Frames(s.issued)
    ensures forall c: nat {:trigger Called(c, true) in s.called} :: Called(c, true) in s.called ==>
      c < |s.issued| &&
      (c < |FrameReader.FeedSegments(FrameReader.START, segments).frames| <==>
       |Sized(Frames(s.issued[..c + 1]))| <= |Flatten(segments)|)
  {
    WriteQueue(es, s);
    SuccessMeansSent(es, s);
    hide Run, Sized, FrameReader.FeedAll;
    FrameReader.SegmentsAreOne(FrameReader.START, segments);
    var all := Frames(s.started);
    FrameReader.StreamIsExact(all, Flatten(segments));
    forall c: nat | Called(c, true) in s.called
      ensures c < |all| && all[..c + 1] == Frames(s.issued[..c + 1])
    {
      assert s.started[..c + 1] == s.issued[..c + 1];
    }
  }

  // ---- calls and answers ----

  /** What was sent as a call, and as a response: one or none. */
  function AsCall(x: Endpoint.Sent): seq<(SizeT, Endpoint.Request)> {
    if x.Call? then [(x.id, x.request)] else []
  }

  function AsResponse(x: Endpoint.Sent): seq<F.ResponseFrame> {
    if x.Call? then [] else [F.ResponseFrame(x.id, Endpoint.ResponsePayload(x.response))]
  }

  /** The calls and the responses that were sent, each in their order. */
  function CallsSent(xs: seq<Endpoint.Sent>): seq<(SizeT, Endpoint.Request)>
    decreases |xs|
  {
    if xs == [] then [] else AsCall(xs[0]) + CallsSent(xs[1..])
  }

  function ResponsesSent(xs: seq<Endpoint.Sent>): seq<F.ResponseFrame>
    decreases |xs|
  {
    if xs == [] then [] else AsResponse(xs[0]) + ResponsesSent(xs[1..])
  }

  /** Those that the two managers make of the frames handed out. */
  ghost function CallsIn(frames: seq<Text>): seq<(SizeT, Endpoint.Request)>
    decreases |frames|
  {
    if frames == [] then []
    else
      var call := Endpoint.CallOf(frames[0]);
      (if call.Some? then [call.value] else []) + CallsIn(frames[1..])
  }

  ghost function ResponsesIn(frames: seq<Text>): seq<F.ResponseFrame>
    decreases |frames|
  {
    if frames == [] then []
    else
      var response := F.ResponseOf(frames[0]);
      (if response.Some? then [response.value] else []) + ResponsesIn(frames[1..])
  }

  lemma {:induction false} SentIsReceived(frames: seq<Text>, xs: seq<Endpoint.Sent>)
    requires |frames| == |xs| && forall k :: 0 <= k < |xs| ==> frames[k] == Endpoint.SentBytes(xs[k])
    ensures CallsIn(frames) == CallsSent(xs) && ResponsesIn(frames) == ResponsesSent(xs)
    decreases |xs|
  {
    if xs != [] {
      Endpoint.SentIsRecognised(xs[0]);
      hide Endpoint.CallOf, F.ResponseOf, Endpoint.SentBytes, Endpoint.ResponsePayload;
      SentIsReceived(frames[1..], xs[1..]);
    }
  }

  lemma {:induction false} SentAppend(xs: seq<Endpoint.Sent>, ys: seq<Endpoint.Sent>)
    ensures CallsSent(xs + ys) == CallsSent(xs) + CallsSent(ys)
    ensures ResponsesSent(xs + ys) == ResponsesSent(xs) + ResponsesSent(ys)
    decreases |xs|
  {
    hide AsCall, AsResponse;
    if xs == [] {
      assert xs + ys == ys;
    } else {
      assert (xs + ys)[1..] == xs[1..] + ys;
      SentAppend(xs[1..], ys);
    }
  }

  lemma {:induction false} PrefixIsReceived(frames: seq<Text>, issued: seq<PendingWrite>, sent: seq<Endpoint.Sent>)
    requires frames <= Frames(issued) && |sent| == |issued|
    requires forall k :: 0 <= k < |sent| ==> Flatten(issued[k].frame) == Endpoint.SentBytes(sent[k])
    ensures |frames| <= |sent|
    ensures CallsIn(frames) == CallsSent(sent[..|frames|]) <= CallsSent(sent)
    ensures ResponsesIn(frames) == ResponsesSent(sent[..|frames|]) <= ResponsesSent(sent)
  {
    hide Endpoint.SentBytes, CallsIn, ResponsesIn, CallsSent, ResponsesSent;
    var n := |frames|;
    assert frames == Frames(issued)[..n];
    SentIsReceived(frames, sent[..n]);
    SentAppend(sent[..n], sent[n..]);
    assert sent[..n] + sent[n..] == sent;
  }

  /**
   Socket to signal: when every frame given to the writer is that of a call or of an answer,
   the calls that the far end recognises are a prefix of the calls sent, in order and
   unchanged, and so are the responses; together they are all of what has arrived whole.
   */
  lemma {:induction false} CallsArriveInOrder(
      es: seq<Step>, s: Writer, segments: seq<Bytes>, sent: seq<Endpoint.Sent>)
    requires Run(SocketWriter.START, es, s) && Flatten(segments) <= s.wire
    requires |sent| == |s.issued|
    requires forall k :: 0 <= k < |sent| ==> Flatten(s.issued[k].frame) == Endpoint.SentBytes(sent[k])
    ensures var frames := FrameReader.FeedSegments(FrameReader.START, segments).frames;
      && |frames| <= |sent|
      && CallsIn(frames) == CallsSent(sent[..|frames|]) <= CallsSent(sent)
      && ResponsesIn(frames) == ResponsesSent(sent[..|frames|]) <= ResponsesSent(sent)
  {
    FramesArriveInOrder(es, s, segments);
    hide *;
    PrefixIsReceived(FrameReader.FeedSegments(FrameReader.START, segments).frames, s.issued, sent);
  }
}
