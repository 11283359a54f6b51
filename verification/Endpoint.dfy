/**
 From calls to frames and back: the payload codecs, the frames the `send_` functions write
 and the dispatch of incoming requests by operation.
 */
module Endpoint {
  import opened Wrappers
  import opened Bytes
  import opened Serialization
  import opened Frames
  import ChunkCodec
  import Protocol
  import SecondaryNode

  datatype Request =
    | AddMessage(id: SizeT, text: Bytes)
    | GetMessages(start: SizeT)
    | SecondaryNodeReady(name: Bytes)
    | Ping(timestamp: SizeT)

  datatype Response =
    | Status(status: Protocol.AddStatus)
    | Chunk(messages: ChunkCodec.Texts)
    | ReadyAck
    | Pong(timestamp: SizeT)

  function OpOf(q: Request): OpCode {
    match q
    case AddMessage(_, _) => ADD_MESSAGE
    case GetMessages(_) => GET_MESSAGES
    case SecondaryNodeReady(_) => SECONDARY_NODE_READY
    case Ping(_) => PING_PONG
  }

  function AnswersTo(a: Response): OpCode {
    match a
    case Status(_) => ADD_MESSAGE
    case Chunk(_) => GET_MESSAGES
    case ReadyAck => SECONDARY_NODE_READY
    case Pong(_) => PING_PONG
  }

  function RequestPayload(q: Request): Bytes {
    match q
    case AddMessage(id, text) => EncodeSize(id) + text
    case GetMessages(start) => EncodeSize(start)
    case SecondaryNodeReady(name) => name
    case Ping(timestamp) => EncodeSize(timestamp)
  }

  function ResponsePayload(a: Response): Bytes {
    match a
    case Status(status) => [if status.OK? then 0 else 1]
    case Chunk(messages) => ChunkCodec.EncodeChunk(messages)
    case ReadyAck => []
    case Pong(timestamp) => EncodeSize(timestamp)
  }

  /** The whole frame of a request, and of a response. */
  function RequestBytes(id: SizeT, q: Request): Bytes {
    EncodeRequest(RequestFrame(id, OpOf(q), RequestPayload(q)))
  }

  function ResponseBytes(id: SizeT, a: Response): Bytes {
    EncodeResponse(ResponseFrame(id, ResponsePayload(a)))
  }

  /** The frame of a call, byte by byte. */
  lemma {:induction false} CallLayout(id: SizeT, q: Request)
    ensures var b := RequestBytes(id, q);
      && |b| >= 10 && b[0] == 0 && b[1..9] == EncodeSize(id)
      && match q
         case AddMessage(m, text) => b[9] == 0 && |b| >= 18 && b[10..18] == EncodeSize(m) && b[18..] == text
         case GetMessages(start) => b[9] == 1 && b[10..] == EncodeSize(start)
         case SecondaryNodeReady(name) => b[9] == 2 && b[10..] == name
         case Ping(timestamp) => b[9] == 3 && b[10..] == EncodeSize(timestamp)
  {
    hide EncodeSize, EncodeRequest;
    RequestLayout(RequestFrame(id, OpOf(q), RequestPayload(q)));
    if q.AddMessage? {
      var b := RequestBytes(id, q);
      assert b[10..18] == RequestPayload(q)[..8] && b[18..] == RequestPayload(q)[8..];
    }
  }

  /** The frame of an answer, byte by byte, and the call each answer belongs to. */
  lemma {:induction false} AnswerLayout(id: SizeT, a: Response)
    ensures var b := ResponseBytes(id, a);
      && |b| >= 9 && b[0] == 1 && b[1..9] == EncodeSize(id)
      && match a
         case Status(status) => b[9..] == [if status == Protocol.OK then 0 else 1] && AnswersTo(a) == ADD_MESSAGE
         case Chunk(ms) =>
           && |b| >= 17 && b[9..17] == EncodeSize(|ms|) && b[17..] == Sized(ms) && AnswersTo(a) == GET_MESSAGES
         case ReadyAck => b[9..] == [] && AnswersTo(a) == SECONDARY_NODE_READY
         case Pong(timestamp) => b[9..] == EncodeSize(timestamp) && AnswersTo(a) == PING_PONG
  {
    hide EncodeSize, EncodeResponse, Sized;
    ResponseLayout(ResponseFrame(id, ResponsePayload(a)));
    if a.Chunk? {
      var b := ResponseBytes(id, a);
      assert b[9..17] == ResponsePayload(a)[..8] && b[17..] == ResponsePayload(a)[8..];
    }
  }

  // ---- payloads ----

  lemma {:induction false} SizeThen(n: SizeT, rest: Bytes)
    ensures forall m: SizeT, more: Bytes {:trigger EncodeSize(m) + more} ::
      EncodeSize(n) + rest == EncodeSize(m) + more <==> n == m && rest == more
  {
    hide EncodeSize, DecodeSize;
    forall m: SizeT, more: Bytes
      ensures EncodeSize(n) + rest == EncodeSize(m) + more <==> n == m && rest == more
    {
      SamePrefix(EncodeSize(n), rest, EncodeSize(m), more);
      SizeRoundTrip(n, EncodeSize(m));
      SizeRoundTrip(m, EncodeSize(m));
    }
  }

  lemma {:induction false} SizeOnly(n: SizeT)
    ensures forall m: SizeT :: EncodeSize(n) == EncodeSize(m) <==> n == m
  {
    hide EncodeSize, DecodeSize;
    forall m: SizeT ensures EncodeSize(n) == EncodeSize(m) <==> n == m {
      SizeRoundTrip(n, EncodeSize(m));
      SizeRoundTrip(m, EncodeSize(m));
    }
  }

  method AddMessageFromPayload(buffer: Buffer) returns (r: Option<Request>)
    ensures r.Some? ==> r.value.AddMessage?
    ensures forall id: SizeT, text: Bytes ::
      r == Some(AddMessage(id, text)) <==> buffer == Memory(RequestPayload(AddMessage(id, text)))
  {
    hide EncodeSize, DecodeSize;
    var deserializer := new BufferDeserializer(buffer);
    var id := deserializer.DeserializeSize();
    var text := deserializer.DeserializeRest();
    var end := deserializer.AtEnd();
    if id.None? || text.None? || !end {
      return None;
    }
    SizeThen(id.value, text.value);
    r := Some(AddMessage(id.value, text.value));
  }

  lemma OtherLength(bs: Bytes)
    requires |bs| != SIZE_BYTES
    ensures forall n: SizeT :: bs != EncodeSize(n)
  {
    hide EncodeSize;
  }

  lemma {:induction false} SizeAndRest(bs: Bytes, n: SizeT, rest: Bytes)
    requires bs == EncodeSize(n) + rest
    ensures forall m: SizeT :: bs == EncodeSize(m) <==> rest == [] && m == n
  {
    hide EncodeSize;
    if rest == [] {
      assert bs == EncodeSize(n);
      SizeOnly(n);
    } else {
      OtherLength(bs);
    }
  }

  /** A payload that is one 64-bit number and nothing else. */
  method SizeFromPayload(buffer: Buffer) returns (r: Option<SizeT>)
    ensures forall n: SizeT :: r == Some(n) <==> buffer == Memory(EncodeSize(n))
  {
    hide *;
    var deserializer := new BufferDeserializer(buffer);
    var n := deserializer.DeserializeSize();
    var end := deserializer.AtEnd();
    if buffer.Memory? {
      if n.None? {
        OtherLength(buffer.bytes);
      } else {
        SizeAndRest(buffer.bytes, n.value, deserializer.Rest());
      }
    }
    r := if n.None? || !end then None else n;
  }

  method ReadyFromPayload(buffer: Buffer) returns (r: Option<Request>)
    ensures r.Some? ==> r.value.SecondaryNodeReady?
    ensures forall name: Bytes ::
      r == Some(SecondaryNodeReady(name)) <==> buffer == Memory(RequestPayload(SecondaryNodeReady(name)))
  {
    var deserializer := new BufferDeserializer(buffer);
    var name := deserializer.DeserializeRest();
    var end := deserializer.AtEnd();
    if name.None? || !end {
      return None;
    }
    r := Some(SecondaryNodeReady(name.value));
  }

  lemma StatusPayloads()
    ensures forall st :: ResponsePayload(Status(st)) == [if st == Protocol.OK then 0 else 1]
  {
  }

  /** One byte, and one of the two values of the enumeration. */
  method StatusFromPayload(buffer: Buffer) returns (r: Option<Response>)
    ensures r.Some? ==> r.value.Status?
    ensures forall st :: r == Some(Status(st)) <==> buffer == Memory(ResponsePayload(Status(st)))
  {
    StatusPayloads();
    hide ResponsePayload;
    var deserializer := new BufferDeserializer(buffer);
    var status := deserializer.DeserializeByte();
    var end := deserializer.AtEnd();
    if status.None? {
      return None;
    }
    if !end {
      assert buffer.Memory? && |buffer.bytes| > 1;
      return None;
    }
    assert |buffer.bytes| == 1 && buffer.bytes[0] == status.value;
    var statusOk := false;
    if status.value == 0 || status.value == 1 {
      statusOk := true;
    }
    if !statusOk {
      return None;
    }
    assert buffer.bytes == [status.value];
    r := Some(Status(if status.value == 0 then Protocol.OK else Protocol.NOT_ALLOWED));
  }

  method ChunkFromPayload(buffer: Buffer) returns (r: Option<Response>)
    ensures r.Some? ==> r.value.Chunk?
    ensures forall ms: ChunkCodec.Texts ::
      r == Some(Chunk(ms)) <==> buffer == Memory(ResponsePayload(Chunk(ms)))
  {
    hide ChunkCodec.EncodeChunk, ChunkCodec.DecodeChunk;
    var ms := ChunkCodec.FromPayload(buffer);
    if buffer.Memory? {
      forall a: ChunkCodec.Texts ensures ms == Some(a) <==> buffer.bytes == ChunkCodec.EncodeChunk(a) {
        ChunkCodec.ChunkRoundTrip(buffer.bytes, a);
      }
    }
    r := if ms.None? then None else Some(Chunk(ms.value));
  }

  /** Nothing may be left, so a null payload will do as well. */
  method ReadyAckFromPayload(buffer: Buffer) returns (r: Option<Response>)
    ensures r == if buffer.Null? || buffer.bytes == [] then Some(ReadyAck) else None
  {
    var deserializer := new BufferDeserializer(buffer);
    var end := deserializer.AtEnd();
    r := if !end then None else Some(ReadyAck);
  }

  /** Reads the answer a pending request of kind `op` waits for. */
  method ResponseFromPayload(op: OpCode, payload: Bytes) returns (r: Option<Response>)
    ensures forall a :: r == Some(a) <==> AnswersTo(a) == op && payload == ResponsePayload(a)
  {
    hide EncodeSize, ChunkCodec.EncodeChunk;
    match op
    case ADD_MESSAGE =>
      r := StatusFromPayload(Memory(payload));
    case GET_MESSAGES =>
      r := ChunkFromPayload(Memory(payload));
    case SECONDARY_NODE_READY =>
      r := ReadyAckFromPayload(Memory(payload));
    case PING_PONG =>
      var n := SizeFromPayload(Memory(payload));
      r := if n.None? then None else Some(Pong(n.value));
  }

  // ---- whole frames ----

  /** What a payload of kind `op` becomes. */
  method RequestFromPayload(op: OpCode, payload: Bytes) returns (r: Option<Request>)
    ensures forall q :: r == Some(q) <==> OpOf(q) == op && payload == RequestPayload(q)
  {
    hide EncodeSize;
    match op
    case ADD_MESSAGE =>
      r := AddMessageFromPayload(Memory(payload));
    case GET_MESSAGES =>
      var n := SizeFromPayload(Memory(payload));
      r := if n.None? then None else Some(GetMessages(n.value));
    case PING_PONG =>
      var n := SizeFromPayload(Memory(payload));
      r := if n.None? then None else Some(Ping(n.value));
    case SECONDARY_NODE_READY =>
      r := ReadyFromPayload(Memory(payload));
  }

  /** The call, if any, that a frame is. */
  ghost function CallOf(frame: Bytes): (r: Option<(SizeT, Request)>)
    ensures forall id: SizeT, q :: r == Some((id, q)) ==> frame == RequestBytes(id, q)
    ensures r == None ==> forall id: SizeT, q :: frame != RequestBytes(id, q)
  {
    if exists id: SizeT, q :: frame == RequestBytes(id, q) then
      var id: SizeT, q :| frame == RequestBytes(id, q);
      Some((id, q))
    else None
  }

  /** The listener calls `incoming_...(q)` under `id` exactly when the frame is that request's. */
  method OnIncomingFrame(frame: Buffer) returns (r: Option<(SizeT, Request)>)
    ensures forall id: SizeT, q :: r == Some((id, q)) <==> frame == Memory(RequestBytes(id, q))
    ensures frame.Memory? ==> r == CallOf(frame.bytes)
  {
    hide EncodeRequest, RequestPayload;
    var requestFrame := IncomingRequest(frame);
    forall id: SizeT, q ensures frame == Memory(RequestBytes(id, q)) <==>
        requestFrame == Some(RequestFrame(id, OpOf(q), RequestPayload(q))) {
    }
    if requestFrame.None? {
      return None;
    }
    var q := RequestFromPayload(requestFrame.value.opCode, requestFrame.value.payload);
    r := if q.None? then None else Some((requestFrame.value.requestId, q.value));
  }

  /** The frame a request goes out in, piece by piece. */
  method FrameOfRequest(id: SizeT, q: Request) returns (pieces: seq<Bytes>)
    ensures Flatten(pieces) == RequestBytes(id, q)
  {
    hide EncodeSize, EncodeRequest;
    var header := ConstructRequestHeader(id, OpOf(q));
    var out := new BufferSequence(header);
    match q {
      case AddMessage(messageId, text) =>
        out.SerializeSize(messageId);
        out.SerializeMemory(Memory(text));
      case GetMessages(start) => out.SerializeSize(start);
      case SecondaryNodeReady(name) => out.SerializeMemory(Memory(name));
      case Ping(timestamp) => out.SerializeSize(timestamp);
    }
    pieces := out.pieces;
    assert Flatten(pieces) == Flatten(header) + RequestPayload(q);
  }

  method FrameOfResponse(id: SizeT, a: Response) returns (pieces: seq<Bytes>)
    ensures Flatten(pieces) == ResponseBytes(id, a)
  {
    hide EncodeSize, EncodeResponse, ChunkCodec.EncodeChunk;
    var header := ConstructResponseHeader(id);
    var out := new BufferSequence(header);
    match a {
      case Status(status) => out.SerializeMemory(Memory([if status.OK? then 0 else 1]));
      case Chunk(messages) => ChunkCodec.SerializePayload(messages, out);
      case ReadyAck =>
      case Pong(timestamp) => out.SerializeSize(timestamp);
    }
    pieces := out.pieces;
    assert Flatten(pieces) == Flatten(header) + ResponsePayload(a);
  }

  /**
   Frames determine calls: a request frame its id and call, a response frame its id and,
   given what was asked, its answer.  No frame is taken for both.
   */
  lemma {:induction false} FramesDetermineCalls(
      i: SizeT, q: Request, j: SizeT, p: Request, k: SizeT, a: Response, l: SizeT, b: Response)
    ensures RequestBytes(i, q) == RequestBytes(j, p) ==> i == j && q == p
    ensures ResponseBytes(k, a) == ResponseBytes(l, b) && AnswersTo(a) == AnswersTo(b) ==> k == l && a == b
    ensures RequestBytes(i, q) != ResponseBytes(k, a)
  {
    hide EncodeRequest, EncodeResponse;
    FramesAreDistinct(
      RequestFrame(i, OpOf(q), RequestPayload(q)), RequestFrame(j, OpOf(p), RequestPayload(p)),
      ResponseFrame(k, ResponsePayload(a)), ResponseFrame(l, ResponsePayload(b)));
    RequestPayloadsAreDistinct(q, p);
    ResponsePayloadsAreDistinct(a, b);
  }

  /** What an endpoint sends over its socket: its own calls, and answers to the peer's. */
  datatype Sent = Call(id: SizeT, request: Request) | Answer(id: SizeT, response: Response)

  function SentBytes(x: Sent): Bytes {
    match x
    case Call(id, q) => RequestBytes(id, q)
    case Answer(id, a) => ResponseBytes(id, a)
  }

  /** A frame is taken for what was sent and for nothing else. */
  lemma {:induction false} SentIsRecognised(x: Sent)
    ensures CallOf(SentBytes(x)) == if x.Call? then Some((x.id, x.request)) else None
    ensures ResponseOf(SentBytes(x)) == if x.Call? then None else Some(ResponseFrame(x.id, ResponsePayload(x.response)))
  {
    hide RequestPayload, ResponsePayload, EncodeRequest, EncodeResponse;
    var q, a := GetMessages(0), ReadyAck;
    var call, response := CallOf(SentBytes(x)), ResponseOf(SentBytes(x));
    match x {
      case Call(id, q) =>
        FramesDetermineCalls(id, q, call.value.0, call.value.1, id, a, id, a);
        if response.Some? {
          FramesAreDistinct(RequestFrame(id, OpOf(q), RequestPayload(q)), RequestFrame(id, OpOf(q), RequestPayload(q)),
                            response.value, response.value);
        }
      case Answer(id, a) =>
        if call.Some? {
          FramesDetermineCalls(call.value.0, call.value.1, id, q, id, a, id, a);
        }
        FramesAreDistinct(RequestFrame(id, OpOf(q), []), RequestFrame(id, OpOf(q), []),
                          ResponseFrame(id, ResponsePayload(a)), response.value);
    }
  }

  lemma {:induction false} RequestPayloadsAreDistinct(q: Request, p: Request)
    ensures OpOf(q) == OpOf(p) && RequestPayload(q) == RequestPayload(p) ==> q == p
  {
    hide EncodeSize;
    if OpOf(q) == OpOf(p) && RequestPayload(q) == RequestPayload(p) {
      match q {
        case AddMessage(id, text) => SizeThen(id, text);
        case GetMessages(start) => SizeOnly(start);
        case SecondaryNodeReady(_) =>
        case Ping(timestamp) => SizeOnly(timestamp);
      }
    }
  }

  lemma {:induction false} ResponsePayloadsAreDistinct(a: Response, b: Response)
    ensures AnswersTo(a) == AnswersTo(b) && ResponsePayload(a) == ResponsePayload(b) ==> a == b
  {
    hide EncodeSize, ChunkCodec.EncodeChunk, ChunkCodec.DecodeChunk;
    if AnswersTo(a) == AnswersTo(b) && ResponsePayload(a) == ResponsePayload(b) {
      match a {
        case Status(_) =>
        case Chunk(ms) =>
          ChunkCodec.ChunkRoundTrip(ChunkCodec.EncodeChunk(ms), ms);
          ChunkCodec.ChunkRoundTrip(ChunkCodec.EncodeChunk(ms), b.messages);
        case ReadyAck =>
        case Pong(timestamp) => SizeOnly(timestamp);
      }
    }
  }

  // ---- the replies of the protocol ----

  /** A chunk whose lengths fit their 64-bit fields. */
  predicate Fits(reply: Protocol.Reply) {
    reply.Texts? ==>
      |reply.texts| < SIZE_LIMIT && forall k :: 0 <= k < |reply.texts| ==> |reply.texts[k]| < SIZE_LIMIT
  }

  function ReplyOnWire(reply: Protocol.Reply): Response
    requires Fits(reply)
  {
    match reply
    case Texts(texts, _) => Chunk(texts)
    case Ack => ReadyAck
  }

  function CallOp(call: SecondaryNode.Call): OpCode {
    if call.GetMessages? then GET_MESSAGES else SECONDARY_NODE_READY
  }

  /**
   The protocol's `Parse` is what the payload decoders do: the bytes of an answer decode as
   an answer to `call` exactly when the answer has the kind `call` asks for, and then to
   that answer.  So no chunk passes for an acknowledgement, nor the other way round.
   */
  lemma {:induction false} ParseIsDecoding(call: SecondaryNode.Call, reply: Protocol.Reply, a: Response)
    requires Fits(reply)
    ensures AnswersTo(a) == CallOp(call) && ResponsePayload(ReplyOnWire(reply)) == ResponsePayload(a) <==>
            Protocol.Parse(call, reply) == Some(reply) && a == ReplyOnWire(reply)
  {
    hide EncodeSize;
    var b := ReplyOnWire(reply);
    if AnswersTo(a) == AnswersTo(b) {
      ResponsePayloadsAreDistinct(a, b);
    } else {
      assert forall ms: ChunkCodec.Texts :: |ChunkCodec.EncodeChunk(ms)| >= SIZE_BYTES;
    }
  }
}
