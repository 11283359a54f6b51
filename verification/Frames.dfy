/** Frame headers: the event type, the request id and, in a request, the operation. */
module Frames {
  import opened Wrappers
  import opened Bytes
  import opened Serialization

  datatype EventType = REQUEST | RESPONSE
  datatype OpCode = ADD_MESSAGE | GET_MESSAGES | SECONDARY_NODE_READY | PING_PONG

  datatype RequestFrame = RequestFrame(requestId: SizeT, opCode: OpCode, payload: Bytes)
  datatype ResponseFrame = ResponseFrame(requestId: SizeT, payload: Bytes)

  function EventByte(e: EventType): Byte {
    match e case REQUEST => 0 case RESPONSE => 1
  }

  function OpByte(op: OpCode): Byte {
    match op
    case ADD_MESSAGE => 0
    case GET_MESSAGES => 1
    case SECONDARY_NODE_READY => 2
    case PING_PONG => 3
  }

  function EncodeRequest(f: RequestFrame): Bytes {
    [EventByte(REQUEST)] + EncodeSize(f.requestId) + [OpByte(f.opCode)] + f.payload
  }

  function EncodeResponse(f: ResponseFrame): Bytes {
    [EventByte(RESPONSE)] + EncodeSize(f.requestId) + f.payload
  }

  // ---- the layout, byte by byte ----

  lemma {:induction false} RequestLayout(f: RequestFrame)
    ensures var b := EncodeRequest(f);
      && |b| == 10 + |f.payload| && b[0] == 0 && b[1..9] == EncodeSize(f.requestId) && b[10..] == f.payload
      && (f.opCode == ADD_MESSAGE <==> b[9] == 0)
      && (f.opCode == GET_MESSAGES <==> b[9] == 1)
      && (f.opCode == SECONDARY_NODE_READY <==> b[9] == 2)
      && (f.opCode == PING_PONG <==> b[9] == 3)
  {
    hide EncodeSize;
  }

  lemma {:induction false} ResponseLayout(f: ResponseFrame)
    ensures var b := EncodeResponse(f);
      |b| == 9 + |f.payload| && b[0] == 1 && b[1..9] == EncodeSize(f.requestId) && b[9..] == f.payload
  {
    hide EncodeSize;
  }

  // ---- it leaves no ambiguity ----

  lemma {:induction false} SamePrefix(a: Bytes, x: Bytes, b: Bytes, y: Bytes)
    requires |a| == |b|
    ensures a + x == b + y <==> a == b && x == y
  {
    Cut(a, x);
    Cut(b, y);
  }

  lemma {:induction false} RequestFields(e: Byte, id: SizeT, op: Byte, rest: Bytes, f: RequestFrame)
    ensures [e] + EncodeSize(id) + [op] + rest == EncodeRequest(f) <==>
            e == EventByte(REQUEST) && id == f.requestId && op == OpByte(f.opCode) && rest == f.payload
  {
    hide EncodeSize, DecodeSize;
    var head := [EventByte(REQUEST)] + EncodeSize(f.requestId);
    SamePrefix([e] + EncodeSize(id) + [op], rest, head + [OpByte(f.opCode)], f.payload);
    SamePrefix([e] + EncodeSize(id), [op], head, [OpByte(f.opCode)]);
    SamePrefix([e], EncodeSize(id), [EventByte(REQUEST)], EncodeSize(f.requestId));
    SizeRoundTrip(id, EncodeSize(f.requestId));
    SizeRoundTrip(f.requestId, EncodeSize(f.requestId));
  }

  lemma {:induction false} ResponseFields(e: Byte, id: SizeT, rest: Bytes, f: ResponseFrame)
    ensures [e] + EncodeSize(id) + rest == EncodeResponse(f) <==>
            e == EventByte(RESPONSE) && id == f.requestId && rest == f.payload
  {
    hide EncodeSize, DecodeSize;
    SamePrefix([e] + EncodeSize(id), rest, [EventByte(RESPONSE)] + EncodeSize(f.requestId), f.payload);
    SamePrefix([e], EncodeSize(id), [EventByte(RESPONSE)], EncodeSize(f.requestId));
    SizeRoundTrip(id, EncodeSize(f.requestId));
    SizeRoundTrip(f.requestId, EncodeSize(f.requestId));
  }

  /** The frame determines what was written, and no frame is both a request and a response. */
  lemma {:induction false} FramesAreDistinct(f: RequestFrame, g: RequestFrame, p: ResponseFrame, q: ResponseFrame)
    ensures EncodeRequest(f) == EncodeRequest(g) ==> f == g
    ensures EncodeResponse(p) == EncodeResponse(q) ==> p == q
    ensures EncodeRequest(f) != EncodeResponse(p)
  {
    RequestFields(EventByte(REQUEST), f.requestId, OpByte(f.opCode), f.payload, g);
    ResponseFields(EventByte(RESPONSE), p.requestId, p.payload, q);
    hide EncodeSize;
    assert EncodeRequest(f)[0] == EventByte(REQUEST) && EncodeResponse(p)[0] == EventByte(RESPONSE);
  }

  // ---- the code ----

  /** Every frame starts with its event type and has room for an id. */
  lemma RequestHeads()
    ensures forall f :: |EncodeRequest(f)| >= SIZE_BYTES + 2 && EncodeRequest(f)[0] == EventByte(REQUEST)
  {
    hide EncodeSize;
  }

  lemma ResponseHeads()
    ensures forall f :: |EncodeResponse(f)| >= SIZE_BYTES + 1 && EncodeResponse(f)[0] == EventByte(RESPONSE)
  {
    hide EncodeSize;
  }

  method ParseEventType(frame: Buffer) returns (r: Option<EventType>)
    ensures r == Some(REQUEST) <==> frame.Memory? && frame.bytes != [] && frame.bytes[0] == 0
    ensures r == Some(RESPONSE) <==> frame.Memory? && frame.bytes != [] && frame.bytes[0] == 1
  {
    var deserializer := new BufferDeserializer(frame);
    var eventType := deserializer.DeserializeByte();
    if eventType.None? {
      return None;
    }
    if eventType.value == EventByte(REQUEST) {
      return Some(REQUEST);
    }
    if eventType.value == EventByte(RESPONSE) {
      return Some(RESPONSE);
    }
    return None;
  }

  /** The request frames that go on with `rest` behind the id. */
  lemma {:induction false} RequestsMatching(e: Byte, id: SizeT, rest: Bytes, all: Bytes)
    requires all == [e] + EncodeSize(id) + rest && rest != []
    ensures forall f :: all == EncodeRequest(f) <==>
            e == EventByte(REQUEST) && id == f.requestId && rest[0] == OpByte(f.opCode) && rest[1..] == f.payload
  {
    hide EncodeSize, EncodeRequest, OpByte;
    assert [e] + EncodeSize(id) + ([rest[0]] + rest[1..]) == [e] + EncodeSize(id) + [rest[0]] + rest[1..];
    assert rest == [rest[0]] + rest[1..];
    forall f
      ensures all == EncodeRequest(f) <==>
              e == EventByte(REQUEST) && id == f.requestId && rest[0] == OpByte(f.opCode) && rest[1..] == f.payload
    {
      RequestFields(e, id, rest[0], rest[1..], f);
    }
  }

  lemma {:induction false} ResponsesMatching(e: Byte, id: SizeT, rest: Bytes)
    ensures forall f :: [e] + EncodeSize(id) + rest == EncodeResponse(f) <==>
            e == EventByte(RESPONSE) && id == f.requestId && rest == f.payload
  {
    hide EncodeSize, EncodeResponse;
    forall f
      ensures [e] + EncodeSize(id) + rest == EncodeResponse(f) <==>
              e == EventByte(RESPONSE) && id == f.requestId && rest == f.payload
    {
      ResponseFields(e, id, rest, f);
    }
  }

  /** The part both kinds of frame share: the expected event type, then the id. */
  method ReadHeader(deserializer: BufferDeserializer, e: EventType) returns (id: Option<SizeT>)
    requires deserializer.Valid()
    modifies deserializer`current
    ensures deserializer.Valid()
    ensures id.Some? ==> old(deserializer.Rest()) == [EventByte(e)] + EncodeSize(id.value) + deserializer.Rest()
    ensures id.None? ==> |old(deserializer.Rest())| <= SIZE_BYTES || old(deserializer.Rest())[0] != EventByte(e)
  {
    hide EncodeSize, DecodeSize;
    var eventType := deserializer.DeserializeByte();
    if eventType.None? {
      return None;
    }
    if eventType.value != EventByte(e) {
      return None;
    }
    ghost var rest := deserializer.Rest();
    id := deserializer.DeserializeSize();
    if id.Some? {
      HeaderJoins(EventByte(e), EncodeSize(id.value), deserializer.Rest(), old(deserializer.Rest()));
    }
  }

  lemma HeaderJoins(e: Byte, id: Bytes, rest: Bytes, all: Bytes)
    requires all != [] && all[0] == e && all[1..] == id + rest
    ensures all == [e] + id + rest
  {
    assert all == [e] + all[1..];
    assert [e] + (id + rest) == [e] + id + rest;
  }

  method ReadOpCode(deserializer: BufferDeserializer) returns (byte: Option<Byte>, r: Option<OpCode>)
    requires deserializer.Valid()
    modifies deserializer`current
    ensures deserializer.Valid()
    ensures byte.Some? <==> old(deserializer.Rest()) != []
    ensures byte.Some? ==> byte.value == old(deserializer.Rest())[0]
    ensures byte.Some? ==> deserializer.Rest() == old(deserializer.Rest())[1..]
    ensures forall op :: r == Some(op) <==> byte == Some(OpByte(op))
    ensures byte == Some(0) ==> r == Some(ADD_MESSAGE)
    ensures byte == Some(1) ==> r == Some(GET_MESSAGES)
    ensures byte == Some(2) ==> r == Some(SECONDARY_NODE_READY)
    ensures byte == Some(3) ==> r == Some(PING_PONG)
  {
    byte := deserializer.DeserializeByte();
    if byte.None? {
      return byte, None;
    }
    match byte.value
    case 0 => r := Some(ADD_MESSAGE);
    case 1 => r := Some(GET_MESSAGES);
    case 2 => r := Some(SECONDARY_NODE_READY);
    case 3 => r := Some(PING_PONG);
    case _ => r := None;
  }

  /** Succeeds with `f` on the frame of `f` and on nothing else. */
  method ParseRequestFrame(frame: Buffer) returns (r: Option<RequestFrame>)
    ensures forall f :: r == Some(f) <==> frame == Memory(EncodeRequest(f))
  {
    RequestHeads();
    hide EncodeSize, DecodeSize, EncodeRequest, OpByte;
    var deserializer := new BufferDeserializer(frame);
    var requestId := ReadHeader(deserializer, REQUEST);
    if requestId.None? {
      return None;
    }
    ghost var rest := deserializer.Rest();
    var byte, opCode := ReadOpCode(deserializer);
    if byte.None? {
      assert |frame.bytes| == SIZE_BYTES + 1;
      return None;
    }
    var payload := deserializer.Leftover();
    RequestsMatching(EventByte(REQUEST), requestId.value, rest, frame.bytes);
    if opCode.None? {
      return None;
    }
    r := Some(RequestFrame(requestId.value, opCode.value, payload.bytes));
  }

  method ParseResponseFrame(frame: Buffer) returns (r: Option<ResponseFrame>)
    ensures forall f :: r == Some(f) <==> frame == Memory(EncodeResponse(f))
  {
    ResponseHeads();
    hide EncodeSize, DecodeSize, EncodeResponse;
    var deserializer := new BufferDeserializer(frame);
    var requestId := ReadHeader(deserializer, RESPONSE);
    if requestId.None? {
      return None;
    }
    var payload := deserializer.Leftover();
    ResponsesMatching(EventByte(RESPONSE), requestId.value, payload.bytes);
    r := Some(ResponseFrame(requestId.value, payload.bytes));
  }

  /** What the manager of incoming requests makes of a frame: all else is not for it. */
  method IncomingRequest(frame: Buffer) returns (r: Option<RequestFrame>)
    ensures forall f :: r == Some(f) <==> frame == Memory(EncodeRequest(f))
  {
    RequestHeads();
    hide EncodeRequest;
    var eventType := ParseEventType(frame);
    if eventType != Some(REQUEST) {
      return None;
    }
    r := ParseRequestFrame(frame);
  }

  /** The response, if any, that a frame is. */
  ghost function ResponseOf(frame: Bytes): (r: Option<ResponseFrame>)
    ensures forall f :: r == Some(f) ==> frame == EncodeResponse(f)
    ensures r == None ==> forall f :: frame != EncodeResponse(f)
  {
    if exists f :: frame == EncodeResponse(f) then
      var f :| frame == EncodeResponse(f);
      Some(f)
    else None
  }

  /** What the manager of outgoing requests makes of it. */
  method IncomingResponse(frame: Buffer) returns (r: Option<ResponseFrame>)
    ensures forall f :: r == Some(f) <==> frame == Memory(EncodeResponse(f))
    ensures frame.Memory? ==> r == ResponseOf(frame.bytes)
  {
    ResponseHeads();
    hide EncodeResponse;
    var eventType := ParseEventType(frame);
    if eventType != Some(RESPONSE) {
      return None;
    }
    r := ParseResponseFrame(frame);
  }

  /** The payload is added behind the header by its own serializer. */
  method ConstructRequestHeader(requestId: SizeT, opCode: OpCode) returns (res: seq<Bytes>)
    ensures forall payload :: Flatten(res) + payload == EncodeRequest(RequestFrame(requestId, opCode, payload))
  {
    hide EncodeSize;
    res := [];
    res := res + [[EventByte(REQUEST)]];
    res := res + [EncodeSize(requestId)];
    res := res + [[OpByte(opCode)]];
    FlattenThree([EventByte(REQUEST)], EncodeSize(requestId), [OpByte(opCode)]);
  }

  method ConstructResponseHeader(responseId: SizeT) returns (res: seq<Bytes>)
    ensures forall payload :: Flatten(res) + payload == EncodeResponse(ResponseFrame(responseId, payload))
  {
    hide EncodeSize;
    res := [];
    res := res + [[EventByte(RESPONSE)]];
    res := res + [EncodeSize(responseId)];
    FlattenTwo([EventByte(RESPONSE)], EncodeSize(responseId));
  }

  lemma FlattenTwo(a: Bytes, b: Bytes)
    ensures Flatten([a] + [b]) == a + b
  {
    FlattenAppend([a], [b]);
    FlattenOne(a);
    FlattenOne(b);
  }

  lemma FlattenThree(a: Bytes, b: Bytes, c: Bytes)
    ensures Flatten([a] + [b] + [c]) == a + b + c
  {
    FlattenAppend([a] + [b], [c]);
    FlattenTwo(a, b);
    FlattenOne(c);
  }
}
