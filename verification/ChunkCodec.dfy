/** The answer to `getMessages` on the wire: a counted list of sized strings. */
module ChunkCodec {
  import opened Wrappers
  import opened Bytes
  import opened Serialization

  /** A list short enough for its length to be written. */
  type Texts = ms: seq<Text> | |ms| < SIZE_LIMIT

  function EncodeChunk(ms: Texts): Bytes {
    EncodeSize(|ms|) + Sized(ms)
  }

  /** What was read so far, put before what the rest decodes to. */
  function With(ms: seq<Text>, r: Option<seq<Text>>): Option<seq<Text>> {
    if r.None? then None else Some(ms + r.value)
  }

  lemma WithNothing(r: Option<seq<Text>>)
    ensures With([], r) == r
  {
    if r.Some? {
      assert [] + r.value == r.value;
    }
  }

  lemma WithOneMore(ms: seq<Text>, m: Text, r: Option<seq<Text>>)
    ensures With(ms, With([m], r)) == With(ms + [m], r)
  {
    if r.Some? {
      assert ms + ([m] + r.value) == ms + [m] + r.value;
    }
  }

  /** Exactly `n` sized strings and nothing after them. */
  function DecodeTexts(n: nat, bs: Bytes): (r: Option<seq<Text>>)
    ensures r.Some? ==> |r.value| == n
    decreases n
  {
    if n == 0 then if bs == [] then Some([]) else None
    else if |bs| < SIZE_BYTES then None
    else
      var size := DecodeSize(bs[..SIZE_BYTES]);
      var rest := bs[SIZE_BYTES..];
      if |rest| < size then None
      else
        With([rest[..size]], DecodeTexts(n - 1, rest[size..]))
  }

  function DecodeChunk(bs: Bytes): Option<Texts> {
    if |bs| < SIZE_BYTES then None else DecodeTexts(DecodeSize(bs[..SIZE_BYTES]), bs[SIZE_BYTES..])
  }

  /** The first string of an encoding, read back. */
  lemma {:induction false} DecodeOne(n: nat, m: Text, rest: Bytes)
    ensures DecodeTexts(n + 1, EncodeSize(|m|) + m + rest) ==
            With([m], DecodeTexts(n, rest))
  {
    hide EncodeSize, DecodeSize;
    SizeRoundTrip(|m|, EncodeSize(|m|));
    Cut(EncodeSize(|m|), m + rest);
    Cut(m, rest);
    assert EncodeSize(|m|) + m + rest == EncodeSize(|m|) + (m + rest);
  }

  /** Whatever decodes starts with an encoded string. */
  lemma {:induction false} DecodedOne(n: nat, bs: Bytes) returns (m: Text, rest: Bytes)
    requires DecodeTexts(n + 1, bs).Some?
    ensures bs == EncodeSize(|m|) + m + rest
  {
    hide EncodeSize, DecodeSize;
    var head := bs[..SIZE_BYTES];
    SizeRoundTrip(DecodeSize(head), head);
    m, rest := bs[SIZE_BYTES..][..DecodeSize(head)], bs[SIZE_BYTES..][DecodeSize(head)..];
    assert bs == head + bs[SIZE_BYTES..] && bs[SIZE_BYTES..] == m + rest;
  }

  lemma {:induction false} TextsRoundTrip(n: nat, bs: Bytes, ms: seq<Text>)
    ensures DecodeTexts(n, bs) == Some(ms) <==> |ms| == n && bs == Sized(ms)
    decreases n
  {
    hide EncodeSize, DecodeSize;
    if n > 0 {
      if |ms| == n && bs == Sized(ms) {
        DecodeOne(n - 1, ms[0], Sized(ms[1..]));
        TextsRoundTrip(n - 1, Sized(ms[1..]), ms[1..]);
        assert [ms[0]] + ms[1..] == ms;
      } else if DecodeTexts(n, bs) == Some(ms) {
        var m, rest := DecodedOne(n - 1, bs);
        DecodeOne(n - 1, m, rest);
        TextsRoundTrip(n - 1, rest, ms[1..]);
      }
    }
  }

  /** Decoding succeeds with `ms` exactly on the encoding of `ms`. */
  lemma {:induction false} ChunkRoundTrip(bs: Bytes, ms: Texts)
    ensures DecodeChunk(bs) == Some(ms) <==> bs == EncodeChunk(ms)
  {
    hide EncodeSize, DecodeSize, DecodeTexts, Sized;
    if |bs| >= SIZE_BYTES {
      var head, rest := bs[..SIZE_BYTES], bs[SIZE_BYTES..];
      assert bs == head + rest;
      SizeRoundTrip(|ms|, head);
      TextsRoundTrip(DecodeSize(head), rest, ms);
      if bs == EncodeChunk(ms) {
        Cut(EncodeSize(|ms|), Sized(ms));
      }
    }
  }

  // ---- the code ----

  /** The sizes of the strings, as `calcSizes` collects them. */
  method CalcSizes(views: seq<Text>) returns (sizes: seq<SizeT>)
    ensures |sizes| == |views| && forall k :: 0 <= k < |views| ==> sizes[k] == |views[k]|
  {
    sizes := [];
    for i := 0 to |views|
      invariant |sizes| == i && forall k :: 0 <= k < i ==> sizes[k] == |views[k]|
    {
      sizes := sizes + [|views[i]|];
    }
  }

  /** One turn of the serializer's loop. */
  method WriteText(size: SizeT, view: Text, out: BufferSequence)
    requires size == |view|
    modifies out
    ensures Flatten(out.pieces) == Flatten(old(out.pieces)) + Sized([view])
  {
    hide EncodeSize, Flatten, Sized;
    SizedOne(view);
    out.SerializeSize(size);
    out.SerializeMemory(Memory(view));
  }

  /** Appends the count and, string by string, size and contents to a frame. */
  method SerializePayload(views: Texts, out: BufferSequence)
    modifies out
    ensures Flatten(out.pieces) == Flatten(old(out.pieces)) + EncodeChunk(views)
  {
    hide EncodeSize, Flatten;
    var sizes := CalcSizes(views);
    out.SerializeSize(|views|);
    ghost var header := Flatten(out.pieces);
    assert Sized(views[..0]) == [];
    hide Sized;
    for i := 0 to |views|
      invariant Flatten(out.pieces) == header + Sized(views[..i])
    {
      WriteText(sizes[i], views[i], out);
      SizedAppend(views[..i], [views[i]]);
      assert views[..i + 1] == views[..i] + [views[i]];
    }
    assert views[..|views|] == views;
  }

  /** Without room for a size nothing decodes. */
  lemma NoSize(n: nat, all: Bytes)
    requires |all| < SIZE_BYTES
    ensures DecodeTexts(n + 1, all) == None
  {
  }

  /** Nor with fewer bytes than the size says. */
  lemma {:induction false} NoString(n: nat, all: Bytes, size: SizeT, rest: Bytes)
    requires all == EncodeSize(size) + rest && |rest| < size
    ensures DecodeTexts(n + 1, all) == None
  {
    hide EncodeSize, DecodeSize;
    SizeRoundTrip(size, EncodeSize(size));
    Cut(EncodeSize(size), rest);
  }

  lemma {:induction false} OneString(n: nat, all: Bytes, size: SizeT, after: Bytes, m: Text, rest: Bytes)
    requires all == EncodeSize(size) + after && after == m + rest && |m| == size
    ensures DecodeTexts(n + 1, all) == With([m], DecodeTexts(n, rest))
  {
    hide EncodeSize, DecodeSize, DecodeTexts;
    assert EncodeSize(size) + (m + rest) == EncodeSize(size) + m + rest;
    DecodeOne(n, m, rest);
  }

  /** One turn of the decoder's loop: a size, then that many bytes. */
  method ReadText(deserializer: BufferDeserializer, ghost n: nat) returns (r: Option<Text>)
    requires deserializer.Valid() && deserializer.buffer.Memory?
    modifies deserializer`current
    ensures deserializer.Valid()
    ensures DecodeTexts(n + 1, old(deserializer.Rest())) ==
            if r.None? then None else With([r.value], DecodeTexts(n, deserializer.Rest()))
  {
    hide EncodeSize, DecodeSize, DecodeTexts, With;
    ghost var all := deserializer.Rest();
    var size := deserializer.DeserializeSize();
    if size.None? {
      NoSize(n, all);
      return None;
    }
    ghost var after := deserializer.Rest();
    r := deserializer.DeserializeString(size.value);
    if r.None? {
      NoString(n, all, size.value, after);
    } else {
      OneString(n, all, size.value, after, r.value, deserializer.Rest());
    }
  }

  /** The count in front of the strings. */
  method ReadCount(deserializer: BufferDeserializer) returns (number: Option<SizeT>)
    requires deserializer.Valid()
    modifies deserializer`current
    ensures deserializer.Valid()
    ensures number.None? ==> deserializer.buffer.Null? || DecodeChunk(old(deserializer.Rest())).None?
    ensures number.Some? ==> deserializer.buffer.Memory?
    ensures number.Some? ==>
      DecodeChunk(old(deserializer.Rest())) == DecodeTexts(number.value, deserializer.Rest())
  {
    hide EncodeSize, DecodeSize, DecodeTexts;
    number := deserializer.DeserializeSize();
    if number.Some? {
      Cut(EncodeSize(number.value), deserializer.Rest());
      SizeRoundTrip(number.value, EncodeSize(number.value));
    }
  }

  /** Reads a payload string by string. */
  method FromPayload(buffer: Buffer) returns (r: Option<Texts>)
    ensures r == if buffer.Null? then None else DecodeChunk(buffer.bytes)
  {
    hide EncodeSize, DecodeSize, DecodeTexts, DecodeChunk;
    var deserializer := new BufferDeserializer(buffer);
    var number := ReadCount(deserializer);
    if number.None? {
      return None;
    }
    var n := number.value;
    var messages: seq<Text> := [];
    ghost var body := deserializer.Rest();
    WithNothing(DecodeTexts(n, body));
    for i := 0 to n
      invariant deserializer.Valid() && deserializer.buffer.Memory? && |messages| == i
      invariant DecodeTexts(n, body) == With(messages, DecodeTexts(n - i, deserializer.Rest()))
    {
      var message := ReadText(deserializer, n - i - 1);
      if message.None? {
        return None;
      }
      WithOneMore(messages, message.value, DecodeTexts(n - i - 1, deserializer.Rest()));
      messages := messages + [message.value];
    }
    var end := deserializer.AtEnd();
    DecodeNone(deserializer.Rest());
    if !end {
      return None;
    }
    assert messages + [] == messages;
    r := Some(messages);
  }

  lemma DecodeNone(bs: Bytes)
    ensures DecodeTexts(0, bs) == if bs == [] then Some([]) else None
  {
  }
}
