/** The cursor that reads a frame and the list of buffers that becomes one. */
module Serialization {
  import opened Wrappers
  import opened Bytes

  /** A `const_buffer`: null memory is not the same as no bytes. */
  datatype Buffer = Null | Memory(bytes: Bytes)

  /** A string a 64-bit length can describe. */
  type Text = b: Bytes | |b| < SIZE_LIMIT

  /** Strings one after another, each behind its length. */
  function Sized(ms: seq<Text>): Bytes
    decreases |ms|
  {
    if ms == [] then [] else EncodeSize(|ms[0]|) + ms[0] + Sized(ms[1..])
  }

  lemma {:induction false} SizedAppend(a: seq<Text>, b: seq<Text>)
    ensures Sized(a + b) == Sized(a) + Sized(b)
    decreases |a|
  {
    hide EncodeSize;
    if a == [] {
      assert a + b == b;
    } else {
      SizedAppend(a[1..], b);
      assert (a + b)[1..] == a[1..] + b;
    }
  }

  lemma SizedOne(m: Text)
    ensures Sized([m]) == EncodeSize(|m|) + m
  {
    hide EncodeSize;
    assert [m][1..] == [] && Sized([]) == [];
  }

  /** String `k` lies behind its length, right behind the strings before it. */
  lemma {:induction false} SizedLayout(ms: seq<Text>, k: nat)
    requires k < |ms|
    ensures |Sized(ms[..0])| == 0
    ensures var from := |Sized(ms[..k])| + SIZE_BYTES;
      && from + |ms[k]| == |Sized(ms[..k + 1])| <= |Sized(ms)|
      && Sized(ms)[from - SIZE_BYTES..from] == EncodeSize(|ms[k]|)
      && Sized(ms)[from..from + |ms[k]|] == ms[k]
  {
    hide EncodeSize;
    var before, after := Sized(ms[..k]), Sized(ms[k + 1..]);
    assert ms == ms[..k] + [ms[k]] + ms[k + 1..] && ms[..k + 1] == ms[..k] + [ms[k]];
    SizedAppend(ms[..k], [ms[k]]);
    SizedAppend(ms[..k + 1], ms[k + 1..]);
    SizedOne(ms[k]);
    assert Sized(ms) == before + EncodeSize(|ms[k]|) + ms[k] + after;
  }

  class BufferDeserializer {
    const buffer: Buffer
    var current: nat

    ghost predicate Valid()
      reads this
    {
      if buffer.Null? then current == 0 else current <= |buffer.bytes|
    }

    /** What has not been read. */
    ghost function Rest(): Bytes
      requires Valid()
      reads this
    {
      if buffer.Null? then [] else buffer.bytes[current..]
    }

    constructor (buffer: Buffer)
      ensures Valid() && this.buffer == buffer
      ensures Rest() == if buffer.Null? then [] else buffer.bytes
    {
      this.buffer, current := buffer, 0;
    }

    method AtEnd() returns (r: bool)
      requires Valid()
      ensures r <==> Rest() == []
    {
      r := buffer.Null? || current == |buffer.bytes|;
    }

    method Leftover() returns (b: Buffer)
      requires Valid()
      ensures b == if buffer.Null? then Null else Memory(Rest())
    {
      b := if buffer.Null? then Null else Memory(buffer.bytes[current..]);
    }

    /** Either takes `n` bytes off the front or leaves the cursor alone. */
    method GetMemoryAndAdvance(n: nat) returns (m: Buffer)
      requires Valid()
      modifies this`current
      ensures Valid()
      ensures m.Memory? <==> buffer.Memory? && n <= |old(Rest())|
      ensures m.Memory? ==> |m.bytes| == n && old(Rest()) == m.bytes + Rest()
      ensures m.Null? ==> current == old(current)
    {
      if buffer.Null? {
        return Null;
      }
      var leftover := |buffer.bytes| - current;
      if leftover < n {
        return Null;
      }
      m := Memory(buffer.bytes[current..current + n]);
      current := current + n;
      assert old(Rest()) == m.bytes + Rest();
    }

    method DeserializeByte() returns (r: Option<Byte>)
      requires Valid()
      modifies this`current
      ensures Valid()
      ensures r.Some? <==> old(Rest()) != []
      ensures r.Some? ==> r.value == old(Rest())[0] && Rest() == old(Rest())[1..]
      ensures r.None? ==> current == old(current)
    {
      var m := GetMemoryAndAdvance(1);
      if m.Null? {
        return None;
      }
      Cut(m.bytes, Rest());
      r := Some(m.bytes[0]);
    }

    method DeserializeSize() returns (r: Option<SizeT>)
      requires Valid()
      modifies this`current
      ensures Valid()
      ensures r.Some? <==> buffer.Memory? && SIZE_BYTES <= |old(Rest())|
      ensures r.Some? ==> old(Rest()) == EncodeSize(r.value) + Rest()
      ensures r.None? ==> current == old(current)
    {
      var m := GetMemoryAndAdvance(SIZE_BYTES);
      if m.Null? {
        return None;
      }
      SizeRoundTrip(DecodeSize(m.bytes), m.bytes);
      r := Some(DecodeSize(m.bytes));
    }

    /** All that is left, which may be no bytes at all. */
    method DeserializeRest() returns (r: Option<Bytes>)
      requires Valid()
      modifies this`current
      ensures Valid()
      ensures r == if buffer.Null? then None else Some(old(Rest()))
      ensures Rest() == []
    {
      if buffer.Null? {
        return None;
      }
      var m := GetMemoryAndAdvance(|buffer.bytes| - current);
      assert Rest() == [] && m.bytes + [] == m.bytes;
      r := Some(m.bytes);
    }

    method DeserializeString(size: SizeT) returns (r: Option<Text>)
      requires Valid()
      modifies this`current
      ensures Valid()
      ensures r.Some? <==> buffer.Memory? && size <= |old(Rest())|
      ensures r.Some? ==> |r.value| == size && old(Rest()) == r.value + Rest()
      ensures r.None? ==> current == old(current)
    {
      var m := GetMemoryAndAdvance(size);
      r := if m.Null? then None else Some(m.bytes);
    }
  }

  /** A vector of buffers together with the serializer that appends to it. */
  class BufferSequence {
    var pieces: seq<Bytes>

    constructor (pieces: seq<Bytes>)
      ensures this.pieces == pieces
    {
      this.pieces := pieces;
    }

    /** A null piece is skipped. */
    method SerializeMemory(memory: Buffer)
      modifies this
      ensures Flatten(pieces) == Flatten(old(pieces)) + if memory.Null? then [] else memory.bytes
    {
      if memory.Null? {
        return;
      }
      pieces := pieces + [memory.bytes];
      FlattenAppend(old(pieces), [memory.bytes]);
      FlattenOne(memory.bytes);
    }

    method SerializeSize(n: SizeT)
      modifies this
      ensures Flatten(pieces) == Flatten(old(pieces)) + EncodeSize(n)
    {
      SerializeMemory(Memory(EncodeSize(n)));
    }
  }
}
