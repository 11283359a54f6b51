/**
 The reading side of the socket wrapper: an 8-byte length, then that many bytes, for ever.
 The bytes arrive in whatever segments the network makes of them.
 */
module FrameReader {
  import opened Bytes
  import opened Serialization

  datatype Phase = ReadingSize(got: Bytes) | ReadingFrame(size: SizeT, got: Bytes)

  /** `frames` are those handed to the listeners so far. */
  datatype Reader = Reader(frames: seq<Text>, phase: Phase)

  const START := Reader([], ReadingSize([]))

  predicate WellFormed(r: Reader) {
    match r.phase
    case ReadingSize(got) => |got| < SIZE_BYTES
    case ReadingFrame(size, got) => |got| < size
  }

  /** What the pending `async_read` still waits for. */
  function Missing(r: Reader): nat
    requires WellFormed(r)
  {
    match r.phase
    case ReadingSize(got) => SIZE_BYTES - |got|
    case ReadingFrame(size, got) => size - |got|
  }

  /** A frame of no bytes is complete at once. */
  function AfterSize(frames: seq<Text>, size: SizeT): (r: Reader)
    ensures WellFormed(r)
  {
    if size == 0 then Reader(frames + [[]], ReadingSize([])) else Reader(frames, ReadingFrame(size, []))
  }

  function Feed(r: Reader, b: Byte): (u: Reader)
    requires WellFormed(r)
    ensures WellFormed(u)
  {
    match r.phase
    case ReadingSize(got) =>
      var got := got + [b];
      if |got| < SIZE_BYTES then r.(phase := ReadingSize(got)) else AfterSize(r.frames, DecodeSize(got))
    case ReadingFrame(size, got) =>
      var got := got + [b];
      if |got| < size then r.(phase := ReadingFrame(size, got)) else Reader(r.frames + [got], ReadingSize([]))
  }

  function FeedAll(r: Reader, bs: Bytes): (u: Reader)
    requires WellFormed(r)
    ensures WellFormed(u)
    decreases |bs|
  {
    if bs == [] then r else FeedAll(Feed(r, bs[0]), bs[1..])
  }

  lemma {:induction false} FeedAppend(r: Reader, a: Bytes, b: Bytes)
    requires WellFormed(r)
    ensures FeedAll(r, a + b) == FeedAll(FeedAll(r, a), b)
    decreases |a|
  {
    hide Feed;
    if a == [] {
      assert a + b == b;
    } else {
      assert (a + b)[1..] == a[1..] + b;
      FeedAppend(Feed(r, a[0]), a[1..], b);
    }
  }

  function FeedSegments(r: Reader, segments: seq<Bytes>): (u: Reader)
    requires WellFormed(r)
    ensures WellFormed(u)
    decreases |segments|
  {
    if segments == [] then r else FeedSegments(FeedAll(r, segments[0]), segments[1..])
  }

  /** Where the stream is cut makes no difference. */
  lemma {:induction false} SegmentationIsInvisible(r: Reader, a: seq<Bytes>, b: seq<Bytes>)
    requires WellFormed(r) && Flatten(a) == Flatten(b)
    ensures FeedSegments(r, a) == FeedSegments(r, b)
  {
    SegmentsAreOne(r, a);
    SegmentsAreOne(r, b);
  }

  lemma {:induction false} SegmentsAreOne(r: Reader, segments: seq<Bytes>)
    requires WellFormed(r)
    ensures FeedSegments(r, segments) == FeedAll(r, Flatten(segments))
    decreases |segments|
  {
    hide Feed;
    if segments != [] {
      FeedAppend(r, segments[0], Flatten(segments[1..]));
      SegmentsAreOne(FeedAll(r, segments[0]), segments[1..]);
    }
  }

  // ---- no byte is lost, added or moved ----

  /** The bytes of the frame being read. */
  function Partial(phase: Phase): Bytes {
    match phase
    case ReadingSize(got) => got
    case ReadingFrame(size, got) => EncodeSize(size) + got
  }

  /** The bytes that lead to this state. */
  function Consumed(r: Reader): Bytes {
    Sized(r.frames) + Partial(r.phase)
  }

  lemma {:induction false} FeedConsumes(r: Reader, b: Byte)
    requires WellFormed(r)
    ensures Consumed(Feed(r, b)) == Consumed(r) + [b]
  {
    hide EncodeSize, DecodeSize, Sized;
    match r.phase {
      case ReadingSize(got) =>
        if |got| + 1 == SIZE_BYTES {
          SizeRoundTrip(DecodeSize(got + [b]), got + [b]);
          SizedAppend(r.frames, [[]]);
          SizedOne([]);
        }
        assert Sized(r.frames) + (got + [b]) == Sized(r.frames) + got + [b];
      case ReadingFrame(size, got) =>
        if |got| + 1 == size {
          SizedAppend(r.frames, [got + [b]]);
          SizedOne(got + [b]);
        }
        assert Sized(r.frames) + (EncodeSize(size) + (got + [b])) == Sized(r.frames) + (EncodeSize(size) + got) + [b];
    }
  }

  lemma {:induction false} FeedAllConsumes(r: Reader, bs: Bytes)
    requires WellFormed(r)
    ensures Consumed(FeedAll(r, bs)) == Consumed(r) + bs
    decreases |bs|
  {
    hide Consumed, Feed;
    if bs == [] {
      assert Consumed(r) + [] == Consumed(r);
    } else {
      FeedConsumes(r, bs[0]);
      FeedAllConsumes(Feed(r, bs[0]), bs[1..]);
      assert Consumed(r) + [bs[0]] + bs[1..] == Consumed(r) + bs;
    }
  }

  // ---- what is recognised is what was sent ----

  /** A stream that starts with some sized strings was built from a list that does. */
  lemma {:induction false} SizedPrefix(a: seq<Text>, more: Bytes, fs: seq<Text>, tail: Bytes)
    requires Sized(a) + more + tail == Sized(fs)
    ensures a <= fs && more + tail == Sized(fs[|a|..])
    decreases |a|
  {
    hide EncodeSize, DecodeSize;
    if a == [] {
      assert Sized(a) + more + tail == more + tail;
      assert fs[0..] == fs;
    } else {
      assert Sized(a) == EncodeSize(|a[0]|) + a[0] + Sized(a[1..]);
      assert fs != [];
      hide Sized;
      assert Sized(a) + more + tail == EncodeSize(|a[0]|) + a[0] + (Sized(a[1..]) + more + tail);
      HeadIsShared(a[0], Sized(a[1..]) + more + tail, fs);
      SizedPrefix(a[1..], more, fs[1..], tail);
      assert fs[1..][|a[1..]|..] == fs[|a|..];
      assert a == [a[0]] + a[1..] && fs == [fs[0]] + fs[1..];
    }
  }

  lemma {:induction false} HeadIsShared(m: Text, rest: Bytes, fs: seq<Text>)
    requires fs != [] && EncodeSize(|m|) + m + rest == Sized(fs)
    ensures fs[0] == m && Sized(fs[1..]) == rest
  {
    hide EncodeSize, DecodeSize;
    var h := fs[0];
    assert EncodeSize(|m|) + (m + rest) == Sized(fs);
    Cut(EncodeSize(|m|), m + rest);
    assert EncodeSize(|h|) + (h + Sized(fs[1..])) == Sized(fs);
    Cut(EncodeSize(|h|), h + Sized(fs[1..]));
    SizeRoundTrip(|m|, EncodeSize(|h|));
    SizeRoundTrip(|h|, EncodeSize(|h|));
    Cut(m, rest);
    Cut(h, Sized(fs[1..]));
  }

  /**
   Whatever prefix of the stream of `fs` has arrived, the reader has handed out exactly the
   frames that are wholly inside it: unchanged, in order, nothing else and none missing.
   */
  lemma {:induction false} StreamIsExact(fs: seq<Text>, bs: Bytes)
    requires bs <= Sized(fs)
    ensures FeedAll(START, bs).frames <= fs
    ensures forall k :: 0 <= k <= |fs| ==> (k <= |FeedAll(START, bs).frames| <==> |Sized(fs[..k])| <= |bs|)
  {
    hide EncodeSize, DecodeSize;
    var r := FeedAll(START, bs);
    FeedAllConsumes(START, bs);
    assert Consumed(START) + bs == bs by {
      assert Consumed(START) == [];
    }
    var a, more, tail := r.frames, bs[|Sized(r.frames)|..], Sized(fs)[|bs|..];
    assert bs == Sized(a) + more;
    SizedPrefix(a, more, fs, tail);
    assert a == fs[..|a|];
    forall k | 0 <= k <= |fs| ensures k <= |a| <==> |Sized(fs[..k])| <= |bs| {
      SizedIsMonotone(fs, k, |a|);
      if k > |a| {
        SizedIsMonotone(fs, |a| + 1, k);
        NextIsIncomplete(r, more, tail, fs);
      }
    }
  }

  lemma {:induction false} SizedIsMonotone(fs: seq<Text>, i: nat, j: nat)
    requires i <= |fs| && j <= |fs|
    ensures i <= j ==> |Sized(fs[..i])| <= |Sized(fs[..j])|
  {
    if i <= j {
      SizedAppend(fs[..i], fs[i..j]);
      assert fs[..i] + fs[i..j] == fs[..j];
    }
  }

  /** The frame being read does not fit in what has arrived. */
  lemma {:induction false} NextIsIncomplete(r: Reader, more: Bytes, tail: Bytes, fs: seq<Text>)
    requires WellFormed(r) && Consumed(r) == Sized(r.frames) + more
    requires r.frames < fs && more + tail == Sized(fs[|r.frames|..])
    ensures |Sized(r.frames)| + |more| < |Sized(fs[..|r.frames| + 1])|
  {
    hide EncodeSize, DecodeSize;
    var a, next := r.frames, fs[|r.frames|];
    SizedAppend(a, [next]);
    SizedOne(next);
    assert fs[..|a| + 1] == a + [next];
    assert more == Partial(r.phase) by {
      Cut(Sized(a), more);
      Cut(Sized(a), Partial(r.phase));
    }
    if r.phase.ReadingFrame? {
      var rest := fs[|a|..];
      assert rest[0] == next;
      assert EncodeSize(r.phase.size) + (r.phase.got + tail) == more + tail
          == EncodeSize(|next|) + (next + Sized(rest[1..]));
      Cut(EncodeSize(r.phase.size), r.phase.got + tail);
      Cut(EncodeSize(|next|), next + Sized(rest[1..]));
      SizeRoundTrip(r.phase.size, EncodeSize(|next|));
      SizeRoundTrip(|next|, EncodeSize(|next|));
    }
  }

  // ---- the code ----

  /** The read buffer: its memory is replaced, never grown in place. */
  class Buffer {
    var size: nat
    var memory: array?<Byte>

    ghost predicate Valid()
      reads this
    {
      if memory == null then size == 0 else memory.Length == size
    }

    constructor ()
      ensures Valid() && size == 0 && memory == null
    {
      size, memory := 0, null;
    }

    /** `allocates` is whether the allocator can serve the request. */
    method Resize(bytes: SizeT, allocates: bool) returns (ok: bool)
      requires Valid()
      modifies this
      ensures Valid() && (memory != old(memory) ==> memory == null || fresh(memory))
      ensures ok <==> bytes == old(size) || allocates
      ensures if ok then size == bytes else size == 0 && memory == null
    {
      if bytes == size {
        return true;
      }
      memory, size := null, 0;
      if !allocates {
        return false;
      }
      memory := new Byte[bytes](_ => 0);
      size := bytes;
      return true;
    }
  }

  const INCOMING_BUFFER_MAX_REUSE_SIZE := 128

  /**
   The wrapper's reading half.  `incomingFrameSize` is the memory of the `size_t` the length
   is read into, `got` the bytes of the current read that arrived, `frames` what the
   `incomingFrame` signal carried.
   */
  class SocketReader {
    const incomingFrameSize: array<Byte>
    const incomingFrameBuffer: Buffer
    var readingFrame: bool
    var got: nat
    var invalidated: bool
    ghost var frames: seq<Text>

    ghost function Repr(): set<object>
      reads this, incomingFrameBuffer
    {
      {this, incomingFrameSize, incomingFrameBuffer} +
      if incomingFrameBuffer.memory == null then {} else {incomingFrameBuffer.memory}
    }

    ghost predicate Shaped()
      reads this, incomingFrameBuffer
    {
      && incomingFrameSize.Length == SIZE_BYTES
      && incomingFrameBuffer.Valid()
      && incomingFrameBuffer.memory != incomingFrameSize
    }

    /** The read in progress always has room for the rest of its frame. */
    ghost predicate Valid()
      reads this, incomingFrameSize, incomingFrameBuffer
    {
      && Shaped()
      && (!invalidated && !readingFrame ==> got < SIZE_BYTES)
      && (!invalidated && readingFrame ==>
            got < DecodeSize(incomingFrameSize[..]) <= incomingFrameBuffer.size)
    }

    ghost function Abs(): (r: Reader)
      requires Valid() && !invalidated
      reads this, incomingFrameSize, incomingFrameBuffer, incomingFrameBuffer.memory
      ensures WellFormed(r)
    {
      Reader(frames,
        if readingFrame then ReadingFrame(DecodeSize(incomingFrameSize[..]), incomingFrameBuffer.memory[..got])
        else ReadingSize(incomingFrameSize[..got]))
    }

    constructor ()
      ensures Valid() && !invalidated && Abs() == START && fresh(Repr())
    {
      incomingFrameSize := new Byte[SIZE_BYTES](_ => 0);
      incomingFrameBuffer := new Buffer();
      readingFrame, got, invalidated, frames := false, 0, false, [];
    }

    /** The length has arrived: makes room and starts reading the frame, or gives up. */
    method ReadFrame(allocates: bool)
      requires Shaped() && !invalidated
      modifies this, incomingFrameBuffer
      ensures Valid() && fresh(Repr() - old(Repr()))
      ensures !invalidated ==> Abs() == AfterSize(old(frames), old(DecodeSize(incomingFrameSize[..])))
      ensures invalidated ==> frames == old(frames)
      ensures var size, had := old(DecodeSize(incomingFrameSize[..])), old(incomingFrameBuffer.size);
        && (invalidated <==>
              !allocates && size > 0 && size != had && (size > had || had > INCOMING_BUFFER_MAX_REUSE_SIZE))
        && (allocates ==> (size == incomingFrameBuffer.size ||
                           size < incomingFrameBuffer.size == had <= INCOMING_BUFFER_MAX_REUSE_SIZE))
    {
      var size := ReadSize();
      if size > incomingFrameBuffer.size || incomingFrameBuffer.size > INCOMING_BUFFER_MAX_REUSE_SIZE {
        var ok := incomingFrameBuffer.Resize(size, allocates);
      }
      if incomingFrameBuffer.size < size {
        invalidated := true;
        return;
      }
      if size == 0 {
        frames := frames + [[]];
        readingFrame, got := false, 0;
      } else {
        readingFrame, got := true, 0;
      }
    }

    method ReadSize() returns (size: SizeT)
      requires incomingFrameSize.Length == SIZE_BYTES
      ensures size == DecodeSize(incomingFrameSize[..])
    {
      size := DecodeSize(incomingFrameSize[..]);
    }

    /** Bytes of the frame being read. */
    method TransferFrame(chunk: Bytes)
      requires Valid() && !invalidated && readingFrame && |chunk| <= Missing(Abs())
      modifies this, incomingFrameBuffer.memory
      ensures Valid() && !invalidated && Abs() == FeedAll(old(Abs()), chunk)
    {
      FeedChunk(Abs(), chunk);
      ghost var before := incomingFrameBuffer.memory[..got];
      var memory := incomingFrameBuffer.memory;
      forall i | 0 <= i < |chunk| {
        memory[got + i] := chunk[i];
      }
      got := got + |chunk|;
      assert memory[..got] == before + chunk;
      assert incomingFrameSize[..] == old(incomingFrameSize[..]);
      hide DecodeSize, FeedAll;
      var size := ReadSize();
      if got == size {
        frames := frames + [memory[..got]];
        readingFrame, got := false, 0;
        assert incomingFrameSize[..0] == [];
      }
    }

    /** Some of the missing bytes arrive. */
    method Transfer(chunk: Bytes, allocates: bool)
      requires Valid() && !invalidated && |chunk| <= Missing(Abs())
      modifies Repr()
      ensures Valid() && fresh(Repr() - old(Repr()))
      ensures allocates ==> !invalidated
      ensures !invalidated ==> Abs() == FeedAll(old(Abs()), chunk)
      ensures invalidated ==> frames == old(frames)
    {
      if readingFrame {
        TransferFrame(chunk);
      } else {
        FeedChunk(Abs(), chunk);
        ghost var before := incomingFrameSize[..got];
        hide DecodeSize, FeedAll;
        TransferSize(chunk);
        if got == SIZE_BYTES {
          assert incomingFrameSize[..] == before + chunk;
          ReadFrame(allocates);
        }
      }
    }

    /** Bytes of a length fill its memory in place. */
    method TransferSize(chunk: Bytes)
      requires incomingFrameSize.Length == SIZE_BYTES && got + |chunk| <= SIZE_BYTES
      modifies incomingFrameSize, this`got
      ensures got == old(got) + |chunk|
      ensures incomingFrameSize[..got] == old(incomingFrameSize[..got]) + chunk
    {
      ghost var before := incomingFrameSize[..got];
      forall i | 0 <= i < |chunk| {
        incomingFrameSize[got + i] := chunk[i];
      }
      got := got + |chunk|;
      assert incomingFrameSize[..got] == before + chunk;
    }

    /** The read fails, or the wrapper is invalidated: nothing is read any more. */
    method Invalidate()
      requires Valid()
      modifies this`invalidated
      ensures Valid() && invalidated
    {
      invalidated := true;
    }
  }

  /** A chunk that fits fills the current read, and finishes it when nothing is missing. */
  lemma {:induction false} FeedChunk(r: Reader, bs: Bytes)
    requires WellFormed(r) && |bs| <= Missing(r)
    ensures FeedAll(r, bs) ==
            match r.phase
            case ReadingSize(got) =>
              if |bs| < Missing(r) then r.(phase := ReadingSize(got + bs))
              else AfterSize(r.frames, DecodeSize(got + bs))
            case ReadingFrame(size, got) =>
              if |bs| < Missing(r) then r.(phase := ReadingFrame(size, got + bs))
              else Reader(r.frames + [got + bs], ReadingSize([]))
    decreases |bs|
  {
    hide DecodeSize, AfterSize;
    var got := r.phase.got;
    if bs == [] {
      assert got + bs == got;
    } else {
      assert got + bs == got + [bs[0]] + bs[1..];
      if |bs| > 1 {
        FeedChunk(Feed(r, bs[0]), bs[1..]);
      } else {
        assert bs == [bs[0]] && FeedAll(r, bs) == Feed(r, bs[0]);
      }
    }
  }
}
